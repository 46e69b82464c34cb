/**
 * The client's error classification: the friendly message shown for a
 * failed request, the error type with its precedence, which errors are
 * worth retrying, and the summary of a batch of settled promises.
 */
module ErrorHandler {
  import opened Common
  import opened Text

  /**
   * What the handlers read of a thrown error: `error.message`,
   * `error.response?.status` (`None` when there is no response) and
   * `error.code`. A missing error (`null`, `undefined`) is `None` at the call.
   */
  datatype ClientError = ClientError(message: Option<string>, status: Option<nat>, code: Option<string>)

  /** `ERROR_TYPES`. */
  datatype ErrorType = NetworkKind | AuthKind | ValidationKind | ServerKind | UnknownKind {
    function Value(): string {
      match this
      case NetworkKind => "network"
      case AuthKind => "auth"
      case ValidationKind => "validation"
      case ServerKind => "server"
      case UnknownKind => "unknown"
    }
  }

  /** `ERROR_MESSAGES`, keyed by the status's decimal text or by the two network keys. */
  const ErrorMessages: map<string, string> := map[
    "Network Error" := "网络连接失败，请检查您的网络设置",
    "timeout" := "请求超时，请稍后重试",
    "401" := "您的登录已过期，请重新登录",
    "403" := "您没有权限执行此操作",
    "400" := "请求参数有误，请检查后重试",
    "404" := "请求的资源不存在",
    "422" := "数据验证失败，请检查输入",
    "500" := "服务器出错了，请稍后重试",
    "502" := "网关错误，请稍后重试",
    "503" := "服务暂时不可用，请稍后重试"]

  const UnknownMessage: string := "未知错误"
  const FallbackMessage: string := "操作失败，请稍后重试"

  /** `error.message && !error.message.includes('Error')`: a message the user may read as it is. */
  predicate CustomMessage(e: ClientError) {
    PyTruthy(e.message) && !Contains(e.message.value, "Error")
  }

  /** `error.response?.status` is truthy. */
  predicate HasStatus(e: ClientError) {
    e.status.Some? && e.status.value != 0
  }

  /** The table's text for a status, else `请求失败 (status)`. */
  function StatusMessage(status: nat): (m: string)
    ensures m != ""
    ensures NatToString(status) !in ErrorMessages ==> Contains(m, NatToString(status))
    ensures NatToString(status) in ErrorMessages ==> m == ErrorMessages[NatToString(status)]
  {
    var k := NatToString(status);
    if k in ErrorMessages then ErrorMessages[k]
    else
      var m := "请求失败 (" + k + ")";
      ContainsAt(m, k, 6);
      m
  }

  /** `getErrorMessage(error)`. */
  function GetErrorMessage(e: Option<ClientError>): (m: string)
    ensures m != ""
    ensures e.None? ==> m == UnknownMessage
    ensures e.Some? && CustomMessage(e.value) ==> m == e.value.message.value
    ensures (e.Some? && !CustomMessage(e.value) && HasStatus(e.value)) ==> m == StatusMessage(e.value.status.value)
    ensures (e.Some? && !CustomMessage(e.value) && !HasStatus(e.value)) ==>
              m == (if e.value.message == Some("Network Error") then ErrorMessages["Network Error"]
                    else if e.value.code == Some("ECONNABORTED") then ErrorMessages["timeout"]
                    else FallbackMessage)
  {
    match e
    case None => UnknownMessage
    case Some(err) =>
      if CustomMessage(err) then err.message.value
      else if HasStatus(err) then StatusMessage(err.status.value)
      else if err.message == Some("Network Error") then ErrorMessages["Network Error"]
      else if err.code == Some("ECONNABORTED") then ErrorMessages["timeout"]
      else FallbackMessage
  }

  /**
   * Statuses the table knows get its text, even for a network error that has
   * a response; an unknown one is named; and a custom message wins over the
   * status, so its text is shown even for a server error.
   */
  lemma MessageExamples(code: Option<string>, text: string, status: nat)
    ensures GetErrorMessage(Some(ClientError(None, Some(404), code))) == "请求的资源不存在"
    ensures GetErrorMessage(Some(ClientError(Some("Network Error"), Some(500), code))) == "服务器出错了，请稍后重试"
    ensures Contains(GetErrorMessage(Some(ClientError(None, Some(418), code))), "418")
    ensures text != "" && !Contains(text, "Error") ==> GetErrorMessage(Some(ClientError(Some(text), Some(status), code))) == text
  {
    NotFoundMessage(code);
    ServerErrorMessage(code);
    UnknownStatusMessage(code);
    CustomMessageShown(code, text, status);
  }

  /** A 404 gets the table's text. */
  lemma NotFoundMessage(code: Option<string>)
    ensures GetErrorMessage(Some(ClientError(None, Some(404), code))) == "请求的资源不存在"
  {
    assert NatToString(404) == "404" by {
      assert NatToString(40) == "40" by { assert NatToString(4) == "4"; }
    }
  }

  /** A 500 gets the table's text, even when the message says "Network Error". */
  lemma ServerErrorMessage(code: Option<string>)
    ensures GetErrorMessage(Some(ClientError(Some("Network Error"), Some(500), code))) == "服务器出错了，请稍后重试"
  {
    assert NatToString(500) == "500" by {
      assert NatToString(50) == "50" by { assert NatToString(5) == "5"; }
    }
    assert "Network Error"[8..13] == "Error";
    ContainsAt("Network Error", "Error", 8);
  }

  /** An unknown status is named in the text. */
  lemma UnknownStatusMessage(code: Option<string>)
    ensures Contains(GetErrorMessage(Some(ClientError(None, Some(418), code))), "418")
  {
    assert NatToString(418) == "418" by {
      assert NatToString(41) == "41" by { assert NatToString(4) == "4"; }
    }
  }

  /** A custom message without "Error" in it is shown as it is. */
  lemma CustomMessageShown(code: Option<string>, text: string, status: nat)
    ensures text != "" && !Contains(text, "Error") ==> GetErrorMessage(Some(ClientError(Some(text), Some(status), code))) == text
  {
  }

  /** `error.message === 'Network Error' || error.code === 'ECONNABORTED'`. */
  predicate NetworkFailure(e: ClientError) {
    e.message == Some("Network Error") || e.code == Some("ECONNABORTED")
  }

  /** `getErrorType(error)`: network, then auth, then validation, then server, then unknown. */
  function GetErrorType(e: Option<ClientError>): (t: ErrorType)
    ensures t == NetworkKind <==> e.Some? && NetworkFailure(e.value)
    ensures t == AuthKind <==> e.Some? && !NetworkFailure(e.value) && e.value.status in {Some(401), Some(403)}
    ensures t == ValidationKind <==> e.Some? && !NetworkFailure(e.value) && e.value.status in {Some(400), Some(422)}
    ensures t == ServerKind <==> e.Some? && !NetworkFailure(e.value) && e.value.status.Some? && e.value.status.value >= 500
  {
    match e
    case None => UnknownKind
    case Some(err) =>
      if NetworkFailure(err) then NetworkKind
      else if err.status == Some(401) || err.status == Some(403) then AuthKind
      else if err.status == Some(400) || err.status == Some(422) then ValidationKind
      else if err.status.Some? && err.status.value >= 500 then ServerKind
      else UnknownKind
  }

  /** `isRetryableError(error)`: the type is network or server. */
  function IsRetryableError(e: Option<ClientError>): (b: bool)
    ensures b <==> GetErrorType(e) in {NetworkKind, ServerKind}
  {
    var t := GetErrorType(e);
    t == NetworkKind || t == ServerKind
  }

  /** Retrying depends only on the error itself: a network failure, or a status of 500 or above. */
  lemma RetryableErrors(e: Option<ClientError>)
    ensures IsRetryableError(e) <==>
              e.Some? && (NetworkFailure(e.value) || (e.value.status.Some? && e.value.status.value >= 500))
    ensures e.Some? && e.value.status in {Some(400), Some(401), Some(403), Some(404), Some(422)} && !NetworkFailure(e.value)
            ==> !IsRetryableError(e)
  {
  }

  /** One settled promise of `Promise.allSettled`. */
  datatype Settled = Fulfilled | Rejected(reason: Option<ClientError>)

  datatype BatchError = BatchError(index: nat, message: string)

  /** The `{ success, failed, errors }` summary. */
  datatype BatchSummary = BatchSummary(success: nat, failed: nat, errors: seq<BatchError>)

  /** `handleBatchErrors(results)`: count both outcomes and list each rejection, in order, with its message. */
  method HandleBatchErrors(results: seq<Settled>) returns (s: BatchSummary)
    ensures s.success + s.failed == |results|
    ensures s.failed == |s.errors|
    ensures forall k :: 0 <= k < |s.errors| ==>
              s.errors[k].index < |results| && results[s.errors[k].index].Rejected?
              && s.errors[k].message == GetErrorMessage(results[s.errors[k].index].reason)
    ensures forall k, l :: 0 <= k < l < |s.errors| ==> s.errors[k].index < s.errors[l].index
    ensures forall i :: 0 <= i < |results| && results[i].Rejected? ==>
              exists k :: 0 <= k < |s.errors| && s.errors[k].index == i
  {
    s := BatchSummary(0, 0, []);
    var i := 0;
    while i < |results|
      invariant i <= |results|
      invariant s.success + s.failed == i
      invariant s.failed == |s.errors|
      invariant forall k :: 0 <= k < |s.errors| ==>
                  s.errors[k].index < i && results[s.errors[k].index].Rejected?
                  && s.errors[k].message == GetErrorMessage(results[s.errors[k].index].reason)
      invariant forall k, l :: 0 <= k < l < |s.errors| ==> s.errors[k].index < s.errors[l].index
      invariant forall j :: 0 <= j < i && results[j].Rejected? ==>
                  exists k :: 0 <= k < |s.errors| && s.errors[k].index == j
    {
      if results[i].Fulfilled? {
        s := s.(success := s.success + 1);
      } else {
        var before := s.errors;
        s := BatchSummary(s.success, s.failed + 1, before + [BatchError(i, GetErrorMessage(results[i].reason))]);
        assert forall k :: 0 <= k < |before| ==> s.errors[k] == before[k];
        assert s.errors[|before|].index == i;
      }
      i := i + 1;
    }
  }
}
