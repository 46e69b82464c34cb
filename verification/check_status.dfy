/**
 * The check-status page: the state it keeps for one task, how a fetched
 * status and a channel message merge into it, and which of its three views
 * it shows. Every field is a JavaScript value, because the handlers copy
 * whatever the payload holds.
 */
module CheckStatusPage {
  import opened Common
  import opened Text
  import opened Js
  import opened CheckModel
  import opened CheckSchemas
  import WebSocket

  /** `status`, `progress`, `currentStage`, `resultId` and `error`. */
  datatype PageState = PageState(status: JsVal, progress: JsVal, stage: JsVal, resultId: JsVal, error: JsVal)

  const InitialStage: string := "准备中..."
  const FetchedStage: string := "检查中..."
  const LoadFailedMessage: string := "加载检查状态失败"
  const FailureDefault: string := "检查过程中出现错误，请稍后重试。"

  /** Pending, no progress, preparing, no result and no error. */
  const Initial: PageState := PageState(Str(Pending.Value()), Num(0.0), Str(InitialStage), Null, Null)

  /** The fields the handlers read from a status payload; a field the payload lacks is `Undefined`. */
  datatype StatusData = StatusData(status: JsVal, progress: JsVal, currentStage: JsVal, resultId: JsVal, error: JsVal)

  const EmptyData: StatusData := StatusData(Undefined, Undefined, Undefined, Undefined, Undefined)

  /** `loadStatus` after the fetch resolves: status is overwritten, progress and stage fall back, result and error only grow. */
  function LoadFulfilled(s: PageState, d: StatusData): (r: PageState)
    ensures r.status == d.status
    ensures r.progress.Truthy() <==> d.progress.Truthy()
    ensures !r.progress.Truthy() ==> r.progress == Num(0.0)
    ensures r.stage.Truthy()
    ensures d.currentStage.Truthy() ==> r.stage == d.currentStage
    ensures r.resultId.Truthy() <==> s.resultId.Truthy() || d.resultId.Truthy()
    ensures d.resultId.Truthy() ==> r.resultId == d.resultId
    ensures r.error.Truthy() <==> s.error.Truthy() || d.error.Truthy()
    ensures d.error.Truthy() ==> r.error == d.error
  {
    PageState(
      d.status,
      Or(d.progress, Num(0.0)),
      StrOr(d.currentStage, FetchedStage),
      if d.resultId.Truthy() then d.resultId else s.resultId,
      if d.error.Truthy() then d.error else s.error)
  }

  /** `loadStatus` when the fetch throws: only the error is set. */
  function LoadFailed(s: PageState): (r: PageState)
    ensures r.error.Truthy()
    ensures r.(error := s.error) == s
  {
    s.(error := Str(LoadFailedMessage))
  }

  /** `onMessage`: truthy fields replace, progress replaces whenever it is defined, whatever the current status. */
  function OnMessage(s: PageState, d: StatusData): (r: PageState)
    ensures d.status.Truthy() ==> r.status == d.status
    ensures !d.status.Truthy() ==> r.status == s.status
    ensures r.progress == (if d.progress.Undefined? then s.progress else d.progress)
    ensures r.stage == (if d.currentStage.Truthy() then d.currentStage else s.stage)
    ensures r.resultId.Truthy() <==> s.resultId.Truthy() || d.resultId.Truthy()
    ensures r.error.Truthy() <==> s.error.Truthy() || d.error.Truthy()
  {
    PageState(
      if d.status.Truthy() then d.status else s.status,
      if d.progress.Undefined? then s.progress else d.progress,
      if d.currentStage.Truthy() then d.currentStage else s.stage,
      if d.resultId.Truthy() then d.resultId else s.resultId,
      if d.error.Truthy() then d.error else s.error)
  }

  /** The three renderings: finished with a result, failed with a text, or still in progress. */
  datatype View = SuccessView(resultId: JsVal) | FailureView(message: JsVal) | ProgressView(stage: JsVal, progress: JsVal)

  /** The page's rendering of a state. */
  function ViewOf(s: PageState): (v: View)
    ensures v.SuccessView? <==> s.status == Str(Completed.Value()) && s.resultId.Truthy()
    ensures v.FailureView? <==> s.status == Str(Failed.Value())
    ensures v.SuccessView? ==> v.resultId == s.resultId
    ensures v.FailureView? ==> v.message.Truthy() && (s.error.Truthy() ==> v.message == s.error)
    ensures v.ProgressView? ==> v.stage == s.stage && v.progress == s.progress
  {
    if s.status == Str(Completed.Value()) && s.resultId.Truthy() then SuccessView(s.resultId)
    else if s.status == Str(Failed.Value()) then FailureView(StrOr(s.error, FailureDefault))
    else ProgressView(s.stage, s.progress)
  }

  /**
   * How the state evolves: the page opens in the progress view, preparing; a
   * message with no fields changes nothing; the same message twice is the
   * message once; and once a result id is known, neither a fetch nor a
   * message nor a failure clears it.
   */
  lemma StateLaws(s: PageState, d: StatusData)
    ensures ViewOf(Initial) == ProgressView(Str(InitialStage), Num(0.0))
    ensures OnMessage(s, EmptyData) == s
    ensures OnMessage(OnMessage(s, d), d) == OnMessage(s, d)
    ensures s.resultId.Truthy() ==>
              LoadFulfilled(s, d).resultId.Truthy() && OnMessage(s, d).resultId.Truthy() && LoadFailed(s).resultId == s.resultId
  {
  }

  /**
   * Which view follows which: messages are not gated on the status, so a late
   * "processing" message takes a finished check back to the progress view; a
   * completed status without a result id still shows progress; and a fetched
   * payload without a status overwrites even a failed status, leaving the
   * failure view.
   */
  lemma ViewLaws(s: PageState, d: StatusData, stage: JsVal)
    ensures ViewOf(s).SuccessView? ==>
              ViewOf(OnMessage(s, StatusData(Str(Processing.Value()), Undefined, stage, Undefined, Undefined))).ProgressView?
    ensures s.status == Str(Completed.Value()) && !s.resultId.Truthy() ==> ViewOf(s).ProgressView?
    ensures ViewOf(s).FailureView? && d.status.Undefined? ==> ViewOf(LoadFulfilled(s, d)).ProgressView?
  {
  }

  /** What the page reads from the server's status response: it names no stage, no result id and no error. */
  function FromServer(resp: CheckStatusResponse): (d: StatusData)
    ensures d.status == Str(resp.status.Value())
    ensures d.currentStage.Undefined? && d.resultId.Undefined? && d.error.Undefined?
  {
    StatusData(Str(resp.status.Value()), Num(resp.progress), Undefined, Undefined, Undefined)
  }

  /** Fetching a completed check from the server never reaches the success view: the response carries no result id. */
  lemma FetchedCompletionShowsProgress(resp: CheckStatusResponse)
    requires resp.status == Completed
    ensures ViewOf(LoadFulfilled(Initial, FromServer(resp))) == ProgressView(Str(FetchedStage), Or(Num(resp.progress), Num(0.0)))
  {
  }

  /** The channel for a task: the socket base, `/check/` and the task id. */
  function ChannelAddress(wsUrl: string, taskId: string): (a: string)
    ensures IsPrefix(wsUrl, a) && IsSuffix(taskId, a) && |a| == |wsUrl| + 7 + |taskId|
  {
    wsUrl + "/check/" + taskId
  }

  /** The page's channel options: reconnection on, the interval and attempt bound left at their defaults. */
  const ChannelOptions: WebSocket.WsOptions := WebSocket.WsOptions(true, 3000, 5)

  /** The address the socket opens carries the task before the token, and the page keeps the hook's defaults. */
  lemma ChannelConnects(wsUrl: string, taskId: string, token: string)
    ensures WebSocket.ConnectUrl(ChannelAddress(wsUrl, taskId), Some(token)) == wsUrl + "/check/" + taskId + "?token=" + token
    ensures ChannelOptions == WebSocket.DefaultOptions
  {
  }
}
