/**
 * The check-submit page: the form's defaults and its one required field,
 * the request body built from the route's paper id and the form, and
 * where the page goes once the request settles. The request itself is a
 * parameter: its outcome is given.
 */
module CheckSubmitPage {
  import opened Common
  import opened Text
  import opened Js
  import opened CheckSchemas

  /** The form: five check switches and the chosen template. */
  datatype CheckForm = CheckForm(
    checkTitle: bool,
    checkFormat: bool,
    checkContent: bool,
    checkDuplicate: bool,
    checkLogic: bool,
    templateId: Option<int>)

  /** Every check switched on and no template chosen. */
  const InitialForm: CheckForm := CheckForm(true, true, true, true, true, None)

  const TemplateRequired: string := "请选择检查模板"
  const SubmittedNotice: string := "检查任务已提交"
  const FailedNotice: string := "提交失败"
  const StatusRoute: string := "/check/status/"

  /** The length of the run of decimal digits that starts `s`. */
  function DigitRun(s: string): (k: nat)
    ensures k <= |s|
    ensures forall i :: 0 <= i < k ==> IsDigit(s[i])
    ensures k < |s| ==> !IsDigit(s[k])
    decreases |s|
  {
    if |s| == 0 || !IsDigit(s[0]) then 0 else 1 + DigitRun(s[1..])
  }

  /** `parseInt(s)` on unsigned decimal text: the leading digits' value, or `NaN` when `s` does not start with one. */
  function ParseInt(s: string): (v: JsVal)
    ensures v.NaN? <==> |s| == 0 || !IsDigit(s[0])
    ensures v.Num? ==> v.n >= 0.0 && v.n == v.n.Floor as real
  {
    var k := DigitRun(s);
    if k == 0 then NaN else Num(ParseDigits(s[..k]) as real)
  }

  /** The rendering of a natural reads back as that natural. */
  lemma ParseIntOfNatToString(n: nat)
    ensures ParseInt(NatToString(n)) == Num(n as real)
  {
    var s := NatToString(n);
    assert DigitRun(s) == |s|;
    assert s[..|s|] == s;
    ParseNatToString(n);
  }

  /** `{ paper_id: parseInt(paperId), ...values }`. */
  datatype Payload = Payload(paperId: JsVal, form: CheckForm)

  /** The result of `submitCheck`: the task id it returned (`None` when the response names none), or a rejection. */
  datatype Response = Accepted(taskId: Option<string>) | Rejected

  /** What a press of the submit button leads to. */
  datatype Submission = Submission(request: Option<Payload>, notice: string, navigateTo: Option<string>, submitting: bool)

  /** `${result.task_id}`: a missing id is interpolated as `undefined`. */
  function TaskText(taskId: Option<string>): string {
    if taskId.Some? then taskId.value else "undefined"
  }

  /**
   * The form's validation and then `handleSubmit`: without a template the
   * form stops at its rule; otherwise the body is sent and, when it is
   * accepted, the page moves to the task's status route. The busy flag is
   * down again whatever happened.
   */
  function Submit(paperId: string, f: CheckForm, response: Response): (r: Submission)
    ensures r.request.Some? <==> f.templateId.Some?
    ensures r.request.Some? ==> r.request.value == Payload(ParseInt(paperId), f)
    ensures r.navigateTo.Some? <==> f.templateId.Some? && response.Accepted?
    ensures r.navigateTo.Some? ==> r.navigateTo.value == StatusRoute + TaskText(response.taskId)
    ensures f.templateId.None? ==> r.notice == TemplateRequired
    ensures f.templateId.Some? && response.Rejected? ==> r.notice == FailedNotice
    ensures !r.submitting
  {
    if f.templateId.None? then Submission(None, TemplateRequired, None, false)
    else
      var p := Payload(ParseInt(paperId), f);
      match response
      case Accepted(taskId) => Submission(Some(p), SubmittedNotice, Some(StatusRoute + TaskText(taskId)), false)
      case Rejected => Submission(Some(p), FailedNotice, None, false)
  }

  /** A route id that is a rendered natural is sent as that number. */
  lemma PaperIdSentAsNumber(n: nat, f: CheckForm, response: Response)
    requires f.templateId.Some?
    ensures Submit(NatToString(n), f, response).request.value.paperId == Num(n as real)
  {
    ParseIntOfNatToString(n);
  }

  /**
   * The body as the server reads it: the switches are not fields it knows,
   * and there is no `paper_type`, which the server models as empty text.
   * A `paper_id` that is not a whole number has no server reading.
   */
  function AsServerBody(p: Payload): (b: Option<CheckSubmitBody>)
    ensures b.Some? <==> p.paperId.Num? && p.paperId.n == p.paperId.n.Floor as real
    ensures b.Some? ==> b.value.paperType == "" && b.value.checkType.None? && b.value.templateId == p.form.templateId
  {
    if p.paperId.Num? && p.paperId.n == p.paperId.n.Floor as real
    then Some(CheckSubmitBody(p.paperId.n.Floor, "", None, p.form.templateId))
    else None
  }

  /**
   * Nothing the page sends is accepted: the untouched form cannot be sent,
   * its template still missing; and every body it does send lacks the paper
   * type the server requires, so the server refuses it.
   */
  lemma SubmitLaws(paperId: string, f: CheckForm, response: Response)
    ensures Submit(paperId, InitialForm, response).request.None?
    ensures Submit(paperId, InitialForm, response).notice == TemplateRequired
    ensures Submit(paperId, f, response).request.Some? && AsServerBody(Submit(paperId, f, response).request.value).Some? ==>
              ValidateCheckSubmit(AsServerBody(Submit(paperId, f, response).request.value).value).Err?
  {
    if Submit(paperId, f, response).request.Some? && AsServerBody(Submit(paperId, f, response).request.value).Some? {
      var b := AsServerBody(Submit(paperId, f, response).request.value).value;
      MissingPaperTypeRefused(b.paperId, b.checkType, b.templateId);
    }
  }

  /** The server's submit response names the result `id`, not `task_id`, so an accepted submission goes to `/check/status/undefined`. */
  lemma AcceptedWithoutTaskId(paperId: string, f: CheckForm)
    requires f.templateId.Some?
    ensures Submit(paperId, f, Accepted(None)).navigateTo == Some("/check/status/undefined")
  {
    assert StatusRoute + TaskText(None) == "/check/status/undefined";
  }
}
