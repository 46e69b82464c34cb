/**
 * The check request and response bodies: the submit body with its
 * defaults, the status response (which carries no stage and no result id)
 * and the detail response whose issue list defaults to empty.
 */
module CheckSchemas {
  import opened Common
  import opened CheckModel
  import opened PaperModel

  /** A `CheckSubmit` body as received; an omitted `check_type` is `None`. */
  datatype CheckSubmitBody = CheckSubmitBody(
    paperId: int, paperType: string, checkType: Option<string>, templateId: Option<int>)

  /** A validated `CheckSubmit`. */
  datatype CheckSubmit = CheckSubmit(paperId: int, paperType: PaperKind, checkType: CheckType, templateId: Option<int>)

  /**
   * `CheckSubmit`: `paper_type` matches `^(graduation|course)$`, `check_type`
   * is one of the four values and defaults to FULL, `template_id` is optional.
   */
  function ValidateCheckSubmit(b: CheckSubmitBody): (r: Result<CheckSubmit>)
    ensures r.Ok? <==> ParsePaperKind(b.paperType).Some? && (b.checkType.None? || ParseCheckType(b.checkType.value).Some?)
    ensures r.Ok? ==> r.value.paperId == b.paperId && r.value.templateId == b.templateId
                      && r.value.paperType.Value() == b.paperType
    ensures r.Ok? && b.checkType.None? ==> r.value.checkType == FullCheck
    ensures r.Ok? && b.checkType.Some? ==> r.value.checkType.Value() == b.checkType.value
    ensures r.Err? ==> r.error.Unprocessable?
  {
    match ParsePaperKind(b.paperType)
    case None => Err(Unprocessable("paper_type"))
    case Some(kind) =>
      match b.checkType
      case None => Ok(CheckSubmit(b.paperId, kind, FullCheck, b.templateId))
      case Some(s) =>
        match ParseCheckType(s)
        case None => Err(Unprocessable("check_type"))
        case Some(t) => Ok(CheckSubmit(b.paperId, kind, t, b.templateId))
  }

  /** A body the client sends without `paper_type` (here the empty text) is refused. */
  lemma MissingPaperTypeRefused(paperId: int, checkType: Option<string>, templateId: Option<int>)
    ensures ValidateCheckSubmit(CheckSubmitBody(paperId, "", checkType, templateId)).Err?
  {
  }

  /** `CheckStatusResponse`: only the task id, status, progress and an optional message. */
  datatype CheckStatusResponse = CheckStatusResponse(taskId: nat, status: CheckStatus, progress: real, message: Option<string>)

  /** `CheckResultDetailResponse`: the result row and its issues, empty unless given. */
  datatype CheckResultDetail = CheckResultDetail(result: CheckResult, issues: seq<Issue>)

  /** The detail of a result for which no issue list is supplied. */
  function DetailWithoutIssues(result: CheckResult): CheckResultDetail {
    CheckResultDetail(result, [])
  }
}
