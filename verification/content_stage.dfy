/**
 * The content stage of a check: an ERROR for a short text, the AI
 * findings, and the duplicate-rate issue.
 */
module ContentStage {
  import opened Common
  import opened Text
  import opened CheckModel
  import opened Docx
  import opened IssueCounts
  import opened CheckInputs

  /** The duplicate-rate issue: CRITICAL above 15, WARNING above 10, none otherwise or when the call raised. */
  function DuplicateRateIssues(rate: Option<real>, fixed: real -> string): (r: seq<Issue>)
    ensures |r| <= 1
    ensures |r| == 1 <==> rate.Some? && rate.value > 10.0
    ensures |r| == 1 ==> r[0].issueType == ContentDuplicate && r[0].confidence == Some(rate.value / 100.0)
                         && (r[0].level == Critical <==> rate.value > 15.0)
                         && (r[0].level == Warning <==> rate.value <= 15.0)
  {
    if rate.None? then []
    else if rate.value > 15.0 then
      [Issue(ContentDuplicate, Critical, "全文", "重复率过高：" + fixed(rate.value) + "%",
             "请修改重复内容，确保论文原创性", Some(rate.value / 100.0))]
    else if rate.value > 10.0 then
      [Issue(ContentDuplicate, Warning, "全文", "重复率较高：" + fixed(rate.value) + "%",
             "建议适当修改重复部分", Some(rate.value / 100.0))]
    else []
  }

  function ContentLengthIssues(content: string): (r: seq<Issue>)
    ensures |r| == (if |content| < 1000 then 1 else 0)
    ensures forall k :: 0 <= k < |r| ==> r[k].issueType == ContentLogic && r[k].level == Error
  {
    if |content| < 1000 then
      [Issue(ContentLogic, Error, "全文", "论文内容过短（" + NatToString(|content|) + "字符）", "论文内容应充实完整", None)]
    else []
  }

  function AiContentIssues(ai: seq<AiIssue>): (r: seq<Issue>)
    ensures |r| == |ai|
    ensures forall k :: 0 <= k < |r| ==>
              r[k].issueType == ContentLogic && r[k].level == Warning
              && r[k].location == ai[k].location.GetOr("未知") && r[k].description == ai[k].description.GetOr("")
  {
    seq(|ai|, k requires 0 <= k < |ai| =>
      Issue(ContentLogic, Warning, ai[k].location.GetOr("未知"), ai[k].description.GetOr(""), "请检查并修改", None))
  }

  /**
   * `_check_content`: an ERROR for text under 1000 characters, one WARNING
   * per AI finding, and the duplicate-rate issue.
   */
  function CheckContent(doc: Document, env: Env): (r: seq<Issue>)
    ensures CountLevel(r, Error) == Ind(|GetAllText(doc)| < 1000)
    ensures CountLevel(r, Critical) == Ind(env.duplicateRate.Some? && env.duplicateRate.value > 15.0)
    ensures CountLevel(r, Warning) ==
              |env.aiContentIssues| + Ind(env.duplicateRate.Some? && 10.0 < env.duplicateRate.value <= 15.0)
    ensures CountLevel(r, Info) == 0
  {
    var a, b, c := ContentLengthIssues(GetAllText(doc)), AiContentIssues(env.aiContentIssues),
                   DuplicateRateIssues(env.duplicateRate, env.fixed);
    CountUniform(a, Error);
    CountUniform(b, Warning);
    DuplicateRateCounts(env.duplicateRate, env.fixed);
    CountThreeAll(a, b, c);
    a + b + c
  }

  /** The duplicate-rate issue counts once, at CRITICAL above 15 and at WARNING above 10. */
  lemma DuplicateRateCounts(rate: Option<real>, fixed: real -> string)
    ensures var c := DuplicateRateIssues(rate, fixed);
            CountLevel(c, Critical) == Ind(rate.Some? && rate.value > 15.0)
            && CountLevel(c, Warning) == Ind(rate.Some? && 10.0 < rate.value <= 15.0)
            && CountLevel(c, Error) == 0 && CountLevel(c, Info) == 0
  {
    var c := DuplicateRateIssues(rate, fixed);
    if |c| == 1 {
      CountUniform(c, c[0].level);
    }
  }
}
