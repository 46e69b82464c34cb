/**
 * The check pipeline: submitting a check, and the background run that
 * moves a result from PROCESSING to COMPLETED or FAILED while the title,
 * format and content stages produce its issues. A parse failure is `None`.
 */
module CheckService {
  import opened Common
  import opened Text
  import opened CheckModel
  import opened PaperModel
  import opened Docx
  import opened IssueCounts
  import opened CheckInputs
  import opened TitleStage
  import opened FormatStage
  import opened ContentStage
  import opened CheckProgress

  // ---------------------------------------------------------------- submit

  /** The table `submit_check` searches: graduation for "graduation", course for anything else. */
  function KindOf(paperType: string): PaperKind {
    if paperType == "graduation" then Graduation else Course
  }

  /**
   * `submit_check`: a missing paper is a 404; otherwise a new result in
   * PENDING with progress 0.0, owned by the caller. `newId` is the id the
   * database assigns.
   */
  function SubmitCheck(store: PaperStore, paperId: nat, paperType: string, checkType: CheckType,
                       userId: nat, newId: nat): (r: Result<CheckResult>)
    ensures r.Err? <==> forall i :: 0 <= i < |store.Table(KindOf(paperType))| ==> store.Table(KindOf(paperType))[i].id != paperId
    ensures r.Err? ==> r.error == NotFound("论文不存在")
    ensures r.Ok? ==> r.value.status == Pending && r.value.progress == 0.0 && r.value.totalIssues == 0
                      && r.value.statistics.None? && r.value.createdBy == userId
                      && r.value.paperId == paperId && r.value.paperType == paperType
                      && r.value.checkType == checkType && r.value.id == newId
  {
    if Find(store.Table(KindOf(paperType)), paperId).None? then Err(NotFound("论文不存在"))
    else Ok(CheckResult(newId, paperId, paperType, checkType, Pending, 0.0, 0, None, userId))
  }

  // ---------------------------------------------------------------- run

  /** What a background run leaves behind: its writes in order, the final record and the stored issues. */
  datatype CheckRun = CheckRun(writes: seq<Write>, result: CheckResult, issues: seq<Issue>)

  /** The `except` branch: FAILED with progress reset, no issue stored. */
  function Fail(rec: CheckResult, writes: seq<Write>): (run: CheckRun)
    ensures run.writes == writes + [Write(Failed, 0.0)] && run.issues == []
    ensures run.result.status == Failed && run.result.progress == 0.0
    ensures run.result.(status := rec.status, progress := rec.progress) == rec
  {
    CheckRun(writes + [Write(Failed, 0.0)], rec.(status := Failed, progress := 0.0), [])
  }

  /** The issues of a run that does not fail: title, format and content issues, each when its stage runs. */
  function StageIssues(t: CheckType, doc: Document, env: Env): seq<Issue>
    requires !RunFails(t, Some(doc))
  {
    (if RunsTitle(t) then CheckTitle(doc, env) else [])
    + (if RunsFormat(t) then CheckFormat(doc).value else [])
    + (if RunsContent(t) then CheckContent(doc, env) else [])
  }

  /**
   * `_perform_check` on the record `rec`: PROCESSING/10 first, 40, 70 and
   * 90 after the stages that run, then COMPLETED/100 with the issue count
   * and statistics, or FAILED/0 when anything raised.
   */
  function PerformCheck(rec: CheckResult, doc: Option<Document>, env: Env): (run: CheckRun)
    ensures run.writes == RunWrites(rec.checkType, doc)
    ensures run.writes[|run.writes| - 1] == Write(run.result.status, run.result.progress)
    ensures run.result.status == Completed || run.result.status == Failed
    ensures run.result.status == Failed <==> RunFails(rec.checkType, doc)
    ensures run.result.status == Completed ==>
              run.result.progress == 100.0 && run.result.totalIssues == |run.issues|
              && run.result.statistics == Some(StatisticsOf(run.issues))
              && run.result.statistics.value.Total() == run.result.totalIssues
    ensures run.result.status == Failed ==> run.result.progress == 0.0 && run.issues == []
    ensures run.result.(status := rec.status, progress := rec.progress,
                        totalIssues := rec.totalIssues, statistics := rec.statistics) == rec
  {
    var t := rec.checkType;
    var ws := RunWrites(t, doc);
    var before := ws[..|ws| - 1];
    assert ws == before + [ws[|ws| - 1]];
    if RunFails(t, doc) then
      Fail(rec, before)
    else
      Complete(rec, before, StageIssues(t, doc.value, env))
  }

  /** The completion writes: COMPLETED/100 with the issue count and the per-level statistics, which add up to it. */
  function Complete(rec: CheckResult, ws: seq<Write>, issues: seq<Issue>): (run: CheckRun)
    ensures run.writes == ws + [Write(Completed, 100.0)] && run.issues == issues
    ensures run.result.status == Completed && run.result.progress == 100.0
    ensures run.result.totalIssues == |issues| && run.result.statistics == Some(StatisticsOf(issues))
    ensures run.result.statistics.value.Total() == run.result.totalIssues
    ensures run.result.(status := rec.status, progress := rec.progress,
                        totalIssues := rec.totalIssues, statistics := rec.statistics) == rec
  {
    StatisticsSumToTotal(issues);
    CheckRun(ws + [Write(Completed, 100.0)],
             rec.(status := Completed, progress := 100.0, totalIssues := |issues|,
                  statistics := Some(StatisticsOf(issues))),
             issues)
  }

  /**
   * A completed full check reports a CRITICAL issue for a missing title and
   * one for a duplicate rate above 15, and no other.
   */
  lemma FullCheckCriticals(rec: CheckResult, d: Document, env: Env)
    requires rec.checkType == FullCheck && LeftMargin(d).Some?
    ensures PerformCheck(rec, Some(d), env).result.statistics.value.critical ==
              Ind(GetTitle(d) == "") + Ind(env.duplicateRate.Some? && env.duplicateRate.value > 15.0)
  {
    var a, b, c := CheckTitle(d, env), CheckFormat(d).value, CheckContent(d, env);
    CountLevelAppend(a, b, Critical);
    CountLevelAppend(a + b, c, Critical);
  }
}
