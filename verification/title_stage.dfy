/**
 * The title stage of a check: the length warning, the duplicate issues
 * against previous titles and the AI issues of a present title, or one
 * CRITICAL issue for a missing one.
 */
module TitleStage {
  import opened Common
  import opened Text
  import opened CheckModel
  import opened Docx
  import opened Similarity
  import opened IssueCounts
  import opened CheckInputs

  /** The length warning for a non-empty title. */
  function TitleLengthIssues(title: string): (r: seq<Issue>)
    ensures |r| <= 1
    ensures |r| == 1 <==> |title| < 5 || |title| > 100
    ensures forall k :: 0 <= k < |r| ==> r[k].issueType == TitleFormat && r[k].level == Warning
  {
    if |title| < 5 then
      [Issue(TitleFormat, Warning, "标题", "标题过短（" + NatToString(|title|) + "字符）",
             "标题应该清晰表达论文主题，建议至少10个字符", None)]
    else if |title| > 100 then
      [Issue(TitleFormat, Warning, "标题", "标题过长（" + NatToString(|title|) + "字符）",
             "标题应简洁明了，建议不超过50个字符", None)]
    else []
  }

  /** The threshold `find_similar_titles` is called with. */
  const TitleThreshold: real := 0.7

  function DuplicateTitleIssue(s: SimilarTitle, percent: real -> string): Issue {
    Issue(TitleDuplicate, if s.similarity > 0.9 then Error else Warning, "标题",
          "标题与往届论文重复度较高（相似度：" + percent(s.similarity) + "）",
          "相似论文：" + TitleOf(s.item) + "，建议调整标题以增加原创性",
          Some(s.similarity))
  }

  /** The similar previous titles: the first 100 rows of the table, scored against the title, most similar first. */
  function SimilarPrevious(title: string, env: Env): (r: seq<SimilarTitle>)
    ensures forall k :: 0 <= k < |r| ==> r[k].similarity >= TitleThreshold
    ensures forall i, j :: 0 <= i <= j < |r| ==> r[i].similarity >= r[j].similarity
  {
    var items := PyPrefix(env.previous, 100);
    var r := FindSimilarTitles(title, items, TitleThreshold, env.cut, env.tfidf);
    forall k | 0 <= k < |r| ensures r[k].similarity >= TitleThreshold {
      assert KeptScore(title, items, TitleThreshold, env.cut, env.tfidf, r[k]);
    }
    r
  }

  /** One duplicate issue per similar title, in order. */
  function DuplicateIssuesOf(sims: seq<SimilarTitle>, percent: real -> string): (r: seq<Issue>)
    ensures |r| == |sims|
    ensures forall k :: 0 <= k < |r| ==>
              r[k].issueType == TitleDuplicate && r[k].confidence == Some(sims[k].similarity)
              && (r[k].level == Error <==> sims[k].similarity > 0.9)
              && (r[k].level == Warning <==> sims[k].similarity <= 0.9)
  {
    seq(|sims|, k requires 0 <= k < |sims| => DuplicateTitleIssue(sims[k], percent))
  }

  /**
   * The duplicate-title issues: the three most similar previous titles at
   * most, each an ERROR above 0.9 and a WARNING otherwise, with the
   * similarity as confidence.
   */
  function DuplicateTitleIssues(title: string, env: Env): (r: seq<Issue>)
    ensures |r| == Min(3, |SimilarPrevious(title, env)|)
    ensures forall k :: 0 <= k < |r| ==>
              r[k].issueType == TitleDuplicate && r[k].confidence == Some(SimilarPrevious(title, env)[k].similarity)
              && r[k].confidence.value >= TitleThreshold
              && (r[k].level == Error <==> r[k].confidence.value > 0.9)
              && (r[k].level == Warning <==> r[k].confidence.value <= 0.9)
    ensures forall i, j :: 0 <= i <= j < |r| ==> r[i].confidence.value >= r[j].confidence.value
  {
    var sims := SimilarPrevious(title, env);
    var top := sims[..Min(3, |sims|)];
    DuplicateIssuesOf(top, env.percent)
  }



  function AiTitleIssues(ai: seq<string>): (r: seq<Issue>)
    ensures |r| == |ai|
    ensures forall k :: 0 <= k < |r| ==> r[k].issueType == TitleFormat && r[k].level == Warning && r[k].description == ai[k]
  {
    seq(|ai|, k requires 0 <= k < |ai| => Issue(TitleFormat, Warning, "标题", ai[k], "请参考AI建议修改", None))
  }

  const MissingTitleIssue: Issue :=
    Issue(TitleFormat, Critical, "文档开头", "未找到论文标题", "请确保论文开头有清晰的标题", None)

  /** The issues of a present title: the length warning, the duplicate issues and the AI issues. */
  function PresentTitleIssues(title: string, env: Env): (r: seq<Issue>)
    ensures CountLevel(r, Critical) == 0 && CountLevel(r, Info) == 0
    ensures CountLevel(r, Error) <= 3
    ensures forall x :: x in r ==> x.issueType == TitleFormat || x.issueType == TitleDuplicate
  {
    var a, b, c := TitleLengthIssues(title), DuplicateTitleIssues(title, env), AiTitleIssues(env.aiTitleIssues);
    TitleCounts(a, b, c);
    a + b + c
  }


  /**
   * `_check_title`: a missing title is one CRITICAL issue and nothing else;
   * a present one never yields a CRITICAL or INFO issue, and at most three
   * ERRORs, all of them duplicates.
   */
  function CheckTitle(doc: Document, env: Env): (r: seq<Issue>)
    ensures GetTitle(doc) == "" ==> r == [MissingTitleIssue]
    ensures CountLevel(r, Critical) == Ind(GetTitle(doc) == "")
    ensures CountLevel(r, Info) == 0
    ensures CountLevel(r, Error) <= 3
    ensures forall x :: x in r ==> x.issueType == TitleFormat || x.issueType == TitleDuplicate
  {
    var title := GetTitle(doc);
    if title == "" then
      assert CountLevel([MissingTitleIssue][..0], Critical) == 0;
      [MissingTitleIssue]
    else
      PresentTitleIssues(title, env)
  }

  /** Title issues of the three kinds: no CRITICAL or INFO, and only the duplicates can be ERRORs. */
  lemma TitleCounts(a: seq<Issue>, b: seq<Issue>, c: seq<Issue>)
    requires forall k :: 0 <= k < |a| ==> a[k].issueType == TitleFormat && a[k].level == Warning
    requires |b| <= 3 && forall k :: 0 <= k < |b| ==>
               b[k].issueType == TitleDuplicate && (b[k].level == Error || b[k].level == Warning)
    requires forall k :: 0 <= k < |c| ==> c[k].issueType == TitleFormat && c[k].level == Warning
    ensures CountLevel(a + b + c, Critical) == 0 && CountLevel(a + b + c, Info) == 0
    ensures CountLevel(a + b + c, Error) <= 3
    ensures forall x :: x in a + b + c ==> x.issueType == TitleFormat || x.issueType == TitleDuplicate
  {
    CountUniform(a, Warning);
    CountUniform(c, Warning);
    ErrorsOrWarnings(b);
    CountThreeAll(a, b, c);
  }
}
