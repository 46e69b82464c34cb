/**
 * The check tables: check types, issue types and levels, task statuses, the
 * check-result record with its defaults, and the per-level statistics.
 */
module CheckModel {
  import opened Common

  datatype CheckType = TitleCheck | FormatCheck | ContentCheck | FullCheck {
    function Value(): string {
      match this
      case TitleCheck => "title"
      case FormatCheck => "format"
      case ContentCheck => "content"
      case FullCheck => "full"
    }
  }

  function ParseCheckType(s: string): (r: Option<CheckType>)
    ensures r.Some? ==> r.value.Value() == s
    ensures r.None? ==> forall t: CheckType :: t.Value() != s
  {
    if s == "title" then Some(TitleCheck)
    else if s == "format" then Some(FormatCheck)
    else if s == "content" then Some(ContentCheck)
    else if s == "full" then Some(FullCheck)
    else None
  }

  datatype IssueType =
    | TitleDuplicate | TitleFormat
    | FormatPage | FormatFont | FormatParagraph | FormatHeading
    | FormatReference | FormatTable | FormatFigure
    | ContentDuplicate | ContentLogic | ContentGrammar | ContentSpelling

  datatype IssueLevel = Critical | Error | Warning | Info {
    function Value(): string {
      match this
      case Critical => "critical"
      case Error => "error"
      case Warning => "warning"
      case Info => "info"
    }
  }

  function ParseIssueLevel(s: string): (r: Option<IssueLevel>)
    ensures r.Some? ==> r.value.Value() == s
    ensures r.None? ==> forall l: IssueLevel :: l.Value() != s
  {
    if s == "critical" then Some(Critical)
    else if s == "error" then Some(Error)
    else if s == "warning" then Some(Warning)
    else if s == "info" then Some(Info)
    else None
  }

  datatype CheckStatus = Pending | Processing | Completed | Failed {
    function Value(): string {
      match this
      case Pending => "pending"
      case Processing => "processing"
      case Completed => "completed"
      case Failed => "failed"
    }
  }

  function ParseCheckStatus(s: string): (r: Option<CheckStatus>)
    ensures r.Some? ==> r.value.Value() == s
    ensures r.None? ==> forall c: CheckStatus :: c.Value() != s
  {
    if s == "pending" then Some(Pending)
    else if s == "processing" then Some(Processing)
    else if s == "completed" then Some(Completed)
    else if s == "failed" then Some(Failed)
    else None
  }

  /** The string values of the status enum, in declaration order. */
  const StatusValues: seq<string> := ["pending", "processing", "completed", "failed"]

  /** The four enums each have exactly their declared values, and a value read back gives its member. */
  lemma EnumValuesExact()
    ensures forall t: CheckType :: ParseCheckType(t.Value()) == Some(t)
    ensures forall l: IssueLevel :: ParseIssueLevel(l.Value()) == Some(l)
    ensures forall c: CheckStatus :: ParseCheckStatus(c.Value()) == Some(c)
    ensures forall s :: s in StatusValues <==> ParseCheckStatus(s).Some?
  {
    forall t: CheckType ensures ParseCheckType(t.Value()) == Some(t) {
      match t
      case TitleCheck =>
      case FormatCheck =>
      case ContentCheck =>
      case FullCheck =>
    }
    forall l: IssueLevel ensures ParseIssueLevel(l.Value()) == Some(l) {
      match l
      case Critical =>
      case Error =>
      case Warning =>
      case Info =>
    }
    forall c: CheckStatus ensures ParseCheckStatus(c.Value()) == Some(c) {
      match c
      case Pending =>
      case Processing =>
      case Completed =>
      case Failed =>
    }
  }

  /** One row of check_issues, as the checks build it. */
  datatype Issue = Issue(
    issueType: IssueType,
    level: IssueLevel,
    location: string,
    description: string,
    suggestion: string,
    confidence: Option<real>)

  /** The per-level counts stored in `statistics`. */
  datatype Statistics = Statistics(critical: nat, error: nat, warning: nat, info: nat) {
    function Total(): nat { critical + error + warning + info }
  }

  /** One row of check_results. */
  datatype CheckResult = CheckResult(
    id: nat,
    paperId: nat,
    paperType: string,
    checkType: CheckType,
    status: CheckStatus,
    progress: real,
    totalIssues: nat,
    statistics: Option<Statistics>,
    createdBy: nat)

  /** The number of issues at level `l`. */
  function CountLevel(issues: seq<Issue>, l: IssueLevel): (n: nat)
    ensures n <= |issues|
    ensures n == 0 <==> forall i :: 0 <= i < |issues| ==> issues[i].level != l
    decreases |issues|
  {
    if |issues| == 0 then 0
    else CountLevel(issues[..|issues| - 1], l) + (if issues[|issues| - 1].level == l then 1 else 0)
  }

  /** The statistics written on completion: one count per level. */
  function StatisticsOf(issues: seq<Issue>): Statistics {
    Statistics(
      CountLevel(issues, Critical), CountLevel(issues, Error),
      CountLevel(issues, Warning), CountLevel(issues, Info))
  }

  /** Every issue has exactly one level, so the four counts add up to the number of issues. */
  lemma {:induction false} StatisticsSumToTotal(issues: seq<Issue>)
    ensures StatisticsOf(issues).Total() == |issues|
    decreases |issues|
  {
    if |issues| > 0 {
      StatisticsSumToTotal(issues[..|issues| - 1]);
    }
  }

  /** Counting distributes over concatenation, as `issues.extend` builds the list stage by stage. */
  lemma {:induction false} CountLevelAppend(a: seq<Issue>, b: seq<Issue>, l: IssueLevel)
    ensures CountLevel(a + b, l) == CountLevel(a, l) + CountLevel(b, l)
    decreases |b|
  {
    if |b| > 0 {
      assert (a + b)[..|a + b| - 1] == a + b[..|b| - 1];
      assert (a + b)[|a + b| - 1] == b[|b| - 1];
      CountLevelAppend(a, b[..|b| - 1], l);
    } else {
      assert a + b == a;
    }
  }
}
