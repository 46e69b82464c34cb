/**
 * Counting the issues of a list level by level: the facts the check
 * stages use to state how many issues of each level they produce.
 */
module IssueCounts {
  import opened CheckModel

  /** 1 when `b` holds, 0 otherwise. */
  function Ind(b: bool): nat { if b then 1 else 0 }

  /** When every issue has level `l`, the count at `l` is the length and every other count is 0. */
  lemma {:induction false} CountUniform(issues: seq<Issue>, l: IssueLevel)
    requires forall k :: 0 <= k < |issues| ==> issues[k].level == l
    ensures CountLevel(issues, l) == |issues|
    ensures forall m :: m != l ==> CountLevel(issues, m) == 0
    decreases |issues|
  {
    if |issues| > 0 {
      CountUniform(issues[..|issues| - 1], l);
    }
  }

  /** Counting at one level distributes over a three-part concatenation. */
  lemma CountThree(a: seq<Issue>, b: seq<Issue>, c: seq<Issue>, l: IssueLevel)
    ensures CountLevel(a + b + c, l) == CountLevel(a, l) + CountLevel(b, l) + CountLevel(c, l)
  {
    CountLevelAppend(a, b, l);
    CountLevelAppend(a + b, c, l);
  }

  /** The same at all four levels. */
  lemma CountThreeAll(a: seq<Issue>, b: seq<Issue>, c: seq<Issue>)
    ensures CountLevel(a + b + c, Critical) == CountLevel(a, Critical) + CountLevel(b, Critical) + CountLevel(c, Critical)
    ensures CountLevel(a + b + c, Error) == CountLevel(a, Error) + CountLevel(b, Error) + CountLevel(c, Error)
    ensures CountLevel(a + b + c, Warning) == CountLevel(a, Warning) + CountLevel(b, Warning) + CountLevel(c, Warning)
    ensures CountLevel(a + b + c, Info) == CountLevel(a, Info) + CountLevel(b, Info) + CountLevel(c, Info)
  {
    CountThree(a, b, c, Critical);
    CountThree(a, b, c, Error);
    CountThree(a, b, c, Warning);
    CountThree(a, b, c, Info);
  }

  /** Issues that are all ERRORs or WARNINGs count nothing at the other two levels. */
  lemma ErrorsOrWarnings(b: seq<Issue>)
    requires forall k :: 0 <= k < |b| ==> b[k].level == Error || b[k].level == Warning
    ensures CountLevel(b, Critical) == 0 && CountLevel(b, Info) == 0
  {
  }
}
