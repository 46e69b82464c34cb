/**
 * `extract_keywords`: the text is cut into tokens, short tokens and stopwords
 * are dropped, and the remaining words are ranked by frequency, most frequent
 * first, with ties in first-occurrence order.
 */
module Keywords {
  import opened Common
  import opened Text
  import opened Similarity
  import StableSort

  /** The stopwords of `extract_keywords`. */
  const Stopwords: set<string> := {
    "的", "了", "在", "是", "我", "有", "和", "就", "不", "人", "都", "一", "一个", "上",
    "也", "很", "到", "说", "要", "去", "你", "会", "着", "没有", "看", "好", "自己", "这"
  }

  predicate KeepWord(w: string) {
    |w| > 1 && w !in Stopwords
  }

  function FilterWords(ws: seq<string>): (r: seq<string>)
    ensures forall x :: x in r <==> x in ws && KeepWord(x)
    ensures forall x :: KeepWord(x) ==> multiset(r)[x] == multiset(ws)[x]
    ensures forall x :: !KeepWord(x) ==> multiset(r)[x] == 0
    decreases |ws|
  {
    if |ws| == 0 then []
    else
      var p := FilterWords(ws[..|ws| - 1]);
      var w := ws[|ws| - 1];
      assert ws == ws[..|ws| - 1] + [w];
      if KeepWord(w) then p + [w] else p
  }

  /** The sort key of the ranking: a word's frequency in `filtered`. */
  function FreqKey(filtered: seq<string>): string -> real {
    (w: string) => multiset(filtered)[w] as real
  }

  /** The distinct kept words ranked by frequency in `filtered`, descending and stably over first occurrence. */
  function RankWords(filtered: seq<string>): (r: seq<string>)
    ensures forall i, j :: 0 <= i < j < |r| ==> r[i] != r[j]
    ensures forall x :: x in r <==> x in filtered
    ensures forall i, j :: 0 <= i <= j < |r| ==> multiset(filtered)[r[i]] >= multiset(filtered)[r[j]]
    ensures |r| == |Dedup(filtered)|
    ensures StableSort.StablySorted(Dedup(filtered), FreqKey(filtered), r)
    ensures forall i, j :: 0 <= i < j < |r| && multiset(filtered)[r[i]] == multiset(filtered)[r[j]] ==>
              FirstIndex(filtered, r[i]) < FirstIndex(filtered, r[j])
  {
    var words := Dedup(filtered);
    var r := StableSort.SortByKeyDesc(words, FreqKey(filtered));
    SameElements(words, r);
    DistinctPermutation(words, r);
    RankTies(filtered, r);
    r
  }

  /** Words of equal frequency keep the order of their first occurrences. */
  lemma RankTies(filtered: seq<string>, r: seq<string>)
    requires StableSort.StablySorted(Dedup(filtered), FreqKey(filtered), r)
    requires forall x :: x in r <==> x in filtered
    ensures forall i, j :: 0 <= i < j < |r| && multiset(filtered)[r[i]] == multiset(filtered)[r[j]] ==>
              FirstIndex(filtered, r[i]) < FirstIndex(filtered, r[j])
  {
    var words := Dedup(filtered);
    DedupFirstOccurrence(filtered);
    forall i, j | 0 <= i < j < |r| && multiset(filtered)[r[i]] == multiset(filtered)[r[j]]
      ensures FirstIndex(filtered, r[i]) < FirstIndex(filtered, r[j])
    {
      assert FreqKey(filtered)(r[i]) == FreqKey(filtered)(r[j]);
      StableSort.StableTies(words, FreqKey(filtered), r, i, j);
      var p, q :| 0 <= p < q < |words| && words[p] == r[i] && words[q] == r[j];
    }
  }

  /** The distinct tokens that survive the filter. */
  function KeptWords(ws: seq<string>): set<string> {
    set w | w in ws && KeepWord(w)
  }

  /** A filtered list keeps the first-occurrence order of the tokens it keeps. */
  lemma {:induction false} FilterFirstIndex(ws: seq<string>, x: string, y: string)
    requires x in FilterWords(ws) && y in FilterWords(ws)
    requires FirstIndex(FilterWords(ws), x) < FirstIndex(FilterWords(ws), y)
    ensures FirstIndex(ws, x) < FirstIndex(ws, y)
    decreases |ws|
  {
    var p, z := ws[..|ws| - 1], ws[|ws| - 1];
    assert ws == p + [z];
    var f, fp := FilterWords(ws), FilterWords(p);
    assert f == if KeepWord(z) then fp + [z] else fp;
    assert fp + [] == fp;
    if x in fp && y in fp {
      FirstIndexAppend(fp, if KeepWord(z) then [z] else [], x);
      FirstIndexAppend(fp, if KeepWord(z) then [z] else [], y);
      FilterFirstIndex(p, x, y);
      FirstIndexAppend(p, [z], x);
      FirstIndexAppend(p, [z], y);
    } else if x in fp {
      FirstIndexAppend(p, [z], x);
      FirstIndexAppend(p, [z], y);
    } else {
      FirstIndexAppend(fp, [z], x);
      if y in fp {
        FirstIndexAppend(fp, [z], y);
      }
    }
  }

  /** The ranking of a token list has one word per distinct kept token. */
  lemma RankingLength(ws: seq<string>)
    ensures |RankWords(FilterWords(ws))| == |KeptWords(ws)|
  {
    var words := Dedup(FilterWords(ws));
    DistinctCard(words);
    assert (set x | x in words) == KeptWords(ws);
  }

  /** Ranked words of equal frequency keep the order of their first occurrences among the tokens. */
  lemma RankingTies(ws: seq<string>)
    ensures var r := RankWords(FilterWords(ws));
            forall i, j :: 0 <= i < j < |r| && multiset(ws)[r[i]] == multiset(ws)[r[j]] ==>
              FirstIndex(ws, r[i]) < FirstIndex(ws, r[j])
  {
    var filtered := FilterWords(ws);
    var r := RankWords(filtered);
    forall i, j | 0 <= i < j < |r| && multiset(ws)[r[i]] == multiset(ws)[r[j]]
      ensures FirstIndex(ws, r[i]) < FirstIndex(ws, r[j])
    {
      assert r[i] in filtered && r[j] in filtered;
      assert multiset(filtered)[r[i]] == multiset(filtered)[r[j]];
      FilterFirstIndex(ws, r[i], r[j]);
    }
  }

  /** Two ranked words of equal frequency, the first ranked higher, occur first in that order. */
  lemma RankedTie(ws: seq<string>, i: nat, j: nat)
    requires i < j < |RankWords(FilterWords(ws))|
    requires multiset(ws)[RankWords(FilterWords(ws))[i]] == multiset(ws)[RankWords(FilterWords(ws))[j]]
    ensures FirstIndex(ws, RankWords(FilterWords(ws))[i]) < FirstIndex(ws, RankWords(FilterWords(ws))[j])
  {
    RankingTies(ws);
  }

  /**
   * `extract_keywords`: the distinct kept tokens (longer than one character, not
   * stopwords) ranked by frequency, descending and stably over first
   * occurrence, cut to `top_n` with Python slice semantics.
   */
  function ExtractKeywords(text: string, topN: int, cut: Tokenizer): (r: seq<string>)
    ensures text == "" ==> r == []
    ensures forall i, j :: 0 <= i < j < |r| ==> r[i] != r[j]
    ensures forall k :: 0 <= k < |r| ==> KeepWord(r[k]) && r[k] in cut(text)
    ensures forall i, j :: 0 <= i <= j < |r| ==>
              multiset(cut(text))[r[i]] >= multiset(cut(text))[r[j]]
    ensures topN >= 0 ==> |r| <= topN
    ensures text != "" && topN >= 0 ==> |r| == Min(topN, |KeptWords(cut(text))|)
    ensures text != "" && topN < 0 ==> |r| == Max(0, |KeptWords(cut(text))| + topN)
    ensures forall i, j :: 0 <= i < j < |r| && multiset(cut(text))[r[i]] == multiset(cut(text))[r[j]] ==>
              FirstIndex(cut(text), r[i]) < FirstIndex(cut(text), r[j])
  {
    if text == "" then []
    else
      RankingLength(cut(text));
      RankingTies(cut(text));
      PyPrefix(RankWords(FilterWords(cut(text))), topN)
  }

  /**
   * Any kept word left out of the keywords is no more frequent than every
   * keyword returned, and one that ties with a keyword at the cut occurs first
   * later in the text: the cut keeps the earlier word of a tie.
   */
  lemma ExtractKeywordsAreTop(text: string, topN: int, cut: Tokenizer, w: string, k: nat)
    ensures var r := ExtractKeywords(text, topN, cut);
            text != "" && w in cut(text) && KeepWord(w) && w !in r && k < |r| ==>
              multiset(cut(text))[r[k]] >= multiset(cut(text))[w]
    ensures var r := ExtractKeywords(text, topN, cut);
            text != "" && w in cut(text) && KeepWord(w) && w !in r && k < |r| &&
            multiset(cut(text))[r[k]] == multiset(cut(text))[w] ==>
              FirstIndex(cut(text), r[k]) < FirstIndex(cut(text), w)
  {
    var r := ExtractKeywords(text, topN, cut);
    if text != "" && w in cut(text) && KeepWord(w) && w !in r && k < |r| {
      var filtered := FilterWords(cut(text));
      var sorted := RankWords(filtered);
      var n := SliceStop(|sorted|, topN);
      assert r == sorted[..n];
      assert w in filtered;
      var m :| 0 <= m < |sorted| && sorted[m] == w;
      assert m >= n;
      assert r[k] == sorted[k];
      assert multiset(filtered)[sorted[k]] >= multiset(filtered)[sorted[m]];
      if multiset(cut(text))[r[k]] == multiset(cut(text))[w] {
        RankedTie(cut(text), k, m);
      }
    }
  }

  /** A rearrangement of a duplicate-free list is duplicate-free. */
  lemma DistinctPermutation<T>(a: seq<T>, b: seq<T>)
    requires forall i, j :: 0 <= i < j < |a| ==> a[i] != a[j]
    requires multiset(a) == multiset(b)
    ensures forall i, j :: 0 <= i < j < |b| ==> b[i] != b[j]
  {
    forall i, j | 0 <= i < j < |b| ensures b[i] != b[j] {
      DistinctCount(a, b[i]);
      TwoPositions(b, i, j);
    }
  }

  lemma TwoPositions<T>(b: seq<T>, i: nat, j: nat)
    requires i < j < |b|
    ensures b[i] == b[j] ==> multiset(b)[b[i]] >= 2
  {
    assert b == b[..i] + [b[i]] + b[i + 1..j] + [b[j]] + b[j + 1..];
  }

  lemma {:induction false} DistinctCount<T>(a: seq<T>, x: T)
    requires forall i, j :: 0 <= i < j < |a| ==> a[i] != a[j]
    ensures multiset(a)[x] <= 1
    decreases |a|
  {
    if |a| > 0 {
      assert a == a[..|a| - 1] + [a[|a| - 1]];
      DistinctCount(a[..|a| - 1], x);
      if a[|a| - 1] == x {
        assert x !in a[..|a| - 1];
      }
    }
  }
}
