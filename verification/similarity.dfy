/** Text similarity: Jaccard, the title-duplicate search and the duplicate rate. */
module Similarity {
  import opened Common
  import opened Text
  import StableSort

  // The jieba tokeniser and the TF-IDF cosine score are parameters: `Tokenizer`
  // stands for `jieba.cut`, and `Cosine` for the TF-IDF vectorisation followed
  // by cosine similarity of two non-empty texts (its `except` fallback to 0.0
  // included).

  type Tokenizer = string -> seq<string>
  type Cosine = (string, string) -> real

  function TokenSet(text: string, cut: Tokenizer): set<string> {
    set w | w in cut(text)
  }

  /** `calculate_cosine_similarity`: 0.0 when either text is empty, else the TF-IDF score. */
  function CosineSimilarity(t1: string, t2: string, tfidf: Cosine): real {
    if t1 == "" || t2 == "" then 0.0 else tfidf(t1, t2)
  }

  lemma CardSubset<T>(a: set<T>, b: set<T>)
    requires a <= b
    ensures |a| <= |b|
  {
    assert b == a + (b - a);
  }

  /** `calculate_jaccard_similarity`: |A ∩ B| / |A ∪ B| over the token sets. */
  function Jaccard(t1: string, t2: string, cut: Tokenizer): (r: real)
    ensures 0.0 <= r <= 1.0
    ensures t1 == "" || t2 == "" ==> r == 0.0
    ensures t1 != "" && t2 != "" && TokenSet(t1, cut) + TokenSet(t2, cut) != {} ==>
              r * (|TokenSet(t1, cut) + TokenSet(t2, cut)| as real) == |TokenSet(t1, cut) * TokenSet(t2, cut)| as real
  {
    if t1 == "" || t2 == "" then 0.0
    else
      var a, b := TokenSet(t1, cut), TokenSet(t2, cut);
      if |a + b| == 0 then 0.0
      else
        CardSubset(a * b, a + b);
        Ratio(|a * b|, |a + b|);
        (|a * b| as real) / (|a + b| as real)
  }

  /** A part over a positive whole lies in [0, 1] and scales back to the part. */
  lemma Ratio(m: nat, n: nat)
    requires 0 < n && m <= n
    ensures 0.0 <= (m as real) / (n as real) <= 1.0
    ensures ((m as real) / (n as real)) * (n as real) == m as real
  {
  }

  /** Jaccard similarity does not depend on the order of its arguments. */
  lemma JaccardSymmetric(t1: string, t2: string, cut: Tokenizer)
    ensures Jaccard(t1, t2, cut) == Jaccard(t2, t1, cut)
  {
    var a, b := TokenSet(t1, cut), TokenSet(t2, cut);
    assert a * b == b * a && a + b == b + a;
  }

  /** A non-empty text with at least one token is fully similar to itself. */
  lemma JaccardSelf(t: string, cut: Tokenizer)
    requires t != "" && |cut(t)| > 0
    ensures Jaccard(t, t, cut) == 1.0
  {
    var a := TokenSet(t, cut);
    assert cut(t)[0] in a;
    assert a * a == a && a + a == a;
  }

  /** Two non-empty texts score 0 exactly when their token sets share nothing. */
  lemma JaccardZeroIffDisjoint(t1: string, t2: string, cut: Tokenizer)
    requires t1 != "" && t2 != ""
    ensures Jaccard(t1, t2, cut) == 0.0 <==> TokenSet(t1, cut) * TokenSet(t2, cut) == {}
  {
    var a, b := TokenSet(t1, cut), TokenSet(t2, cut);
    if a * b != {} {
      var w :| w in a * b;
      assert w in a + b;
      assert |a + b| > 0;
      assert |a * b| > 0;
    }
  }

  /** One entry of `existing_titles`; `title` is `None` when the key is missing. */
  datatype TitleItem = TitleItem(id: nat, title: Option<string>)

  /** `{**item, "similarity": ..., "cosine_similarity": ..., "jaccard_similarity": ...}`. */
  datatype SimilarTitle = SimilarTitle(item: TitleItem, similarity: real, cosine: real, jaccard: real)

  /** `0.7 * cos + 0.3 * jac`. */
  function Combined(cos: real, jac: real): real {
    0.7 * cos + 0.3 * jac
  }

  function TitleOf(item: TitleItem): string {
    item.title.GetOr("")
  }

  function Score(query: string, item: TitleItem, cut: Tokenizer, tfidf: Cosine): SimilarTitle {
    var title := TitleOf(item);
    var cos := CosineSimilarity(query, title, tfidf);
    var jac := Jaccard(query, title, cut);
    SimilarTitle(item, Combined(cos, jac), cos, jac)
  }

  /** The items kept by the loop, in input order: a non-empty title and a combined score at the threshold or above. */
  predicate Keeps(query: string, item: TitleItem, threshold: real, cut: Tokenizer, tfidf: Cosine) {
    TitleOf(item) != "" && Score(query, item, cut, tfidf).similarity >= threshold
  }

  /** `s` is the scored form of a kept item of `items`. */
  predicate KeptScore(query: string, items: seq<TitleItem>, threshold: real, cut: Tokenizer, tfidf: Cosine, s: SimilarTitle) {
    s.item in items && Keeps(query, s.item, threshold, cut, tfidf) && s == Score(query, s.item, cut, tfidf)
  }

  function Candidates(query: string, items: seq<TitleItem>, threshold: real, cut: Tokenizer, tfidf: Cosine): (r: seq<SimilarTitle>)
    ensures forall k :: 0 <= k < |r| ==> KeptScore(query, items, threshold, cut, tfidf, r[k])
    ensures forall i :: 0 <= i < |items| && Keeps(query, items[i], threshold, cut, tfidf) ==>
              Score(query, items[i], cut, tfidf) in r
    decreases |items|
  {
    if |items| == 0 then []
    else
      var init := items[..|items| - 1];
      var rest := Candidates(query, init, threshold, cut, tfidf);
      var last := items[|items| - 1];
      assert forall x :: x in init ==> x in items;
      assert forall i :: 0 <= i < |items| - 1 ==> items[i] == init[i];
      if Keeps(query, last, threshold, cut, tfidf) then rest + [Score(query, last, cut, tfidf)] else rest
  }

  /** Appending an item appends its candidate, if it is kept. */
  lemma CandidatesSnoc(query: string, a: seq<TitleItem>, z: TitleItem, threshold: real, cut: Tokenizer, tfidf: Cosine)
    ensures Candidates(query, a + [z], threshold, cut, tfidf)
            == Candidates(query, a, threshold, cut, tfidf)
               + (if Keeps(query, z, threshold, cut, tfidf) then [Score(query, z, cut, tfidf)] else [])
  {
    var az := a + [z];
    assert az[..|az| - 1] == a && az[|az| - 1] == z;
  }

  /** Each candidate in input order; a candidate list splits over a split of the items. */
  lemma {:induction false} CandidatesOrder(query: string, a: seq<TitleItem>, b: seq<TitleItem>, threshold: real,
                                           cut: Tokenizer, tfidf: Cosine)
    ensures Candidates(query, a + b, threshold, cut, tfidf)
            == Candidates(query, a, threshold, cut, tfidf) + Candidates(query, b, threshold, cut, tfidf)
    ensures |a| == 1 ==>
              Candidates(query, a, threshold, cut, tfidf)
              == (if Keeps(query, a[0], threshold, cut, tfidf) then [Score(query, a[0], cut, tfidf)] else [])
    decreases |b|
  {
    if |b| == 0 {
      assert a + b == a;
    } else {
      var b', z := b[..|b| - 1], b[|b| - 1];
      assert a + b == (a + b') + [z] && b == b' + [z];
      CandidatesOrder(query, a, b', threshold, cut, tfidf);
      CandidatesSnoc(query, a + b', z, threshold, cut, tfidf);
      CandidatesSnoc(query, b', z, threshold, cut, tfidf);
      var tail := if Keeps(query, z, threshold, cut, tfidf) then [Score(query, z, cut, tfidf)] else [];
      var x, y := Candidates(query, a, threshold, cut, tfidf), Candidates(query, b', threshold, cut, tfidf);
      assert (x + y) + tail == x + (y + tail);
    }
    if |a| == 1 {
      CandidatesSnoc(query, [], a[0], threshold, cut, tfidf);
      assert [] + [a[0]] == a;
    }
  }

  /** The sort key of `find_similar_titles`: the combined score. */
  function SimilarityKey(s: SimilarTitle): real {
    s.similarity
  }

  /**
   * `find_similar_titles`: every kept item once, each with its three scores,
   * sorted by combined score descending and stably.
   */
  function FindSimilarTitles(query: string, items: seq<TitleItem>, threshold: real, cut: Tokenizer, tfidf: Cosine)
    : (r: seq<SimilarTitle>)
    ensures query == "" || items == [] ==> r == []
    ensures forall k :: 0 <= k < |r| ==> KeptScore(query, items, threshold, cut, tfidf, r[k])
    ensures query != "" ==> forall i :: 0 <= i < |items| && Keeps(query, items[i], threshold, cut, tfidf) ==>
              Score(query, items[i], cut, tfidf) in r
    ensures forall i, j :: 0 <= i <= j < |r| ==> r[i].similarity >= r[j].similarity
    ensures query != "" ==> multiset(r) == multiset(Candidates(query, items, threshold, cut, tfidf))
    ensures query != "" ==> StableSort.StablySorted(Candidates(query, items, threshold, cut, tfidf), SimilarityKey, r)
  {
    if query == "" || items == [] then []
    else
      SortedScoreOrder(Candidates(query, items, threshold, cut, tfidf));
      SortedKeptScores(query, items, threshold, cut, tfidf);
      SortedComplete(query, items, threshold, cut, tfidf);
      StableSort.SortByKeyDesc(Candidates(query, items, threshold, cut, tfidf), SimilarityKey)
  }

  /** Sorting by the combined score leaves the scores non-increasing. */
  lemma SortedScoreOrder(c: seq<SimilarTitle>)
    ensures var r := StableSort.SortByKeyDesc(c, SimilarityKey);
            forall i, j :: 0 <= i <= j < |r| ==> r[i].similarity >= r[j].similarity
  {
    var r := StableSort.SortByKeyDesc(c, SimilarityKey);
    assert forall i, j :: 0 <= i <= j < |r| ==> SimilarityKey(r[i]) >= SimilarityKey(r[j]);
  }

  /** Every sorted candidate is the scored form of a kept item. */
  lemma SortedKeptScores(query: string, items: seq<TitleItem>, threshold: real, cut: Tokenizer, tfidf: Cosine)
    ensures var r := StableSort.SortByKeyDesc(Candidates(query, items, threshold, cut, tfidf), SimilarityKey);
            forall k :: 0 <= k < |r| ==> KeptScore(query, items, threshold, cut, tfidf, r[k])
  {
    var c := Candidates(query, items, threshold, cut, tfidf);
    var r := StableSort.SortByKeyDesc(c, SimilarityKey);
    forall k | 0 <= k < |r| ensures KeptScore(query, items, threshold, cut, tfidf, r[k]) {
      assert r[k] in multiset(c);
      var m :| 0 <= m < |c| && c[m] == r[k];
    }
  }

  /** Every kept item's scored form is among the sorted candidates. */
  lemma SortedComplete(query: string, items: seq<TitleItem>, threshold: real, cut: Tokenizer, tfidf: Cosine)
    ensures var r := StableSort.SortByKeyDesc(Candidates(query, items, threshold, cut, tfidf), SimilarityKey);
            forall i :: 0 <= i < |items| && Keeps(query, items[i], threshold, cut, tfidf) ==>
              Score(query, items[i], cut, tfidf) in r
  {
    var c := Candidates(query, items, threshold, cut, tfidf);
    var r := StableSort.SortByKeyDesc(c, SimilarityKey);
    SameElements(c, r);
  }

  /** Two titles with the same combined score are listed in the order of their items. */
  lemma SimilarTitlesTies(query: string, items: seq<TitleItem>, threshold: real, cut: Tokenizer, tfidf: Cosine,
                          i: nat, j: nat)
    requires query != ""
    requires var r := FindSimilarTitles(query, items, threshold, cut, tfidf);
             i < j < |r| && r[i].similarity == r[j].similarity
    ensures var r := FindSimilarTitles(query, items, threshold, cut, tfidf);
            StableSort.Precedes(Candidates(query, items, threshold, cut, tfidf), r[i], r[j])
  {
    var r := FindSimilarTitles(query, items, threshold, cut, tfidf);
    StableSort.StableTies(Candidates(query, items, threshold, cut, tfidf), SimilarityKey, r, i, j);
  }

  /** Two lists with the same multiset have the same members. */
  lemma SameElements<T>(a: seq<T>, b: seq<T>)
    requires multiset(a) == multiset(b)
    ensures forall x :: x in a <==> x in b
  {
    forall x ensures x in a <==> x in b {
      assert x in a <==> x in multiset(a);
      assert x in b <==> x in multiset(b);
    }
  }

  /** What a kept entry says: a non-empty title, its two scores, and their weighted sum at the threshold or above. */
  lemma KeptScoreMeaning(query: string, items: seq<TitleItem>, threshold: real, cut: Tokenizer, tfidf: Cosine, s: SimilarTitle)
    requires KeptScore(query, items, threshold, cut, tfidf, s)
    ensures s.similarity >= threshold && TitleOf(s.item) != ""
    ensures s.cosine == CosineSimilarity(query, TitleOf(s.item), tfidf)
    ensures s.jaccard == Jaccard(query, TitleOf(s.item), cut)
    ensures s.similarity == 0.7 * s.cosine + 0.3 * s.jaccard
  {
  }

  /** The largest cosine between `text` and any reference, starting from 0.0. */
  function MaxCosine(text: string, refs: seq<string>, tfidf: Cosine): (m: real)
    ensures m >= 0.0
    ensures forall k :: 0 <= k < |refs| ==> m >= CosineSimilarity(text, refs[k], tfidf)
    ensures m == 0.0 || exists k :: 0 <= k < |refs| && m == CosineSimilarity(text, refs[k], tfidf)
    decreases |refs|
  {
    if |refs| == 0 then 0.0
    else
      var m := MaxCosine(text, refs[..|refs| - 1], tfidf);
      var s := CosineSimilarity(text, refs[|refs| - 1], tfidf);
      if s > m then s else m
  }

  /**
   * `calculate_duplicate_rate`: 0.0 for an empty text or no references,
   * otherwise 100 times the best cosine against any reference.
   */
  function DuplicateRate(text: string, refs: seq<string>, tfidf: Cosine): (r: real)
    ensures text == "" || refs == [] ==> r == 0.0
    ensures r >= 0.0
    ensures forall k :: 0 <= k < |refs| ==> r >= 100.0 * CosineSimilarity(text, refs[k], tfidf)
    ensures r == 0.0 || exists k :: 0 <= k < |refs| && r == 100.0 * CosineSimilarity(text, refs[k], tfidf)
  {
    if text == "" || refs == [] then 0.0 else MaxCosine(text, refs, tfidf) * 100.0
  }
}
