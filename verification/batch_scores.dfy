/**
 * `calculate_batch_similarity`: one query scored against many texts, the
 * scores ranked best first. The one-against-many TF-IDF cosine is the
 * parameter `BatchCosine`; `None` stands for its `except` path.
 */
module BatchScores {
  import opened Common
  import StableSort

  type BatchCosine = (string, seq<string>) -> Option<seq<real>>

  /** `(index, score)` for every score, in index order. */
  function Enumerate(scores: seq<real>): (r: seq<(nat, real)>)
    ensures |r| == |scores| && forall i :: 0 <= i < |r| ==> r[i] == (i, scores[i])
  {
    seq(|scores|, i requires 0 <= i < |scores| => (i as nat, scores[i]))
  }

  /** The sort key of `calculate_batch_similarity`: the score of an (index, score) pair. */
  function PairScore(p: (nat, real)): real {
    p.1
  }

  /** Equal scores of an enumeration, stably sorted, stay in index order. */
  lemma PairTies(scores: seq<real>, r: seq<(nat, real)>)
    requires StableSort.StablySorted(Enumerate(scores), PairScore, r)
    ensures forall i, j :: 0 <= i < j < |r| && r[i].1 == r[j].1 ==> r[i].0 < r[j].0
  {
    forall i, j | 0 <= i < j < |r| && r[i].1 == r[j].1 ensures r[i].0 < r[j].0 {
      StableSort.StableTies(Enumerate(scores), PairScore, r, i, j);
      var e := Enumerate(scores);
      var p, q :| 0 <= p < q < |e| && e[p] == r[i] && e[q] == r[j];
    }
  }

  /** A rearrangement of an enumeration holds each index once, with its own score. */
  lemma EnumerationPairs(scores: seq<real>, r: seq<(nat, real)>)
    requires multiset(r) == multiset(Enumerate(scores))
    ensures |r| == |scores|
    ensures forall k :: 0 <= k < |r| ==> r[k].0 < |scores| && r[k].1 == scores[r[k].0]
  {
    var e := Enumerate(scores);
    assert |r| == |multiset(r)| == |multiset(e)| == |e|;
    forall k | 0 <= k < |r| ensures r[k].0 < |scores| && r[k].1 == scores[r[k].0] {
      assert r[k] in multiset(r);
      assert r[k] in e;
      var i :| 0 <= i < |e| && e[i] == r[k];
    }
  }

  /**
   * `calculate_batch_similarity`: [] for an empty query or list or a failed
   * vectorisation; otherwise one (index, score) pair per text, sorted by
   * score descending and stably. The cosine row has one score per text.
   */
  function BatchSimilarity(query: string, texts: seq<string>, batch: BatchCosine): (r: seq<(nat, real)>)
    requires batch(query, texts).Some? ==> |batch(query, texts).value| == |texts|
    ensures query == "" || texts == [] || batch(query, texts).None? ==> r == []
    ensures query != "" && texts != [] && batch(query, texts).Some? ==>
              multiset(r) == multiset(Enumerate(batch(query, texts).value))
    ensures query != "" && texts != [] && batch(query, texts).Some? ==>
              |r| == |texts| &&
              forall k :: 0 <= k < |r| ==> r[k].0 < |texts| && r[k].1 == batch(query, texts).value[r[k].0]
    ensures forall i, j :: 0 <= i <= j < |r| ==> r[i].1 >= r[j].1
    ensures forall i, j :: 0 <= i < j < |r| && r[i].1 == r[j].1 ==> r[i].0 < r[j].0
  {
    if query == "" || texts == [] then []
    else
      match batch(query, texts)
      case None => []
      case Some(sims) =>
        var r := StableSort.SortByKeyDesc(Enumerate(sims), PairScore);
        assert forall i, j :: 0 <= i <= j < |r| ==> PairScore(r[i]) >= PairScore(r[j]);
        PairTies(sims, r);
        EnumerationPairs(sims, r);
        r
  }
}
