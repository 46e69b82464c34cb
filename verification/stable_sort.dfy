/** Python's stable descending sort: `sorted(..., key=k, reverse=True)`. */
module StableSort {
  // Python's sort is stable also when reversed: items with equal keys keep their
  // input order. The result is therefore described key by key: its keys do not
  // increase, and for every key value the items carrying it appear in the same
  // order as in the input. That description fixes the result completely.

  predicate NonIncreasing<T(!new)>(s: seq<T>, key: T -> real) {
    forall i, j :: 0 <= i <= j < |s| ==> key(s[i]) >= key(s[j])
  }

  /** The elements of `s` whose key is `v`, in their order in `s`. */
  function WithKey<T(!new)>(s: seq<T>, key: T -> real, v: real): (r: seq<T>)
    ensures |r| <= |s|
    decreases |s|
  {
    if |s| == 0 then []
    else (if key(s[0]) == v then [s[0]] else []) + WithKey(s[1..], key, v)
  }

  /** The selection holds exactly the list's elements of key `v`. */
  lemma {:induction false} WithKeyMember<T(!new)>(s: seq<T>, key: T -> real, v: real, x: T)
    ensures x in WithKey(s, key, v) <==> x in s && key(x) == v
    decreases |s|
  {
    if |s| > 0 {
      WithKeyMember(s[1..], key, v, x);
      assert x in s <==> x == s[0] || x in s[1..] by {
        assert s == [s[0]] + s[1..];
      }
    }
  }

  /** No element reaches `v`, so nothing is selected. */
  lemma {:induction false} WithKeyNone<T(!new)>(s: seq<T>, key: T -> real, v: real)
    requires forall k :: 0 <= k < |s| ==> key(s[k]) < v
    ensures WithKey(s, key, v) == []
    decreases |s|
  {
    if |s| > 0 {
      WithKeyNone(s[1..], key, v);
    }
  }

  /** `r` is the stable descending arrangement of `items`. */
  ghost predicate StablySorted<T(!new)>(items: seq<T>, key: T -> real, r: seq<T>) {
    NonIncreasing(r, key) && forall v :: WithKey(r, key, v) == WithKey(items, key, v)
  }

  /** Selecting one key's elements distributes over concatenation. */
  lemma {:induction false} WithKeyAppend<T(!new)>(a: seq<T>, b: seq<T>, key: T -> real, v: real)
    ensures WithKey(a + b, key, v) == WithKey(a, key, v) + WithKey(b, key, v)
    decreases |a|
  {
    if |a| == 0 {
      assert a + b == b;
    } else {
      var head := if key(a[0]) == v then [a[0]] else [];
      assert (a + b)[0] == a[0];
      assert (a + b)[1..] == a[1..] + b;
      WithKeyAppend(a[1..], b, key, v);
      var x, y := WithKey(a[1..], key, v), WithKey(b, key, v);
      assert head + (x + y) == (head + x) + y;
    }
  }

  /** `x` placed in front of a list whose keys are all below its own. */
  lemma InsertFront<T(!new)>(s: seq<T>, key: T -> real, x: T)
    requires NonIncreasing(s, key) && |s| > 0 && key(x) > key(s[0])
    ensures NonIncreasing([x] + s, key)
    ensures forall v :: WithKey([x] + s, key, v) == WithKey(s, key, v) + WithKey([x], key, v)
  {
    FrontNonIncreasing(s, key, x);
    forall v ensures WithKey([x] + s, key, v) == WithKey(s, key, v) + WithKey([x], key, v) {
      FrontSelection(s, key, x, v);
    }
  }

  lemma FrontNonIncreasing<T(!new)>(s: seq<T>, key: T -> real, x: T)
    requires NonIncreasing(s, key) && |s| > 0 && key(x) > key(s[0])
    ensures forall k :: 0 <= k < |s| ==> key(s[k]) < key(x)
    ensures NonIncreasing([x] + s, key)
  {
    forall k | 0 <= k < |s| ensures key(s[k]) < key(x) {
      assert key(s[0]) >= key(s[k]);
    }
    var r := [x] + s;
    forall i, j | 0 <= i <= j < |r| ensures key(r[i]) >= key(r[j]) {
      if i > 0 {
        assert r[i] == s[i - 1] && r[j] == s[j - 1];
      } else if j > 0 {
        assert r[j] == s[j - 1];
      }
    }
  }

  /** The selection of `[x] + s` when every key of `s` is below `key(x)`. */
  lemma FrontSelection<T(!new)>(s: seq<T>, key: T -> real, x: T, v: real)
    requires forall k :: 0 <= k < |s| ==> key(s[k]) < key(x)
    ensures WithKey([x] + s, key, v) == WithKey(s, key, v) + WithKey([x], key, v)
  {
    WithKeyAppend([x], s, key, v);
    if v == key(x) {
      WithKeyNone(s, key, v);
      assert WithKey([x] + s, key, v) == WithKey([x], key, v) + [];
    } else {
      assert WithKey([x], key, v) == [];
      assert WithKey(s, key, v) + [] == WithKey(s, key, v);
    }
  }

  /** `h` kept in front of the insertion into the rest of the list. */
  lemma InsertBehind<T(!new)>(s: seq<T>, key: T -> real, x: T, t: seq<T>)
    requires NonIncreasing(s, key) && |s| > 0 && key(x) <= key(s[0])
    requires NonIncreasing(t, key) && multiset(t) == multiset(s[1..]) + multiset{x}
    requires forall v :: WithKey(t, key, v) == WithKey(s[1..], key, v) + WithKey([x], key, v)
    ensures NonIncreasing([s[0]] + t, key)
    ensures multiset([s[0]] + t) == multiset(s) + multiset{x}
    ensures forall v :: WithKey([s[0]] + t, key, v) == WithKey(s, key, v) + WithKey([x], key, v)
  {
    assert s == [s[0]] + s[1..];
    HeadAboveRest(s, key, x, t);
    forall v ensures WithKey([s[0]] + t, key, v) == WithKey(s, key, v) + WithKey([x], key, v) {
      ConsSelection(s[0], s[1..], t, [x], key, v);
    }
  }

  /** Putting one element in front of both sides keeps a selection identity. */
  lemma ConsSelection<T(!new)>(h: T, a: seq<T>, t: seq<T>, b: seq<T>, key: T -> real, v: real)
    requires WithKey(t, key, v) == WithKey(a, key, v) + WithKey(b, key, v)
    ensures WithKey([h] + t, key, v) == WithKey([h] + a, key, v) + WithKey(b, key, v)
  {
    WithKeyAppend([h], t, key, v);
    WithKeyAppend([h], a, key, v);
    var x, y, z := WithKey([h], key, v), WithKey(a, key, v), WithKey(b, key, v);
    assert x + (y + z) == (x + y) + z;
  }

  /** Every element of the insertion into the rest has a key at most the head's. */
  lemma HeadAboveRest<T(!new)>(s: seq<T>, key: T -> real, x: T, t: seq<T>)
    requires NonIncreasing(s, key) && |s| > 0 && key(x) <= key(s[0])
    requires NonIncreasing(t, key) && multiset(t) == multiset(s[1..]) + multiset{x}
    ensures NonIncreasing([s[0]] + t, key)
  {
    forall k | 0 <= k < |t| ensures key(s[0]) >= key(t[k]) {
      assert t[k] in multiset(t);
      if t[k] != x {
        assert t[k] in multiset(s[1..]);
        var m :| 0 <= m < |s[1..]| && s[1..][m] == t[k];
        assert s[m + 1] == t[k];
      }
    }
    var r := [s[0]] + t;
    forall i, j | 0 <= i <= j < |r| ensures key(r[i]) >= key(r[j]) {
      if i > 0 {
        assert r[i] == t[i - 1] && r[j] == t[j - 1];
      } else if j > 0 {
        assert r[j] == t[j - 1];
      }
    }
  }

  /** Inserts `x` behind every element whose key is at least its own. */
  function Insert<T(!new)>(s: seq<T>, key: T -> real, x: T): (r: seq<T>)
    requires NonIncreasing(s, key)
    ensures |r| == |s| + 1
    ensures NonIncreasing(r, key)
    ensures multiset(r) == multiset(s) + multiset{x}
    ensures forall v :: WithKey(r, key, v) == WithKey(s, key, v) + WithKey([x], key, v)
    decreases |s|
  {
    if |s| == 0 then [x]
    else if key(x) > key(s[0]) then
      InsertFront(s, key, x);
      [x] + s
    else
      var t := Insert(s[1..], key, x);
      InsertBehind(s, key, x, t);
      [s[0]] + t
  }

  /**
   * `sorted(items, key=key, reverse=True)`: the same items, keys non-increasing,
   * equal keys in input order. Insertion sort folding from the left, each new
   * item going behind the items already placed with an equal key.
   */
  function SortByKeyDesc<T(!new)>(items: seq<T>, key: T -> real): (r: seq<T>)
    ensures |r| == |items|
    ensures multiset(r) == multiset(items)
    ensures StablySorted(items, key, r)
    decreases |items|
  {
    if |items| == 0 then []
    else
      var init, x := items[..|items| - 1], items[|items| - 1];
      assert items == init + [x];
      var q := SortByKeyDesc(init, key);
      var r := Insert(q, key, x);
      WithKeyAppendAll(init, [x], key);
      r
  }

  lemma WithKeyAppendAll<T(!new)>(a: seq<T>, b: seq<T>, key: T -> real)
    ensures forall v :: WithKey(a + b, key, v) == WithKey(a, key, v) + WithKey(b, key, v)
  {
    forall v ensures WithKey(a + b, key, v) == WithKey(a, key, v) + WithKey(b, key, v) {
      WithKeyAppend(a, b, key, v);
    }
  }

  /**
   * A list with non-increasing keys is determined by its elements of each key:
   * two such lists that agree key by key are equal.
   */
  lemma {:induction false} KeyClassesDetermine<T(!new)>(a: seq<T>, b: seq<T>, key: T -> real)
    requires NonIncreasing(a, key) && NonIncreasing(b, key)
    requires forall v :: WithKey(a, key, v) == WithKey(b, key, v)
    ensures a == b
    decreases |a| + |b|
  {
    if |a| == 0 && |b| == 0 {
    } else if |a| == 0 {
      WithKeyMember(b, key, key(b[0]), b[0]);
    } else if |b| == 0 {
      WithKeyMember(a, key, key(a[0]), a[0]);
    } else {
      SameHeads(a, b, key);
      forall v ensures WithKey(a[1..], key, v) == WithKey(b[1..], key, v) {
        assert WithKey(a, key, v) == (if key(a[0]) == v then [a[0]] else []) + WithKey(a[1..], key, v);
        assert WithKey(b, key, v) == (if key(b[0]) == v then [b[0]] else []) + WithKey(b[1..], key, v);
        assert WithKey(a, key, v) == WithKey(b, key, v);
        if key(a[0]) == v {
          assert WithKey(a[1..], key, v) == WithKey(a, key, v)[1..];
          assert WithKey(b[1..], key, v) == WithKey(b, key, v)[1..];
        } else {
          assert WithKey(a[1..], key, v) == WithKey(a, key, v);
          assert WithKey(b[1..], key, v) == WithKey(b, key, v);
        }
      }
      NonIncreasingTail(a, key);
      NonIncreasingTail(b, key);
      KeyClassesDetermine(a[1..], b[1..], key);
      assert a == [a[0]] + a[1..] && b == [b[0]] + b[1..];
    }
  }

  /** Two non-empty lists with non-increasing keys that agree key by key start alike. */
  lemma SameHeads<T(!new)>(a: seq<T>, b: seq<T>, key: T -> real)
    requires NonIncreasing(a, key) && NonIncreasing(b, key) && |a| > 0 && |b| > 0
    requires forall v :: WithKey(a, key, v) == WithKey(b, key, v)
    ensures a[0] == b[0]
  {
    var va, vb := key(a[0]), key(b[0]);
    WithKeyMember(a, key, va, a[0]);
    WithKeyMember(b, key, va, a[0]);
    var m :| 0 <= m < |b| && b[m] == a[0];
    WithKeyMember(b, key, vb, b[0]);
    WithKeyMember(a, key, vb, b[0]);
    var n :| 0 <= n < |a| && a[n] == b[0];
    assert va == vb;
    assert WithKey(a, key, va)[0] == a[0];
    assert WithKey(b, key, va)[0] == b[0];
  }

  lemma NonIncreasingTail<T(!new)>(a: seq<T>, key: T -> real)
    requires NonIncreasing(a, key) && |a| > 0
    ensures NonIncreasing(a[1..], key)
  {
    forall i, j | 0 <= i <= j < |a[1..]| ensures key(a[1..][i]) >= key(a[1..][j]) {
      assert a[1..][i] == a[i + 1] && a[1..][j] == a[j + 1];
    }
  }

  /** The stable descending order of a list is unique, so `SortByKeyDesc` is the only one. */
  lemma StableOrderUnique<T(!new)>(items: seq<T>, key: T -> real, r: seq<T>)
    requires StablySorted(items, key, r)
    ensures r == SortByKeyDesc(items, key)
  {
    KeyClassesDetermine(r, SortByKeyDesc(items, key), key);
  }

  /** `x` occurs somewhere before `y` in `s`. */
  ghost predicate Precedes<T(!new)>(s: seq<T>, x: T, y: T) {
    exists i, j :: 0 <= i < j < |s| && s[i] == x && s[j] == y
  }

  lemma PrecedesCons<T(!new)>(h: T, t: seq<T>, x: T, y: T)
    ensures Precedes([h] + t, x, y) <==> (h == x && y in t) || Precedes(t, x, y)
  {
    var s := [h] + t;
    if Precedes(s, x, y) {
      var i, j :| 0 <= i < j < |s| && s[i] == x && s[j] == y;
      assert s[j] == t[j - 1];
      if i > 0 {
        assert s[i] == t[i - 1];
      }
    }
    if h == x && y in t {
      var j :| 0 <= j < |t| && t[j] == y;
      assert s[0] == x && s[j + 1] == y;
    }
    if Precedes(t, x, y) {
      var i, j :| 0 <= i < j < |t| && t[i] == x && t[j] == y;
      assert s[i + 1] == x && s[j + 1] == y;
    }
  }

  /** Among elements of key `v`, order in the selection is order in the list. */
  lemma {:induction false} WithKeyPrecedes<T(!new)>(s: seq<T>, key: T -> real, v: real, x: T, y: T)
    requires key(x) == v && key(y) == v
    ensures Precedes(WithKey(s, key, v), x, y) <==> Precedes(s, x, y)
    decreases |s|
  {
    if |s| == 0 {
    } else {
      var h, t := s[0], s[1..];
      assert s == [h] + t;
      WithKeyPrecedes(t, key, v, x, y);
      PrecedesCons(h, t, x, y);
      WithKeyMember(t, key, v, y);
      if key(h) == v {
        assert WithKey(s, key, v) == [h] + WithKey(t, key, v);
        PrecedesCons(h, WithKey(t, key, v), x, y);
      } else {
        assert WithKey(s, key, v) == WithKey(t, key, v);
        assert h != x;
      }
    }
  }

  /**
   * Equal keys keep their input order: two equal-key elements that the
   * sorted list holds in one order occur in that order in the input.
   */
  lemma StableTies<T(!new)>(items: seq<T>, key: T -> real, r: seq<T>, i: nat, j: nat)
    requires StablySorted(items, key, r) && i < j < |r| && key(r[i]) == key(r[j])
    ensures Precedes(items, r[i], r[j])
  {
    var v := key(r[i]);
    assert Precedes(r, r[i], r[j]);
    WithKeyPrecedes(r, key, v, r[i], r[j]);
    WithKeyPrecedes(items, key, v, r[i], r[j]);
  }
}
