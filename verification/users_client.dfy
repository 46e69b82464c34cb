/**
 * The client's user-list request: the query parameters keep every entry
 * whose value is neither `''`, `null` nor `undefined`.
 */
module UsersClient {
  import opened Js

  /** `value !== '' && value !== null && value !== undefined`. */
  predicate Kept(v: JsVal) {
    v != Str("") && !v.Nullish()
  }

  /** The `reduce` of `getUserList`: the kept entries, in their order, with their values. */
  function FilterParams(params: seq<(string, JsVal)>): (r: seq<(string, JsVal)>)
    ensures |r| <= |params|
    ensures forall e :: e in r <==> e in params && Kept(e.1)
    decreases |params|
  {
    if |params| == 0 then []
    else
      var rest := FilterParams(params[1..]);
      assert forall e :: e in params <==> e == params[0] || e in params[1..];
      if Kept(params[0].1) then [params[0]] + rest else rest
  }

  /** Filtering parameters that were already filtered changes nothing. */
  lemma {:induction false} FilterParamsIdempotent(params: seq<(string, JsVal)>)
    ensures FilterParams(FilterParams(params)) == FilterParams(params)
    decreases |params|
  {
    if |params| > 0 {
      FilterParamsIdempotent(params[1..]);
      var rest := FilterParams(params[1..]);
      if Kept(params[0].1) {
        assert ([params[0]] + rest)[1..] == rest;
      }
    }
  }

  /** Only the three listed values are dropped: `0`, `false` and `NaN` are falsy but still sent. */
  lemma FalsyValuesKept(key: string, v: JsVal)
    ensures FilterParams([(key, v)]) == (if v in {Str(""), Null, Undefined} then [] else [(key, v)])
    ensures v in {Num(0.0), Bool(false), NaN} ==> !v.Truthy() && FilterParams([(key, v)]) == [(key, v)]
  {
    assert [(key, v)][1..] == [];
  }

  /** A list with nothing to drop is sent as it is. */
  lemma {:induction false} AllKeptUnchanged(params: seq<(string, JsVal)>)
    requires forall i :: 0 <= i < |params| ==> Kept(params[i].1)
    ensures FilterParams(params) == params
    decreases |params|
  {
    if |params| > 0 {
      AllKeptUnchanged(params[1..]);
      assert [params[0]] + params[1..] == params;
    }
  }
}
