/**
 * JavaScript values as the client code sees them, and the truthiness and
 * `||` rules the client relies on.
 */
module Js {

  /** A JavaScript value. Objects and arrays are opaque, told apart only by an identity. */
  datatype JsVal =
    | Undefined
    | Null
    | Bool(b: bool)
    | Num(n: real)
    | NaN
    | Str(s: string)
    | Obj(id: nat)
  {
    /** JavaScript truthiness: `undefined`, `null`, `false`, `0`, `NaN` and `''` are falsy. */
    predicate Truthy() {
      match this
      case Undefined => false
      case Null => false
      case Bool(b) => b
      case Num(n) => n != 0.0
      case NaN => false
      case Str(s) => s != ""
      case Obj(_) => true
    }

    /** `v === null || v === undefined`. */
    predicate Nullish() {
      Undefined? || Null?
    }
  }

  /** `a || b`. */
  function Or(a: JsVal, b: JsVal): (r: JsVal)
    ensures a.Truthy() ==> r == a
    ensures !a.Truthy() ==> r == b
    ensures r.Truthy() <==> a.Truthy() || b.Truthy()
  {
    if a.Truthy() then a else b
  }

  /** An optional string field read with `||` fallback to a default string. */
  function StrOr(a: JsVal, default: string): JsVal {
    Or(a, Str(default))
  }
}
