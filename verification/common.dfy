/**
 * Failure-carrying values shared by the backend and client models.
 *
 * The backend signals failure with HTTP exceptions (404, 403, 401, 400, 409) and
 * with request validation (422); `HttpError` names each one and `Result` carries
 * either a value or such an error.
 */
module Common {

  datatype Option<T> = None | Some(value: T) {
    function GetOr(default: T): T {
      match this
      case Some(v) => v
      case None => default
    }
  }

  /** The HTTP errors raised by the routes and services, with their detail text. */
  datatype HttpError =
    | BadRequest(detail: string)
    | Unauthorized(detail: string)
    | Forbidden(detail: string)
    | NotFound(detail: string)
    | Conflict(detail: string)
    | Unprocessable(detail: string)
    | ServerError(detail: string)
  {
    /** The status code the exception class sends. */
    function Code(): nat {
      match this
      case BadRequest(_) => 400
      case Unauthorized(_) => 401
      case Forbidden(_) => 403
      case NotFound(_) => 404
      case Conflict(_) => 409
      case Unprocessable(_) => 422
      case ServerError(_) => 500
    }
  }

  datatype Result<T> = Ok(value: T) | Err(error: HttpError) {
    predicate IsFailure() { Err? }

    function PropagateFailure<U>(): Result<U>
      requires Err?
    {
      Err(error)
    }

    function Extract(): T
      requires Ok?
    {
      value
    }
  }

  /** Python's `a or b` on optional strings: `None` and `""` are falsy. */
  function PyOr(a: Option<string>, b: Option<string>): (r: Option<string>)
    ensures a.Some? && a.value != "" ==> r == a
    ensures (a.None? || a.value == "") ==> r == b
  {
    if a.Some? && a.value != "" then a else b
  }

  /** Python's truthiness of an optional string. */
  predicate PyTruthy(a: Option<string>) {
    a.Some? && a.value != ""
  }

  /** Each element's contribution, concatenated in order. */
  function FlatMap<A, B>(f: A -> seq<B>, s: seq<A>): seq<B>
    decreases |s|
  {
    if |s| == 0 then [] else f(s[0]) + FlatMap(f, s[1..])
  }

  lemma {:induction false} FlatMapAppend<A, B>(f: A -> seq<B>, a: seq<A>, b: seq<A>)
    ensures FlatMap(f, a + b) == FlatMap(f, a) + FlatMap(f, b)
    decreases |a|
  {
    if |a| == 0 {
      assert a + b == b;
    } else {
      assert (a + b)[0] == a[0] && (a + b)[1..] == a[1..] + b;
      FlatMapAppend(f, a[1..], b);
      assert f(a[0]) + (FlatMap(f, a[1..]) + FlatMap(f, b)) == (f(a[0]) + FlatMap(f, a[1..])) + FlatMap(f, b);
    }
  }

  function Min(a: int, b: int): int { if a <= b then a else b }
  function Max(a: int, b: int): int { if a >= b then a else b }
}
