/**
 * Request validation shared by the schemas: a model is accepted when no
 * field breaks its bound, and a rejection (422) names the offending fields.
 */
module SchemaFields {
  import opened Common
  import opened Text

  /** `Optional[str] = Field(None, max_length=n)`: absent, or at most `n` characters. */
  predicate LenAtMost(o: Option<string>, n: nat) {
    o.None? || |o.value| <= n
  }

  /** The field's name when its check fails. */
  function Check(ok: bool, field: string): seq<string> {
    if ok then [] else [field]
  }

  /** The validated model, or a 422 listing the fields that failed. */
  function FromErrors<T>(errors: seq<string>, value: T): (r: Result<T>)
    ensures r.Ok? <==> errors == []
    ensures r.Ok? ==> r.value == value
    ensures r.Err? ==> r.error.Unprocessable?
  {
    if errors == [] then Ok(value) else Err(Unprocessable(Join(errors, ", ")))
  }
}
