/**
 * The client's retrying request (`useRequest().run`): how many times the
 * request is made, the exponential delays between attempts, and the hook
 * state it leaves behind. The request is given as the outcome of each
 * attempt; timers and notices are left out.
 */
module RetryRequest {
  import opened Common
  import opened ErrorHandler

  /** The outcome of one call of the request function. */
  datatype Outcome<T> = Success(value: T) | Failure(err: Option<ClientError>)

  /** How `run` settles: it returns the value or rethrows an error (`None` stands for a thrown `null`). */
  datatype Settled<T> = Resolved(value: T) | Thrown(err: Option<ClientError>)

  /** The hook state `run` writes: `loading`, `error` and `retryCount`. */
  datatype HookState = HookState(loading: bool, error: Option<ClientError>, retryCount: nat)

  /** The hook's options and their defaults: three retries, one second apart at first. */
  datatype RequestOptions = RequestOptions(maxRetries: int, retryDelay: nat)

  const DefaultOptions: RequestOptions := RequestOptions(3, 1000)

  function Pow2(k: nat): (p: nat)
    ensures p >= 1
  {
    if k == 0 then 1 else 2 * Pow2(k - 1)
  }

  /** The delay before retry `k` (counted from 1): `retryDelay * 2^(k-1)`. */
  function RetryDelay(retryDelay: nat, k: nat): nat
    requires k >= 1
  {
    retryDelay * Pow2(k - 1)
  }

  /**
   * `run(requestFn, { showLoading, retry })`, with attempt `k` (from 0)
   * giving `attempt(k)`. Returns how it settles, how many calls were
   * made, the delays slept between them and the final hook state.
   */
  method Run<T>(opts: RequestOptions, attempt: nat -> Outcome<T>, retry: bool, showLoading: bool, loading0: bool)
    returns (r: Settled<T>, calls: nat, delays: seq<nat>, st: HookState)
    ensures calls <= Max(0, (if retry then opts.maxRetries else 0) + 1)
    ensures !retry ==> calls == 1
    ensures calls == 0 <==> retry && opts.maxRetries < 0
    ensures calls == 0 ==> r == Thrown(None) && st.retryCount == 0
    ensures forall k :: 0 <= k < calls - 1 ==> attempt(k).Failure? && IsRetryableError(attempt(k).err)
    ensures r.Resolved? ==> calls >= 1 && attempt(calls - 1) == Success(r.value) && st.retryCount == calls - 1
    ensures (r.Thrown? && calls >= 1) ==>
              attempt(calls - 1) == Failure(r.err) && st.retryCount == calls
              && (!retry || calls > opts.maxRetries || !IsRetryableError(r.err))
    ensures (retry && opts.maxRetries >= 0 && forall k: nat :: attempt(k).Failure? && IsRetryableError(attempt(k).err))
            ==> r.Thrown? && calls == opts.maxRetries + 1
    ensures |delays| == Max(0, calls - 1)
    ensures forall k :: 0 <= k < |delays| ==> delays[k] == RetryDelay(opts.retryDelay, k + 1)
    ensures st.error == (if r.Thrown? then r.err else None)
    ensures st.loading == (if showLoading then false else loading0)
  {
    st := HookState(if showLoading then true else loading0, None, 0);
    var lastError: Option<ClientError> := None;
    var attempts: nat := 0;
    calls := 0;
    delays := [];
    var bound := if retry then opts.maxRetries else 0;
    while attempts <= bound
      invariant calls == attempts && st.retryCount == attempts
      invariant attempts <= Max(0, bound + 1)
      invariant retry || attempts == 0
      invariant attempts > 0 ==> attempts <= opts.maxRetries
      invariant |delays| == attempts
      invariant attempts == 0 ==> lastError.None?
      invariant forall k :: 0 <= k < attempts ==> attempt(k).Failure? && IsRetryableError(attempt(k).err)
      invariant forall k :: 0 <= k < |delays| ==> delays[k] == RetryDelay(opts.retryDelay, k + 1)
      invariant st.error.None? && st.loading == (if showLoading then true else loading0)
      decreases bound + 1 - attempts
    {
      var o := attempt(attempts);
      calls := calls + 1;
      if o.Success? {
        st := st.(loading := if showLoading then false else st.loading);
        r := Resolved(o.value);
        return;
      }
      lastError := o.err;
      attempts := attempts + 1;
      st := st.(retryCount := attempts);
      if retry && attempts <= opts.maxRetries && IsRetryableError(o.err) {
        delays := delays + [RetryDelay(opts.retryDelay, attempts)];
      } else {
        st := st.(error := o.err, loading := if showLoading then false else st.loading);
        r := Thrown(o.err);
        return;
      }
    }
    st := st.(error := lastError, loading := if showLoading then false else st.loading);
    r := Thrown(lastError);
  }
}
