/**
 * The client's loading flags (`useLoading`): one global flag and a map of
 * keyed flags, where a missing or empty key addresses the global flag.
 */
module Loading {
  import opened Common

  datatype LoadingState = LoadingState(global: bool, keyed: map<string, bool>)

  /** The hook's state before any call: the global flag at `initialState`, no keyed flag. */
  function InitialLoading(initialState: bool): (s: LoadingState)
    ensures s.global == initialState && s.keyed == map[]
  {
    LoadingState(initialState, map[])
  }

  /** Set the flag the key addresses: the keyed entry for a truthy key, the global flag otherwise. */
  function SetLoading(s: LoadingState, key: Option<string>, value: bool): (t: LoadingState)
    ensures PyTruthy(key) ==> t.global == s.global && t.keyed == s.keyed[key.value := value]
    ensures !PyTruthy(key) ==> t == s.(global := value)
  {
    if PyTruthy(key) then s.(keyed := s.keyed[key.value := value]) else s.(global := value)
  }

  /** `startLoading(key)`. */
  function StartLoading(s: LoadingState, key: Option<string>): LoadingState {
    SetLoading(s, key, true)
  }

  /** `stopLoading(key)`. */
  function StopLoading(s: LoadingState, key: Option<string>): LoadingState {
    SetLoading(s, key, false)
  }

  /** `isLoading(key)`: the keyed entry (false when unset) for a truthy key, else the global flag. */
  function IsLoading(s: LoadingState, key: Option<string>): (b: bool)
    ensures PyTruthy(key) ==> (b <==> key.value in s.keyed && s.keyed[key.value])
    ensures !PyTruthy(key) ==> b == s.global
  {
    if PyTruthy(key) then key.value in s.keyed && s.keyed[key.value] else s.global
  }

  /**
   * Starting and stopping read back as set and cleared; no other key and not
   * the global flag (for a key) move; and an empty key is the global flag,
   * exactly as a missing one.
   */
  lemma LoadingLaws(s: LoadingState, key: Option<string>, other: Option<string>)
    ensures IsLoading(StartLoading(s, key), key) && !IsLoading(StopLoading(s, key), key)
    ensures PyTruthy(other) && other != key ==> IsLoading(StartLoading(s, key), other) == IsLoading(s, other)
    ensures PyTruthy(other) && other != key ==> IsLoading(StopLoading(s, key), other) == IsLoading(s, other)
    ensures PyTruthy(key) ==> IsLoading(StartLoading(s, key), None) == IsLoading(s, None)
    ensures StartLoading(s, Some("")) == StartLoading(s, None)
    ensures IsLoading(s, Some("")) == IsLoading(s, None)
  {
  }

  /** How the wrapped function settles. */
  datatype Settled<T> = Returned(value: T) | Threw(reason: string)

  /** `withLoading(asyncFunc, key)`: start, run, and stop in `finally`, so the outcome passes through. */
  function WithLoading<T>(s: LoadingState, key: Option<string>, outcome: Settled<T>): (r: (Settled<T>, LoadingState))
    ensures r.0 == outcome
    ensures !IsLoading(r.1, key)
    ensures forall k :: PyTruthy(k) && k != key ==> IsLoading(r.1, k) == IsLoading(s, k)
  {
    var running := StartLoading(s, key);
    (outcome, StopLoading(running, key))
  }
}
