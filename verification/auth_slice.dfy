/**
 * The client's authentication store: the reducer of the auth slice over
 * its four fields, and what `useAuth` derives from them.
 */
module AuthSlice {
  import opened Common

  /** The user record the slice stores; only the role is read elsewhere. */
  datatype Profile = Profile(id: nat, username: string, role: Option<string>)

  datatype AuthState = AuthState(token: Option<string>, user: Option<Profile>, loading: bool, error: Option<string>)

  /** The slice's `initialState`. */
  const Initial: AuthState := AuthState(None, None, false, None)

  /** The actions the reducer handles; any other leaves the state as it is. */
  datatype Action =
    | LoginPending
    | LoginFulfilled(accessToken: Option<string>)
    | LoginRejected(message: Option<string>)
    | FetchUserPending
    | FetchUserFulfilled(user: Option<Profile>)
    | FetchUserRejected(message: Option<string>)
    | LogoutPending
    | LogoutFulfilled
    | LogoutRejected
    | ClearError
    | SetUser(user: Option<Profile>)
    | OtherAction

  /** The slice's reducer. */
  function Reduce(s: AuthState, a: Action): (t: AuthState)
    ensures a.LoginPending? ==> t == s.(loading := true, error := None)
    ensures a.LoginFulfilled? ==> t == s.(loading := false, token := a.accessToken)
    ensures a.LoginRejected? || a.FetchUserRejected? ==> t == s.(loading := false, error := a.message)
    ensures a.FetchUserPending? || a.LogoutPending? ==> t == s.(loading := true)
    ensures a.FetchUserFulfilled? ==> t == s.(loading := false, user := a.user)
    ensures a.LogoutFulfilled? || a.LogoutRejected? ==> t == s.(loading := false, token := None, user := None)
    ensures a.ClearError? ==> t == s.(error := None)
    ensures a.SetUser? ==> t == s.(user := a.user)
    ensures a.OtherAction? ==> t == s
  {
    match a
    case LoginPending => s.(loading := true, error := None)
    case LoginFulfilled(tok) => s.(loading := false, token := tok)
    case LoginRejected(m) => s.(loading := false, error := m)
    case FetchUserPending => s.(loading := true)
    case FetchUserFulfilled(u) => s.(loading := false, user := u)
    case FetchUserRejected(m) => s.(loading := false, error := m)
    case LogoutPending => s.(loading := true)
    case LogoutFulfilled => s.(loading := false, token := None, user := None)
    case LogoutRejected => s.(loading := false, token := None, user := None)
    case ClearError => s.(error := None)
    case SetUser(u) => s.(user := u)
    case OtherAction => s
  }

  /** The state after a sequence of actions. */
  function ReduceAll(s: AuthState, actions: seq<Action>): AuthState
    decreases |actions|
  {
    if |actions| == 0 then s else ReduceAll(Reduce(s, actions[0]), actions[1..])
  }

  /** `useAuth().isAuthenticated`: `!!token`. */
  predicate IsAuthenticated(s: AuthState) {
    PyTruthy(s.token)
  }

  /** `useAuth().role`: `user?.role`. */
  function RoleOf(s: AuthState): Option<string> {
    if s.user.None? then None else s.user.value.role
  }

  /**
   * What the reducer keeps and clears: only a fulfilled login or a settled
   * logout moves the token (rejected requests never touch it); a logout clears
   * the session whether the server call succeeds or fails; fetching the user
   * does not clear an earlier error, unlike a new login.
   */
  lemma ReducerLaws(s: AuthState, a: Action, succeeded: bool)
    ensures !a.LoginFulfilled? && !a.LogoutFulfilled? && !a.LogoutRejected? ==> Reduce(s, a).token == s.token
    ensures var t := Reduce(s, if succeeded then LogoutFulfilled else LogoutRejected);
            !IsAuthenticated(t) && RoleOf(t).None? && !t.loading
    ensures Reduce(s, FetchUserPending).error == s.error
    ensures Reduce(s, LoginPending).error.None?
  {
  }

  /** A successful login stores the token but no user: until the user is fetched the role is missing. */
  lemma LoginThenRole(token: string, p: Profile)
    requires token != ""
    ensures var t := ReduceAll(Initial, [LoginPending, LoginFulfilled(Some(token))]);
            IsAuthenticated(t) && RoleOf(t).None? && !t.loading && t.error.None?
    ensures var t := ReduceAll(Initial, [LoginPending, LoginFulfilled(Some(token)), FetchUserPending, FetchUserFulfilled(Some(p))]);
            IsAuthenticated(t) && RoleOf(t) == p.role && !t.loading
  {
    var b := [LoginPending, LoginFulfilled(Some(token)), FetchUserPending, FetchUserFulfilled(Some(p))];
    var s1 := Reduce(Initial, b[0]);
    var s2 := Reduce(s1, b[1]);
    var s3 := Reduce(s2, b[2]);
    var s4 := Reduce(s3, b[3]);
    assert ReduceAll(s2, []) == s2;
    assert ReduceAll(s1, b[1..2]) == ReduceAll(s2, []);
    assert ReduceAll(Initial, b[..2]) == ReduceAll(s1, b[1..2]);
    assert b[..2] == [LoginPending, LoginFulfilled(Some(token))];
    assert ReduceAll(s4, []) == s4;
    assert ReduceAll(s3, b[3..]) == ReduceAll(s4, []);
    assert ReduceAll(s2, b[2..]) == ReduceAll(s3, b[3..]);
    assert ReduceAll(s1, b[1..]) == ReduceAll(s2, b[2..]);
    assert ReduceAll(Initial, b) == ReduceAll(s1, b[1..]);
  }
}
