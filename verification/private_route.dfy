/**
 * The route guard: a visitor without a token is sent to the login page,
 * a signed-in visitor whose role does not meet the route's requirement is
 * sent to the forbidden page, and everyone else sees the route.
 */
module PrivateRoute {
  import opened Common
  import opened ClientAuth
  import opened AuthSlice

  /** Where the guard sends the visitor. */
  datatype Route = ToLogin | ToForbidden | Children

  /**
   * `requiredRoles` demands something: it was given, and it is an array
   * (always truthy) or a non-empty role text.
   */
  predicate Demands(required: Option<Required>) {
    required.Some? && (required.value.One? ==> PyTruthy(required.value.role))
  }

  /** `PrivateRoute({ children, requiredRoles })` over the auth store's state. */
  function Guard(s: AuthState, required: Option<Required>): (r: Route)
    ensures r == ToLogin <==> !IsAuthenticated(s)
    ensures r == ToForbidden <==> IsAuthenticated(s) && Demands(required) && !HasPermission(RoleOf(s), required.value)
    ensures r == Children <==> IsAuthenticated(s) && (Demands(required) ==> HasPermission(RoleOf(s), required.value))
  {
    if !IsAuthenticated(s) then ToLogin
    else if Demands(required) && !HasPermission(RoleOf(s), required.value) then ToForbidden
    else Children
  }

  /**
   * The guard's verdicts for the cases the store goes through: a route without
   * a requirement (or with an empty one) admits every signed-in visitor; one
   * signed in whose profile is not loaded is refused every demanding route; an
   * administrator is admitted everywhere, even by a list that does not name the
   * role; and after a logout, however the call ended, every route sends the
   * visitor to log in.
   */
  lemma GuardLaws(s: AuthState, required: Option<Required>, succeeded: bool)
    ensures IsAuthenticated(s) ==> Guard(s, None) == Children && Guard(s, Some(One(Some("")))) == Children
    ensures IsAuthenticated(s) && RoleOf(s).None? && Demands(required) ==> Guard(s, required) == ToForbidden
    ensures IsAuthenticated(s) && RoleOf(s) == Some("admin") ==> Guard(s, required) == Children
    ensures Guard(Reduce(s, if succeeded then LogoutFulfilled else LogoutRejected), required) == ToLogin
  {
    ReducerLaws(s, LogoutFulfilled, succeeded);
  }

  /** Right after a successful login, before the user is fetched, a role-gated route is forbidden. */
  lemma FreshLoginForbidden(token: string, p: Profile, required: Required)
    requires token != "" && Demands(Some(required))
    ensures Guard(ReduceAll(Initial, [LoginPending, LoginFulfilled(Some(token))]), Some(required)) == ToForbidden
  {
    LoginThenRole(token, p);
  }
}
