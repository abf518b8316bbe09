/**
 * `hooks/useCheckSession`: reads the auth slice and redirects an already
 * authenticated user. It issues no request and dispatches nothing.
 */
module CheckSession {
  import opened Wrappers
  import opened AuthSlice
  import opened Fetch

  /** What one run of the hook produces: its return value and the redirect its effect performs. */
  datatype SessionCheck = SessionCheck(checkingSession: bool, redirect: Option<Navigation>)

  /** `redirectAuthenticatedTo` counts only when it is a non-empty string (JavaScript truthiness). */
  function UseCheckSession(auth: AuthState, redirectAuthenticatedTo: Option<string>): (r: SessionCheck)
    ensures !r.checkingSession
    ensures r.redirect.Some? <==>
      auth.isAuthenticated && redirectAuthenticatedTo.Some? && redirectAuthenticatedTo.value != ""
    ensures r.redirect.Some? ==> r.redirect.value == Replace(redirectAuthenticatedTo.value)
  {
    var target := redirectAuthenticatedTo.GetOr("");
    SessionCheck(false, if auth.isAuthenticated && target != "" then Some(Replace(target)) else None)
  }

  /** The hook's answer depends on the auth slice only through `isAuthenticated`. */
  lemma OnlyAuthenticationMatters(a: AuthState, b: AuthState, target: Option<string>)
    requires a.isAuthenticated == b.isAuthenticated
    ensures UseCheckSession(a, target) == UseCheckSession(b, target)
  {
  }
}
