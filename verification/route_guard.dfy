/** The guard around protected pages: what it shows for the signed-in
    state the authentication hook reports. */
module RouteGuard {
  import opened Wrappers
  import opened Records
  import opened RegisterForm

  /** What the guard renders. */
  datatype Decision =
    | ShowLoading     // the loading indicator
    | RedirectLogin   // to `/login`, remembering the page
    | RedirectHome    // to `/`
    | ShowBlocked     // the "account blocked" notice
    | RenderChildren  // the protected page itself

  /** The hook's state: still loading, the signed-in user's id, and the
      user's profile document, absent when it could not be read. */
  datatype AuthState = AuthState(loading: bool, user: Option<string>, userData: Option<UserRecord>)

  /** `userData?.role === 'admin'`. */
  predicate IsAdmin(a: AuthState) {
    a.userData.Some? && a.userData.value.role == "admin"
  }

  /** `userData?.isBlocked`. */
  predicate IsBlocked(a: AuthState) {
    a.userData.Some? && a.userData.value.isBlocked
  }

  /** `ProtectedRoute`: loading first, then sign-in, then the admin role
      on admin pages, then the blocked flag. */
  function Decide(a: AuthState, adminOnly: bool): (d: Decision)
    ensures d == RenderChildren <==>
      !a.loading && a.user.Some? && (adminOnly ==> IsAdmin(a)) && !IsBlocked(a)
  {
    if a.loading then ShowLoading
    else if a.user.None? then RedirectLogin
    else if adminOnly && !IsAdmin(a) then RedirectHome
    else if IsBlocked(a) then ShowBlocked
    else RenderChildren
  }

  /** While loading nothing else is consulted; once loaded, a signed-out
      visitor always goes to the login page. */
  lemma LoadingThenLogin(a: AuthState, adminOnly: bool)
    ensures a.loading ==> Decide(a, adminOnly) == ShowLoading
    ensures !a.loading && a.user.None? ==> Decide(a, adminOnly) == RedirectLogin
  {
  }

  /** The role is checked before the blocked flag: a blocked non-admin on
      an admin page is sent home rather than shown the notice, and the
      notice is shown only to users who pass the role check. */
  lemma RoleBeforeBlocked(a: AuthState, adminOnly: bool)
    ensures !a.loading && a.user.Some? && adminOnly && !IsAdmin(a) ==> Decide(a, adminOnly) == RedirectHome
    ensures Decide(a, adminOnly) == ShowBlocked <==>
      !a.loading && a.user.Some? && (adminOnly ==> IsAdmin(a)) && IsBlocked(a)
  {
  }

  /** A signed-in user whose profile could not be read passes ordinary
      pages (nothing says they are blocked) and is sent home from admin
      pages. */
  lemma MissingProfile(uid: string, adminOnly: bool)
    ensures Decide(AuthState(false, Some(uid), None), adminOnly) == (if adminOnly then RedirectHome else RenderChildren)
  {
  }

  /** A freshly registered account opens customer pages and is sent home
      from admin pages. */
  lemma NewCustomerAccess(uid: string, p: Payload, now: real, adminOnly: bool)
    ensures var a := AuthState(false, Some(uid), Some(NewUserRecord(uid, p, now)));
      Decide(a, adminOnly) == (if adminOnly then RedirectHome else RenderChildren)
  {
  }
}
