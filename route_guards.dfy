/**
 * The three route guards of the client: what each renders for a given
 * authentication state, read from the client auth store.
 */
module RouteGuards {
  import opened Wrappers
  import opened ClientAuth

  /** Render the wrapped page, navigate elsewhere, or fail reading a field of a null user. */
  datatype Decision = Render | Redirect(path: string) | TypeError

  /** Unauthenticated callers go to log in, unverified ones to verify their email. */
  function ProtectedRoute(isAuthenticated: bool, user: Option<ClientUser>): (d: Decision)
    ensures !isAuthenticated ==> d == Redirect("/login")
    ensures isAuthenticated && user.None? ==> d == TypeError
    ensures isAuthenticated && user.Some? ==>
              (d == Render <==> user.value.isVerified) &&
              (d == Redirect("/verify-email") <==> !user.value.isVerified)
  {
    if !isAuthenticated then Redirect("/login")
    else if user.None? then TypeError
    else if !user.value.isVerified then Redirect("/verify-email")
    else Render
  }

  /** Pages for signed-out visitors: an admin is sent to /admin, a verified USER to /dashboard. */
  function RedirectAuthenticatedUser(isAuthenticated: bool, user: Option<ClientUser>): (d: Decision)
    ensures !isAuthenticated ==> d == Render
    ensures isAuthenticated && user.None? ==> d == TypeError
    ensures isAuthenticated && user.Some? ==>
              (d == Redirect("/admin") <==> user.value.role == Some("ADMIN")) &&
              (d == Redirect("/dashboard") <==> user.value.role == Some("USER") && user.value.isVerified) &&
              (d == Render <==> user.value.role != Some("ADMIN") && !(user.value.role == Some("USER") && user.value.isVerified))
  {
    if !isAuthenticated then Render
    else if user.None? then TypeError
    else if user.value.role == Some("ADMIN") then Redirect("/admin")
    else if user.value.isVerified && user.value.role == Some("USER") then Redirect("/dashboard")
    else Render
  }

  /**
   * The admin guard tests `!user.role === "ADMIN"`: the negation binds first
   * and gives a boolean, which is never strictly equal to a string, so its
   * redirect to /login is never taken and the guard renders for every user it
   * can read; reading the role of a null user fails.
   */
  function AdminProtectedRoute(user: Option<ClientUser>): (d: Decision)
    ensures d != Redirect("/login")
    ensures d == TypeError <==> user.None?
  {
    if user.None? then TypeError else Render
  }

  /**
   * The /admin route: the admin guard nested inside the protected-route guard.
   * It sends the unauthenticated to /login and the unverified to
   * /verify-email, and shows the page to every verified user, whatever the role.
   */
  function AdminRoute(isAuthenticated: bool, user: Option<ClientUser>): (d: Decision)
    ensures !isAuthenticated ==> d == Redirect("/login")
    ensures isAuthenticated && user.None? ==> d == TypeError
    ensures isAuthenticated && user.Some? ==>
              (d == Render <==> user.value.isVerified) &&
              (d == Redirect("/verify-email") <==> !user.value.isVerified)
  {
    match ProtectedRoute(isAuthenticated, user)
    case Render => AdminProtectedRoute(user)
    case other => other
  }

  /** /admin is gated exactly like any protected page: authentication and verification, no role. */
  lemma AdminRouteIsOnlyProtected(isAuthenticated: bool, user: Option<ClientUser>)
    ensures AdminRoute(isAuthenticated, user) == ProtectedRoute(isAuthenticated, user)
  {
  }

  /** A verified USER is shown the admin page. */
  lemma VerifiedUserReachesAdmin(name: Option<string>)
    ensures AdminRoute(true, Some(ClientUser(name, Some("USER"), true))) == Render
  {
  }

  /** An authenticated, unverified USER still sees the signed-out pages. */
  lemma UnverifiedUserSeesSignedOutPages(name: Option<string>)
    ensures RedirectAuthenticatedUser(true, Some(ClientUser(name, Some("USER"), false))) == Render
  {
  }

  /** An admin is sent to /admin whether verified or not. */
  lemma AdminRedirectIgnoresVerification(name: Option<string>, verified: bool)
    ensures RedirectAuthenticatedUser(true, Some(ClientUser(name, Some("ADMIN"), verified))) == Redirect("/admin")
  {
  }
}
