/** The two route guards and the route table that applies them. Each guard
    is a total decision over the session view and the requested path. */
module Guards {
  import opened Basics
  import opened Text
  import Identity

  const Home := "/"
  const SignIn := "/auth"
  const VerifyEmail := "/verify-email"

  /** What a guard renders: the spinner, a replacing redirect (optionally
      remembering the requested path), or the protected page. */
  datatype Outcome = Wait | Redirect(to: string, from: Option<string>) | Render

  /** The fields of the session context a guard reads. */
  datatype GuardView = GuardView(
    loading: bool,
    signedIn: bool,
    isSuspended: bool,
    isEmailVerified: bool,
    isAdmin: bool)

  function ViewOf(s: Identity.AuthState): GuardView {
    GuardView(s.loading, s.user.Some?, s.isSuspended, s.isEmailVerified, s.isAdmin)
  }

  /** The guard of signed-in pages. */
  function RequireAuth(v: GuardView, path: string): (o: Outcome)
    ensures v.loading ==> o == Wait
    ensures o == Render <==> !v.loading && !v.isSuspended && v.signedIn && v.isEmailVerified
    ensures !v.loading && v.isSuspended ==> o == Redirect(Home, None)
    ensures o.Redirect? && o.to != Home ==> o.from == Some(path)
    ensures o.Redirect? && o.to == SignIn <==> !v.loading && !v.isSuspended && !v.signedIn
    ensures !v.loading && !v.isSuspended && !v.signedIn ==> o == Redirect(SignIn, Some(path))
    ensures !v.loading && !v.isSuspended && v.signedIn && !v.isEmailVerified ==> o == Redirect(VerifyEmail, Some(path))
    ensures o.Redirect? && o.to == Home ==> o.from.None?
  {
    if v.loading then Wait
    else if v.isSuspended then Redirect(Home, None)
    else if !v.signedIn then Redirect(SignIn, Some(path))
    else if !v.isEmailVerified then Redirect(VerifyEmail, Some(path))
    else Render
  }

  /** The guard of the admin console. */
  function RequireAdmin(v: GuardView, path: string): (o: Outcome)
    ensures v.loading ==> o == Wait
    ensures o == Render <==> !v.loading && !v.isSuspended && v.signedIn && v.isEmailVerified && v.isAdmin
    ensures o.Redirect? && o.to == Home ==> o.from.None?
    ensures o.Redirect? && o.to == VerifyEmail ==> o.from.None?
    ensures o.Redirect? && o.from.Some? ==> o.to == SignIn && o.from == Some(path)
    ensures !v.loading && v.isSuspended ==> o == Redirect(Home, None)
    ensures !v.loading && !v.isSuspended && !v.signedIn ==> o == Redirect(SignIn, Some(path))
    ensures !v.loading && !v.isSuspended && v.signedIn && !v.isEmailVerified ==> o == Redirect(VerifyEmail, None)
    ensures !v.loading && !v.isSuspended && v.signedIn && v.isEmailVerified && !v.isAdmin ==> o == Redirect(Home, None)
  {
    if v.loading then Wait
    else if v.isSuspended then Redirect(Home, None)
    else if !v.signedIn then Redirect(SignIn, Some(path))
    else if !v.isEmailVerified then Redirect(VerifyEmail, None)
    else if !v.isAdmin then Redirect(Home, None)
    else Render
  }

  /** Whatever the other flags, a guard waits while the session is loading. */
  lemma LoadingAlwaysWaits(v: GuardView, path: string)
    requires v.loading
    ensures RequireAuth(v, path) == Wait && RequireAdmin(v, path) == Wait
  {
  }

  /** Suspension is checked before presence of a user: a suspended flag with
      nobody signed in still redirects home. */
  lemma SuspensionBeforeSignIn(v: GuardView, path: string)
    requires !v.loading && v.isSuspended && !v.signedIn
    ensures RequireAuth(v, path) == Redirect(Home, None)
    ensures RequireAdmin(v, path) == Redirect(Home, None)
  {
  }

  /** The admin guard is the signed-in guard with one more check: it renders
      exactly when the signed-in guard renders and the user is admin. */
  lemma AdminRendersIffAuthRendersAndAdmin(v: GuardView, path: string)
    ensures RequireAdmin(v, path) == Render <==> RequireAuth(v, path) == Render && v.isAdmin
  {
  }

  /** Until the admin check the two guards agree, except that the admin
      guard's verify-email redirect forgets the requested path. */
  lemma GuardsAgreeBeforeAdminCheck(v: GuardView, path: string)
    requires RequireAuth(v, path) != Render
    ensures RequireAuth(v, path).Redirect? && RequireAuth(v, path).to == VerifyEmail
            ==> RequireAdmin(v, path) == Redirect(VerifyEmail, None)
    ensures !(RequireAuth(v, path).Redirect? && RequireAuth(v, path).to == VerifyEmail)
            ==> RequireAdmin(v, path) == RequireAuth(v, path)
  {
  }

  // ---------------------------------------------------------------------
  // Route table

  datatype GuardKind = AuthOnly | AdminOnly

  /** Drops every trailing '/': the route matcher accepts any number of them
      after a route's path. */
  function DropTrailingSlashes(p: string): (r: string)
    ensures |r| <= |p| && r == p[..|r|]
    ensures forall i | |r| <= i < |p| :: p[i] == '/'
    ensures |r| > 0 ==> r[|r| - 1] != '/'
  {
    if |p| > 0 && p[|p| - 1] == '/' then DropTrailingSlashes(p[..|p| - 1]) else p
  }

  /** The form in which the route matcher compares a location with a route's
      path: without trailing slashes, and ignoring the letter case of ASCII
      letters (routes are not declared case-sensitive). */
  function RouteKey(path: string): string {
    Lower(DropTrailingSlashes(path))
  }

  /** Which guard wraps which route. */
  function GuardOf(path: string): (g: Option<GuardKind>)
    ensures g == Some(AuthOnly) <==> RouteKey(path) == "/checkout" || RouteKey(path) == "/orders"
    ensures g == Some(AdminOnly) <==> RouteKey(path) == "/admin"
  {
    var key := RouteKey(path);
    if key == "/checkout" || key == "/orders" then Some(AuthOnly)
    else if key == "/admin" then Some(AdminOnly)
    else None
  }

  /** What navigating to `path` shows. */
  function Navigate(v: GuardView, path: string): (o: Outcome)
    ensures GuardOf(path).None? ==> o == Render
    ensures RouteKey(path) == "/checkout" || RouteKey(path) == "/orders" ==> o == RequireAuth(v, path)
    ensures RouteKey(path) == "/admin" ==> o == RequireAdmin(v, path)
    ensures RouteKey(path) == "/admin" && o == Render ==> v.isAdmin && !v.isSuspended && v.signedIn && v.isEmailVerified
  {
    match GuardOf(path)
    case None => Render
    case Some(AuthOnly) => RequireAuth(v, path)
    case Some(AdminOnly) => RequireAdmin(v, path)
  }

  /** Letter case and trailing slashes do not get around the admin guard. */
  lemma AdminPathVariantsAreGuarded(v: GuardView)
    ensures Navigate(v, "/Admin") == RequireAdmin(v, "/Admin")
    ensures Navigate(v, "/admin/") == RequireAdmin(v, "/admin/")
    ensures Navigate(v, "/ADMIN//") == RequireAdmin(v, "/ADMIN//")
  {
    assert DropTrailingSlashes("/Admin") == "/Admin";
    assert DropTrailingSlashes("/admin/") == "/admin";
    assert DropTrailingSlashes("/ADMIN//") == "/ADMIN";
    assert Lower("/Admin") == "/admin";
    assert Lower("/ADMIN") == "/admin";
    assert Lower("/admin") == "/admin";
  }

  // ---------------------------------------------------------------------
  // Guards over the session the context actually produces

  /** In every state the context can reach, the admin console renders only
      for a signed-in, verified user whose session has `isAdmin` set and
      `isSuspended` clear. The flag is the session's, not a fresh reading of
      the current user's role: after a direct switch of account it may still
      be the previous user's (`Identity.DirectSwitchKeepsAdminFlag`). */
  lemma AdminConsoleNeedsAdmin(events: seq<Identity.Event>, allowList: seq<string>, path: string)
    ensures
      var s := Identity.Run(Identity.Initial, events, allowList);
      Navigate(ViewOf(s), path) == Render && RouteKey(path) == "/admin" ==>
        s.user.Some? && s.user.value.emailVerified && s.isAdmin && !s.isSuspended
  {
    Identity.ReachableIsCoherent(events, allowList);
  }

  /** Before any session event the guards only wait. */
  lemma MountWaits(path: string)
    ensures RequireAuth(ViewOf(Identity.Initial), path) == Wait
    ensures RequireAdmin(ViewOf(Identity.Initial), path) == Wait
  {
  }

  /** After a suspended user logs out, the signed-in guard still sends the
      visitor home rather than to the sign-in page, because the suspension
      flag survives the logout. */
  lemma SuspendedLogoutGoesHome(s: Identity.AuthState, path: string)
    requires s.isSuspended
    ensures RequireAuth(ViewOf(Identity.OnAuthChanged(s, None)), path) == Redirect(Home, None)
  {
  }
}
