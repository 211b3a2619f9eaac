/**
 * The guard around the admin pages: what renders for each combination of
 * the authentication state and the admin-role check, and when the guard
 * sends the visitor to the login page.
 */
module AdminRoute {
  import opened Wrappers

  datatype Render = LoadingScreen | Nothing | Forbidden | Children

  /** A navigation the guard performs. */
  datatype Navigation = Navigation(path: string, replace: bool)

  /** The redirect effect: once authentication has settled with no user, replace the location with /auth. */
  function Redirect(authLoading: bool, user: Option<string>): (nav: Option<Navigation>)
    ensures nav.Some? <==> !authLoading && user.None?
    ensures nav.Some? ==> nav.value == Navigation("/auth", true)
  {
    if !authLoading && user.None? then Some(Navigation("/auth", true)) else None
  }

  /** The guard's render decision, checked in the source's order. */
  function Guard(authLoading: bool, adminLoading: bool, user: Option<string>, isAdmin: bool): (r: Render)
    ensures r == LoadingScreen <==> authLoading || adminLoading
    ensures r == Nothing <==> !authLoading && !adminLoading && user.None?
    ensures r == Forbidden <==> !authLoading && !adminLoading && user.Some? && !isAdmin
    ensures r == Children <==> !authLoading && !adminLoading && user.Some? && isAdmin
  {
    if authLoading || adminLoading then LoadingScreen
    else if user.None? then Nothing
    else if !isAdmin then Forbidden
    else Children
  }

  /** Whenever the guard renders nothing, it is also redirecting to the login page. */
  lemma NothingMeansRedirect(authLoading: bool, adminLoading: bool, user: Option<string>, isAdmin: bool)
    ensures Guard(authLoading, adminLoading, user, isAdmin) == Nothing ==> Redirect(authLoading, user).Some?
  {
  }

  /** The protected page is never shown without a user, whatever the role check said. */
  lemma NoChildrenWithoutUser(authLoading: bool, adminLoading: bool, isAdmin: bool)
    ensures Guard(authLoading, adminLoading, None, isAdmin) != Children
  {
  }
}
