/** The route guard that runs before the pages `/`, `/login`, `/signup` and everything
    under `/dashboard`. Whether the `token` cookie is present and its signature checks out
    is one input: `tokenValid` is true exactly when the cookie exists and verifies. */
module RouteGuard {
  import opened Text

  datatype Decision = Next | Redirect(target: string)

  const Dashboard := "/dashboard"
  const Login := "/login"
  const Signup := "/signup"
  const Root := "/"

  /** `middleware` for a request to `pathname`. */
  function Decide(pathname: string, tokenValid: bool): Decision {
    if StartsWith(pathname, Dashboard) && !tokenValid then Redirect(Login)
    else if (pathname == Login || pathname == Signup) && tokenValid then Redirect(Dashboard)
    else if pathname == Root then (if tokenValid then Redirect(Dashboard) else Redirect(Login))
    else Next
  }

  /** The `config.matcher` patterns `/`, `/dashboard/:path*`, `/login` and `/signup`: the
      paths the guard runs on at all. */
  predicate Guarded(pathname: string) {
    pathname in {Root, Login, Signup, Dashboard} || StartsWith(pathname, Dashboard + "/")
  }

  /** What a request to `pathname` meets: the guard on matched paths, nothing elsewhere. */
  function Route(pathname: string, tokenValid: bool): Decision {
    if Guarded(pathname) then Decide(pathname, tokenValid) else Next
  }

  /** The matcher and the guard's own prefix test agree except on paths that merely begin
      with the letters `/dashboard` (such as `/dashboards`), which the matcher leaves
      unguarded. */
  lemma MatcherCoversDashboard(pathname: string, tokenValid: bool)
    ensures (pathname == Dashboard || StartsWith(pathname, Dashboard + "/")) ==> Route(pathname, tokenValid) == Decide(pathname, tokenValid)
    ensures Route("/dashboards", false) == Next && Decide("/dashboards", false) == Redirect(Login)
  {
    if StartsWith(pathname, Dashboard + "/") {
      assert pathname[..|Dashboard|] == (Dashboard + "/")[..|Dashboard|];
    }
    assert "/dashboards"[..11][10] != (Dashboard + "/")[10];
    assert StartsWith("/dashboards", Dashboard);
  }

  /** A page under the dashboard is reached only with a valid token. */
  lemma DashboardNeedsToken(pathname: string, tokenValid: bool)
    requires StartsWith(pathname, Dashboard)
    ensures Decide(pathname, tokenValid) == Next <==> tokenValid
  {
  }

  /** A signed-in user is sent from the sign-in and sign-up pages to the dashboard, a
      signed-out user sees them. */
  lemma AuthPagesOnlySignedOut(pathname: string, tokenValid: bool)
    requires pathname == Login || pathname == Signup
    ensures Decide(pathname, tokenValid) == (if tokenValid then Redirect(Dashboard) else Next)
  {
  }

  /** The root is never shown: it sends to the dashboard or to the sign-in page. */
  lemma RootAlwaysRedirects(tokenValid: bool)
    ensures Decide(Root, tokenValid) == Redirect(if tokenValid then Dashboard else Login)
  {
  }

  /** The guard only ever redirects to the sign-in page or the dashboard; any other path
      passes. */
  lemma RedirectTargets(pathname: string, tokenValid: bool)
    ensures Decide(pathname, tokenValid).Redirect? ==> Decide(pathname, tokenValid).target in {Login, Dashboard}
    ensures !StartsWith(pathname, Dashboard) && pathname !in {Login, Signup, Root} ==> Decide(pathname, tokenValid) == Next
    ensures Decide(pathname, tokenValid) == Redirect(Login) ==> !tokenValid
    ensures Decide(pathname, tokenValid) == Redirect(Dashboard) ==> tokenValid
  {
  }

  /** No redirect loop: with the same token, the page a redirect leads to is let through. */
  lemma NoRedirectLoop(pathname: string, tokenValid: bool)
    ensures Route(pathname, tokenValid).Redirect? ==> Route(Route(pathname, tokenValid).target, tokenValid) == Next
  {
    assert !StartsWith(Login, Dashboard);
    assert StartsWith(Dashboard, Dashboard);
  }
}
