/** The route guard run before matching pages: signed-out visitors are sent
    from the dashboard to the login page, signed-in users from the auth pages
    to the dashboard. */
module Proxy {
  import Text

  datatype Decision = Next | Redirect(pathname: string)

  const DASHBOARD: string := "/dashboard"
  const LOGIN: string := "/login"
  const AUTH_PAGES: seq<string> := ["/login", "/register", "/forgot"]

  /** `config.matcher`: `/dashboard/:path*` and the three auth pages. */
  predicate Matched(path: string) {
    path == DASHBOARD || Text.StartsWith(path, DASHBOARD + "/") || path in AUTH_PAGES
  }

  /** The decision of `proxy` for a path and whether `getUser` found a user. */
  function Decide(path: string, signedIn: bool): (d: Decision)
    ensures d == Redirect(LOGIN) <==> Text.StartsWith(path, DASHBOARD) && !signedIn
    ensures d == Redirect(DASHBOARD) <==> path in AUTH_PAGES && signedIn
    ensures d.Next? <==> !(Text.StartsWith(path, DASHBOARD) && !signedIn) && !(path in AUTH_PAGES && signedIn)
  {
    if Text.StartsWith(path, DASHBOARD) && !signedIn then Redirect(LOGIN)
    else if path in AUTH_PAGES && signedIn then Redirect(DASHBOARD)
    else Next
  }

  /** What a request sees: the guard runs only for matched paths. */
  function Guard(path: string, signedIn: bool): (d: Decision)
    ensures !Matched(path) ==> d.Next?
    ensures Matched(path) ==> d == Decide(path, signedIn)
  {
    if Matched(path) then Decide(path, signedIn) else Next
  }

  /** No auth page starts with "/dashboard", so the two redirect conditions
      never hold together, whatever the user. */
  lemma RedirectsExclusive(path: string, signedIn: bool)
    ensures !(Text.StartsWith(path, DASHBOARD) && path in AUTH_PAGES)
  {
    if path in AUTH_PAGES {
      assert path[1] != DASHBOARD[1];
    }
  }

  /** A redirect lands on a page that the same visitor is let through: the
      guard never redirects in a loop. */
  lemma RedirectTargetPasses(path: string, signedIn: bool)
    requires Guard(path, signedIn).Redirect?
    ensures Guard(Guard(path, signedIn).pathname, signedIn) == Next
  {
    var target := Guard(path, signedIn).pathname;
    if target == DASHBOARD {
      assert DASHBOARD !in AUTH_PAGES;
    } else {
      assert !Text.StartsWith(LOGIN, DASHBOARD);
    }
  }

  /** Among matched paths, starting with "/dashboard" means being a
      dashboard page. */
  lemma MatchedDashboard(path: string)
    requires Matched(path)
    ensures Text.StartsWith(path, DASHBOARD) <==> path == DASHBOARD || Text.StartsWith(path, DASHBOARD + "/")
  {
    if Text.StartsWith(path, DASHBOARD + "/") {
      assert path[..|DASHBOARD|] == (DASHBOARD + "/")[..|DASHBOARD|];
    }
    RedirectsExclusive(path, false);
  }
}
