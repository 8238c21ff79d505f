/** The per-route decision of `src/components/protected-route.tsx`, and how it
    fits with the session manager: the route table's protected paths, the
    agreement with the manager's own `/admin` redirect, and resuming the
    denied path after a successful login. */
module ProtectedRoute {
  import opened Wrappers
  import opened JsStrings
  import AuthContext

  /** What the guard renders: a spinner while the session is read, a
      `<Navigate>` to the login page carrying the current location, or the
      child routes. */
  datatype Outcome =
    | Pending
    | Redirect(to: string, from: string, replace: bool)
    | RenderOutlet

  /** `ProtectedRoute` at path `location`. */
  function Decide(isInitialized: bool, isAuthenticated: bool, location: string): (o: Outcome)
    // before initialization: pending, whatever the flag says
    ensures o.Pending? <==> !isInitialized
    // initialized and anonymous: replace-redirect to login, remembering where
    ensures o.Redirect? <==> isInitialized && !isAuthenticated
    ensures o.Redirect? ==> o.to == AuthContext.LoginPath && o.from == location && o.replace
    // initialized and authenticated: the protected content
    ensures o.RenderOutlet? <==> isInitialized && isAuthenticated
  {
    if !isInitialized then Pending
    else if !isAuthenticated then Redirect(AuthContext.LoginPath, location, true)
    else RenderOutlet
  }

  /** A path segment for a route parameter: non-empty, without `/`. */
  predicate IsSegment(s: string) {
    |s| > 0 && forall i :: 0 <= i < |s| ==> s[i] != '/'
  }

  /** `base` followed by one parameter segment (`/admin/edit-exam/:id`). */
  predicate MatchesParamRoute(path: string, base: string) {
    StartsWith(path, base) && IsSegment(path[|base|..])
  }

  /** The paths the route table nests under the guard. */
  predicate IsProtectedPath(path: string) {
    || path == "/admin"
    || path == AuthContext.DashboardPath
    || path == "/admin/create-exam"
    || MatchesParamRoute(path, "/admin/edit-exam/")
    || path == "/admin/manage-tests"
    || MatchesParamRoute(path, "/admin/manage-tests/")
  }

  lemma ParamRouteIsAdminRoute(path: string, base: string)
    requires MatchesParamRoute(path, base)
    requires StartsWith(base, AuthContext.AdminPrefix) && |base| > |AuthContext.LoginPath|
    ensures AuthContext.IsAdminRoute(path) && path != AuthContext.LoginPath
  {
    StartsWithTransitive(path, base, AuthContext.AdminPrefix);
  }

  /** Every route pattern nested under the guard, compared as declared
      (exact case), lies under `/admin` and is not the login page, so the
      manager's own effect covers it too. */
  lemma ProtectedPathsAreAdminRoutes(path: string)
    requires IsProtectedPath(path)
    ensures AuthContext.IsAdminRoute(path) && path != AuthContext.LoginPath
  {
    if MatchesParamRoute(path, "/admin/edit-exam/") {
      ParamRouteIsAdminRoute(path, "/admin/edit-exam/");
    } else if MatchesParamRoute(path, "/admin/manage-tests/") {
      ParamRouteIsAdminRoute(path, "/admin/manage-tests/");
    } else {
      assert path[..6] == AuthContext.AdminPrefix;
    }
  }

  /** On a path matching a guarded route pattern as declared (exact case),
      the guard redirects exactly when the manager's effect does, and both
      carry the same location. */
  lemma GuardAgreesWithAdminRouteEffect(st: AuthContext.AuthState, path: string)
    requires IsProtectedPath(path)
    ensures var o := Decide(st.isInitialized, st.isAuthenticated, path);
      var after := AuthContext.AdminRouteStep(st, path);
      (o.Redirect? <==> after.navigations != st.navigations)
      && (o.Redirect? ==>
            after.navigations == st.navigations + [AuthContext.Navigation(o.to, o.replace, Some(o.from))])
  {
    ProtectedPathsAreAdminRoutes(path);
    var after := AuthContext.AdminRouteStep(st, path);
    if !AuthContext.NeedsLoginRedirect(st.isInitialized, st.isAuthenticated, path) {
      assert after.navigations == st.navigations;
    } else {
      assert |after.navigations| == |st.navigations| + 1;
    }
  }

  /** The guard on guarded path `path` redirects to the login page carrying
      `path`, as the manager's effect does; a successful login handed the
      redirect's `from` then navigates back to exactly `path`, where the
      guard renders the protected content. */
  lemma RedirectThenLoginResumes(st: AuthContext.AuthState, path: string, email: string, password: string, now: int)
    requires IsProtectedPath(path)
    requires st.isInitialized && !st.isAuthenticated
    requires email != "" && password != ""
    requires AuthContext.CredentialsMatch(email, password)
    ensures Decide(st.isInitialized, st.isAuthenticated, path) == Redirect(AuthContext.LoginPath, path, true)
    ensures var from := Decide(st.isInitialized, st.isAuthenticated, path).from;
      var r := AuthContext.LoginStep(AuthContext.AdminRouteStep(st, path), email, password, now, Some(from));
      && r.Success?
      && r.value.navigations == st.navigations +
           [AuthContext.Navigation(AuthContext.LoginPath, true, Some(path)), AuthContext.Navigation(path, true, None)]
      && Decide(r.value.isInitialized, r.value.isAuthenticated, path) == RenderOutlet
  {
    assert path != "" && AuthContext.NeedsLoginRedirect(st.isInitialized, st.isAuthenticated, path) by {
      ProtectedPathsAreAdminRoutes(path);
    }
    AuthContext.RedirectedLoginResumes(st, path, email, password, now);
  }

  /** Without a prior redirect, a successful login lands on the dashboard. */
  lemma LoginWithoutRedirectLandsOnDashboard(st: AuthContext.AuthState, email: string, password: string, now: int)
    requires AuthContext.LoginStep(st, email, password, now, None).Success?
    ensures var after := AuthContext.LoginStep(st, email, password, now, None).value;
      after.navigations[|after.navigations| - 1].to == AuthContext.DashboardPath
  {
  }
}
