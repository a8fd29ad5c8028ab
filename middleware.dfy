/**
 * The request middleware (`middleware.ts`): for a request it is configured
 * for, either a redirect or the request passes through unchanged.
 */
module Middleware {
  import opened DatabaseTypes

  datatype Response = PassThrough | Redirect(target: string)

  predicate StartsWith(s: string, prefix: string)
  {
    |prefix| <= |s| && s[..|prefix|] == prefix
  }

  /** A `base/:path*` pattern: the base itself or anything below it. */
  predicate UnderRoute(pathname: string, base: string)
  {
    pathname == base || StartsWith(pathname, base + "/")
  }

  /** `config.matcher`: the middleware runs only for `/dashboard/:path*` and `/auth/:path*`. */
  predicate Matched(pathname: string)
  {
    UnderRoute(pathname, "/dashboard") || UnderRoute(pathname, "/auth")
  }

  /**
   * The decision of `middleware`: `profiles` is the answer of the role query
   * (null when the query failed). It is only consulted for a logged-in
   * request to the login page.
   */
  function Decide(hasSession: bool, pathname: string, profiles: Option<seq<UserRole>>): (r: Response)
    ensures !hasSession && StartsWith(pathname, "/dashboard") ==> r == Redirect(LoginPath)
    ensures hasSession && pathname == LoginPath && profiles.Some? && |profiles.value| > 0 ==>
      r == Redirect(DashboardPath(profiles.value[0]))
    ensures hasSession && pathname == LoginPath && (profiles.None? || |profiles.value| == 0) ==>
      r == Redirect(DashboardPath(Student))
    ensures !(!hasSession && StartsWith(pathname, "/dashboard")) && !(hasSession && pathname == LoginPath) ==>
      r == PassThrough
  {
    if !hasSession && StartsWith(pathname, "/dashboard") then Redirect(LoginPath)
    else if hasSession && pathname == LoginPath then
      if profiles.Some? && |profiles.value| > 0 then Redirect(DashboardPath(profiles.value[0]))
      else Redirect(DashboardPath(Student))
    else PassThrough
  }

  /** A request as the framework handles it: outside the matcher the middleware is not run at all. */
  function Handle(hasSession: bool, pathname: string, profiles: Option<seq<UserRole>>): (r: Response)
    ensures !Matched(pathname) ==> r == PassThrough
    ensures Matched(pathname) ==> r == Decide(hasSession, pathname, profiles)
  {
    if Matched(pathname) then Decide(hasSession, pathname, profiles) else PassThrough
  }

  /** Every redirect goes to the login page or to one role's dashboard. */
  lemma RedirectTargets(hasSession: bool, pathname: string, profiles: Option<seq<UserRole>>)
    ensures Handle(hasSession, pathname, profiles).Redirect? ==>
      var t := Handle(hasSession, pathname, profiles).target;
      t == LoginPath || exists role :: t == DashboardPath(role)
  {
    var r := Handle(hasSession, pathname, profiles);
    if r.Redirect? && r.target != LoginPath {
      var role := if profiles.Some? && |profiles.value| > 0 then profiles.value[0] else Student;
      assert r.target == DashboardPath(role);
    }
  }

  /** A dashboard route is under "/dashboard" and not the login page. */
  lemma DashboardPathFacts(role: UserRole)
    ensures StartsWith(DashboardPath(role), "/dashboard")
    ensures UnderRoute(DashboardPath(role), "/dashboard")
    ensures DashboardPath(role) != LoginPath
  {
    var p := DashboardPath(role);
    assert p[..|"/dashboard"|] == "/dashboard";
    assert p[..|"/dashboard/"|] == "/dashboard/";
    assert p[1] == 'd' && LoginPath[1] == 'a';
  }

  /**
   * No redirect loop: with the same session and the same role answer, the
   * request that follows a redirect passes through.
   */
  lemma {:induction false} RedirectTargetPassesThrough(hasSession: bool, pathname: string, profiles: Option<seq<UserRole>>)
    requires Handle(hasSession, pathname, profiles).Redirect?
    ensures Handle(hasSession, Handle(hasSession, pathname, profiles).target, profiles) == PassThrough
  {
    var t := Handle(hasSession, pathname, profiles).target;
    if hasSession {
      var role := if profiles.Some? && |profiles.value| > 0 then profiles.value[0] else Student;
      assert t == DashboardPath(role);
      DashboardPathFacts(role);
    } else {
      assert t == LoginPath;
      assert !StartsWith(t, "/dashboard") by {
        assert t[1] == 'a';
      }
    }
  }
}
