/**
 * The root page (`app/page.tsx`): it always redirects, to the dashboard of
 * the session's role or to the login page.
 */
module HomePage {
  import opened DatabaseTypes
  import Middleware

  /**
   * `HomePage`: `profileRole` is the role of the `.single()` profile query,
   * `None` when it returned no row. A `redirect` call ends the page, so the
   * first matching role wins and the login page is the fallback.
   */
  function HomeRedirect(hasSession: bool, profileRole: Option<UserRole>): (target: string)
    ensures hasSession && profileRole == Some(Student) ==> target == "/dashboard/student"
    ensures hasSession && profileRole == Some(Teacher) ==> target == "/dashboard/teacher"
    ensures hasSession && profileRole == Some(Hod) ==> target == "/dashboard/hod"
    ensures !hasSession || profileRole.None? ==> target == LoginPath
  {
    if hasSession && profileRole == Some(Student) then "/dashboard/student"
    else if hasSession && profileRole == Some(Teacher) then "/dashboard/teacher"
    else if hasSession && profileRole == Some(Hod) then "/dashboard/hod"
    else LoginPath
  }

  /** The root page sends a session with a profile to the same dashboard as the middleware does from the login page. */
  lemma HomeAgreesWithMiddleware(role: UserRole)
    ensures Middleware.Handle(true, LoginPath, Some([role])) == Middleware.Redirect(HomeRedirect(true, Some(role)))
  {
    assert Middleware.Matched(LoginPath) by {
      assert LoginPath[..|"/auth/"|] == "/auth/";
    }
  }

  /**
   * Without a profile the two disagree: the root page sends the session to
   * the login page, the middleware then sends it on to the student dashboard.
   */
  lemma NoProfileRoutes()
    ensures HomeRedirect(true, None) == LoginPath
    ensures Middleware.Handle(true, LoginPath, Some([])) == Middleware.Redirect(DashboardPath(Student))
  {
    assert Middleware.Matched(LoginPath) by {
      assert LoginPath[..|"/auth/"|] == "/auth/";
    }
  }
}
