# NOC approval workflow of the SMIT training-and-placement cell

This is a Dafny model of the core of the SMIT training-and-placement cell web application. The core has five parts:

- **The NOC workflow.** A student applies for a No Objection Certificate (NOC) for an internship. The student's mentor approves or rejects it. The head of department (HOD) then gives the final decision.
- **Evaluation.** A mentor scores a student's internship out of 100 and the total is turned into a letter grade.
- **Internship dates.** The completion date is fixed at sixteen weeks after joining.
- **Routing.** The request middleware, the root page and the login page each decide where a request goes.
- **The client session store.** It holds the logged-in user.

Each source file has one Dafny module:

| module | file | source |
|---|---|---|
| `DatabaseTypes` | `types.dfy` | the enumerations and the row shapes of `lib/types/database.types.ts` |
| `Utils` | `utils.dfy` | `lib/utils.ts`: duration, end date and grade |
| `NocWorkflow` | `noc_workflow.dfy` | the approval state machine shared by both dashboards: the patch each reviewer writes, the work queues, and an update applied by id |
| `Backend` | `backend.dfy` | the hosted store, as a class `Database` with one field per table, plus the select / `.single()` queries the pages run |
| `Auth` | `auth_store.dfy` | `lib/store/auth-store.ts`, as a class `AuthStore` |
| `TeacherDashboard` | `teacher_dashboard.dfy` | `app/dashboard/teacher/page.tsx` |
| `HodDashboard` | `hod_dashboard.dfy` | `app/dashboard/hod/page.tsx` |
| `StudentDashboard` | `student_dashboard.dfy` | `app/dashboard/student/page.tsx` |
| `Middleware` | `middleware.dfy` | `middleware.ts` |
| `HomePage` | `home_page.dfy` | `app/page.tsx` |
| `LoginPage` | `login_page.dfy` | `app/auth/login/page.tsx` |

Each page component with state becomes a class. The class has the component's state variables as fields. Its handlers are methods that modify the page and the `Database`.

Inputs stand in for everything the browser or the hosted service supplies:

- the logged-in user;
- the answers of the authentication provider;
- the current time, as an opaque timestamp string;
- the form fields;
- whether a write fails.

Marks are exact `real` numbers. Calendar dates are integer day numbers.

## How this model reads the code

In five places the code does something different from what a reader might expect. The model follows the code in each:

1. **No status guard.** Neither review handler checks an application's status before it writes the decision. A mentor can therefore reject an application the HOD has already approved (`NocWorkflow.HandlerHasNoStatusGuard`). The guard comes only from the work queues, which offer just `pending` applications to mentors and just `mentor_approved` ones to the HOD. `NocWorkflow.MentorQueueGuardsTransition` and `NocWorkflow.HodQueueGuardsTransition` prove that a decision on a queued application is a valid transition.
2. **Missing profile in the middleware.** A logged-in request for the login page whose user has no profile row is sent to `/dashboard/student`. The root page sends such a session to the login page instead (`HomePage.NoProfileRoutes`).
3. **The declaration is only recorded.** A NOC whose declaration box was not ticked is still inserted, with `declaration_accepted` false. The `required` attribute on the checkbox is enforced only by the browser.
4. **Marks are not range-checked.** The numeric inputs carry only a `max` attribute, and the handler adds whatever it is given. `TeacherDashboard.BuildEvaluation` proves the total lies in 0..100 only under the bounds the form advertises.
5. **Refetch without a user.** After a write, the NOC handlers fetch again with `user?.id`. With no user in the auth store that asks for `user_id` undefined, which the model takes to match no row: the refetch replaces nothing and the page keeps what it held (`TeacherDashboard.TeacherPage.HandleNocAction`, `StudentDashboard.StudentPage.HandleNocSubmit`).

## Model

| member | source | states |
|---|---|---|
| Utils.CalculateDuration | lib/utils.ts:8-11 | the duration is 16 weeks whatever the start date |
| Utils.CalculateEndDate | lib/utils.ts:13-17 | the end date lies exactly 7·weeks days after the start, and never before it for a non-negative week count |
| Utils.DefaultEndDate | lib/utils.ts:8-17 | with the default of 16 weeks, or the weeks `calculateDuration` gives, the end date is the start plus 112 days |
| Utils.CalculateGrade | lib/utils.ts:30-38 | the grade is always one of the seven grades F, D, C, B, B+, A, A+ |
| Utils.GradeIsThresholdCount | lib/utils.ts:30-38 | the grade's rank in F<D<C<B<B+<A<A+ equals the number of thresholds 40, 50, 60, 70, 80, 90 the marks reach (an independent definition of the cascade) |
| Utils.GradeBands | lib/utils.ts:30-38 | A+ iff marks ≥ 90, A iff 80 ≤ marks < 90, B+ iff [70,80), B iff [60,70), C iff [50,60), D iff [40,50), F iff marks < 40 |
| Utils.GradeBoundaries | lib/utils.ts:31-37 | 90 gives A+, 89 and 89.5 give A, 40 gives D, 39 and 39.5 give F: each lower bound is inclusive |
| Utils.GradeMonotone | lib/utils.ts:30-38 | higher marks never give a lower grade |
| NocWorkflow.Decision | app/dashboard/teacher/page.tsx:91-95 | the update object of a decision: a mentor sends a mentor patch and the HOD an HOD patch; the status is that reviewer's approved status on approve and rejected on reject; the remarks are the ones supplied; the time stamp is the current time on approve and null on reject |
| NocWorkflow.Step | app/dashboard/teacher/page.tsx:89-96 | a reviewer's decision sets the status (mentor_approved or hod_approved on approve, rejected on reject); it writes that reviewer's remarks and stamps its time only on approve; it leaves the other reviewer's fields, the ids, the purpose and the declaration unchanged |
| NocWorkflow.MentorQueue | app/dashboard/teacher/page.tsx:61-72 | the mentor's queue holds exactly the pending applications whose student row has this teacher as mentor |
| NocWorkflow.HodQueue | app/dashboard/hod/page.tsx:59-69 | the HOD's queue holds exactly the mentor-approved applications whose student row exists (inner join) |
| NocWorkflow.UpdateById | app/dashboard/hod/page.tsx:98-105 | an update by id keeps the table's length and order; it patches exactly the rows with that id and leaves every other row as it was |
| NocWorkflow.UpdateIsStep | app/dashboard/hod/page.tsx:98-105 | applying a reviewer's update patch to an application is the same as that reviewer's decision step |
| NocWorkflow.UpdatedRows | app/dashboard/hod/page.tsx:98-105 | a row of the updated table with another id was already in the table; a row with that id is an old row with that id with the patch applied (status, remarks and stamp), so it carries the patch's status |
| NocWorkflow.MentorQueueGuardsTransition | app/dashboard/teacher/page.tsx:71-96 | a decision on an application in a mentor's queue is a valid transition, pending to mentor_approved or rejected |
| NocWorkflow.HodQueueGuardsTransition | app/dashboard/hod/page.tsx:69-105 | a decision on an application in the HOD's queue is a valid transition, mentor_approved to hod_approved or rejected |
| NocWorkflow.TerminalInNoQueue | app/dashboard/hod/page.tsx:69 | an approved or rejected application is offered to no reviewer |
| NocWorkflow.HandlerHasNoStatusGuard | app/dashboard/teacher/page.tsx:89-96 | the mentor handler accepts an HOD-approved application and turns it into rejected, a transition the workflow does not allow |
| NocWorkflow.MentorDecisionLeavesMentorQueue | app/dashboard/teacher/page.tsx:89-105 | after the mentor's decision and the refetch, no application with that id is in the mentor's queue |
| NocWorkflow.HodDecisionLeavesAllQueues | app/dashboard/hod/page.tsx:98-116 | after the HOD's decision, no application with that id is in the HOD's queue or in any mentor's queue |
| NocWorkflow.ApprovalScenario | app/dashboard/hod/page.tsx:98-105 | a pending application in its mentor's queue, approved with remarks "ok", reaches the HOD's queue with the mentor's stamp; rejected there with "incomplete", it ends rejected with both remarks kept, no HOD stamp, and in no queue |
| Backend.Select | app/dashboard/teacher/page.tsx:48-56 | `.select().eq(...)` returns never more rows than the table holds, and a row is in the answer iff it is in the table and passes the filter |
| Backend.Single | app/dashboard/student/page.tsx:40-44 | `.single()` on an answer gives a row iff the answer has exactly one row, and that row comes from the answer |
| Backend.SelectSingleton | app/dashboard/student/page.tsx:40-44 | a filter keeps exactly one row iff exactly one position of the table passes it, and the row kept is the row at that position |
| Backend.Lookup | app/dashboard/student/page.tsx:40-44 | a `.single()` query gives a row iff exactly one position of the table passes the filter, and it is that row; with no row, either nothing passes or two distinct positions do |
| Backend.StudentOfUser | app/dashboard/student/page.tsx:40-44 | a row comes back iff exactly one student row belongs to the user, and it is that row; otherwise there is no such row or there are two |
| Backend.TeacherOfUser | app/dashboard/teacher/page.tsx:38-42 | a row comes back iff exactly one teacher row belongs to the user, and it is that row; otherwise there is no such row or there are two |
| Backend.InternshipOfStudent | app/dashboard/student/page.tsx:50-54 | a row comes back iff exactly one internship belongs to the student, and it is that row; otherwise there is none or there are two |
| Backend.NocsOfStudent | app/dashboard/student/page.tsx:60-63 | the answer holds exactly the applications of that student |
| Backend.NocOfStudent | app/dashboard/student/page.tsx:60-64 | a row comes back iff exactly one application belongs to the student, and it is that row; otherwise there is none or there are two |
| Backend.EvaluationOfStudent | app/dashboard/student/page.tsx:69-73 | a row comes back iff exactly one evaluation belongs to the student, and it is that row; otherwise there is none or there are two |
| Backend.StudentsOfMentor | app/dashboard/teacher/page.tsx:48-56 | the mentee list holds exactly the students whose mentor is this teacher |
| Backend.ProfileRoles | app/auth/login/page.tsx:36-39 | the role query on profiles keyed by id returns at most one role; it returns one iff that id has a profile, and it is that profile's role |
| Backend.Database.UpdateNoc | app/dashboard/hod/page.tsx:98-105 | `.update().eq('id', …)` replaces the applications table by its update by id; every other table is unchanged |
| Backend.Database.InsertNoc | app/dashboard/student/page.tsx:223-225 | an insert appends the row to the applications table; every other table is unchanged |
| Backend.Database.UpsertProfile | app/auth/login/page.tsx:79-88 | an upsert on conflict id makes the row the profile of its id; every other table is unchanged |
| Auth.AuthStore.constructor | lib/store/auth-store.ts:20 | the store starts with no user |
| Auth.AuthStore.SetUser | lib/store/auth-store.ts:21 | after `setUser(u)` the user is exactly `u` |
| Auth.AuthStore.Logout | lib/store/auth-store.ts:22 | after `logout()` there is no user |
| Auth.LogoutIsIdempotent | lib/store/auth-store.ts:22 | logging out twice leaves the same state as logging out once |
| Auth.SetUserNullIsLogout | lib/store/auth-store.ts:21-22 | `setUser(null)` leaves the same state as `logout()` |
| TeacherDashboard.MentorRemarks | app/dashboard/teacher/page.tsx:274-288 | typed remarks are sent as they are; if the box is empty, approve sends "" and reject sends "Rejected by mentor" |
| TeacherDashboard.EvaluationGrade | app/dashboard/teacher/page.tsx:130-136 | the page's own else-if grade cascade agrees with `calculateGrade` for every total |
| TeacherDashboard.BuildEvaluation | app/dashboard/teacher/page.tsx:125-151 | the evaluation record carries the three marks as entered, their sum as the total and the grade of that sum; under the form's bounds (30, 40, 30) the total lies in 0..100 |
| TeacherDashboard.EvaluationExample | app/dashboard/teacher/page.tsx:128-136 | marks 28, 35 and 25 total 88, which is graded A |
| TeacherDashboard.TeacherPage.constructor | app/dashboard/teacher/page.tsx:21-24 | the page starts with no teacher row and empty lists |
| TeacherDashboard.TeacherPage.FetchData | app/dashboard/teacher/page.tsx:34-76 | with exactly one teacher row for the user, the page shows that teacher, its mentees and its queue; otherwise the page is unchanged |
| TeacherDashboard.TeacherPage.Open | app/dashboard/teacher/page.tsx:26-32 | without a logged-in user the page redirects to the login page and is unchanged; with one it does not redirect and is left as the fetch for that user leaves it |
| TeacherDashboard.TeacherPage.HandleNocAction | app/dashboard/teacher/page.tsx:85-115 | a successful write applies the mentor's decision to the rows with that id and touches no other table; the refetch for the store's user then shows the teacher, the mentees and the queue, without that application, or leaves the page unchanged when there is no user or no teacher row; a failed write changes neither the store nor the page |
| TeacherDashboard.TeacherPage.HandleEvaluationSubmit | app/dashboard/teacher/page.tsx:117-151 | a record is sent iff the page has a teacher row; it names that teacher as evaluator and carries the student, the three marks as entered, the summed total, its grade, the feedback and the time |
| HodDashboard.HodRemarks | app/dashboard/hod/page.tsx:232-246 | typed remarks are sent as they are; if the box is empty, approve sends "Approved by HOD" and reject sends "Rejected by HOD", so the remarks are never empty |
| HodDashboard.StatusBadge | app/dashboard/hod/page.tsx:335-341 | the badge is green iff hod_approved, red iff rejected, and yellow iff the application is still under review |
| HodDashboard.HodPage.constructor | app/dashboard/hod/page.tsx:19-22 | the page starts with empty lists |
| HodDashboard.HodPage.FetchData | app/dashboard/hod/page.tsx:32-72 | the page shows every teacher, every student and exactly the HOD queue; the "Pending NOCs" count is that queue's length and never exceeds the number of applications |
| HodDashboard.HodPage.Open | app/dashboard/hod/page.tsx:24-30 | without a logged-in user the page redirects to the login page and is unchanged; with one it does not redirect and shows every teacher, every student and the HOD queue |
| HodDashboard.HodPage.HandleFinalNocApproval | app/dashboard/hod/page.tsx:81-126 | a successful write applies the HOD's decision to the rows with that id and touches no other table; the refetch shows every teacher, every student and the HOD queue, and that application is in neither the HOD's queue nor any mentor's queue; a failed write changes neither the store nor the page |
| StudentDashboard.NewNoc | app/dashboard/student/page.tsx:215-221 | a new application is pending; it references the student and the internship and carries the purpose; its declaration is accepted iff the checkbox sent "on"; it has no remarks or stamps |
| StudentDashboard.StipendOrZero | app/dashboard/student/page.tsx:179 | an empty or non-numeric stipend becomes 0 |
| StudentDashboard.BuildInternship | app/dashboard/student/page.tsx:163-180 | the completion date lies 112 days after joining and agrees with `calculateEndDate`; the duration is 16 weeks and agrees with `calculateDuration`; the stipend defaults to 0 |
| StudentDashboard.ShownRemark | app/dashboard/student/page.tsx:654-663 | a remark line is shown iff the remark is present and non-empty, and then it shows that remark |
| StudentDashboard.BlankApprovalRemarkIsHidden | app/dashboard/student/page.tsx:654-658 | a mentor approval sent with an empty remarks box stores the remark "" and the NOC tab shows no mentor remark line for it |
| StudentDashboard.NocTab | app/dashboard/student/page.tsx:647-704 | an existing application's status is shown, with each remark only when it is non-empty; otherwise the form is offered iff an internship is on record, and an instruction is shown iff there is none |
| StudentDashboard.StudentPage.constructor | app/dashboard/student/page.tsx:23-26 | the page starts with nothing loaded |
| StudentDashboard.StudentPage.FetchStudentData | app/dashboard/student/page.tsx:36-78 | the internship is fetched only for a student row, and the NOC and evaluation only when a student row and an internship exist; a fetch that is skipped leaves the old value |
| StudentDashboard.StudentPage.Open | app/dashboard/student/page.tsx:28-34 | without a logged-in user the page redirects to the login page and is unchanged; with one it does not redirect and is left as the fetch cascade for that user leaves it |
| StudentDashboard.StudentPage.HandleNocSubmit | app/dashboard/student/page.tsx:207-244 | the insert succeeds iff the page holds a student and an internship and the write works; it appends one pending application for them, changes no other table and refetches the page for the store's user, or leaves the page unchanged when there is no user; a failure changes neither the store nor the page; for a first application, the refetched NOC tab then shows it as pending with no remarks |
| Middleware.Decide | middleware.ts:61-80 | no session on a /dashboard path goes to the login page; a session on the login page goes to the first profile's dashboard, or to the student dashboard without one; everything else passes through |
| Middleware.Handle | middleware.ts:83-85 | a path outside /dashboard/… and /auth/… always passes through; inside them the middleware's decision applies |
| Middleware.RedirectTargets | middleware.ts:61-77 | every redirect goes to the login page or to one role's dashboard |
| Middleware.DashboardPathFacts | middleware.ts:61-74 | a dashboard route is under /dashboard and is not the login page |
| Middleware.RedirectTargetPassesThrough | middleware.ts:61-80 | no redirect loop: with the same session and profile, the request that follows a redirect passes through |
| HomePage.HomeRedirect | app/page.tsx:8-25 | a session whose profile role is student, teacher or hod goes to that dashboard; no session, or no profile row, goes to the login page |
| HomePage.HomeAgreesWithMiddleware | app/page.tsx:16-21 | for a session with a profile, the root page and the middleware send the user to the same dashboard |
| HomePage.NoProfileRoutes | app/page.tsx:25 | for a session without a profile, the root page sends the user to the login page while the middleware sends them to the student dashboard |
| LoginPage.ResolveLogin | app/auth/login/page.tsx:128-160 | a sign-in error ends with its message; a profile fetch error and an empty profile list each end with their own message; otherwise the user is logged in with the auth id, the auth email and the first profile's role, and goes to that role's dashboard |
| LoginPage.LoginNeverDefaultsRole | app/auth/login/page.tsx:142-152 | a logged-in user's role always comes from a profile row; with no rows login fails instead of defaulting a role |
| LoginPage.CheckUserRedirect | app/auth/login/page.tsx:30-44 | an already logged-in user is redirected iff a profile row exists, to the first profile's dashboard |
| LoginPage.SignUpProfile | app/auth/login/page.tsx:79-88 | the sign-up profile is keyed by the new user's id and carries the auth email, the chosen role and the full name |
| LoginPage.LoginForm.constructor | app/auth/login/page.tsx:19-22 | the form starts empty with the role selector on student |
| LoginPage.LoginForm.HandleLogin | app/auth/login/page.tsx:115-171 | the store receives exactly the resolved user on success and is left alone on every failure |
| LoginPage.LoginForm.HandleSignUp | app/auth/login/page.tsx:50-113 | when the provider returns a user, the profile is upserted (a failed write is not fatal), the fields are cleared and the notice depends on whether a session came back; a sign-up error or no user changes neither the store nor the form |
| LoginPage.SignUpThenLogin | app/auth/login/page.tsx:79-152 | after a sign-up whose profile was stored, that user's next login succeeds with the role chosen at sign-up |

## Left out

- Calls to the hosted service are not modelled as calls; each is reduced to its effect on the `Database` fields or to an input. This covers the client construction, the auth sign-in, sign-up, sign-out and session calls, row-level security, and a read that fails (the pages' `|| []` fallbacks).
- Double clicks and concurrent writes are not modelled. No two handlers interleave in the model.
- Rendering, toasts, the `loading` flags, `console.error` and `window.location.href` are left out. A `router.push` or `redirect` is returned as a target string.
- The middleware's cookie callbacks and its `response` reassignment are left out; they only carry the session.
- JavaScript `Date` parsing, time zones, ISO formatting and `formatDate` are left out: dates are day numbers and timestamps are opaque strings.
- `parseFloat` and NaN are not modelled: marks are exact reals, and a stipend field is either a number or absent.
- `cn`, the theme store and the store's localStorage persistence are left out; they have no behaviour.
- `handleLogout`'s sign-out call is left out; its `logout()` is `Auth.AuthStore.Logout`.
- `handleProfileUpdate` is left out; it only copies form fields into a student row.
- The HOD's details fetch before the update and its "email sent" message are left out: the fetched row is never used and no email is sent.
- The HOD's status label (`replace('_', ' ')`) and the embedded profile, internship and evaluation joins are left out; they are read only for display.
- TeacherDashboard.TeacherPage.HandleEvaluationSubmit: returns the record it sends; the upsert's effect on the evaluations table, and the refetch after it, are not modelled, because the table has no key the model could merge on.
- StudentDashboard.BuildInternship: only the record is modelled, not the upsert into the internships table. Only the company name is kept among the text columns, and the joining date is a day number, not the form's date string.
- HodDashboard.HodPage.PendingNocs: the count has no contract of its own; `HodDashboard.HodPage.FetchData` states its value.
