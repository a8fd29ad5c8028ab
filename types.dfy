/**
 * Entities of the placement-cell application: the three enumerations and the
 * row shapes of the tables that the NOC workflow reads and writes.
 * Only the columns the workflow uses are kept; timestamps are opaque strings
 * and calendar dates are integer day numbers.
 */
module DatabaseTypes {

  datatype Option<+T> = None | Some(value: T)

  /** `UserRole`: the role recorded in a profile. */
  datatype UserRole = Student | Teacher | Hod

  /** `InternshipType`: how the internship was arranged. */
  datatype InternshipType = SelfArranged | TnpArranged | SmitInhouse

  /** `NOCStatus`: the approval state of a NOC application. */
  datatype NocStatus = Pending | MentorApproved | HodApproved | Rejected

  /** The string the database stores for a role; it is also the last path segment of that role's dashboard. */
  function RoleName(role: UserRole): (s: string)
    ensures |s| > 0
  {
    match role
    case Student => "student"
    case Teacher => "teacher"
    case Hod => "hod"
  }

  /** The public login route. */
  const LoginPath: string := "/auth/login"

  /** `/dashboard/${role}`: the route of a role's dashboard. */
  function DashboardPath(role: UserRole): string
  {
    "/dashboard/" + RoleName(role)
  }

  /** A row of `profiles`: one per authenticated identity. */
  datatype Profile = Profile(id: string, email: string, role: UserRole, fullName: Option<string>)

  /** A row of `students`; the remaining columns are plain form fields. */
  datatype StudentRow = StudentRow(id: string, userId: string, mentorId: Option<string>)

  /** A row of `teachers`. */
  datatype TeacherRow = TeacherRow(id: string, userId: string)

  /** A row of `internships` as it is read back. */
  datatype InternshipRow = InternshipRow(
    id: string,
    studentId: string,
    internshipType: InternshipType,
    companyName: string,
    joiningDate: Option<int>,
    completionDate: Option<int>,
    durationWeeks: Option<int>,
    stipend: Option<real>)

  /** A row of `noc_applications`. */
  datatype NocApplication = NocApplication(
    id: string,
    studentId: string,
    internshipId: string,
    purpose: Option<string>,
    declarationAccepted: bool,
    status: NocStatus,
    mentorRemarks: Option<string>,
    hodRemarks: Option<string>,
    mentorApprovedAt: Option<string>,
    hodApprovedAt: Option<string>)

  /** A row of `evaluations` (its generated `id` plays no part in the workflow). */
  datatype Evaluation = Evaluation(
    studentId: string,
    internshipId: string,
    evaluatorId: string,
    presentationMarks: real,
    reportMarks: real,
    vivaMarks: real,
    totalMarks: real,
    grade: string,
    feedback: Option<string>,
    evaluatedAt: string)
}
