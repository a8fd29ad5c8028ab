/**
 * The student's dashboard (`app/dashboard/student/page.tsx`): the chain of
 * fetches that fills the page, the NOC application a student submits, the
 * internship record with its completion date, and what the NOC tab shows.
 */
module StudentDashboard {
  import opened DatabaseTypes
  import opened Utils
  import opened Backend
  import opened Auth
  import NocWorkflow

  /** The value a checked checkbox submits. */
  const CheckedValue: string := "on"

  /** The row `handleNOCSubmit` inserts; the store assigns `id`. */
  function NewNoc(id: string, studentId: string, internshipId: string, purpose: string, declaration: Option<string>): (noc: NocApplication)
    ensures noc.status == Pending
    ensures noc.declarationAccepted <==> declaration == Some(CheckedValue)
    ensures noc.id == id && noc.studentId == studentId && noc.internshipId == internshipId
    ensures noc.purpose == Some(purpose)
    ensures noc.mentorRemarks.None? && noc.hodRemarks.None?
    ensures noc.mentorApprovedAt.None? && noc.hodApprovedAt.None?
  {
    NocApplication(id, studentId, internshipId, Some(purpose), declaration == Some(CheckedValue),
      Pending, None, None, None, None)
  }

  /** `parseFloat(stipend) || 0`: an empty or non-numeric field (NaN) becomes 0. */
  function StipendOrZero(parsed: Option<real>): (stipend: real)
    ensures parsed.None? ==> stipend == 0.0
    ensures parsed.Some? ==> stipend == parsed.value
  {
    match parsed
    case None => 0.0
    case Some(v) => v
  }

  /** The object `handleInternshipSubmit` upserts (text columns other than the company name are left out). */
  datatype InternshipRecord = InternshipRecord(
    studentId: Option<string>,
    internshipType: InternshipType,
    companyName: string,
    joiningDate: int,
    completionDate: int,
    durationWeeks: int,
    stipend: real)

  /**
   * The internship record: the completion date is a copy of the joining
   * date moved forward by sixteen weeks, the duration is the fixed policy.
   */
  method BuildInternship(
    studentId: Option<string>, internshipType: InternshipType, companyName: string,
    joiningDay: int, stipendField: Option<real>)
    returns (rec: InternshipRecord)
    ensures rec.completionDate == joiningDay + 112
    ensures rec.completionDate == CalculateEndDate(joiningDay, DefaultWeeks)
    ensures rec.durationWeeks == 16 && rec.durationWeeks == CalculateDuration(joiningDay)
    ensures rec.joiningDate == joiningDay && rec.studentId == studentId
    ensures rec.internshipType == internshipType && rec.companyName == companyName
    ensures rec.stipend == StipendOrZero(stipendField)
    ensures stipendField.None? ==> rec.stipend == 0.0
  {
    var completionDate := joiningDay;
    completionDate := completionDate + 16 * 7;
    rec := InternshipRecord(studentId, internshipType, companyName, joiningDay, completionDate, 16, StipendOrZero(stipendField));
  }

  /** `{remark && …}`: a remark line is rendered only for a non-empty string. */
  function ShownRemark(remark: Option<string>): (shown: Option<string>)
    ensures shown.Some? <==> remark.Some? && remark.value != ""
    ensures shown.Some? ==> shown == remark
  {
    if remark.Some? && remark.value != "" then remark else None
  }

  /** What the NOC tab shows; a missing remark is a line the tab leaves out. */
  datatype NocTabView =
    | StatusView(status: NocStatus, mentorRemarks: Option<string>, hodRemarks: Option<string>)
    | ApplicationForm
    | CompleteInternshipFirst

  /**
   * An existing application's status is shown with the remarks that are
   * non-empty; otherwise the form is offered only once an internship is on
   * record.
   */
  function NocTab(nocData: Option<NocApplication>, internshipData: Option<InternshipRow>): (v: NocTabView)
    ensures v.ApplicationForm? <==> nocData.None? && internshipData.Some?
    ensures v.CompleteInternshipFirst? <==> nocData.None? && internshipData.None?
    ensures v.StatusView? <==> nocData.Some?
    ensures nocData.Some? ==>
      v == StatusView(nocData.value.status, ShownRemark(nocData.value.mentorRemarks), ShownRemark(nocData.value.hodRemarks))
  {
    match nocData
    case Some(noc) => StatusView(noc.status, ShownRemark(noc.mentorRemarks), ShownRemark(noc.hodRemarks))
    case None => if internshipData.Some? then ApplicationForm else CompleteInternshipFirst
  }

  /**
   * A mentor approval sent with an empty remarks box stores the remark "",
   * and the tab then shows no mentor remark line.
   */
  lemma BlankApprovalRemarkIsHidden(app: NocApplication, internship: Option<InternshipRow>, now: string)
    ensures var after := NocWorkflow.Step(app, NocWorkflow.Mentor, NocWorkflow.Approve, "", now);
      && after.mentorRemarks == Some("")
      && NocTab(Some(after), internship) == StatusView(MentorApproved, None, ShownRemark(app.hodRemarks))
  {
  }

  class StudentPage {
    var studentData: Option<StudentRow>
    var internshipData: Option<InternshipRow>
    var nocData: Option<NocApplication>
    var evaluation: Option<Evaluation>

    constructor ()
      ensures studentData == None && internshipData == None && nocData == None && evaluation == None
    {
      studentData := None;
      internshipData := None;
      nocData := None;
      evaluation := None;
    }

    /**
     * What `fetchStudentData` leaves on the page: the student row; if there
     * is one, its internship; if there is that too, its NOC application and
     * its evaluation. A fetch that is skipped leaves what the page held before.
     */
    twostate predicate Refetched(userId: string, db: Database)
      reads this, db
    {
      var st := StudentOfUser(db.students, userId);
      if st.None? then
        unchanged(this)
      else
        var it := InternshipOfStudent(db.internships, st.value.id);
        && studentData == st
        && internshipData == it
        && (it.Some? ==> nocData == NocOfStudent(db.nocs, st.value.id)
                         && evaluation == EvaluationOfStudent(db.evaluations, st.value.id))
        && (it.None? ==> nocData == old(nocData) && evaluation == old(evaluation))
    }

    /** `fetchStudentData`. */
    method FetchStudentData(userId: string, db: Database)
      modifies this
      ensures Refetched(userId, db)
    {
      var student := StudentOfUser(db.students, userId);
      if student.Some? {
        studentData := student;
        var internship := InternshipOfStudent(db.internships, student.value.id);
        internshipData := internship;
        if internship.Some? {
          nocData := NocOfStudent(db.nocs, student.value.id);
          evaluation := EvaluationOfStudent(db.evaluations, student.value.id);
        }
      }
    }

    /**
     * The page's effect: without a logged-in user it sends the browser to the
     * login page and fetches nothing; otherwise it fetches for that user.
     */
    method Open(auth: AuthStore, db: Database) returns (redirect: Option<string>)
      modifies this
      ensures auth.user.None? ==> redirect == Some(LoginPath) && unchanged(this)
      ensures auth.user.Some? ==> redirect == None && Refetched(auth.user.value.id, db)
    {
      if auth.user.None? {
        redirect := Some(LoginPath);
      } else {
        redirect := None;
        FetchStudentData(auth.user.value.id, db);
      }
    }

    /**
     * `handleNOCSubmit`: inserts a pending application for the student and
     * internship on the page, then fetches again for the store's user.
     * Without both rows on the page the ids are missing and the store
     * refuses the insert. Without a user the refetch asks for `user_id`
     * undefined, finds no student row and replaces nothing.
     */
    method HandleNocSubmit(
      auth: AuthStore, db: Database, newId: string, purpose: string, declaration: Option<string>, writeFails: bool)
      returns (ok: bool)
      modifies this, db
      ensures ok <==> old(studentData).Some? && old(internshipData).Some? && !writeFails
      ensures ok ==>
        db.nocs == old(db.nocs) + [NewNoc(newId, old(studentData).value.id, old(internshipData).value.id, purpose, declaration)]
      ensures ok ==> db.nocs[|db.nocs| - 1].status == Pending
      ensures !ok ==> db.nocs == old(db.nocs)
      ensures db.students == old(db.students) && db.teachers == old(db.teachers) && db.profiles == old(db.profiles)
      ensures db.internships == old(db.internships) && db.evaluations == old(db.evaluations)
      ensures !ok ==> unchanged(this)
      ensures ok && auth.user.Some? ==> Refetched(auth.user.value.id, db)
      ensures ok && auth.user.None? ==> unchanged(this)
      ensures ok && auth.user.Some? && FirstApplication(auth.user.value.id, db, old(studentData), old(db.nocs)) ==>
        && nocData == Some(NewNoc(newId, old(studentData).value.id, old(internshipData).value.id, purpose, declaration))
        && NocTab(nocData, internshipData) == StatusView(Pending, None, None)
    {
      if studentData.None? || internshipData.None? || writeFails {
        ok := false;
        return;
      }
      var row := NewNoc(newId, studentData.value.id, internshipData.value.id, purpose, declaration);
      db.InsertNoc(row);
      ok := true;
      if auth.user.Some? {
        FetchStudentData(auth.user.value.id, db);
        NocsOfStudentAfterInsert(old(db.nocs), row, row.studentId);
      }
    }
  }

  /**
   * The page's student row is still the user's only student row, that
   * student has exactly one internship, and no application of that student
   * was on record.
   */
  predicate FirstApplication(userId: string, db: Database, page: Option<StudentRow>, nocsBefore: seq<NocApplication>)
    reads db
  {
    && page.Some?
    && StudentOfUser(db.students, userId) == page
    && InternshipOfStudent(db.internships, page.value.id).Some?
    && NocsOfStudent(nocsBefore, page.value.id) == []
  }
}
