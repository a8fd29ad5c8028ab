/**
 * The mentor's dashboard (`app/dashboard/teacher/page.tsx`): the
 * page state, the fetch of its lists, the mentor's NOC decision and the
 * evaluation record with its grade.
 */
module TeacherDashboard {
  import opened DatabaseTypes
  import opened Utils
  import opened NocWorkflow
  import opened Backend
  import opened Auth

  /** The remarks the Approve or Reject button sends: the typed text, or that button's default when the box is empty. */
  function MentorRemarks(typed: string, action: Action): (remarks: string)
    ensures typed != "" ==> remarks == typed
    ensures typed == "" && action == Approve ==> remarks == ""
    ensures typed == "" && action == Reject ==> remarks == "Rejected by mentor"
  {
    if typed != "" then typed
    else if action == Approve then ""
    else "Rejected by mentor"
  }

  /** The grade of `handleEvaluationSubmit`, computed by reassigning a variable through an else-if chain. */
  method EvaluationGrade(totalMarks: real) returns (grade: string)
    ensures grade == CalculateGrade(totalMarks)
    ensures grade in Grades
  {
    grade := "F";
    if totalMarks >= 90.0 {
      grade := "A+";
    } else if totalMarks >= 80.0 {
      grade := "A";
    } else if totalMarks >= 70.0 {
      grade := "B+";
    } else if totalMarks >= 60.0 {
      grade := "B";
    } else if totalMarks >= 50.0 {
      grade := "C";
    } else if totalMarks >= 40.0 {
      grade := "D";
    }
  }

  /**
   * The evaluation row sent to the store: the three marks as entered, their
   * sum as the total and the cascade's grade of that sum.
   */
  method BuildEvaluation(
    studentId: string, internshipId: string, evaluatorId: string,
    presentation: real, report: real, viva: real, feedback: Option<string>, now: string)
    returns (e: Evaluation)
    ensures e.studentId == studentId && e.internshipId == internshipId && e.evaluatorId == evaluatorId
    ensures e.presentationMarks == presentation && e.reportMarks == report && e.vivaMarks == viva
    ensures e.totalMarks == presentation + report + viva
    ensures e.grade == CalculateGrade(e.totalMarks)
    ensures 0.0 <= presentation <= 30.0 && 0.0 <= report <= 40.0 && 0.0 <= viva <= 30.0 ==>
      0.0 <= e.totalMarks <= 100.0
    ensures e.feedback == feedback && e.evaluatedAt == now
  {
    var totalMarks := presentation + report + viva;
    var grade := EvaluationGrade(totalMarks);
    e := Evaluation(studentId, internshipId, evaluatorId, presentation, report, viva, totalMarks, grade, feedback, now);
  }

  /** Marks 28, 35 and 25 total 88, which is an A and not an A+. */
  lemma EvaluationExample()
    ensures var total := 28.0 + 35.0 + 25.0; total == 88.0 && CalculateGrade(total) == "A"
  {
  }

  class TeacherPage {
    var teacherData: Option<TeacherRow>
    var students: seq<StudentRow>
    var nocApplications: seq<NocApplication>

    constructor ()
      ensures teacherData == None && students == [] && nocApplications == []
    {
      teacherData := None;
      students := [];
      nocApplications := [];
    }

    /** The page shows this teacher, the students this teacher mentors and this teacher's queue. */
    predicate ShowsMentor(t: TeacherRow, db: Database)
      reads this, db
    {
      && teacherData == Some(t)
      && students == StudentsOfMentor(db.students, t.id)
      && nocApplications == MentorQueue(db.nocs, db.students, t.id)
    }

    /**
     * `fetchData`: when the user has a teacher row, the page shows that
     * teacher's mentees and queue; without one, nothing is replaced.
     */
    method FetchData(userId: string, db: Database)
      modifies this
      ensures TeacherOfUser(db.teachers, userId).Some? ==> ShowsMentor(TeacherOfUser(db.teachers, userId).value, db)
      ensures TeacherOfUser(db.teachers, userId).None? ==> unchanged(this)
    {
      var teacher := TeacherOfUser(db.teachers, userId);
      if teacher.Some? {
        teacherData := teacher;
        students := StudentsOfMentor(db.students, teacher.value.id);
        nocApplications := MentorQueue(db.nocs, db.students, teacher.value.id);
      }
    }

    /**
     * The page's effect: without a logged-in user it sends the browser to the
     * login page and fetches nothing; otherwise it fetches for that user.
     */
    method Open(auth: AuthStore, db: Database) returns (redirect: Option<string>)
      modifies this
      ensures auth.user.None? ==> redirect == Some(LoginPath) && unchanged(this)
      ensures auth.user.Some? ==> redirect == None
      ensures auth.user.Some? && TeacherOfUser(db.teachers, auth.user.value.id).Some? ==>
        ShowsMentor(TeacherOfUser(db.teachers, auth.user.value.id).value, db)
      ensures auth.user.Some? && TeacherOfUser(db.teachers, auth.user.value.id).None? ==> unchanged(this)
    {
      if auth.user.None? {
        redirect := Some(LoginPath);
      } else {
        redirect := None;
        FetchData(auth.user.value.id, db);
      }
    }

    /**
     * `handleNOCAction`: the decision is written to every row with that id;
     * on success the lists are fetched again for the store's user, and the
     * decided application is no longer offered. Without a user the refetch
     * asks for `user_id` undefined, finds no teacher row and replaces
     * nothing. A failed write changes nothing.
     */
    method HandleNocAction(
      auth: AuthStore, db: Database, nocId: string, action: Action, remarks: string, now: string, writeFails: bool)
      returns (ok: bool)
      modifies this, db
      ensures ok == !writeFails
      ensures ok ==> db.nocs == UpdateById(old(db.nocs), nocId, Decision(Mentor, action, remarks, now))
      ensures ok && auth.user.Some? && TeacherOfUser(db.teachers, auth.user.value.id).Some? ==>
        && ShowsMentor(TeacherOfUser(db.teachers, auth.user.value.id).value, db)
        && NoRowWithId(nocApplications, nocId)
      ensures ok && (auth.user.None? || TeacherOfUser(db.teachers, auth.user.value.id).None?) ==> unchanged(this)
      ensures !ok ==> db.nocs == old(db.nocs) && unchanged(this)
      ensures db.students == old(db.students) && db.teachers == old(db.teachers) && db.profiles == old(db.profiles)
      ensures db.internships == old(db.internships) && db.evaluations == old(db.evaluations)
    {
      if writeFails {
        ok := false;
        return;
      }
      db.UpdateNoc(nocId, Decision(Mentor, action, remarks, now));
      ok := true;
      if auth.user.Some? {
        FetchData(auth.user.value.id, db);
        var t := TeacherOfUser(db.teachers, auth.user.value.id);
        if t.Some? {
          MentorDecisionLeavesMentorQueue(old(db.nocs), db.students, t.value.id, nocId, action, remarks, now);
        }
      }
    }

    /**
     * `handleEvaluationSubmit`: the record sent for a student of this
     * mentor. Without a teacher row, `teacherData.id` fails before anything
     * is sent.
     */
    method HandleEvaluationSubmit(
      studentId: string, internshipId: string,
      presentation: real, report: real, viva: real, feedback: Option<string>, now: string)
      returns (sent: Option<Evaluation>)
      ensures sent.Some? <==> teacherData.Some?
      ensures sent.Some? ==>
        && sent.value.evaluatorId == teacherData.value.id
        && sent.value.studentId == studentId && sent.value.internshipId == internshipId
        && sent.value.presentationMarks == presentation && sent.value.reportMarks == report
        && sent.value.vivaMarks == viva
        && sent.value.totalMarks == presentation + report + viva
        && sent.value.grade == CalculateGrade(presentation + report + viva)
        && sent.value.feedback == feedback && sent.value.evaluatedAt == now
    {
      if teacherData.None? {
        sent := None;
      } else {
        var e := BuildEvaluation(studentId, internshipId, teacherData.value.id, presentation, report, viva, feedback, now);
        sent := Some(e);
      }
    }
  }
}
