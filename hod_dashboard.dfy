/**
 * The head of department's dashboard (`app/dashboard/hod/page.tsx`): the
 * page state, the fetch of its lists, the final NOC decision, the default
 * remarks of its buttons and the colour of a status badge.
 */
module HodDashboard {
  import opened DatabaseTypes
  import opened NocWorkflow
  import opened Backend
  import opened Auth

  /** The remarks the Approve or Reject button sends: the typed text, or that button's default when the box is empty. */
  function HodRemarks(typed: string, action: Action): (remarks: string)
    ensures remarks != ""
    ensures typed != "" ==> remarks == typed
    ensures typed == "" && action == Approve ==> remarks == "Approved by HOD"
    ensures typed == "" && action == Reject ==> remarks == "Rejected by HOD"
  {
    if typed != "" then typed
    else if action == Approve then "Approved by HOD"
    else "Rejected by HOD"
  }

  datatype BadgeColor = Green | Red | Yellow

  /** The background of the NOC status badge in the students tab. */
  function StatusBadge(status: NocStatus): (c: BadgeColor)
    ensures c == Green <==> status == HodApproved
    ensures c == Red <==> status == Rejected
    ensures c == Yellow <==> !Terminal(status)
  {
    if status == HodApproved then Green
    else if status == Rejected then Red
    else Yellow
  }

  class HodPage {
    var teachers: seq<TeacherRow>
    var students: seq<StudentRow>
    var nocApplications: seq<NocApplication>

    constructor ()
      ensures teachers == [] && students == [] && nocApplications == []
    {
      teachers := [];
      students := [];
      nocApplications := [];
    }

    /** The "Pending NOCs" card: the length of the list the HOD is offered. */
    function PendingNocs(): nat
      reads this
    {
      |nocApplications|
    }

    /** The page shows every teacher, every student and the HOD queue of the store. */
    predicate ShowsDepartment(db: Database)
      reads this, db
    {
      && teachers == db.teachers
      && students == db.students
      && nocApplications == HodQueue(db.nocs, db.students)
    }

    /**
     * `fetchData`: every teacher, every student and the HOD queue; the
     * "Pending NOCs" count is then the number of mentor-approved
     * applications whose student row exists.
     */
    method FetchData(db: Database)
      modifies this
      ensures ShowsDepartment(db)
      ensures forall a :: a in nocApplications <==> a in db.nocs && InHodQueue(a, db.students)
      ensures PendingNocs() == |HodQueue(db.nocs, db.students)| <= |db.nocs|
    {
      teachers := db.teachers;
      students := db.students;
      nocApplications := HodQueue(db.nocs, db.students);
    }

    /**
     * The page's effect: without a logged-in user it sends the browser to the
     * login page and fetches nothing; otherwise it fetches.
     */
    method Open(auth: AuthStore, db: Database) returns (redirect: Option<string>)
      modifies this
      ensures auth.user.None? ==> redirect == Some(LoginPath) && unchanged(this)
      ensures auth.user.Some? ==> redirect == None && ShowsDepartment(db)
    {
      if auth.user.None? {
        redirect := Some(LoginPath);
      } else {
        redirect := None;
        FetchData(db);
      }
    }

    /**
     * `handleFinalNOCApproval`: the decision is written to every row with
     * that id and the lists are fetched again; the decided application is
     * then in neither queue. A failed write changes nothing.
     */
    method HandleFinalNocApproval(
      db: Database, nocId: string, action: Action, remarks: string, now: string, writeFails: bool)
      returns (ok: bool)
      modifies this, db
      ensures ok == !writeFails
      ensures ok ==> db.nocs == UpdateById(old(db.nocs), nocId, Decision(HeadOfDepartment, action, remarks, now))
      ensures ok ==> ShowsDepartment(db) && NoRowWithId(nocApplications, nocId)
      ensures ok ==> forall tid :: NoRowWithId(MentorQueue(db.nocs, db.students, tid), nocId)
      ensures !ok ==> db.nocs == old(db.nocs) && unchanged(this)
      ensures db.students == old(db.students) && db.teachers == old(db.teachers) && db.profiles == old(db.profiles)
      ensures db.internships == old(db.internships) && db.evaluations == old(db.evaluations)
    {
      if writeFails {
        ok := false;
        return;
      }
      db.UpdateNoc(nocId, Decision(HeadOfDepartment, action, remarks, now));
      ok := true;
      FetchData(db);
      forall tid: string
        ensures NoRowWithId(MentorQueue(db.nocs, db.students, tid), nocId)
      {
        HodDecisionLeavesAllQueues(old(db.nocs), db.students, tid, nocId, action, remarks, now);
      }
    }
  }
}
