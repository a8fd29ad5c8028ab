/**
 * The NOC approval state machine: the update each reviewer's decision sends
 * to `noc_applications`, the way the store applies it to the rows with the
 * given id, and the two work queues that decide which applications a
 * reviewer is offered at all.
 *
 * Neither decision handler looks at the current status before writing; the
 * only guard is that a reviewer is shown nothing but the applications in
 * that reviewer's queue.
 */
module NocWorkflow {
  import opened DatabaseTypes

  datatype Action = Approve | Reject

  datatype Reviewer = Mentor | HeadOfDepartment

  /** The object passed to `.update(...)`: exactly the three columns a reviewer writes. */
  datatype NocPatch =
    | MentorPatch(status: NocStatus, mentorRemarks: string, mentorApprovedAt: Option<string>)
    | HodPatch(status: NocStatus, hodRemarks: string, hodApprovedAt: Option<string>)

  /** The status an approval by this reviewer moves an application to. */
  function ApprovedStatus(reviewer: Reviewer): NocStatus
  {
    match reviewer
    case Mentor => MentorApproved
    case HeadOfDepartment => HodApproved
  }

  /**
   * The update a decision sends (`handleNOCAction` for the mentor,
   * `handleFinalNOCApproval` for the HOD); `now` is the ISO time of the call.
   */
  function Decision(reviewer: Reviewer, action: Action, remarks: string, now: string): (p: NocPatch)
    ensures p.status == (if action == Approve then ApprovedStatus(reviewer) else Rejected)
    ensures p.MentorPatch? <==> reviewer == Mentor
    ensures p.MentorPatch? ==> p.mentorRemarks == remarks && p.mentorApprovedAt == (if action == Approve then Some(now) else None)
    ensures p.HodPatch? ==> p.hodRemarks == remarks && p.hodApprovedAt == (if action == Approve then Some(now) else None)
  {
    var status := if action == Approve then ApprovedStatus(reviewer) else Rejected;
    var stamp := if action == Approve then Some(now) else None;
    match reviewer
    case Mentor => MentorPatch(status, remarks, stamp)
    case HeadOfDepartment => HodPatch(status, remarks, stamp)
  }

  /** What the store does to one row when it applies an update: the named columns change, the rest stay. */
  function ApplyPatch(app: NocApplication, patch: NocPatch): NocApplication
  {
    match patch
    case MentorPatch(s, rem, at) => app.(status := s, mentorRemarks := Some(rem), mentorApprovedAt := at)
    case HodPatch(s, rem, at) => app.(status := s, hodRemarks := Some(rem), hodApprovedAt := at)
  }

  /** A reviewer's decision on one application, as the store records it. */
  function Step(app: NocApplication, reviewer: Reviewer, action: Action, remarks: string, now: string): (r: NocApplication)
    ensures r.status == (if action == Approve then ApprovedStatus(reviewer) else Rejected)
    ensures reviewer == Mentor ==>
      && r.mentorRemarks == Some(remarks)
      && r.mentorApprovedAt == (if action == Approve then Some(now) else None)
      && r.hodRemarks == app.hodRemarks && r.hodApprovedAt == app.hodApprovedAt
    ensures reviewer == HeadOfDepartment ==>
      && r.hodRemarks == Some(remarks)
      && r.hodApprovedAt == (if action == Approve then Some(now) else None)
      && r.mentorRemarks == app.mentorRemarks && r.mentorApprovedAt == app.mentorApprovedAt
    ensures r.id == app.id && r.studentId == app.studentId && r.internshipId == app.internshipId
    ensures r.purpose == app.purpose && r.declarationAccepted == app.declarationAccepted
  {
    ApplyPatch(app, Decision(reviewer, action, remarks, now))
  }

  /**
   * The intended state machine: pending goes to mentor_approved or rejected,
   * mentor_approved goes to hod_approved or rejected, and nothing leaves
   * hod_approved or rejected.
   */
  predicate ValidTransition(from: NocStatus, to: NocStatus)
  {
    match from
    case Pending => to == MentorApproved || to == Rejected
    case MentorApproved => to == HodApproved || to == Rejected
    case HodApproved => false
    case Rejected => false
  }

  /** hod_approved and rejected are final. */
  predicate Terminal(status: NocStatus)
  {
    status == HodApproved || status == Rejected
  }

  /** The mentor's filter: pending, and the joined student row names this teacher as mentor. */
  predicate InMentorQueue(app: NocApplication, students: seq<StudentRow>, teacherId: string)
  {
    app.status == Pending &&
    exists s :: s in students && s.id == app.studentId && s.mentorId == Some(teacherId)
  }

  /** The HOD's filter: mentor_approved, and (inner join) the student row exists. */
  predicate InHodQueue(app: NocApplication, students: seq<StudentRow>)
  {
    app.status == MentorApproved &&
    exists s :: s in students && s.id == app.studentId
  }

  /** The applications a mentor is offered, in table order. */
  function MentorQueue(nocs: seq<NocApplication>, students: seq<StudentRow>, teacherId: string): (q: seq<NocApplication>)
    ensures |q| <= |nocs|
    ensures forall a :: a in q <==> a in nocs && InMentorQueue(a, students, teacherId)
  {
    if nocs == [] then []
    else
      var rest := MentorQueue(nocs[1..], students, teacherId);
      if InMentorQueue(nocs[0], students, teacherId) then [nocs[0]] + rest else rest
  }

  /** The applications the HOD is offered, in table order. */
  function HodQueue(nocs: seq<NocApplication>, students: seq<StudentRow>): (q: seq<NocApplication>)
    ensures |q| <= |nocs|
    ensures forall a :: a in q <==> a in nocs && InHodQueue(a, students)
  {
    if nocs == [] then []
    else
      var rest := HodQueue(nocs[1..], students);
      if InHodQueue(nocs[0], students) then [nocs[0]] + rest else rest
  }

  /** `.update(patch).eq('id', id)`: every row with that id is patched, every other row is left as it was. */
  function UpdateById(nocs: seq<NocApplication>, id: string, patch: NocPatch): (r: seq<NocApplication>)
    ensures |r| == |nocs|
    ensures forall i :: 0 <= i < |nocs| ==>
      r[i] == if nocs[i].id == id then ApplyPatch(nocs[i], patch) else nocs[i]
  {
    if nocs == [] then []
    else [if nocs[0].id == id then ApplyPatch(nocs[0], patch) else nocs[0]] + UpdateById(nocs[1..], id, patch)
  }

  /** Applying a decision to the whole table is applying Step to each row with that id. */
  lemma UpdateIsStep(nocs: seq<NocApplication>, id: string, reviewer: Reviewer, action: Action, remarks: string, now: string, i: int)
    requires 0 <= i < |nocs|
    ensures UpdateById(nocs, id, Decision(reviewer, action, remarks, now))[i] ==
      if nocs[i].id == id then Step(nocs[i], reviewer, action, remarks, now) else nocs[i]
  {
  }

  /** A mentor decision on an application from the mentor's queue follows the state machine. */
  lemma MentorQueueGuardsTransition(
    app: NocApplication, students: seq<StudentRow>, teacherId: string,
    action: Action, remarks: string, now: string)
    requires InMentorQueue(app, students, teacherId)
    ensures ValidTransition(app.status, Step(app, Mentor, action, remarks, now).status)
  {
  }

  /** An HOD decision on an application from the HOD queue follows the state machine. */
  lemma HodQueueGuardsTransition(
    app: NocApplication, students: seq<StudentRow>, action: Action, remarks: string, now: string)
    requires InHodQueue(app, students)
    ensures ValidTransition(app.status, Step(app, HeadOfDepartment, action, remarks, now).status)
  {
  }

  /** A final application is in no queue, so no reviewer is offered a decision on it. */
  lemma TerminalInNoQueue(
    nocs: seq<NocApplication>, students: seq<StudentRow>, teacherId: string, app: NocApplication)
    requires Terminal(app.status)
    ensures app !in MentorQueue(nocs, students, teacherId)
    ensures app !in HodQueue(nocs, students)
  {
  }

  /**
   * The handlers themselves carry no status guard: a mentor rejection sent
   * for an application the HOD has already approved overwrites it, a move
   * the state machine forbids. Only the queues keep it from happening.
   */
  lemma HandlerHasNoStatusGuard(app: NocApplication, remarks: string, now: string)
    requires app.status == HodApproved
    ensures Step(app, Mentor, Reject, remarks, now).status == Rejected
    ensures !ValidTransition(app.status, Step(app, Mentor, Reject, remarks, now).status)
  {
  }

  /**
   * Every row of the updated table is either an old row with another id, or
   * an old row with that id carrying the patch, and so the patch's status.
   */
  lemma {:induction false} UpdatedRows(nocs: seq<NocApplication>, id: string, patch: NocPatch, a: NocApplication)
    requires a in UpdateById(nocs, id, patch)
    ensures a.id != id ==> a in nocs
    ensures a.id == id ==> exists b :: b in nocs && b.id == id && a == ApplyPatch(b, patch)
    ensures a.id == id ==> a.status == patch.status
  {
    var r := UpdateById(nocs, id, patch);
    var i :| 0 <= i < |r| && r[i] == a;
    assert nocs[i] in nocs;
  }

  /** No application in the list has this id. */
  predicate NoRowWithId(apps: seq<NocApplication>, id: string)
  {
    forall a :: a in apps ==> a.id != id
  }

  /** After a mentor decision, no row with that id is left in the mentor's queue. */
  lemma MentorDecisionLeavesMentorQueue(
    nocs: seq<NocApplication>, students: seq<StudentRow>, teacherId: string,
    id: string, action: Action, remarks: string, now: string)
    ensures NoRowWithId(MentorQueue(UpdateById(nocs, id, Decision(Mentor, action, remarks, now)), students, teacherId), id)
  {
    var patch := Decision(Mentor, action, remarks, now);
    forall a | a in MentorQueue(UpdateById(nocs, id, patch), students, teacherId)
      ensures a.id != id
    {
      UpdatedRows(nocs, id, patch, a);
    }
  }

  /** After an HOD decision, no row with that id is left in any queue. */
  lemma HodDecisionLeavesAllQueues(
    nocs: seq<NocApplication>, students: seq<StudentRow>, teacherId: string,
    id: string, action: Action, remarks: string, now: string)
    ensures NoRowWithId(HodQueue(UpdateById(nocs, id, Decision(HeadOfDepartment, action, remarks, now)), students), id)
    ensures NoRowWithId(MentorQueue(UpdateById(nocs, id, Decision(HeadOfDepartment, action, remarks, now)), students, teacherId), id)
  {
    var patch := Decision(HeadOfDepartment, action, remarks, now);
    forall a | a in HodQueue(UpdateById(nocs, id, patch), students)
      ensures a.id != id
    {
      UpdatedRows(nocs, id, patch, a);
    }
    forall a | a in MentorQueue(UpdateById(nocs, id, patch), students, teacherId)
      ensures a.id != id
    {
      UpdatedRows(nocs, id, patch, a);
    }
  }

  /**
   * The end-to-end run: a pending application approved by its mentor with
   * remarks "ok" reaches the HOD queue; rejected there with "incomplete", it
   * is rejected, carries no HOD approval time and is in no queue.
   */
  lemma ApprovalScenario(app: NocApplication, mentor: StudentRow, t1: string, t2: string)
    requires app.status == Pending
    requires mentor.id == app.studentId && mentor.mentorId.Some?
    ensures var students := [mentor];
      var tid := mentor.mentorId.value;
      var nocs1 := UpdateById([app], app.id, Decision(Mentor, Approve, "ok", t1));
      var nocs2 := UpdateById(nocs1, app.id, Decision(HeadOfDepartment, Reject, "incomplete", t2));
      && app in MentorQueue([app], students, tid)
      && nocs1[0].status == MentorApproved && nocs1[0].mentorApprovedAt == Some(t1)
      && nocs1[0] in HodQueue(nocs1, students)
      && nocs2[0].status == Rejected && nocs2[0].hodApprovedAt == None
      && nocs2[0].hodRemarks == Some("incomplete") && nocs2[0].mentorRemarks == Some("ok")
      && HodQueue(nocs2, students) == [] && MentorQueue(nocs2, students, tid) == []
  {
    var students := [mentor];
    var tid := mentor.mentorId.value;
    assert mentor in students;
    var nocs1 := UpdateById([app], app.id, Decision(Mentor, Approve, "ok", t1));
    var nocs2 := UpdateById(nocs1, app.id, Decision(HeadOfDepartment, Reject, "incomplete", t2));
    assert nocs2 == [nocs2[0]];
    HodDecisionLeavesAllQueues(nocs1, students, tid, app.id, Reject, "incomplete", t2);
    assert nocs2[0] !in HodQueue(nocs2, students);
    assert nocs2[0] !in MentorQueue(nocs2, students, tid);
  }
}
