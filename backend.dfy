/**
 * The hosted relational store, reduced to the tables and operations the
 * pages use. Each table is a field that the write operations reassign;
 * selects are pure functions of the table contents.
 */
module Backend {
  import opened DatabaseTypes
  import NocWorkflow

  /** The rows of a table that pass a filter, in table order (`.select().eq(...)`). */
  function Select<T(!new)>(rows: seq<T>, keep: T -> bool): (r: seq<T>)
    ensures |r| <= |rows|
    ensures forall x :: x in r <==> x in rows && keep(x)
  {
    if rows == [] then []
    else
      var rest := Select(rows[1..], keep);
      if keep(rows[0]) then [rows[0]] + rest else rest
  }

  /** `.single()`: the row when exactly one row matched; otherwise the query reports an error and `data` is null. */
  function Single<T>(rows: seq<T>): (r: Option<T>)
    ensures r.Some? <==> |rows| == 1
    ensures r.Some? ==> r.value in rows
  {
    if |rows| == 1 then Some(rows[0]) else None
  }

  /** Row `i` is the one and only row of the table that passes the filter. */
  predicate OnlyMatch<T>(rows: seq<T>, keep: T -> bool, i: int)
  {
    && 0 <= i < |rows|
    && keep(rows[i])
    && forall j :: 0 <= j < |rows| && j != i ==> !keep(rows[j])
  }

  /** A filter keeps exactly one row iff exactly one position of the table passes it, and that row is the one kept. */
  lemma {:induction false} SelectSingleton<T(!new)>(rows: seq<T>, keep: T -> bool)
    ensures |Select(rows, keep)| == 1 <==> exists i :: OnlyMatch(rows, keep, i)
    ensures |Select(rows, keep)| == 1 ==> exists i :: OnlyMatch(rows, keep, i) && rows[i] == Select(rows, keep)[0]
  {
    if rows != [] {
      var t := rows[1..];
      SelectSingleton(t, keep);
      if keep(rows[0]) {
        if |Select(rows, keep)| == 1 {
          assert Select(t, keep) == [];
          forall j | 1 <= j < |rows|
            ensures !keep(rows[j])
          {
            assert rows[j] == t[j - 1];
          }
          assert OnlyMatch(rows, keep, 0);
        } else {
          var x := Select(t, keep)[0];
          assert x in Select(t, keep);
          var k :| 0 <= k < |t| && t[k] == x;
          assert rows[k + 1] == x;
        }
      } else {
        if exists i :: OnlyMatch(rows, keep, i) {
          var i :| OnlyMatch(rows, keep, i);
          assert OnlyMatch(t, keep, i - 1) by {
            forall j | 0 <= j < |t| && j != i - 1
              ensures !keep(t[j])
            {
              assert t[j] == rows[j + 1];
            }
          }
        }
        if |Select(t, keep)| == 1 {
          var k :| OnlyMatch(t, keep, k) && t[k] == Select(t, keep)[0];
          assert OnlyMatch(rows, keep, k + 1) by {
            forall j | 0 <= j < |rows| && j != k + 1
              ensures !keep(rows[j])
            {
              if j > 0 {
                assert rows[j] == t[j - 1];
              }
            }
          }
        }
      }
    }
  }

  /** `.select().eq(...).single()`: the row when exactly one row of the table passes the filter, otherwise nothing. */
  function Lookup<T(!new)>(rows: seq<T>, keep: T -> bool): (r: Option<T>)
    ensures r.Some? <==> exists i :: OnlyMatch(rows, keep, i)
    ensures r.Some? ==> exists i :: OnlyMatch(rows, keep, i) && rows[i] == r.value
    ensures r.Some? ==> r.value in rows && keep(r.value)
    ensures r.None? ==>
      (forall i :: 0 <= i < |rows| ==> !keep(rows[i])) ||
      (exists i, j :: 0 <= i < j < |rows| && keep(rows[i]) && keep(rows[j]))
  {
    SelectSingleton(rows, keep);
    NoOnlyMatch(rows, keep);
    Single(Select(rows, keep))
  }

  /** Without a sole matching position, either no row matches or two distinct rows do. */
  lemma NoOnlyMatch<T>(rows: seq<T>, keep: T -> bool)
    ensures (forall i :: !OnlyMatch(rows, keep, i)) ==>
      (forall i :: 0 <= i < |rows| ==> !keep(rows[i])) ||
      exists i, j :: 0 <= i < j < |rows| && keep(rows[i]) && keep(rows[j])
  {
    if (forall i :: !OnlyMatch(rows, keep, i)) && exists i :: 0 <= i < |rows| && keep(rows[i]) {
      var i :| 0 <= i < |rows| && keep(rows[i]);
      assert !OnlyMatch(rows, keep, i);
      var j :| 0 <= j < |rows| && j != i && keep(rows[j]);
      if i < j {
        assert 0 <= i < j < |rows| && keep(rows[i]) && keep(rows[j]);
      } else {
        assert 0 <= j < i < |rows| && keep(rows[j]) && keep(rows[i]);
      }
    }
  }

  /** The student row of a user, if exactly one exists. */
  function StudentOfUser(students: seq<StudentRow>, userId: string): (r: Option<StudentRow>)
    ensures r.Some? ==> exists i :: (0 <= i < |students| && students[i] == r.value &&
      forall j :: 0 <= j < |students| && j != i ==> students[j].userId != userId)
    ensures r.None? ==>
      (forall i :: 0 <= i < |students| ==> students[i].userId != userId) ||
      (exists i, j :: 0 <= i < j < |students| && students[i].userId == userId && students[j].userId == userId)
    ensures r.Some? ==> r.value in students && r.value.userId == userId
  {
    Lookup(students, (s: StudentRow) => s.userId == userId)
  }

  /** The teacher row of a user, if exactly one exists. */
  function TeacherOfUser(teachers: seq<TeacherRow>, userId: string): (r: Option<TeacherRow>)
    ensures r.Some? ==> exists i :: (0 <= i < |teachers| && teachers[i] == r.value &&
      forall j :: 0 <= j < |teachers| && j != i ==> teachers[j].userId != userId)
    ensures r.None? ==>
      (forall i :: 0 <= i < |teachers| ==> teachers[i].userId != userId) ||
      (exists i, j :: 0 <= i < j < |teachers| && teachers[i].userId == userId && teachers[j].userId == userId)
    ensures r.Some? ==> r.value in teachers && r.value.userId == userId
  {
    Lookup(teachers, (t: TeacherRow) => t.userId == userId)
  }

  /** A student's internship, if exactly one exists. */
  function InternshipOfStudent(internships: seq<InternshipRow>, studentId: string): (r: Option<InternshipRow>)
    ensures r.Some? ==> exists i :: (0 <= i < |internships| && internships[i] == r.value &&
      forall j :: 0 <= j < |internships| && j != i ==> internships[j].studentId != studentId)
    ensures r.None? ==>
      (forall i :: 0 <= i < |internships| ==> internships[i].studentId != studentId) ||
      (exists i, j :: 0 <= i < j < |internships| && internships[i].studentId == studentId && internships[j].studentId == studentId)
    ensures r.Some? ==> r.value in internships && r.value.studentId == studentId
  {
    Lookup(internships, (n: InternshipRow) => n.studentId == studentId)
  }

  /** A student's NOC applications. */
  function NocsOfStudent(nocs: seq<NocApplication>, studentId: string): (r: seq<NocApplication>)
    ensures forall a :: a in r <==> a in nocs && a.studentId == studentId
  {
    Select(nocs, (n: NocApplication) => n.studentId == studentId)
  }

  /** A student's NOC application, if exactly one exists. */
  function NocOfStudent(nocs: seq<NocApplication>, studentId: string): (r: Option<NocApplication>)
    ensures r.Some? ==> exists i :: (0 <= i < |nocs| && nocs[i] == r.value &&
      forall j :: 0 <= j < |nocs| && j != i ==> nocs[j].studentId != studentId)
    ensures r.None? ==>
      (forall i :: 0 <= i < |nocs| ==> nocs[i].studentId != studentId) ||
      (exists i, j :: 0 <= i < j < |nocs| && nocs[i].studentId == studentId && nocs[j].studentId == studentId)
    ensures r.Some? ==> r.value in nocs && r.value.studentId == studentId
  {
    Lookup(nocs, (n: NocApplication) => n.studentId == studentId)
  }

  /** Selecting from a table after an insert: the old answer, followed by the new row when it passes. */
  lemma {:induction false} SelectAppend<T(!new)>(rows: seq<T>, x: T, keep: T -> bool)
    ensures Select(rows + [x], keep) == Select(rows, keep) + (if keep(x) then [x] else [])
  {
    if rows == [] {
      assert rows + [x] == [x];
    } else {
      assert (rows + [x])[1..] == rows[1..] + [x];
      SelectAppend(rows[1..], x, keep);
    }
  }

  /** A student's applications after an insert. */
  lemma NocsOfStudentAfterInsert(nocs: seq<NocApplication>, row: NocApplication, studentId: string)
    ensures NocsOfStudent(nocs + [row], studentId) ==
      NocsOfStudent(nocs, studentId) + (if row.studentId == studentId then [row] else [])
  {
    SelectAppend(nocs, row, (n: NocApplication) => n.studentId == studentId);
  }

  /** A student's evaluation, if exactly one exists. */
  function EvaluationOfStudent(evaluations: seq<Evaluation>, studentId: string): (r: Option<Evaluation>)
    ensures r.Some? ==> exists i :: (0 <= i < |evaluations| && evaluations[i] == r.value &&
      forall j :: 0 <= j < |evaluations| && j != i ==> evaluations[j].studentId != studentId)
    ensures r.None? ==>
      (forall i :: 0 <= i < |evaluations| ==> evaluations[i].studentId != studentId) ||
      (exists i, j :: 0 <= i < j < |evaluations| && evaluations[i].studentId == studentId && evaluations[j].studentId == studentId)
    ensures r.Some? ==> r.value in evaluations && r.value.studentId == studentId
  {
    Lookup(evaluations, (e: Evaluation) => e.studentId == studentId)
  }

  /** The students whose mentor is this teacher. */
  function StudentsOfMentor(students: seq<StudentRow>, teacherId: string): (r: seq<StudentRow>)
    ensures forall s :: s in r <==> s in students && s.mentorId == Some(teacherId)
  {
    Select(students, (s: StudentRow) => s.mentorId == Some(teacherId))
  }

  /** `profiles.select('role').eq('id', userId)`: the id is the key, so the answer has at most one row. */
  function ProfileRoles(profiles: map<string, Profile>, userId: string): (roles: seq<UserRole>)
    ensures |roles| <= 1
    ensures |roles| == 1 <==> userId in profiles
    ensures userId in profiles ==> roles[0] == profiles[userId].role
  {
    if userId in profiles then [profiles[userId].role] else []
  }

  class Database {
    var profiles: map<string, Profile>
    var students: seq<StudentRow>
    var teachers: seq<TeacherRow>
    var internships: seq<InternshipRow>
    var nocs: seq<NocApplication>
    var evaluations: seq<Evaluation>

    constructor (
      profiles: map<string, Profile>, students: seq<StudentRow>, teachers: seq<TeacherRow>,
      internships: seq<InternshipRow>, nocs: seq<NocApplication>, evaluations: seq<Evaluation>)
      ensures this.profiles == profiles && this.students == students && this.teachers == teachers
      ensures this.internships == internships && this.nocs == nocs && this.evaluations == evaluations
    {
      this.profiles := profiles;
      this.students := students;
      this.teachers := teachers;
      this.internships := internships;
      this.nocs := nocs;
      this.evaluations := evaluations;
    }

    /** `noc_applications.update(patch).eq('id', id)`. */
    method UpdateNoc(id: string, patch: NocWorkflow.NocPatch)
      modifies this
      ensures nocs == NocWorkflow.UpdateById(old(nocs), id, patch)
      ensures profiles == old(profiles) && students == old(students) && teachers == old(teachers)
      ensures internships == old(internships) && evaluations == old(evaluations)
    {
      nocs := NocWorkflow.UpdateById(nocs, id, patch);
    }

    /** `noc_applications.insert(row)`. */
    method InsertNoc(row: NocApplication)
      modifies this
      ensures nocs == old(nocs) + [row]
      ensures profiles == old(profiles) && students == old(students) && teachers == old(teachers)
      ensures internships == old(internships) && evaluations == old(evaluations)
    {
      nocs := nocs + [row];
    }

    /** `profiles.upsert(row, { onConflict: 'id' })`: the row with that id is replaced or added. */
    method UpsertProfile(row: Profile)
      modifies this
      ensures profiles == old(profiles)[row.id := row]
      ensures students == old(students) && teachers == old(teachers) && nocs == old(nocs)
      ensures internships == old(internships) && evaluations == old(evaluations)
    {
      profiles := profiles[row.id := row];
    }
  }
}
