/** The academic models of attendance/models.py: their fields, defaults,
    status choices and `unique_together` constraints. Each table is a
    sequence of rows in the database's order. Marks are a map keyed by
    (session, student), so there is at most one mark per pair by
    construction. */
module Models {
  import opened Wrappers
  import opened Ordering

  /** A primary or foreign key. */
  type Id = nat

  /** The mark status choices. */
  const Present: string := "present"
  const Absent: string := "absent"
  const Late: string := "late"
  const Excused: string := "excused"
  const StatusChoices: set<string> := {Present, Absent, Late, Excused}

  /** A mark created without a status is present. */
  const DefaultStatus: string := Present

  datatype Course = Course(id: Id, code: string, name: string, department: Id)
  datatype Section = Section(id: Id, course: Id, name: string, semester: string)
  datatype TeachingAssignment = TeachingAssignment(teacher: Id, section: Id)
  datatype Enrollment = Enrollment(student: Id, section: Id)

  /** A session's date is a day number and its times are instants. `endTime`
      is absent until the session is closed. */
  datatype AttendanceSession = AttendanceSession(
    id: Id, section: Id, date: int, startTime: int, endTime: Option<int>, createdBy: Id, isClosed: bool)

  /** The marks table: status by (session id, student id). */
  type Marks = map<(Id, Id), string>

  /** A session created with only section, creator and date. `start_time`
      defaults to now, `end_time` to null and `is_closed` to false. */
  function NewSession(id: Id, section: Id, createdBy: Id, date: int, now: int): (s: AttendanceSession)
    ensures s.id == id && s.section == section && s.createdBy == createdBy && s.date == date
    ensures s.startTime == now && s.endTime.None? && !s.isClosed
  {
    AttendanceSession(id, section, date, now, None, createdBy, false)
  }

  /** `unique_together = ("code", "department")`. */
  predicate UniqueCourseCodes(cs: seq<Course>) {
    forall i, j :: 0 <= i < j < |cs| ==> (cs[i].code, cs[i].department) != (cs[j].code, cs[j].department)
  }

  /** `unique_together = ("course", "name")`. */
  predicate UniqueSectionNames(ss: seq<Section>) {
    forall i, j :: 0 <= i < j < |ss| ==> (ss[i].course, ss[i].name) != (ss[j].course, ss[j].name)
  }

  /** `unique_together = ("teacher", "section")`. */
  predicate UniqueAssignments(ts: seq<TeachingAssignment>) {
    forall i, j :: 0 <= i < j < |ts| ==> ts[i] != ts[j]
  }

  /** `unique_together = ("student", "section")`. */
  predicate UniqueEnrollments(es: seq<Enrollment>) {
    forall i, j :: 0 <= i < j < |es| ==> es[i] != es[j]
  }

  /** Section primary keys are unique. */
  predicate UniqueSectionIds(ss: seq<Section>) {
    forall i, j :: 0 <= i < j < |ss| ==> ss[i].id != ss[j].id
  }

  /** Session primary keys are unique. */
  predicate UniqueSessionIds(ss: seq<AttendanceSession>) {
    forall i, j :: 0 <= i < j < |ss| ==> ss[i].id != ss[j].id
  }

  /** Every stored status is one of the choices. */
  predicate StatusesValid(m: Marks) {
    forall k :: k in m ==> m[k] in StatusChoices
  }

  /** A student's status in a session, with no mark read as absent. */
  function StatusOr(m: Marks, session: Id, student: Id): (status: string)
    ensures (session, student) in m ==> status == m[(session, student)]
    ensures (session, student) !in m ==> status == Absent
  {
    if (session, student) in m then m[(session, student)] else Absent
  }

  /** `TeachingAssignment.objects.filter(teacher=..., section=...).exists()`. */
  predicate Assigned(ts: seq<TeachingAssignment>, teacher: Id, section: Id) {
    TeachingAssignment(teacher, section) in ts
  }

  /** `Enrollment.objects.filter(section=..., student=...).exists()`. */
  predicate Enrolled(es: seq<Enrollment>, student: Id, section: Id) {
    Enrollment(student, section) in es
  }

  /** The students enrolled in a section, in table order. */
  function StudentsOf(es: seq<Enrollment>, section: Id): (r: seq<Id>)
    ensures forall st :: st in r <==> Enrolled(es, st, section)
    ensures |r| <= |es|
  {
    if es == [] then []
    else
      var rest := StudentsOf(es[..|es| - 1], section);
      assert es == es[..|es| - 1] + [es[|es| - 1]];
      if es[|es| - 1].section == section then rest + [es[|es| - 1].student] else rest
  }

  /** No element occurs twice. */
  predicate Distinct<T(==)>(s: seq<T>) {
    forall i, j :: 0 <= i < j < |s| ==> s[i] != s[j]
  }

  /** With unique enrollments, each student appears once in a section's
      roster. */
  lemma {:induction false} StudentsOfDistinct(es: seq<Enrollment>, section: Id)
    requires UniqueEnrollments(es)
    ensures Distinct(StudentsOf(es, section))
    decreases |es|
  {
    if es != [] {
      var init := es[..|es| - 1];
      var last := es[|es| - 1];
      assert UniqueEnrollments(init);
      StudentsOfDistinct(init, section);
      var rest := StudentsOf(init, section);
      if last.section == section {
        forall k | 0 <= k < |init|
          ensures init[k] != last
        {
          assert init[k] == es[k];
        }
        assert !Enrolled(init, last.student, section);
        var r := rest + [last.student];
        assert StudentsOf(es, section) == r;
        forall i, j | 0 <= i < j < |r|
          ensures r[i] != r[j]
        {
          if j == |r| - 1 {
            assert r[i] == rest[i] && rest[i] in rest;
          } else {
            assert r[i] == rest[i] && r[j] == rest[j];
          }
        }
      } else {
        assert StudentsOf(es, section) == rest;
      }
    }
  }

  /** The closed sessions of a section, in table order. */
  function ClosedSessions(ss: seq<AttendanceSession>, section: Id): (r: seq<AttendanceSession>)
    ensures forall s :: s in r <==> s in ss && s.section == section && s.isClosed
    ensures |r| <= |ss|
  {
    if ss == [] then []
    else
      var rest := ClosedSessions(ss[..|ss| - 1], section);
      var last := ss[|ss| - 1];
      assert ss == ss[..|ss| - 1] + [last];
      if last.section == section && last.isClosed then rest + [last] else rest
  }

  /** The number of `sessions` in which the student has a mark whose status
      is in `counted`. With one mark per (session, student), this is the
      number of mark rows `AttendanceMark.objects.filter(session__in=...,
      student=..., status__in=...)` counts. */
  function CountMarked(sessions: seq<AttendanceSession>, m: Marks, student: Id, counted: set<string>): (n: nat)
    ensures n <= |sessions|
  {
    if sessions == [] then 0
    else
      var last := sessions[|sessions| - 1];
      CountMarked(sessions[..|sessions| - 1], m, student, counted) +
      (if (last.id, student) in m && m[(last.id, student)] in counted then 1 else 0)
  }

  /** Counting more statuses never lowers the count. So a student's present
      and late count is at most their present, late and excused count. */
  lemma {:induction false} CountMarkedMonotone(sessions: seq<AttendanceSession>, m: Marks, student: Id, a: set<string>, b: set<string>)
    requires a <= b
    ensures CountMarked(sessions, m, student, a) <= CountMarked(sessions, m, student, b)
    decreases |sessions|
  {
    if sessions != [] {
      CountMarkedMonotone(sessions[..|sessions| - 1], m, student, a, b);
    }
  }

  /** A session's place in `order_by("date", "start_time")`. */
  function ByDateThenStart(): (AttendanceSession, AttendanceSession) -> bool {
    (a: AttendanceSession, b: AttendanceSession) => a.date < b.date || (a.date == b.date && a.startTime <= b.startTime)
  }

  lemma ByDateThenStartOrders()
    ensures TotalPreorder(ByDateThenStart())
  {
  }
}
