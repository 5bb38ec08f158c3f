/** The attendance endpoints of attendance/views_academics.py.

    `Db` holds the tables the views read and write. `open_session`, `mark`
    and `close_session` are its methods, because they change stored rows.
    The summaries and histories only read the tables, so they are methods or
    functions over the tables' current contents.

    Request fields. A JSON body field (POST) is `None` when it is absent or
    null. Python truthiness then makes `0` count as missing too (`Given`). A
    query-string field (GET) is a string, so any value the client sends,
    `"0"` included, passes `if not section_id`. Only an absent or empty
    parameter is `None`. */
module Views {
  import opened Wrappers
  import opened Ordering
  import opened Models

  /** A DRF response: a success status with a body, or an error status with
      its `detail` message. */
  datatype Response<T> = Ok(code: int, body: T) | Refused(code: int, detail: string)

  /** A JSON body id that passes `if not x`: present and not 0. */
  predicate Given(field: Option<nat>) {
    field.Some? && field.value != 0
  }

  /** `AttendanceSession.objects.get(id=...)`: where the session is in the
      table, if it is there. */
  function FindSession(ss: seq<AttendanceSession>, id: Id): (r: Option<nat>)
    ensures r.Some? ==> r.value < |ss| && ss[r.value].id == id
    ensures r.None? ==> forall s :: s in ss ==> s.id != id
  {
    if ss == [] then None
    else if ss[0].id == id then Some(0)
    else
      var r := FindSession(ss[1..], id);
      if r.Some? then Some(r.value + 1) else None
  }

  /** An unclosed session of the section exists for that date. */
  predicate OpenOn(ss: seq<AttendanceSession>, section: Id, date: int) {
    exists s :: s in ss && s.section == section && s.date == date && !s.isClosed
  }

  /** No two unclosed sessions share a section and a date. `open_session`
      refuses to create a second one, and `close_session` only closes. */
  predicate AtMostOneOpen(ss: seq<AttendanceSession>) {
    forall i, j :: 0 <= i < j < |ss| && ss[i].section == ss[j].section && ss[i].date == ss[j].date ==>
      ss[i].isClosed || ss[j].isClosed
  }

  // ----- mark: the upsert loop -----

  /** One entry of the `marks` list. `student` is `None` when the key is
      missing or holds a value equal to no id. `status` is `None` when the
      key is missing. */
  datatype MarkItem = MarkItem(student: Option<Id>, status: Option<string>)

  /** The `marks` field of the body: a list, or anything else. A missing
      field is the empty list. */
  datatype MarksField = NotAList | List(items: seq<MarkItem>)

  /** The set of students enrolled in a section (`valid_student_ids`). */
  function EnrolledIds(es: seq<Enrollment>, section: Id): (r: set<Id>)
    ensures forall st :: st in r <==> Enrolled(es, st, section)
  {
    set e | e in es && e.section == section :: e.student
  }

  /** The entry passes the enrolment filter. */
  predicate Writes(item: MarkItem, valid: set<Id>) {
    item.student.Some? && item.student.value in valid
  }

  /** One `update_or_create` on (session, student), or nothing for a student
      who is not enrolled. */
  function Upsert(m: Marks, session: Id, valid: set<Id>, item: MarkItem): Marks {
    if Writes(item, valid) then m[(session, item.student.value) := item.status.GetOr(DefaultStatus)] else m
  }

  /** The marks table after the loop has processed `items`, in order. */
  function ApplyMarks(m: Marks, session: Id, valid: set<Id>, items: seq<MarkItem>): (r: Marks)
    ensures m.Keys <= r.Keys
    ensures forall k :: k in r && k !in m ==> k.0 == session && k.1 in valid
    ensures forall k :: k in m && k.0 != session ==> r[k] == m[k]
  {
    if items == [] then m
    else Upsert(ApplyMarks(m, session, valid, items[..|items| - 1]), session, valid, items[|items| - 1])
  }

  /** The loop's `created` counter: one per entry that passes the filter,
      repeated students counted each time. */
  function CountWrites(items: seq<MarkItem>, valid: set<Id>): (n: nat)
    ensures n <= |items|
  {
    if items == [] then 0
    else CountWrites(items[..|items| - 1], valid) + (if Writes(items[|items| - 1], valid) then 1 else 0)
  }

  /** The status the last entry naming `student` asks for, with the default
      filled in. This is the reference for what the upsert loop stores. */
  function LastStatus(items: seq<MarkItem>, student: Id): Option<string> {
    if items == [] then None
    else if items[|items| - 1].student == Some(student) then Some(items[|items| - 1].status.GetOr(DefaultStatus))
    else LastStatus(items[..|items| - 1], student)
  }

  /** The upsert loop, key by key. The pair (session, student) of an enrolled
      student that some entry names ends with the status of the last such
      entry, which defaults to present. Every other key (another session,
      another student, or a student not enrolled) is as it was. */
  lemma {:induction false} ApplyMarksAt(m: Marks, session: Id, valid: set<Id>, items: seq<MarkItem>, key: (Id, Id))
    ensures var r := ApplyMarks(m, session, valid, items);
            if key.0 == session && key.1 in valid && LastStatus(items, key.1).Some? then
              key in r && r[key] == LastStatus(items, key.1).value
            else
              (key in r <==> key in m) && (key in m ==> r[key] == m[key])
    decreases |items|
  {
    if items != [] {
      ApplyMarksAt(m, session, valid, items[..|items| - 1], key);
    }
  }

  /** The counter equals the number of entries exactly when every entry
      names an enrolled student. */
  lemma {:induction false} CountWritesBounded(items: seq<MarkItem>, valid: set<Id>)
    ensures CountWrites(items, valid) == |items| <==> forall i :: 0 <= i < |items| ==> Writes(items[i], valid)
    decreases |items|
  {
    if items != [] {
      var init := items[..|items| - 1];
      CountWritesBounded(init, valid);
      assert forall i :: 0 <= i < |init| ==> init[i] == items[i];
    }
  }

  /** The view does not check statuses against the choices. The stored
      statuses stay valid only when every entry's status is missing or is one
      of the choices. */
  lemma {:induction false} ApplyMarksKeepsChoices(m: Marks, session: Id, valid: set<Id>, items: seq<MarkItem>)
    requires StatusesValid(m)
    requires forall i :: 0 <= i < |items| ==> items[i].status.None? || items[i].status.value in StatusChoices
    ensures StatusesValid(ApplyMarks(m, session, valid, items))
    decreases |items|
  {
    if items != [] {
      ApplyMarksKeepsChoices(m, session, valid, items[..|items| - 1]);
    }
  }

  /** An enrolled student's entry with a status outside the choices is stored
      as it is. */
  lemma UnlistedStatusIsStored(session: Id, student: Id)
    ensures var r := ApplyMarks(map[], session, {student}, [MarkItem(Some(student), Some("unknown"))]);
            (session, student) in r && r[(session, student)] == "unknown" && !StatusesValid(r)
  {
    var items := [MarkItem(Some(student), Some("unknown"))];
    assert items[..0] == [];
  }

  // ----- The tables -----

  /** The tables the views use. Each `unique_together` constraint holds,
      session ids are unique and below the next id to allocate, and a section
      has at most one unclosed session per date. */
  class Db {
    var courses: seq<Course>
    var sections: seq<Section>
    var assignments: seq<TeachingAssignment>
    var enrollments: seq<Enrollment>
    var sessions: seq<AttendanceSession>
    var marks: Marks
    var usernames: map<Id, string>
    var nextSessionId: Id

    predicate Valid()
      reads this
    {
      UniqueCourseCodes(courses) && UniqueSectionNames(sections) && UniqueSectionIds(sections) &&
      UniqueAssignments(assignments) && UniqueEnrollments(enrollments) &&
      UniqueSessionIds(sessions) && (forall s :: s in sessions ==> s.id < nextSessionId) &&
      AtMostOneOpen(sessions)
    }

    /** A database with its setup rows and no sessions or marks yet. */
    constructor (courses: seq<Course>, sections: seq<Section>, assignments: seq<TeachingAssignment>,
                 enrollments: seq<Enrollment>, usernames: map<Id, string>)
      requires UniqueCourseCodes(courses) && UniqueSectionNames(sections) && UniqueSectionIds(sections)
      requires UniqueAssignments(assignments) && UniqueEnrollments(enrollments)
      ensures Valid()
      ensures this.courses == courses && this.sections == sections && this.assignments == assignments
      ensures this.enrollments == enrollments && this.usernames == usernames
      ensures sessions == [] && marks == map[]
    {
      this.courses := courses;
      this.sections := sections;
      this.assignments := assignments;
      this.enrollments := enrollments;
      this.usernames := usernames;
      sessions := [];
      marks := map[];
      nextSessionId := 1;
    }

    /** `open_session` for `teacher` on day `today` at instant `now`. It
        refuses, in this order: a missing section id (400), a teacher not
        assigned to the section (403), and an unclosed session of the section
        already dated today (400). Otherwise it appends one new, unclosed
        session dated today, which is then the only unclosed session of the
        section for that date. Only the sessions table changes. */
    method OpenSession(teacher: Id, sectionId: Option<nat>, today: int, now: int) returns (r: Response<AttendanceSession>)
      requires Valid()
      modifies this
      ensures Valid()
      ensures courses == old(courses) && sections == old(sections) && assignments == old(assignments)
      ensures enrollments == old(enrollments) && marks == old(marks) && usernames == old(usernames)
      ensures !Given(sectionId) ==> r == Refused(400, "section_id required")
      ensures Given(sectionId) && !Assigned(assignments, teacher, sectionId.value) ==>
                r == Refused(403, "Not assigned to this section")
      ensures Given(sectionId) && Assigned(assignments, teacher, sectionId.value) && OpenOn(old(sessions), sectionId.value, today) ==>
                r == Refused(400, "Session already open today")
      ensures r.Refused? ==> sessions == old(sessions)
      ensures Given(sectionId) && Assigned(assignments, teacher, sectionId.value) && !OpenOn(old(sessions), sectionId.value, today) ==>
                r == Ok(201, NewSession(old(nextSessionId), sectionId.value, teacher, today, now))
      ensures r.Ok? ==> sessions == old(sessions) + [r.body] && r.body.id !in set s | s in old(sessions) :: s.id
      ensures r.Ok? ==> forall s :: s in sessions && s.section == r.body.section && s.date == today && !s.isClosed ==> s == r.body
    {
      if !Given(sectionId) {
        return Refused(400, "section_id required");
      }
      var section := sectionId.value;
      if TeachingAssignment(teacher, section) !in assignments {
        return Refused(403, "Not assigned to this section");
      }
      var i := 0;
      while i < |sessions|
        invariant 0 <= i <= |sessions|
        invariant forall k :: 0 <= k < i ==> !(sessions[k].section == section && sessions[k].date == today && !sessions[k].isClosed)
      {
        if sessions[i].section == section && sessions[i].date == today && !sessions[i].isClosed {
          return Refused(400, "Session already open today");
        }
        i := i + 1;
      }
      var session := NewSession(nextSessionId, section, teacher, today, now);
      sessions := sessions + [session];
      nextSessionId := nextSessionId + 1;
      return Ok(201, session);
    }

    /** `mark`. It refuses, in this order: a missing session id or a `marks`
        field that is not a list (400), a teacher not assigned to the
        session's section (403), and a closed session (400). A refused call
        leaves the marks table as it was. Otherwise each entry naming a
        student enrolled in the section upserts that student's mark for the
        session, in list order, and other entries are skipped. The reply
        counts the upserts. */
    method Mark(teacher: Id, sessionId: Option<nat>, marksField: MarksField) returns (r: Response<nat>)
      requires Valid()
      requires Given(sessionId) && marksField.List? ==> FindSession(sessions, sessionId.value).Some?
      modifies this
      ensures Valid()
      ensures courses == old(courses) && sections == old(sections) && assignments == old(assignments)
      ensures enrollments == old(enrollments) && sessions == old(sessions) && usernames == old(usernames)
      ensures nextSessionId == old(nextSessionId)
      ensures !Given(sessionId) || marksField.NotAList? ==> r == Refused(400, "session_id and marks[] required")
      ensures Given(sessionId) && marksField.List? ==>
                var s := sessions[FindSession(sessions, sessionId.value).value];
                (!Assigned(assignments, teacher, s.section) ==> r == Refused(403, "Not allowed on this session")) &&
                (Assigned(assignments, teacher, s.section) && s.isClosed ==> r == Refused(400, "Session is closed")) &&
                (Assigned(assignments, teacher, s.section) && !s.isClosed ==>
                   var valid := EnrolledIds(enrollments, s.section);
                   r == Ok(200, CountWrites(marksField.items, valid)) &&
                   marks == ApplyMarks(old(marks), s.id, valid, marksField.items))
      ensures r.Refused? ==> marks == old(marks)
    {
      if !Given(sessionId) || marksField.NotAList? {
        return Refused(400, "session_id and marks[] required");
      }
      var session := sessions[FindSession(sessions, sessionId.value).value];
      if TeachingAssignment(teacher, session.section) !in assignments {
        return Refused(403, "Not allowed on this session");
      }
      if session.isClosed {
        return Refused(400, "Session is closed");
      }
      var valid := EnrolledIds(enrollments, session.section);
      var items := marksField.items;
      var created := 0;
      var i := 0;
      while i < |items|
        invariant 0 <= i <= |items|
        invariant marks == ApplyMarks(old(marks), session.id, valid, items[..i])
        invariant created == CountWrites(items[..i], valid)
        invariant courses == old(courses) && sections == old(sections) && assignments == old(assignments)
        invariant enrollments == old(enrollments) && sessions == old(sessions) && usernames == old(usernames)
        invariant nextSessionId == old(nextSessionId)
      {
        assert items[..i + 1][..i] == items[..i];
        var item := items[i];
        var status := item.status.GetOr(DefaultStatus);
        if item.student.Some? && item.student.value in valid {
          marks := marks[(session.id, item.student.value) := status];
          created := created + 1;
        }
        i := i + 1;
      }
      assert items[..i] == items;
      return Ok(200, created);
    }

    /** `close_session`. It refuses a missing session id (400) and a teacher
        not assigned to the session's section (403). Otherwise it sets
        `is_closed` and `end_time` on that session and nothing else, so
        closing it again leaves it closed. An already closed session is
        closed again, with a new end time. */
    method CloseSession(teacher: Id, sessionId: Option<nat>, now: int) returns (r: Response<AttendanceSession>)
      requires Valid()
      requires Given(sessionId) ==> FindSession(sessions, sessionId.value).Some?
      modifies this
      ensures Valid()
      ensures courses == old(courses) && sections == old(sections) && assignments == old(assignments)
      ensures enrollments == old(enrollments) && marks == old(marks) && usernames == old(usernames)
      ensures !Given(sessionId) ==> r == Refused(400, "session_id required")
      ensures Given(sessionId) ==>
                var k := FindSession(old(sessions), sessionId.value).value;
                var s := old(sessions)[k];
                (!Assigned(assignments, teacher, s.section) ==> r == Refused(403, "Not allowed")) &&
                (Assigned(assignments, teacher, s.section) ==>
                   r == Ok(200, s.(isClosed := true, endTime := Some(now))) &&
                   sessions == old(sessions)[k := r.body])
      ensures r.Refused? ==> sessions == old(sessions)
      ensures r.Ok? ==> r.body.isClosed && r.body.endTime == Some(now)
    {
      if !Given(sessionId) {
        return Refused(400, "session_id required");
      }
      var k := FindSession(sessions, sessionId.value).value;
      var session := sessions[k];
      if TeachingAssignment(teacher, session.section) !in assignments {
        return Refused(403, "Not allowed");
      }
      session := session.(isClosed := true, endTime := Some(now));
      sessions := sessions[k := session];
      return Ok(200, session);
    }
  }

  // ----- Read-only reports -----

  /** The mark statuses each report counts as attended. */
  const PresentLateExcused: set<string> := {Present, Late, Excused}
  const PresentOrLate: set<string> := {Present, Late}

  /** A student with the username `select_related("student")` brings along. */
  datatype StudentRef = StudentRef(id: Id, username: string)

  /** Every enrolment's student has a user row: the foreign key holds. */
  predicate UsersExist(es: seq<Enrollment>, usernames: map<Id, string>) {
    forall e :: e in es ==> e.student in usernames
  }

  /** The students of a section with their usernames, in table order. */
  function Roster(es: seq<Enrollment>, usernames: map<Id, string>, section: Id): (r: seq<StudentRef>)
    requires UsersExist(es, usernames)
    ensures |r| == |StudentsOf(es, section)|
    ensures forall i :: 0 <= i < |r| ==>
              r[i].id == StudentsOf(es, section)[i] && r[i].id in usernames && r[i].username == usernames[r[i].id]
  {
    var ids := StudentsOf(es, section);
    assert forall i :: 0 <= i < |ids| ==> ids[i] in usernames by {
      forall i | 0 <= i < |ids|
        ensures ids[i] in usernames
      {
        assert ids[i] in ids;
      }
    }
    seq(|ids|, i requires 0 <= i < |ids| => StudentRef(ids[i], usernames[ids[i]]))
  }

  /** `order_by("student__username")`, by code point. */
  function ByUsername(): (StudentRef, StudentRef) -> bool {
    (a: StudentRef, b: StudentRef) => StrLe(a.username, b.username)
  }

  lemma ByUsernameOrders()
    ensures TotalPreorder(ByUsername())
  {
    forall a: StudentRef, b: StudentRef
      ensures ByUsername()(a, b) || ByUsername()(b, a)
    {
      StrLeTotal(a.username, b.username);
    }
    forall a: StudentRef, b: StudentRef, c: StudentRef | ByUsername()(a, b) && ByUsername()(b, c)
      ensures ByUsername()(a, c)
    {
      StrLeTransitive(a.username, b.username, c.username);
    }
  }

  /** The section's students ordered by username. */
  function OrderedRoster(es: seq<Enrollment>, usernames: map<Id, string>, section: Id): seq<StudentRef>
    requires UsersExist(es, usernames)
  {
    SortBy(Roster(es, usernames, section), ByUsername())
  }

  /** The ordered roster is sorted by username and names exactly the
      students enrolled in the section. */
  lemma OrderedRosterIsPermutation(es: seq<Enrollment>, usernames: map<Id, string>, section: Id)
    requires UsersExist(es, usernames)
    ensures var order := OrderedRoster(es, usernames, section);
            (forall i, j :: 0 <= i < j < |order| ==> StrLe(order[i].username, order[j].username)) &&
            forall st :: (exists i :: 0 <= i < |order| && order[i].id == st) <==> Enrolled(es, st, section)
  {
    var roster := Roster(es, usernames, section);
    var order := OrderedRoster(es, usernames, section);
    ByUsernameOrders();
    SortBySorted(roster, ByUsername());
    forall st
      ensures (exists i :: 0 <= i < |order| && order[i].id == st) <==> Enrolled(es, st, section)
    {
      if Enrolled(es, st, section) {
        var ids := StudentsOf(es, section);
        var j :| 0 <= j < |ids| && ids[j] == st;
        assert roster[j] in multiset(order);
        var k :| 0 <= k < |order| && order[k] == roster[j];
        assert order[k].id == st;
      }
      if exists i :: 0 <= i < |order| && order[i].id == st {
        var k :| 0 <= k < |order| && order[k].id == st;
        assert order[k] in multiset(roster);
        var j :| 0 <= j < |roster| && roster[j] == order[k];
        assert StudentsOf(es, section)[j] == st;
      }
    }
  }

  /** One row of a session's roster. */
  datatype RosterRow = RosterRow(studentId: Id, studentUsername: string, status: string)
  datatype SessionRoster = SessionRoster(sessionId: Id, date: int, section: Id, marks: seq<RosterRow>)

  /** The teacher's `session_marks`. It refuses a missing session id (400)
      and a teacher not assigned to the session's section (403). Otherwise it
      gives one row per enrolment in the section, in table order, with the
      stored status, or absent where there is no mark. */
  function SessionMarks(teacher: Id, sessionId: Option<nat>, assignments: seq<TeachingAssignment>,
                        enrollments: seq<Enrollment>, sessions: seq<AttendanceSession>, marks: Marks,
                        usernames: map<Id, string>): (r: Response<SessionRoster>)
    requires sessionId.Some? ==> FindSession(sessions, sessionId.value).Some?
    requires UsersExist(enrollments, usernames)
    ensures sessionId.None? ==> r == Refused(400, "session_id required")
    ensures sessionId.Some? ==>
              var s := sessions[FindSession(sessions, sessionId.value).value];
              (!Assigned(assignments, teacher, s.section) ==> r == Refused(403, "Not assigned to this section")) &&
              (Assigned(assignments, teacher, s.section) ==>
                 r.Ok? && r.code == 200 && r.body.sessionId == s.id && r.body.date == s.date && r.body.section == s.section &&
                 |r.body.marks| == |StudentsOf(enrollments, s.section)| &&
                 forall i :: 0 <= i < |r.body.marks| ==>
                   var st := StudentsOf(enrollments, s.section)[i];
                   r.body.marks[i].studentId == st && st in usernames && r.body.marks[i].studentUsername == usernames[st] &&
                   ((s.id, st) in marks ==> r.body.marks[i].status == marks[(s.id, st)]) &&
                   ((s.id, st) !in marks ==> r.body.marks[i].status == Absent))
  {
    if sessionId.None? then Refused(400, "session_id required")
    else
      var s := sessions[FindSession(sessions, sessionId.value).value];
      if !Assigned(assignments, teacher, s.section) then Refused(403, "Not assigned to this section")
      else
        var students := Roster(enrollments, usernames, s.section);
        Ok(200, SessionRoster(s.id, s.date, s.section,
          seq(|students|, i requires 0 <= i < |students| =>
            RosterRow(students[i].id, students[i].username, StatusOr(marks, s.id, students[i].id)))))
  }

  /** One student's line of the teacher's summary. */
  datatype SummaryRow = SummaryRow(studentId: Id, studentUsername: string, presentOrExcused: nat, totalSessions: nat)
  datatype SectionSummary = SectionSummary(sectionId: Id, totalSessions: nat, students: seq<SummaryRow>)

  /** A student's line over the section's closed sessions: those marked
      present, late or excused, out of all of them. */
  function SummaryRowFor(student: StudentRef, closed: seq<AttendanceSession>, marks: Marks): (row: SummaryRow)
    ensures row.presentOrExcused <= row.totalSessions == |closed|
    ensures row.studentId == student.id && row.studentUsername == student.username
  {
    SummaryRow(student.id, student.username, CountMarked(closed, marks, student.id, PresentLateExcused), |closed|)
  }

  /** The teacher's `section_summary`. It refuses a missing section id (400)
      and a teacher not assigned to the section (403). Otherwise:
      - it counts the section's closed sessions;
      - it gives one row per enrolled student, ordered by username;
      - each row counts the sessions with a present, late or excused mark,
        which never exceeds the total. */
  method TeacherSectionSummary(teacher: Id, sectionId: Option<nat>, assignments: seq<TeachingAssignment>,
                               enrollments: seq<Enrollment>, sessions: seq<AttendanceSession>, marks: Marks,
                               usernames: map<Id, string>) returns (r: Response<SectionSummary>)
    requires UsersExist(enrollments, usernames)
    ensures sectionId.None? ==> r == Refused(400, "section_id required")
    ensures sectionId.Some? && !Assigned(assignments, teacher, sectionId.value) ==>
              r == Refused(403, "Not assigned to this section")
    ensures sectionId.Some? && Assigned(assignments, teacher, sectionId.value) ==>
              var closed := ClosedSessions(sessions, sectionId.value);
              var order := OrderedRoster(enrollments, usernames, sectionId.value);
              r.Ok? && r.code == 200 && r.body.sectionId == sectionId.value &&
              r.body.totalSessions == |closed| && |r.body.students| == |order| &&
              forall i :: 0 <= i < |order| ==> r.body.students[i] == SummaryRowFor(order[i], closed, marks)
    ensures r.Ok? ==> forall i :: 0 <= i < |r.body.students| ==>
              r.body.students[i].presentOrExcused <= r.body.students[i].totalSessions == r.body.totalSessions
  {
    if sectionId.None? {
      return Refused(400, "section_id required");
    }
    var section := sectionId.value;
    if TeachingAssignment(teacher, section) !in assignments {
      return Refused(403, "Not assigned to this section");
    }
    var closed := ClosedSessions(sessions, section);
    var order := OrderedRoster(enrollments, usernames, section);
    var rows: seq<SummaryRow> := [];
    var i := 0;
    while i < |order|
      invariant 0 <= i <= |order|
      invariant |rows| == i
      invariant forall k :: 0 <= k < i ==> rows[k] == SummaryRowFor(order[k], closed, marks)
    {
      var present := CountMarked(closed, marks, order[i].id, PresentLateExcused);
      rows := rows + [SummaryRow(order[i].id, order[i].username, present, |closed|)];
      i := i + 1;
    }
    return Ok(200, SectionSummary(section, |closed|, rows));
  }

  /** The rows of a successful teacher summary are ordered by username and
      name each enrolled student, and no one else. */
  lemma TeacherSummaryCoversSection(teacher: Id, section: Id, assignments: seq<TeachingAssignment>,
                                    enrollments: seq<Enrollment>, sessions: seq<AttendanceSession>, marks: Marks,
                                    usernames: map<Id, string>, rows: seq<SummaryRow>)
    requires UsersExist(enrollments, usernames)
    requires var order := OrderedRoster(enrollments, usernames, section);
             |rows| == |order| &&
             forall i :: 0 <= i < |order| ==> rows[i] == SummaryRowFor(order[i], ClosedSessions(sessions, section), marks)
    ensures forall i, j :: 0 <= i < j < |rows| ==> StrLe(rows[i].studentUsername, rows[j].studentUsername)
    ensures forall st :: (exists i :: 0 <= i < |rows| && rows[i].studentId == st) <==> Enrolled(enrollments, st, section)
  {
    var order := OrderedRoster(enrollments, usernames, section);
    OrderedRosterIsPermutation(enrollments, usernames, section);
    forall st
      ensures (exists i :: 0 <= i < |rows| && rows[i].studentId == st) <==> Enrolled(enrollments, st, section)
    {
      if exists i :: 0 <= i < |rows| && rows[i].studentId == st {
        var i :| 0 <= i < |rows| && rows[i].studentId == st;
        assert order[i].id == st;
      }
      if Enrolled(enrollments, st, section) {
        var i :| 0 <= i < |order| && order[i].id == st;
        assert rows[i].studentId == st;
      }
    }
  }

  /** One section of a student's `my_attendance`. The label "<course
      code>-<section name>" is represented by the section's id. */
  datatype AttendanceRow = AttendanceRow(section: Id, totalSessions: nat, presentOrLate: nat)

  /** The sections the student is enrolled in, narrowed to one when a section
      id is given, in table order. */
  function MySections(student: Id, sectionId: Option<nat>, sections: seq<Section>, es: seq<Enrollment>): (r: seq<Section>)
    ensures forall s :: s in r <==> s in sections && Enrolled(es, student, s.id) && (sectionId.None? || s.id == sectionId.value)
  {
    if sections == [] then []
    else
      var last := sections[|sections| - 1];
      var rest := MySections(student, sectionId, sections[..|sections| - 1], es);
      assert sections == sections[..|sections| - 1] + [last];
      if Enrolled(es, student, last.id) && (sectionId.None? || last.id == sectionId.value) then rest + [last] else rest
  }

  /** A student's line for one section: the closed sessions marked present
      or late, out of all of them. Excused does not count, so the figure is
      never above the teacher's present-or-excused count. */
  function AttendanceRowFor(student: Id, section: Section, sessions: seq<AttendanceSession>, marks: Marks): (row: AttendanceRow)
    ensures var closed := ClosedSessions(sessions, section.id);
            row.section == section.id && row.totalSessions == |closed| &&
            row.presentOrLate <= CountMarked(closed, marks, student, PresentLateExcused) <= row.totalSessions
  {
    var closed := ClosedSessions(sessions, section.id);
    CountMarkedMonotone(closed, marks, student, PresentOrLate, PresentLateExcused);
    AttendanceRow(section.id, |closed|, CountMarked(closed, marks, student, PresentOrLate))
  }

  /** The student's `my_attendance`: one row per section the student is
      enrolled in, or only the one asked for, in table order. */
  method MyAttendance(student: Id, sectionId: Option<nat>, sections: seq<Section>, enrollments: seq<Enrollment>,
                      sessions: seq<AttendanceSession>, marks: Marks) returns (rows: seq<AttendanceRow>)
    ensures var mine := MySections(student, sectionId, sections, enrollments);
            |rows| == |mine| && forall i :: 0 <= i < |mine| ==> rows[i] == AttendanceRowFor(student, mine[i], sessions, marks)
    ensures forall i :: 0 <= i < |rows| ==> rows[i].presentOrLate <= rows[i].totalSessions
  {
    var mine := MySections(student, sectionId, sections, enrollments);
    rows := [];
    var i := 0;
    while i < |mine|
      invariant 0 <= i <= |mine|
      invariant |rows| == i
      invariant forall k :: 0 <= k < i ==> rows[k] == AttendanceRowFor(student, mine[k], sessions, marks)
    {
      var closed := ClosedSessions(sessions, mine[i].id);
      rows := rows + [AttendanceRow(mine[i].id, |closed|, CountMarked(closed, marks, student, PresentOrLate))];
      i := i + 1;
    }
  }

  /** One closed session in a student's history. */
  datatype MarkRow = MarkRow(sessionId: Id, date: int, status: string)

  /** A closed session's line in a student's history: the student's stored
      status, or absent when there is no mark. */
  function MarkRowFor(session: AttendanceSession, student: Id, marks: Marks): (row: MarkRow)
    ensures row.sessionId == session.id && row.date == session.date
    ensures (session.id, student) in marks ==> row.status == marks[(session.id, student)]
    ensures (session.id, student) !in marks ==> row.status == Absent
  {
    MarkRow(session.id, session.date, StatusOr(marks, session.id, student))
  }

  /** A section's closed sessions, ordered by date and start time. */
  function OrderedClosedSessions(sessions: seq<AttendanceSession>, section: Id): seq<AttendanceSession> {
    SortBy(ClosedSessions(sessions, section), ByDateThenStart())
  }

  /** The ordering is by date first, and it keeps exactly the section's
      closed sessions. */
  lemma OrderedClosedSessionsSorted(sessions: seq<AttendanceSession>, section: Id)
    ensures var order := OrderedClosedSessions(sessions, section);
            (forall i, j :: 0 <= i < j < |order| ==> order[i].date <= order[j].date) &&
            (forall s :: s in order <==> s in sessions && s.section == section && s.isClosed)
  {
    var closed := ClosedSessions(sessions, section);
    ByDateThenStartOrders();
    SortBySorted(closed, ByDateThenStart());
    assert forall s :: s in SortBy(closed, ByDateThenStart()) <==> s in multiset(closed);
  }

  /** The student's `marks`. It refuses a missing section id (400) and a
      student not enrolled in the section (403). Otherwise it gives one row
      per closed session of the section, ordered by date and start time, with
      the student's status, or absent where there is no mark. */
  method StudentMarks(student: Id, sectionId: Option<nat>, enrollments: seq<Enrollment>,
                      sessions: seq<AttendanceSession>, marks: Marks) returns (r: Response<seq<MarkRow>>)
    ensures sectionId.None? ==> r == Refused(400, "section_id required")
    ensures sectionId.Some? && !Enrolled(enrollments, student, sectionId.value) ==>
              r == Refused(403, "Not enrolled in this section")
    ensures sectionId.Some? && Enrolled(enrollments, student, sectionId.value) ==>
              var order := OrderedClosedSessions(sessions, sectionId.value);
              r.Ok? && r.code == 200 && |r.body| == |order| &&
              forall i :: 0 <= i < |order| ==> r.body[i] == MarkRowFor(order[i], student, marks)
    ensures r.Ok? ==> forall i, j :: 0 <= i < j < |r.body| ==> r.body[i].date <= r.body[j].date
    ensures r.Ok? ==> forall i :: 0 <= i < |r.body| ==>
              exists s :: s in sessions && s.id == r.body[i].sessionId && s.section == sectionId.value && s.isClosed
  {
    if sectionId.None? {
      return Refused(400, "section_id required");
    }
    var section := sectionId.value;
    if Enrollment(student, section) !in enrollments {
      return Refused(403, "Not enrolled in this section");
    }
    var order := OrderedClosedSessions(sessions, section);
    var rows: seq<MarkRow> := [];
    var i := 0;
    while i < |order|
      invariant 0 <= i <= |order|
      invariant |rows| == i
      invariant forall k :: 0 <= k < i ==> rows[k] == MarkRowFor(order[k], student, marks)
    {
      var status := if (order[i].id, student) in marks then marks[(order[i].id, student)] else Absent;
      rows := rows + [MarkRow(order[i].id, order[i].date, status)];
      i := i + 1;
    }
    r := Ok(200, rows);
    OrderedClosedSessionsSorted(sessions, section);
    forall k | 0 <= k < |rows|
      ensures exists s :: s in sessions && s.id == rows[k].sessionId && s.section == section && s.isClosed
    {
      assert order[k] in order;
      assert rows[k].sessionId == order[k].id;
      assert order[k] in sessions && order[k].section == section && order[k].isClosed;
    }
  }

  /** One student's line of the head of department's summary. */
  datatype HodRow = HodRow(studentId: Id, present: nat, total: nat)
  datatype HodSummary = HodSummary(sectionId: Id, students: seq<HodRow>)

  /** The head of department's `section_summary`. It refuses a missing
      section id (400) and checks no assignment. It gives one row per
      enrolment in the section, in table order. Each row counts the closed
      sessions marked present or late (excused does not count), which never
      exceeds the total. */
  method HodSectionSummary(sectionId: Option<nat>, enrollments: seq<Enrollment>, sessions: seq<AttendanceSession>,
                           marks: Marks) returns (r: Response<HodSummary>)
    ensures sectionId.None? ==> r == Refused(400, "section_id required")
    ensures sectionId.Some? ==>
              var closed := ClosedSessions(sessions, sectionId.value);
              var ids := StudentsOf(enrollments, sectionId.value);
              r.Ok? && r.code == 200 && r.body.sectionId == sectionId.value && |r.body.students| == |ids| &&
              forall i :: 0 <= i < |ids| ==>
                r.body.students[i] == HodRow(ids[i], CountMarked(closed, marks, ids[i], PresentOrLate), |closed|) &&
                r.body.students[i].present <= r.body.students[i].total
  {
    if sectionId.None? {
      return Refused(400, "section_id required");
    }
    var section := sectionId.value;
    var closed := ClosedSessions(sessions, section);
    var total := |closed|;
    var ids := StudentsOf(enrollments, section);
    var rows: seq<HodRow> := [];
    var i := 0;
    while i < |ids|
      invariant 0 <= i <= |ids|
      invariant |rows| == i
      invariant forall k :: 0 <= k < i ==>
                  rows[k] == HodRow(ids[k], CountMarked(closed, marks, ids[k], PresentOrLate), total) &&
                  rows[k].present <= rows[k].total
    {
      var present := CountMarked(closed, marks, ids[i], PresentOrLate);
      rows := rows + [HodRow(ids[i], present, total)];
      i := i + 1;
    }
    return Ok(200, HodSummary(section, rows));
  }
}
