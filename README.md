# Attendance management: authenticated client, attendance rules and role gating

This project is a Dafny model of three parts of the attendance management system.

1. **The browser client's authenticated-request coordinator** (`src/lib/api.ts`).
   - The request interceptor adds `Authorization: Bearer <access>` (section 2.1 of RFC 6750) whenever a non-empty access token is stored.
   - The response interceptor reacts to a `401 Unauthorized` (section 15.5.2 of RFC 9110). The first such failure starts a single refresh call. Later ones park in a subscriber queue. When the refresh succeeds, the queue is replayed with the new token.
   - `login`, `logout` and `getUser` manage the three `localStorage` keys.
   - The authentication context's mount effect (`src/context/AuthContext.tsx`) logs out a session that has a stored user but no access token.
2. **The attendance rules of the Django back end** (`attendance/views_academics.py` over the tables of `attendance/models.py`).
   - A teacher opens a session for an assigned section; the view refuses to open a second unclosed session for the section that day.
   - The teacher marks attendance for enrolled students only, with a last-write-wins upsert, then closes the session.
   - Reports count closed sessions and attended marks: a teacher's summary, a session roster, a student's attendance and history, and a head of department's summary.
3. **Role gating**: the DRF permission classes (`attendance/permissions.py`), `ProtectedRoute` (`src/components/ProtectedRoute.tsx`), and the `Home` redirect and route table (`src/App.tsx`).

## Layout

- `wrappers.dfy`: `Option`.
- `users.dfy`: the three roles and their stored names.
- `permissions.dfy`: `IsTeacher`, `IsStudent`, `IsHOD`.
- `api.dfy`: the coordinator.
  - The storage helpers and `Authorize` (the request interceptor).
  - The coordinator as a value-level transition system, `Step`/`Run` over events: send, a failed response, the refresh call's success or failure, login and logout.
  - `class Client`: the module state of api.ts (`isRefreshing`, `subscribers`) plus `localStorage`. Each method is proved to follow the matching transition function.
- `api_properties.dfy`: what the coordinator guarantees (single flight, replay with the new token, the failure path), and the finding below.
- `auth_context.dfy`: the mount effect.
- `routing.dfy`: `ProtectedRoute`, `Home`, and the route table.
- `ordering.dfy`: a stable insertion sort by a total preorder, used for the reports' `order_by`.
- `models.dfy`: the academic tables, their `unique_together` constraints, and the counting queries.
- `views.dfy`:
  - `class Db` with `OpenSession`, `Mark` and `CloseSession`;
  - the specification of the mark loop (`ApplyMarks`, `CountWrites`);
  - the read-only reports.

In the client, a pending request is represented by its config: the `Request` value its callback would resend. A waiting callback is the config it will replay.

### Behaviour of the code worth knowing

- **Refresh failure.** The failing handler rethrows its own original 401 (`throw error` at api.ts:51, not the refresh error `e`). The subscriber queue is neither settled nor cleared. `OnRefreshFail` and `RefreshFailure` state this.
- **Refresh success.** The request that started the refresh registers its own callback only after `onRefreshed` has drained the queue (api.ts:44, then 54-59). This refresh therefore does not replay it (see Findings).
- **Mark statuses.** The view stores any status string of at most 10 characters (the column's `max_length`) that the client sends, because `update_or_create` does not run the field's `choices` validation. `UnlistedStatusIsStored` states this.
- **Ids in query strings.** A GET `section_id` of `"0"` passes `if not section_id`, because it is a non-empty string. A POST body id of `0` does not pass. `Views.Given` models the body rule; a query id is checked for presence only.

## Model

| member | source | states |
|---|---|---|
| Users.RoleNameInjective | users/models.py:5-10 | the stored role names of different roles differ |
| Permissions.DefaultRoleIsStudent | users/models.py:10 | a user created without a role is a student: authenticated, it passes `IsStudent` and no other class |
| Permissions.IsTeacher | attendance/permissions.py:3-5 | admits exactly an authenticated user whose role attribute is "teacher" |
| Permissions.IsStudent | attendance/permissions.py:7-9 | admits exactly an authenticated user whose role attribute is "student" |
| Permissions.IsHOD | attendance/permissions.py:11-13 | admits exactly an authenticated user whose role attribute is "hod" |
| Permissions.AdmitsExactly | attendance/permissions.py:3-13 | each permission class admits exactly an authenticated user whose role attribute is that role's stored name |
| Permissions.NoRoleNoAccess | attendance/permissions.py:3-13 | an anonymous user, or one without a role attribute (`getattr` default `""`), passes none of the three classes |
| Permissions.AtMostOneRole | attendance/permissions.py:3-13 | no user passes two different permission classes |
| Api.LoginStore | ATTENDANCE_MANAGEMENT_FRONT/attendance-frontend/src/lib/api.ts:76-83 | login stores the access token, the refresh token and the serialized user under their keys; every other key is unchanged |
| Api.ClearStore | ATTENDANCE_MANAGEMENT_FRONT/attendance-frontend/src/lib/api.ts:87-91 | logout removes the three keys and leaves every other key alone |
| Api.GetUser | ATTENDANCE_MANAGEMENT_FRONT/attendance-frontend/src/lib/api.ts:94-101 | a missing or empty stored user reads as null; otherwise the result is the parse of the stored text, so a parse failure reads as null |
| Api.LoginThenGetUser | ATTENDANCE_MANAGEMENT_FRONT/attendance-frontend/src/lib/api.ts:73-101 | with a JSON codec that round-trips, `getUser` after `login` returns the user built from the token response |
| Api.LogoutClearsUser | ATTENDANCE_MANAGEMENT_FRONT/attendance-frontend/src/lib/api.ts:87-101 | after logout `getUser` returns null |
| Api.Authorize | ATTENDANCE_MANAGEMENT_FRONT/attendance-frontend/src/lib/api.ts:19-26 | with a non-empty access token the request carries `Bearer <token>`; with a missing or empty one it is unchanged; other headers, the id and the retry mark are kept |
| Api.Initial | ATTENDANCE_MANAGEMENT_FRONT/attendance-frontend/src/lib/api.ts:8-9 | a freshly loaded client is consistent: not refreshing, no one waiting |
| Api.OnSend | ATTENDANCE_MANAGEMENT_FRONT/attendance-frontend/src/lib/api.ts:19-26 | a send dispatches the request as the interceptor rewrites it, appends it to the sent log, and changes nothing else |
| Api.OnError | ATTENDANCE_MANAGEMENT_FRONT/attendance-frontend/src/lib/api.ts:28-64 | the error handler never touches storage or the sent log; it starts a refresh exactly for a first 401 with a refresh token while idle, parks exactly for one while refreshing, and otherwise rethrows the same error (marked retried if it was a first 401) with no change; it adds at most one refresh call, none while refreshing |
| Api.Replay | ATTENDANCE_MANAGEMENT_FRONT/attendance-frontend/src/lib/api.ts:55-58 | a subscriber resends its own request (same id, same `_retry` mark, other headers kept) with an Authorization header: the interceptor's stored token when one is stored, otherwise `Bearer` of the refreshed token |
| Api.Replays | ATTENDANCE_MANAGEMENT_FRONT/attendance-frontend/src/lib/api.ts:11-14 | one replay per subscriber, each keeping its subscriber's id and retry mark |
| Api.OnRefreshOk | ATTENDANCE_MANAGEMENT_FRONT/attendance-frontend/src/lib/api.ts:42-44 | with a handler awaiting: the new access token is stored, the flag and the awaiting handler are cleared, no refresh call is added, one request per earlier waiter is appended to the sent log, and only the trigger is left queued; with none awaiting nothing happens |
| Api.OnRefreshFail | ATTENDANCE_MANAGEMENT_FRONT/attendance-frontend/src/lib/api.ts:45-52 | with a handler awaiting: its own error is rethrown, the flag is cleared, the three keys are removed, the page redirects, and the queue, sent log and refresh calls are untouched; with none awaiting nothing happens |
| Api.OnLogin | ATTENDANCE_MANAGEMENT_FRONT/attendance-frontend/src/lib/api.ts:73-85 | login changes only the storage, which then holds the response's access and refresh tokens |
| Api.OnLogout | ATTENDANCE_MANAGEMENT_FRONT/attendance-frontend/src/lib/api.ts:87-92 | logout changes only the storage and the redirect flag; the three keys are gone |
| Api.Step | ATTENDANCE_MANAGEMENT_FRONT/attendance-frontend/src/lib/api.ts:28-92 | one event never removes a refresh call and adds at most one, none while refreshing and none except on a failed response |
| Api.Client.constructor | ATTENDANCE_MANAGEMENT_FRONT/attendance-frontend/src/lib/api.ts:8-9 | the client starts in the initial state over the given storage |
| Api.Client.Send | ATTENDANCE_MANAGEMENT_FRONT/attendance-frontend/src/lib/api.ts:19-26 | a call goes out through the request interceptor, as `OnSend` says |
| Api.Client.HandleError | ATTENDANCE_MANAGEMENT_FRONT/attendance-frontend/src/lib/api.ts:28-64 | the error handler up to its `await` follows `OnError`: pass through, reject without a refresh token, start the one refresh call, or park |
| Api.Client.AddSubscriber | ATTENDANCE_MANAGEMENT_FRONT/attendance-frontend/src/lib/api.ts:15-17 | the queue grows by exactly the new callback at its end |
| Api.Client.OnRefreshed | ATTENDANCE_MANAGEMENT_FRONT/attendance-frontend/src/lib/api.ts:11-14 | every queued callback replays its request with the new token, in queue order, and the queue is emptied |
| Api.Client.RefreshSucceeded | ATTENDANCE_MANAGEMENT_FRONT/attendance-frontend/src/lib/api.ts:42-44 | the resumed handler follows `OnRefreshOk`: store the token, clear the flag, drain the queue, then queue its own request |
| Api.Client.RefreshFailed | ATTENDANCE_MANAGEMENT_FRONT/attendance-frontend/src/lib/api.ts:45-52 | the resumed handler follows `OnRefreshFail`: clear the flag and the three keys, redirect, rethrow its own error |
| Api.Client.Login | ATTENDANCE_MANAGEMENT_FRONT/attendance-frontend/src/lib/api.ts:73-85 | stores the tokens and the user and returns the user built from the response |
| Api.Client.Logout | ATTENDANCE_MANAGEMENT_FRONT/attendance-frontend/src/lib/api.ts:87-92 | clears the three keys and redirects to the login page |
| ApiProperties.StepConsistent | ATTENDANCE_MANAGEMENT_FRONT/attendance-frontend/src/lib/api.ts:28-64 | every event keeps the flag set exactly while one handler awaits the refresh, with everything waiting marked as retried |
| ApiProperties.RunConsistent | ATTENDANCE_MANAGEMENT_FRONT/attendance-frontend/src/lib/api.ts:28-64 | the same holds after any run of events |
| ApiProperties.SendAttachesToken | ATTENDANCE_MANAGEMENT_FRONT/attendance-frontend/src/lib/api.ts:19-26 | a request sent with a stored access token carries exactly that bearer token and is recorded as sent |
| ApiProperties.PassThrough | ATTENDANCE_MANAGEMENT_FRONT/attendance-frontend/src/lib/api.ts:32-62 | any failure other than a first 401 is rethrown unchanged and changes nothing |
| ApiProperties.NoRefreshTokenNoCall | ATTENDANCE_MANAGEMENT_FRONT/attendance-frontend/src/lib/api.ts:32-35 | a first 401 without a refresh token is rethrown, marked as retried, with no refresh call |
| ApiProperties.FirstUnauthorizedStartsRefresh | ATTENDANCE_MANAGEMENT_FRONT/attendance-frontend/src/lib/api.ts:36-41 | the first 401 while idle sets the flag and makes one refresh call with the stored refresh token |
| ApiProperties.UnauthorizedWhileRefreshingParks | ATTENDANCE_MANAGEMENT_FRONT/attendance-frontend/src/lib/api.ts:54-60 | a 401 during a refresh parks its marked request at the end of the queue and changes nothing else |
| ApiProperties.ReplaysAt | ATTENDANCE_MANAGEMENT_FRONT/attendance-frontend/src/lib/api.ts:11-14 | the i-th replay is the i-th subscriber's request with the new token |
| ApiProperties.ReplaysAppend | ATTENDANCE_MANAGEMENT_FRONT/attendance-frontend/src/lib/api.ts:11-14 | replaying a concatenated queue replays the parts in order |
| ApiProperties.ReplayCarriesToken | ATTENDANCE_MANAGEMENT_FRONT/attendance-frontend/src/lib/api.ts:55-58 | a replay carries `Bearer <new token>` after passing the interceptor again, and keeps its id, retry mark and other headers |
| ApiProperties.RefreshSuccess | ATTENDANCE_MANAGEMENT_FRONT/attendance-frontend/src/lib/api.ts:42-44 | after a successful refresh: only the access token changes in storage, the flag is clear, each waiter is replayed once in order with the new token, and the trigger is queued |
| ApiProperties.ReplayedUnauthorizedIsTerminal | ATTENDANCE_MANAGEMENT_FRONT/attendance-frontend/src/lib/api.ts:32-33 | a replayed request that gets 401 again is rethrown and starts no second refresh |
| ApiProperties.RefreshFailure | ATTENDANCE_MANAGEMENT_FRONT/attendance-frontend/src/lib/api.ts:45-52 | after a failed refresh: the flag is clear, the three keys are gone, the page redirects, the original 401 is rethrown, and the queue is left as it was |
| ApiProperties.RefreshingStaysSingle | ATTENDANCE_MANAGEMENT_FRONT/attendance-frontend/src/lib/api.ts:36-37 | while a refresh is in flight no event but its outcome clears the flag or makes another refresh call |
| ApiProperties.SingleFlight | ATTENDANCE_MANAGEMENT_FRONT/attendance-frontend/src/lib/api.ts:36-37 | between refresh outcomes at most one refresh call is made |
| ApiProperties.ParkWhileRefreshing | ATTENDANCE_MANAGEMENT_FRONT/attendance-frontend/src/lib/api.ts:54-60 | a burst of 401s during a refresh queues all of them in arrival order |
| ApiProperties.BurstMakesOneRefreshCall | ATTENDANCE_MANAGEMENT_FRONT/attendance-frontend/src/lib/api.ts:32-60 | a burst of 401s while idle makes exactly one refresh call; the first awaits it, the rest queue in order |
| ApiProperties.TriggerLeftQueued | ATTENDANCE_MANAGEMENT_FRONT/attendance-frontend/src/lib/api.ts:42-60 | as written: a successful refresh replays only the earlier waiters and leaves the trigger queued |
| ApiProperties.IntendedReplaysEveryWaiter | ATTENDANCE_MANAGEMENT_FRONT/attendance-frontend/src/lib/api.ts:42-60 | with the trigger queued before the drain, every waiter and the trigger are replayed with the new token and the queue is empty |
| ApiProperties.TwoRequestsAsWritten | ATTENDANCE_MANAGEMENT_FRONT/attendance-frontend/src/lib/api.ts:19-85 | login, two requests with `Bearer A1`, two 401s and a refresh to A2: one refresh call with R1, storage A2/R1, only the second request replayed with `Bearer A2`, the first left queued |
| ApiProperties.RunAppend | ATTENDANCE_MANAGEMENT_FRONT/attendance-frontend/src/lib/api.ts:28-64 | running two event lists is running the first and then the second |
| ApiProperties.ScenarioLogsInAndSends | ATTENDANCE_MANAGEMENT_FRONT/attendance-frontend/src/lib/api.ts:19-26 | after login both requests leave with the stored access token |
| ApiProperties.ScenarioRefreshes | ATTENDANCE_MANAGEMENT_FRONT/attendance-frontend/src/lib/api.ts:28-64 | two 401s and a successful refresh: one refresh call, the second request replayed, the first queued |
| AuthContext.BootstrapState | ATTENDANCE_MANAGEMENT_FRONT/attendance-frontend/src/context/AuthContext.tsx:16-21 | after the effect, a readable stored user always comes with an access token; the coordinator's flag, queue, sent log and refresh calls are untouched |
| AuthContext.UserWithoutAccessIsCleared | ATTENDANCE_MANAGEMENT_FRONT/attendance-frontend/src/context/AuthContext.tsx:16-21 | a stored user without an access token is logged out: all three keys gone, no user readable, redirect |
| AuthContext.AccessTokenKeepsSession | ATTENDANCE_MANAGEMENT_FRONT/attendance-frontend/src/context/AuthContext.tsx:16-21 | with an access token stored the effect changes nothing |
| AuthContext.NoUserKeepsStore | ATTENDANCE_MANAGEMENT_FRONT/attendance-frontend/src/context/AuthContext.tsx:14-21 | with no readable user the effect changes nothing |
| AuthContext.BootstrapIdempotent | ATTENDANCE_MANAGEMENT_FRONT/attendance-frontend/src/context/AuthContext.tsx:16-21 | running the effect twice is the same as once |
| AuthContext.Bootstrap | ATTENDANCE_MANAGEMENT_FRONT/attendance-frontend/src/context/AuthContext.tsx:14-21 | the in-memory user is `getUser()` at mount, and the client ends in the state the effect prescribes |
| Routing.ProtectedRoute | ATTENDANCE_MANAGEMENT_FRONT/attendance-frontend/src/components/ProtectedRoute.tsx:6-11 | renders the children if and only if there is a user whose role is allowed (or no role list); otherwise redirects to `/login` without a user, to `/` with a wrong role |
| Routing.HomeTarget | ATTENDANCE_MANAGEMENT_FRONT/attendance-frontend/src/App.tsx:12-22 | `/` sends no user to `/login` and each role to its dashboard |
| Routing.Resolve | ATTENDANCE_MANAGEMENT_FRONT/attendance-frontend/src/App.tsx:30-68 | each fixed route matches exactly its own path; `/student/section/:id` matches exactly the prefix followed by one non-empty segment, and carries that segment as the id; anything else is the catch-all |
| Routing.ElementOf | ATTENDANCE_MANAGEMENT_FRONT/attendance-frontend/src/App.tsx:30-68 | the route table: `/` mounts `Home`, `/login` the login page, `*` a navigation to `/`; each guarded route admits exactly one role, the role of the page it shows (student for `/student` and `/student/section/:id`, teacher for `/teacher`, hod for `/hod`) |
| Routing.Show | ATTENDANCE_MANAGEMENT_FRONT/attendance-frontend/src/App.tsx:12-68 | a rendered guarded page always belongs to the user's role, and without a user only the login page renders; every redirect goes to `/`, `/login` or the user's own dashboard; `/login` renders the login page and an unmatched path redirects to `/` |
| Routing.Settle | ATTENDANCE_MANAGEMENT_FRONT/attendance-frontend/src/App.tsx:30-68 | following redirects never ends on a page guarded for a role other than the user's; without a user it can end only on the login page |
| Routing.HomeTargetAdmits | ATTENDANCE_MANAGEMENT_FRONT/attendance-frontend/src/App.tsx:12-66 | the dashboard `Home` picks is guarded by exactly the user's role, so it renders |
| Routing.DashboardAdmitsOnlyItsRole | ATTENDANCE_MANAGEMENT_FRONT/attendance-frontend/src/App.tsx:33-66 | each dashboard renders for a user if and only if the user has its role |
| Routing.UnmatchedGoesHome | ATTENDANCE_MANAGEMENT_FRONT/attendance-frontend/src/App.tsx:68 | a path matching no route redirects to `/` |
| Routing.EveryPathSettles | ATTENDANCE_MANAGEMENT_FRONT/attendance-frontend/src/App.tsx:30-68 | every path reaches a page within three navigations; without a user that page is the login page |
| Ordering.InsertBy | attendance/views_academics.py:132-137 | insertion keeps the elements and adds the new one |
| Ordering.SortBy | attendance/views_academics.py:132-137 | the sort is a permutation of its input |
| Ordering.InsertBySorted | attendance/views_academics.py:132-137 | inserting into a sorted list keeps it sorted |
| Ordering.SortBySorted | attendance/views_academics.py:132-137 | the sort's output is sorted by any total preorder |
| Ordering.StrLeTotal | attendance/views_academics.py:136 | code-point order on usernames is total |
| Ordering.StrLeTransitive | attendance/views_academics.py:136 | code-point order on usernames is transitive |
| Models.NewSession | attendance/models.py:64-70 | a created session has the defaults: dated today, started now, no end time, not closed |
| Models.StatusOr | attendance/views_academics.py:187 | a stored mark's status, or absent when there is none |
| Models.StudentsOf | attendance/views_academics.py:278 | exactly the students enrolled in the section |
| Models.StudentsOfDistinct | attendance/models.py:58-62 | with `unique_together` on enrolments, a section's students are listed once each |
| Models.ClosedSessions | attendance/views_academics.py:129 | exactly the section's closed sessions |
| Models.CountMarked | attendance/views_academics.py:141-145 | the number of sessions in which the student has a mark with a counted status; never more than the number of sessions |
| Models.CountMarkedMonotone | attendance/views_academics.py:224 | counting more statuses never gives a smaller count, so present-or-late never exceeds present-late-or-excused |
| Models.ByDateThenStartOrders | attendance/views_academics.py:250 | ordering by date, then start time, is a total preorder |
| Views.FindSession | attendance/views_academics.py:82 | finds the session with the given id, or reports that none has it |
| Views.EnrolledIds | attendance/views_academics.py:90 | `valid_student_ids` holds exactly the students enrolled in the session's section |
| Views.ApplyMarks | attendance/views_academics.py:91-99 | the loop never deletes a mark; every new key is for this session and an enrolled student; marks of other sessions keep their status |
| Views.CountWrites | attendance/views_academics.py:91-100 | the `updated` count never exceeds the number of entries |
| Views.ApplyMarksAt | attendance/views_academics.py:92-99 | after the loop, an enrolled student named in the list has the status of the last entry naming them (default present); every other mark is unchanged |
| Views.CountWritesBounded | attendance/views_academics.py:91-100 | the reported count is at most the list's length, and equals it exactly when every entry names an enrolled student |
| Views.ApplyMarksKeepsChoices | attendance/models.py:73-77 | stored statuses stay within the four choices when every entry's status is missing or one of them |
| Views.UnlistedStatusIsStored | attendance/views_academics.py:94-98 | a status outside the choices is stored as sent |
| Views.Db.constructor | attendance/models.py:36-80 | a database with its setup rows satisfies every uniqueness constraint and has no sessions or marks |
| Views.Db.OpenSession | attendance/views_academics.py:52-70 | 400 without a section id, 403 unless assigned, 400 if an unclosed session exists today; otherwise 201 with one new session, which is then the only unclosed one for that section and day; keeps `Valid`, which includes at most one unclosed session per section and date |
| Views.Db.Mark | attendance/views_academics.py:72-100 | 400, 403 and closed-session 400 in that order, each leaving the marks alone; otherwise the marks table becomes `ApplyMarks` of the list and the reply is the count of upserts |
| Views.Db.CloseSession | attendance/views_academics.py:102-113 | 400 without an id, 403 unless assigned; otherwise only `is_closed` and `end_time` change on that session |
| Views.Roster | attendance/views_academics.py:177 | the section's students in table order, each with their username |
| Views.OrderedRosterIsPermutation | attendance/views_academics.py:132-137 | the ordered roster is sorted by username and names exactly the enrolled students |
| Views.SessionMarks | attendance/views_academics.py:161-197 | 400 without an id, 403 unless assigned; otherwise the session's id, date and section, and one row per enrolment with the stored status or absent |
| Views.SummaryRowFor | attendance/views_academics.py:141-152 | a student's present-late-or-excused count is at most the number of closed sessions |
| Views.TeacherSectionSummary | attendance/views_academics.py:115-158 | 400 without an id, 403 unless assigned; otherwise the closed-session total and one row per student in username order, each count bounded by the total |
| Views.TeacherSummaryCoversSection | attendance/views_academics.py:132-152 | the summary's rows are in username order and name each enrolled student and no one else |
| Views.MySections | attendance/views_academics.py:215-218 | exactly the sections the student is enrolled in, narrowed to the one asked for |
| Views.AttendanceRowFor | attendance/views_academics.py:222-230 | present-or-late is at most present-late-or-excused, which is at most the closed-session total |
| Views.MyAttendance | attendance/views_academics.py:209-231 | one row per enrolled section (or the one asked for), each with its closed-session total and present-or-late count |
| Views.MarkRowFor | attendance/views_academics.py:255-260 | a history row carries the session's id and date and the student's stored status, or absent without a mark |
| Views.OrderedClosedSessionsSorted | attendance/views_academics.py:247-251 | the history's sessions are in date order and are exactly the section's closed sessions |
| Views.StudentMarks | attendance/views_academics.py:233-261 | 400 without an id, 403 unless enrolled; otherwise one row per closed session of the section in date order, with the student's status or absent |
| Views.HodSectionSummary | attendance/views_academics.py:269-289 | 400 without an id and no assignment check; otherwise one row per enrolment with a present-or-late count bounded by the total |

## Left out

- HTTP transport, axios, promises and the event loop: a request's journey is a sequence of events (`Send`, `Fail`, `RefreshOk`, `RefreshFail`). The refresh call's network outcome is an event parameter.
- `window.location.href`: modelled as a `redirected` flag; the page reload it causes is not modelled.
- `JSON.stringify`/`JSON.parse` of the stored user: a `Codec` parameter. The round-trip is a precondition of `LoginThenGetUser`, and a parse error reads as null.
- A failed refresh call takes one path whatever the cause, network or server; the cause is not modelled.
- Routing.Resolve: React Router's case-insensitive matching, trailing slashes, URL decoding and the `replace` history flag are not modelled. Paths are compared exactly.
- AuthContext.Bootstrap: React state and re-renders are not modelled. The effect runs once with the initial user, and the in-memory user is not reset by the logout it triggers.
- Percentages in the reports (floating point): only the integer counts and totals are modelled.
- The section label `"<code>-<name>"` in session_marks and my_attendance: the results carry the section id instead.
- The ORM: tables are sequences and the marks table is a map keyed by (session, student). `DoesNotExist` from `.get(id=...)` (a 500 in the source) is a precondition of `Mark`, `CloseSession` and `SessionMarks`.
- Views.Db.OpenSession, Views.Db.Mark, Views.Db.CloseSession, Views.SessionMarks, Views.TeacherSectionSummary, Views.MyAttendance, Views.StudentMarks, Views.HodSectionSummary: request ids are natural numbers. A malformed section or session id (text such as `"abc"`, which raises in the ORM filter or at `int(section_id)` and gives a 500) is not modelled, and neither is a negative body id, which is truthy and so passes the 400 check: `open_session` then answers 403, and `mark` and `close_session` fail the session lookup.
- Views.Db.OpenSession: the views run one at a time. In the source the check for an unclosed session (`.exists()`) and the insert are separate queries outside a transaction, and `AttendanceSession` has no unique constraint, so two concurrent `open_session` requests can both create an unclosed session for the same section and day. The invariant `AtMostOneOpen` of `Db.Valid` holds only under sequential execution.
- Views.Db.Mark: entries that are not JSON objects (where `.get` raises), a `null` status (rejected by the database's NOT NULL constraint), and a status longer than the column's 10 characters (rejected, with a 500, by a database that enforces `max_length`) are not modelled. A `student` value that is a JSON list or object raises `TypeError` at the membership test against the enrolled ids (a 500, not a skip) and is not modelled either. A student id is modelled as a natural number or absent; a JSON value that Python compares equal to an integer id (`5.0`, or `true` for id 1) and so would match is not modelled, and an absent or other non-integer id never matches.
- Database collation: `order_by("student__username")` is modelled as code-point order, and the sort is stable over table order.
- Time: `timezone.localdate()` and `timezone.now()` are parameters `today` and `now`.
- The HOD CRUD viewsets, both `my_sections` endpoints, the team/shift/attendance-record models, serializers, URL routing and the UI pages are outside this model.
- Authentication of the Django request (JWT validation) is outside this model; `RequestUser` is what it produces.

## Findings

| source | as written | input that shows it | evidently intended | confidence | as-written member | corrected member |
|---|---|---|---|---|---|---|
| ATTENDANCE_MANAGEMENT_FRONT/attendance-frontend/src/lib/api.ts:36-60 | the request that triggers the refresh registers its callback only after `onRefreshed` has drained the queue, so this refresh does not replay it; it waits in the queue until the next successful refresh, if any | log in, send two requests, both fail with 401, refresh returns a new token: only the second is replayed; the first stays queued until some later refresh | the trigger is queued before the drain, so every waiter and the trigger are replayed with the new token and the queue ends empty | not executed | ApiProperties.TriggerLeftQueued | ApiProperties.IntendedReplaysEveryWaiter |

The `Client` class keeps the as-written transition, because it models the code. `ApiProperties.OnRefreshOkIntended` is the corrected transition, and `IntendedReplaysEveryWaiter` is proved about it. `ApiProperties.TwoRequestsAsWritten` works the input above through the as-written model.
