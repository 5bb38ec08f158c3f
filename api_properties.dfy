/** What the refresh coordinator of src/lib/api.ts guarantees, and where it
    falls short of replaying every waiting request. The properties are proved
    about the transition functions of module Api, which the `Client` methods
    are proved to follow. */
module ApiProperties {
  import opened Wrappers
  import opened Users
  import opened Api

  // ----- One event at a time -----

  /** Every event keeps the coordinator consistent: the flag is set exactly
      while a handler awaits the refresh call, and everything waiting is
      marked `_retry`. */
  lemma StepConsistent(c: Codec, s: State, e: Event)
    requires Consistent(s)
    ensures Consistent(Step(c, s, e).state)
  {
  }

  /** A run of events keeps the coordinator consistent. */
  lemma {:induction false} RunConsistent(c: Codec, s: State, events: seq<Event>)
    requires Consistent(s)
    ensures Consistent(Run(c, s, events))
    decreases |events|
  {
    if events != [] {
      StepConsistent(c, s, events[0]);
      RunConsistent(c, Step(c, s, events[0]).state, events[1..]);
    }
  }

  /** A request is sent exactly as the request interceptor leaves it. It
      carries the stored access token as a bearer credential when one is
      stored. */
  lemma SendAttachesToken(s: State, req: Request)
    requires Truthy(GetItem(s.storage, AccessKey))
    ensures var out := OnSend(s, req);
            out.state.sent == s.sent + [out.reaction.req] &&
            out.reaction.req.headers[AuthorizationHeader] == Bearer(s.storage[AccessKey])
  {
  }

  /** An error that is not a 401, or a 401 on a request already marked
      `_retry`, is rethrown unchanged, and nothing changes. */
  lemma PassThrough(s: State, err: HttpError)
    requires err.status != Some(Unauthorized) || err.config.retry
    ensures OnError(s, err) == Outcome(s, Rejected(err))
  {
  }

  /** A first 401 when no refresh token is stored is rethrown at once. No
      refresh call is made. The thrown error's request is already marked. */
  lemma NoRefreshTokenNoCall(s: State, err: HttpError)
    requires err.status == Some(Unauthorized) && !err.config.retry
    requires !Truthy(GetItem(s.storage, RefreshKey))
    ensures OnError(s, err) == Outcome(s, Rejected(err.(config := err.config.(retry := true))))
  {
  }

  /** A first 401 that finds the client idle starts the refresh. It sets the
      flag and posts the stored refresh token, and this is the only way a
      refresh call is made. */
  lemma FirstUnauthorizedStartsRefresh(s: State, err: HttpError)
    requires !s.isRefreshing && err.status == Some(Unauthorized) && !err.config.retry
    requires Truthy(GetItem(s.storage, RefreshKey))
    ensures var out := OnError(s, err);
            out.reaction == RefreshStarted && out.state.isRefreshing &&
            out.state.refreshCalls == s.refreshCalls + [s.storage[RefreshKey]] &&
            out.state.awaiting == Some(err.(config := err.config.(retry := true))) &&
            out.state.subscribers == s.subscribers && out.state.storage == s.storage
  {
  }

  /** A first 401 while a refresh is in flight only appends its marked request
      to the subscribers. */
  lemma UnauthorizedWhileRefreshingParks(s: State, err: HttpError)
    requires s.isRefreshing && err.status == Some(Unauthorized) && !err.config.retry
    requires Truthy(GetItem(s.storage, RefreshKey))
    ensures OnError(s, err) == Outcome(s.(subscribers := s.subscribers + [err.config.(retry := true)]), Parked)
  {
  }

  // ----- What a replay sends -----

  /** `onRefreshed` sends one request per subscriber, in queue order. */
  lemma {:induction false} ReplaysAt(subs: seq<Request>, token: string, st: Storage, i: int)
    requires 0 <= i < |subs|
    ensures |Replays(subs, token, st)| == |subs|
    ensures Replays(subs, token, st)[i] == Replay(subs[i], token, st)
    decreases |subs|
  {
    if i < |subs| - 1 {
      ReplaysAt(subs[..|subs| - 1], token, st, i);
    } else if |subs| > 1 {
      ReplaysAt(subs[..|subs| - 1], token, st, 0);
    }
  }

  /** Replaying the queue of a queue followed by more requests replays the
      first part, then the rest. */
  lemma {:induction false} ReplaysAppend(a: seq<Request>, b: seq<Request>, token: string, st: Storage)
    ensures Replays(a + b, token, st) == Replays(a, token, st) + Replays(b, token, st)
    decreases |b|
  {
    if b != [] {
      var b' := b[..|b| - 1];
      assert (a + b)[..|a + b| - 1] == a + b';
      ReplaysAppend(a, b', token, st);
    } else {
      assert a + b == a;
    }
  }

  /** Once the new token is stored, a replayed request is the subscriber's own
      request, still marked `_retry`, with the Authorization header set to the
      new bearer credential and every other header as it was. */
  lemma ReplayCarriesToken(r: Request, token: string, st: Storage)
    requires GetItem(st, AccessKey) == Some(token)
    ensures var out := Replay(r, token, st);
            out.id == r.id && out.retry == r.retry &&
            AuthorizationHeader in out.headers && out.headers[AuthorizationHeader] == Bearer(token) &&
            forall h :: h != AuthorizationHeader ==>
              (h in out.headers <==> h in r.headers) && (h in r.headers ==> out.headers[h] == r.headers[h])
  {
  }

  // ----- Refresh success -----

  /** When the refresh call returns `token`:
      - `access` becomes the new token, and `refresh`, `user` and every other
        key stay as they were;
      - the flag is cleared and no further refresh call is made;
      - every subscriber queued at that moment is replayed exactly once, in
        order, with `Authorization: Bearer <token>`, still marked `_retry`;
      - the queue then holds only the triggering request, which was queued
        after the drain. */
  lemma RefreshSuccess(s: State, token: string)
    requires Consistent(s) && s.isRefreshing
    ensures var out := OnRefreshOk(s, token); var t := out.state;
            out.reaction == Parked &&
            GetItem(t.storage, AccessKey) == Some(token) &&
            (forall k :: k != AccessKey ==> GetItem(t.storage, k) == GetItem(s.storage, k)) &&
            !t.isRefreshing && t.awaiting.None? && t.refreshCalls == s.refreshCalls &&
            |t.sent| == |s.sent| + |s.subscribers| && t.sent[..|s.sent|] == s.sent &&
            (forall i :: 0 <= i < |s.subscribers| ==>
              t.sent[|s.sent| + i].id == s.subscribers[i].id && t.sent[|s.sent| + i].retry &&
              AuthorizationHeader in t.sent[|s.sent| + i].headers &&
              t.sent[|s.sent| + i].headers[AuthorizationHeader] == Bearer(token)) &&
            t.subscribers == [s.awaiting.value.config]
  {
    var t := OnRefreshOk(s, token).state;
    var st := s.storage[AccessKey := token];
    forall i | 0 <= i < |s.subscribers|
      ensures t.sent[|s.sent| + i].id == s.subscribers[i].id && t.sent[|s.sent| + i].retry &&
              AuthorizationHeader in t.sent[|s.sent| + i].headers &&
              t.sent[|s.sent| + i].headers[AuthorizationHeader] == Bearer(token)
    {
      ReplaysAt(s.subscribers, token, st, i);
      ReplayCarriesToken(s.subscribers[i], token, st);
      assert s.subscribers[i] in s.subscribers;
    }
  }

  /** No refresh loop: a 401 on any request replayed after a refresh is
      rethrown as it is, and starts no second refresh. */
  lemma ReplayedUnauthorizedIsTerminal(s: State, token: string, i: int)
    requires Consistent(s) && s.isRefreshing && 0 <= i < |s.subscribers|
    ensures var t := OnRefreshOk(s, token).state;
            |s.sent| + i < |t.sent| &&
            var err := HttpError(Some(Unauthorized), t.sent[|s.sent| + i]);
            OnError(t, err) == Outcome(t, Rejected(err))
  {
    var st := s.storage[AccessKey := token];
    ReplaysAt(s.subscribers, token, st, i);
    ReplayCarriesToken(s.subscribers[i], token, st);
    assert s.subscribers[i] in s.subscribers;
  }

  // ----- Refresh failure -----

  /** When the refresh call fails:
      - the flag is cleared;
      - `access`, `refresh` and `user` are all removed, so no user is signed in;
      - the browser is sent to the login page;
      - the triggering caller gets its original 401 back;
      - the subscribers are left queued, neither replayed nor rejected. */
  lemma RefreshFailure(c: Codec, s: State)
    requires Consistent(s) && s.isRefreshing
    ensures var out := OnRefreshFail(s); var t := out.state;
            !t.isRefreshing && t.awaiting.None? &&
            GetItem(t.storage, AccessKey).None? && GetItem(t.storage, RefreshKey).None? &&
            GetItem(t.storage, UserKey).None? && GetUser(t.storage, c).None? &&
            t.redirected &&
            out.reaction == Rejected(s.awaiting.value) && s.awaiting.value.status == Some(Unauthorized) &&
            t.subscribers == s.subscribers && t.sent == s.sent && t.refreshCalls == s.refreshCalls
  {
  }

  // ----- Single flight over a run of events -----

  /** A run with no refresh outcome in it: the refresh call, if one is in
      flight, has not answered yet. */
  predicate NoRefreshOutcome(events: seq<Event>) {
    forall i :: 0 <= i < |events| ==> !events[i].RefreshOk? && !events[i].RefreshFail?
  }

  /** While a refresh is in flight, no event other than its outcome clears the
      flag, replaces the awaiting handler or makes another refresh call. */
  lemma {:induction false} RefreshingStaysSingle(c: Codec, s: State, events: seq<Event>)
    requires Consistent(s) && s.isRefreshing && NoRefreshOutcome(events)
    ensures var t := Run(c, s, events);
            t.isRefreshing && t.awaiting == s.awaiting && t.refreshCalls == s.refreshCalls
    decreases |events|
  {
    if events != [] {
      var s1 := Step(c, s, events[0]).state;
      StepConsistent(c, s, events[0]);
      assert NoRefreshOutcome(events[1..]) by {
        forall i | 0 <= i < |events[1..]|
          ensures !events[1..][i].RefreshOk? && !events[1..][i].RefreshFail?
        {
          assert events[1..][i] == events[i + 1];
        }
      }
      RefreshingStaysSingle(c, s1, events[1..]);
    }
  }

  /** Single flight: however many requests fail in a run, until the refresh
      call answers at most one refresh call is made, and none when one was
      already in flight. Earlier calls are kept as they were. */
  lemma {:induction false} SingleFlight(c: Codec, s: State, events: seq<Event>)
    requires Consistent(s) && NoRefreshOutcome(events)
    ensures var t := Run(c, s, events);
            s.refreshCalls <= t.refreshCalls &&
            |t.refreshCalls| <= |s.refreshCalls| + (if s.isRefreshing then 0 else 1)
    decreases |events|
  {
    if s.isRefreshing {
      RefreshingStaysSingle(c, s, events);
    } else if events != [] {
      var s1 := Step(c, s, events[0]).state;
      StepConsistent(c, s, events[0]);
      assert NoRefreshOutcome(events[1..]) by {
        forall i | 0 <= i < |events[1..]|
          ensures !events[1..][i].RefreshOk? && !events[1..][i].RefreshFail?
        {
          assert events[1..][i] == events[i + 1];
        }
      }
      assert s.refreshCalls <= s1.refreshCalls;
      assert |s1.refreshCalls| <= |s.refreshCalls| + 1;
      assert !s1.isRefreshing ==> s1.refreshCalls == s.refreshCalls;
      SingleFlight(c, s1, events[1..]);
    }
  }

  /** The 401 responses to a list of requests. */
  function UnauthorizedAll(reqs: seq<Request>): (events: seq<Event>)
    ensures |events| == |reqs|
    ensures forall i :: 0 <= i < |reqs| ==> events[i] == Fail(HttpError(Some(Unauthorized), reqs[i]))
  {
    seq(|reqs|, i requires 0 <= i < |reqs| => Fail(HttpError(Some(Unauthorized), reqs[i])))
  }

  /** The requests with the `_retry` mark set. */
  function MarkAll(reqs: seq<Request>): (marked: seq<Request>)
    ensures |marked| == |reqs|
    ensures forall i :: 0 <= i < |reqs| ==> marked[i] == reqs[i].(retry := true)
  {
    seq(|reqs|, i requires 0 <= i < |reqs| => reqs[i].(retry := true))
  }

  /** While a refresh is in flight, first 401s only join the queue, in
      arrival order, each exactly once. */
  lemma {:induction false} ParkWhileRefreshing(c: Codec, s: State, reqs: seq<Request>)
    requires Consistent(s) && s.isRefreshing && Truthy(GetItem(s.storage, RefreshKey))
    requires forall i :: 0 <= i < |reqs| ==> !reqs[i].retry
    ensures Run(c, s, UnauthorizedAll(reqs)) == s.(subscribers := s.subscribers + MarkAll(reqs))
    decreases |reqs|
  {
    if reqs == [] {
      assert s.subscribers + MarkAll(reqs) == s.subscribers;
    } else {
      var marked := reqs[0].(retry := true);
      var s1 := s.(subscribers := s.subscribers + [marked]);
      assert Step(c, s, UnauthorizedAll(reqs)[0]).state == s1;
      assert UnauthorizedAll(reqs)[1..] == UnauthorizedAll(reqs[1..]);
      ParkWhileRefreshing(c, s1, reqs[1..]);
      assert s.subscribers + [marked] + MarkAll(reqs[1..]) == s.subscribers + MarkAll(reqs);
    }
  }

  /** N requests fail with 401 back to back before any refresh answers. Then
      exactly one refresh call is made, with the stored refresh token. The
      first request awaits it. The other N - 1 are queued in order. Nothing
      is sent and the store is untouched. */
  lemma BurstMakesOneRefreshCall(c: Codec, s: State, reqs: seq<Request>)
    requires Consistent(s) && !s.isRefreshing && Truthy(GetItem(s.storage, RefreshKey))
    requires |reqs| >= 1 && forall i :: 0 <= i < |reqs| ==> !reqs[i].retry
    ensures var t := Run(c, s, UnauthorizedAll(reqs));
            t.refreshCalls == s.refreshCalls + [s.storage[RefreshKey]] &&
            t.isRefreshing && t.awaiting == Some(HttpError(Some(Unauthorized), reqs[0].(retry := true))) &&
            t.subscribers == s.subscribers + MarkAll(reqs[1..]) &&
            t.storage == s.storage && t.sent == s.sent
  {
    var events := UnauthorizedAll(reqs);
    var s1 := Step(c, s, events[0]).state;
    assert s1 == s.(isRefreshing := true, refreshCalls := s.refreshCalls + [s.storage[RefreshKey]],
                    awaiting := Some(HttpError(Some(Unauthorized), reqs[0].(retry := true))));
    assert events[1..] == UnauthorizedAll(reqs[1..]);
    ParkWhileRefreshing(c, s1, reqs[1..]);
  }

  // ----- Where the code differs from replaying every waiter -----

  /** As written, the request whose 401 triggered the refresh is queued only
      after `onRefreshed` has drained the queue. A successful refresh
      therefore sends one request fewer than are waiting on it, and the
      triggering request stays queued until some later refresh succeeds. */
  lemma TriggerLeftQueued(s: State, token: string)
    requires Consistent(s) && s.isRefreshing
    ensures var t := OnRefreshOk(s, token).state;
            |t.sent| - |s.sent| == |s.subscribers| &&
            t.subscribers == [s.awaiting.value.config] && t.subscribers != []
  {
    RefreshSuccess(s, token);
  }

  /** The transition the code evidently intends: the triggering request is
      queued before the drain, so every waiting request is replayed once and
      the queue ends empty. */
  function OnRefreshOkIntended(s: State, token: string): Outcome {
    if s.awaiting.None? then Outcome(s, Stray)
    else
      var st := s.storage[AccessKey := token];
      Outcome(s.(storage := st, isRefreshing := false,
                 sent := s.sent + Replays(s.subscribers + [s.awaiting.value.config], token, st),
                 subscribers := [],
                 awaiting := None),
              Parked)
  }

  /** With the intended transition, every request that was waiting on the
      refresh (the queued ones in order, then the triggering one) is replayed
      exactly once with the new token, and nothing is left queued. */
  lemma IntendedReplaysEveryWaiter(s: State, token: string)
    requires Consistent(s) && s.isRefreshing
    ensures var t := OnRefreshOkIntended(s, token).state;
            var waiting := s.subscribers + [s.awaiting.value.config];
            t.subscribers == [] && !t.isRefreshing &&
            GetItem(t.storage, AccessKey) == Some(token) &&
            |t.sent| == |s.sent| + |waiting| && t.sent[..|s.sent|] == s.sent &&
            forall i :: 0 <= i < |waiting| ==>
              t.sent[|s.sent| + i].id == waiting[i].id && t.sent[|s.sent| + i].retry &&
              AuthorizationHeader in t.sent[|s.sent| + i].headers &&
              t.sent[|s.sent| + i].headers[AuthorizationHeader] == Bearer(token)
  {
    var waiting := s.subscribers + [s.awaiting.value.config];
    var st := s.storage[AccessKey := token];
    var t := OnRefreshOkIntended(s, token).state;
    forall i | 0 <= i < |waiting|
      ensures t.sent[|s.sent| + i].id == waiting[i].id && t.sent[|s.sent| + i].retry &&
              AuthorizationHeader in t.sent[|s.sent| + i].headers &&
              t.sent[|s.sent| + i].headers[AuthorizationHeader] == Bearer(token)
    {
      ReplaysAt(waiting, token, st, i);
      ReplayCarriesToken(waiting[i], token, st);
      if i < |s.subscribers| {
        assert waiting[i] == s.subscribers[i] && s.subscribers[i] in s.subscribers;
      }
    }
  }

  // ----- The two-request scenario -----

  /** A teacher's token response: access A1, refresh R1, user 7 "t1". */
  const TeacherLogin: TokenResponse := TokenResponse("A1", "R1", Teacher, 7, "t1")

  /** The two-request scenario, as written. After a login with access A1 and
      refresh R1, two requests are sent with `Bearer A1` and both come back
      401. One refresh call posts R1 and returns A2. The store then holds
      A2 and R1. Only the second request is replayed, with `Bearer A2`. The
      first, which triggered the refresh, is left in the queue. */
  lemma TwoRequestsAsWritten(c: Codec, st0: Storage, r1: Request, r2: Request)
    requires !r1.retry && !r2.retry
    ensures var a1 := Authorize(r1, LoginStore(st0, TeacherLogin, c));
            var a2 := Authorize(r2, LoginStore(st0, TeacherLogin, c));
            var t := Run(c, Initial(st0),
                         [Login(TeacherLogin), Send(r1), Send(r2),
                          Fail(HttpError(Some(Unauthorized), a1)), Fail(HttpError(Some(Unauthorized), a2)),
                          RefreshOk("A2")]);
            a1.headers[AuthorizationHeader] == Bearer("A1") && a2.headers[AuthorizationHeader] == Bearer("A1") &&
            t.refreshCalls == ["R1"] &&
            GetItem(t.storage, AccessKey) == Some("A2") && GetItem(t.storage, RefreshKey) == Some("R1") &&
            t.sent == [a1, a2, Replay(a2.(retry := true), "A2", t.storage)] &&
            t.sent[2].headers[AuthorizationHeader] == Bearer("A2") &&
            t.subscribers == [a1.(retry := true)] && !t.isRefreshing
  {
    var st1 := LoginStore(st0, TeacherLogin, c);
    var a1 := Authorize(r1, st1);
    var a2 := Authorize(r2, st1);
    var first := [Login(TeacherLogin), Send(r1), Send(r2)];
    var second := [Fail(HttpError(Some(Unauthorized), a1)), Fail(HttpError(Some(Unauthorized), a2)), RefreshOk("A2")];
    assert first + second == [Login(TeacherLogin), Send(r1), Send(r2),
                              Fail(HttpError(Some(Unauthorized), a1)), Fail(HttpError(Some(Unauthorized), a2)),
                              RefreshOk("A2")];
    RunAppend(c, Initial(st0), first, second);
    ScenarioLogsInAndSends(c, st0, r1, r2);
    ScenarioRefreshes(c, st1, a1, a2);
    ReplayCarriesToken(a2.(retry := true), "A2", st1[AccessKey := "A2"]);
  }

  /** Running two lists of events is running the first, then the second. */
  lemma {:induction false} RunAppend(c: Codec, s: State, xs: seq<Event>, ys: seq<Event>)
    ensures Run(c, s, xs + ys) == Run(c, Run(c, s, xs), ys)
    decreases |xs|
  {
    if xs == [] {
      assert xs + ys == ys;
    } else {
      assert (xs + ys)[0] == xs[0];
      assert (xs + ys)[1..] == xs[1..] + ys;
      RunAppend(c, Step(c, s, xs[0]).state, xs[1..], ys);
    }
  }

  /** The first half of the scenario: the login, then both requests leave with
      the stored access token. */
  lemma ScenarioLogsInAndSends(c: Codec, st0: Storage, r1: Request, r2: Request)
    ensures var st1 := LoginStore(st0, TeacherLogin, c);
            Run(c, Initial(st0), [Login(TeacherLogin), Send(r1), Send(r2)]) ==
              Initial(st1).(sent := [Authorize(r1, st1), Authorize(r2, st1)])
  {
    var st1 := LoginStore(st0, TeacherLogin, c);
    var events := [Login(TeacherLogin), Send(r1), Send(r2)];
    var s1 := Initial(st1);
    assert Step(c, Initial(st0), events[0]).state == s1;
    var s2 := s1.(sent := [Authorize(r1, st1)]);
    assert Step(c, s1, events[1]).state == s2;
    var s3 := s1.(sent := [Authorize(r1, st1), Authorize(r2, st1)]);
    assert Step(c, s2, events[2]).state == s3;
    assert events[1..] == [events[1], events[2]] && events[1..][1..] == [events[2]];
    assert Run(c, s2, [events[2]]) == Run(c, s3, []);
  }

  /** The second half of the scenario: both requests fail with 401, the first
      starts the one refresh call, the second parks, and the refresh returns
      A2. */
  lemma ScenarioRefreshes(c: Codec, st1: Storage, a1: Request, a2: Request)
    requires !a1.retry && !a2.retry
    requires GetItem(st1, RefreshKey) == Some("R1")
    ensures var st6 := st1[AccessKey := "A2"];
            Run(c, Initial(st1).(sent := [a1, a2]),
                [Fail(HttpError(Some(Unauthorized), a1)), Fail(HttpError(Some(Unauthorized), a2)), RefreshOk("A2")]) ==
              Initial(st6).(sent := [a1, a2, Replay(a2.(retry := true), "A2", st6)],
                            refreshCalls := ["R1"], subscribers := [a1.(retry := true)])
  {
    var events := [Fail(HttpError(Some(Unauthorized), a1)), Fail(HttpError(Some(Unauthorized), a2)), RefreshOk("A2")];
    var s3 := Initial(st1).(sent := [a1, a2]);
    var s4 := s3.(isRefreshing := true, refreshCalls := ["R1"],
                  awaiting := Some(HttpError(Some(Unauthorized), a1.(retry := true))));
    assert Step(c, s3, events[0]).state == s4;
    var s5 := s4.(subscribers := [a2.(retry := true)]);
    assert Step(c, s4, events[1]).state == s5;
    var st6 := st1[AccessKey := "A2"];
    assert Replays([a2.(retry := true)], "A2", st6) == [Replay(a2.(retry := true), "A2", st6)];
    assert events[1..] == [events[1], events[2]] && events[1..][1..] == [events[2]];
    assert Run(c, s5, [events[2]]) == Run(c, Step(c, s5, events[2]).state, []);
  }
}
