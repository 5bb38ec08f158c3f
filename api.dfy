/** The authenticated-request coordinator of the frontend's HTTP client
    (src/lib/api.ts).

    The module has two layers. The first is a value-level specification:
    `State` is everything the coordinator owns or can be observed doing, and
    `Step` is what one event of the single-threaded event loop does to it.
    The second is `Client`, a class whose fields are the module state of
    api.ts (`isRefreshing`, `subscribers`, `localStorage`) and whose methods
    are the interceptors, each proved to take exactly the transition `Step`
    describes.

    Asynchrony is modelled by splitting the response interceptor at its one
    `await`. A `Fail` event is a response error reaching the interceptor. The
    refresh call it may issue resolves later, as a separate `RefreshOk` or
    `RefreshFail` event, and other events can happen in between. A queued
    continuation (a subscriber) is represented by the `_retry`-marked request
    it replays. */
module Api {
  import opened Wrappers
  import opened Users

  // ----- Credential store (localStorage) -----

  /** The three localStorage keys the client uses. */
  const AccessKey: string := "access"
  const RefreshKey: string := "refresh"
  const UserKey: string := "user"

  /** Where the client sends the browser when the session ends. */
  const LoginPath: string := "/login"

  /** localStorage: string keys to string values. */
  type Storage = map<string, string>

  /** The signed-in user, as `login` stores it (the optional email is never
      stored and is left out). */
  datatype User = User(id: int, username: string, role: Role)

  /** JSON.stringify and JSON.parse for a stored user. They are parameters of
      the model rather than modelled. `parse` gives `None` where JSON.parse
      throws. */
  datatype Codec = Codec(stringify: User -> string, parse: string -> Option<User>)

  /** What the client relies on from JSON: the text of a user is not empty, and
      parsing it gives back that user. */
  ghost predicate RoundTrips(c: Codec) {
    forall u: User :: c.stringify(u) != "" && c.parse(c.stringify(u)) == Some(u)
  }

  /** `localStorage.getItem(key)`: the stored string, or null. */
  function GetItem(st: Storage, key: string): Option<string> {
    if key in st then Some(st[key]) else None
  }

  /** JavaScript truthiness of `getItem`'s result: null and "" are false. */
  predicate Truthy(v: Option<string>) {
    v.Some? && v.value != ""
  }

  /** The body of the authentication service's token response. */
  datatype TokenResponse = TokenResponse(access: string, refresh: string, role: Role, userId: int, username: string)

  /** The user `login` builds from a token response. */
  function UserOf(resp: TokenResponse): User {
    User(resp.userId, resp.username, resp.role)
  }

  /** The storage after `login`'s three `setItem` calls. */
  function LoginStore(st: Storage, resp: TokenResponse, c: Codec): (r: Storage)
    ensures GetItem(r, AccessKey) == Some(resp.access)
    ensures GetItem(r, RefreshKey) == Some(resp.refresh)
    ensures GetItem(r, UserKey) == Some(c.stringify(UserOf(resp)))
    ensures forall k :: k != AccessKey && k != RefreshKey && k != UserKey ==> GetItem(r, k) == GetItem(st, k)
  {
    st[AccessKey := resp.access][RefreshKey := resp.refresh][UserKey := c.stringify(UserOf(resp))]
  }

  /** The storage after the three `removeItem` calls of `logout`, which the
      refresh-failure path repeats. */
  function ClearStore(st: Storage): (r: Storage)
    ensures GetItem(r, AccessKey).None? && GetItem(r, RefreshKey).None? && GetItem(r, UserKey).None?
    ensures forall k :: k != AccessKey && k != RefreshKey && k != UserKey ==> GetItem(r, k) == GetItem(st, k)
  {
    st - {AccessKey, RefreshKey, UserKey}
  }

  /** `getUser`: the stored user, or null when the key is missing, empty or
      does not parse. */
  function GetUser(st: Storage, c: Codec): (u: Option<User>)
    ensures !Truthy(GetItem(st, UserKey)) ==> u.None?
    ensures Truthy(GetItem(st, UserKey)) ==> u == c.parse(st[UserKey])
    ensures u.Some? ==> UserKey in st && c.parse(st[UserKey]) == u
  {
    var raw := GetItem(st, UserKey);
    if Truthy(raw) then c.parse(raw.value) else None
  }

  /** After a successful login, `getUser` returns the user built from the
      token response. */
  lemma LoginThenGetUser(st: Storage, resp: TokenResponse, c: Codec)
    requires RoundTrips(c)
    ensures GetUser(LoginStore(st, resp, c), c) == Some(UserOf(resp))
  {
    var u := UserOf(resp);
    assert c.stringify(u) != "" && c.parse(c.stringify(u)) == Some(u);
  }

  /** After `logout` no user is signed in, and a second `logout` changes
      nothing. */
  lemma LogoutClearsUser(st: Storage, c: Codec)
    ensures GetUser(ClearStore(st), c).None?
    ensures ClearStore(ClearStore(st)) == ClearStore(st)
  {
  }

  // ----- Request interceptor -----

  /** An outgoing request as the interceptors see it: an identity standing for
      the request's target and body, its headers, and the `_retry` mark that
      the response interceptor sets. */
  datatype Request = Request(id: nat, headers: map<string, string>, retry: bool)

  const AuthorizationHeader: string := "Authorization"

  /** The credential header value of section 2.1 of RFC 6750. */
  function Bearer(token: string): string {
    "Bearer " + token
  }

  /** The request interceptor. When a non-empty access token is stored it sets
      the Authorization header to that bearer credential. Otherwise it passes
      the request through untouched. */
  function Authorize(req: Request, st: Storage): (r: Request)
    ensures r.id == req.id && r.retry == req.retry
    ensures Truthy(GetItem(st, AccessKey)) ==>
              AuthorizationHeader in r.headers && r.headers[AuthorizationHeader] == Bearer(st[AccessKey])
    ensures !Truthy(GetItem(st, AccessKey)) ==> r == req
    ensures forall h :: h != AuthorizationHeader ==>
              (h in r.headers <==> h in req.headers) && (h in req.headers ==> r.headers[h] == req.headers[h])
  {
    var token := GetItem(st, AccessKey);
    if Truthy(token) then req.(headers := req.headers[AuthorizationHeader := Bearer(token.value)]) else req
  }

  // ----- Response interceptor: the refresh coordinator -----

  /** A failed response as axios reports it: the HTTP status, absent when no
      response arrived, and the request's config. */
  datatype HttpError = HttpError(status: Option<int>, config: Request)

  /** The status of section 15.5.2 of RFC 9110, "401 Unauthorized". */
  const Unauthorized: int := 401

  /** Everything the coordinator owns or can be seen doing.
      - storage: localStorage;
      - isRefreshing, subscribers: the module-level variables of api.ts;
      - awaiting: the 401 whose handler is suspended on the refresh call;
      - sent: every request handed to the transport, in order;
      - refreshCalls: the refresh token posted by each refresh call;
      - redirected: whether `window.location.href` was set to the login page. */
  datatype State = State(
    storage: Storage,
    isRefreshing: bool,
    subscribers: seq<Request>,
    awaiting: Option<HttpError>,
    sent: seq<Request>,
    refreshCalls: seq<string>,
    redirected: bool)

  /** What the coordinator keeps true between events. The flag is set exactly
      while one handler awaits the refresh call. Every parked or awaiting
      request carries the `_retry` mark. */
  predicate Consistent(s: State) {
    (s.isRefreshing <==> s.awaiting.Some?) &&
    (s.awaiting.Some? ==> s.awaiting.value.config.retry && s.awaiting.value.status == Some(Unauthorized)) &&
    forall r :: r in s.subscribers ==> r.retry
  }

  /** The state when api.ts is first loaded: not refreshing, no subscribers,
      nothing sent yet. */
  function Initial(st: Storage): (s: State)
    ensures Consistent(s)
  {
    State(st, false, [], None, [], [], false)
  }

  /** What the caller of one event observes. */
  datatype Reaction =
    | Dispatched(req: Request)  // the request went out with these headers
    | Rejected(err: HttpError)  // the caller's promise rejects with this error
    | RefreshStarted            // the caller's handler awaits the refresh call
    | Parked                    // the caller waits as a subscriber
    | Stored                    // a credential-store operation completed
    | Stray                     // a refresh outcome with no refresh call in flight

  datatype Outcome = Outcome(state: State, reaction: Reaction)

  /** The events of the event loop. */
  datatype Event =
    | Send(req: Request)              // the application issues a request through `api`
    | Fail(err: HttpError)            // a response error reaches the response interceptor
    | RefreshOk(access: string)       // the refresh call returned this access token
    | RefreshFail                     // the refresh call failed
    | Login(resp: TokenResponse)      // `login` received this token response
    | Logout                          // `logout` was called

  /** Issuing a request: the request interceptor runs, then the request is sent. */
  function OnSend(s: State, req: Request): (out: Outcome)
    ensures out.reaction == Dispatched(Authorize(req, s.storage))
    ensures out.state.sent == s.sent + [out.reaction.req] && out.state.(sent := s.sent) == s
  {
    var out := Authorize(req, s.storage);
    Outcome(s.(sent := s.sent + [out]), Dispatched(out))
  }

  /** The response interceptor's error handler, up to its `await`. */
  function OnError(s: State, err: HttpError): (out: Outcome)
    ensures out.state.storage == s.storage && out.state.sent == s.sent && out.state.redirected == s.redirected
    ensures var first := err.status == Some(Unauthorized) && !err.config.retry;
            var canRefresh := first && Truthy(GetItem(s.storage, RefreshKey));
            (out.reaction.RefreshStarted? <==> canRefresh && !s.isRefreshing) &&
            (out.reaction.Parked? <==> canRefresh && s.isRefreshing) &&
            (out.reaction.Rejected? <==> !canRefresh) &&
            (out.reaction.Rejected? ==>
               out.state == s && out.reaction.err == (if first then err.(config := err.config.(retry := true)) else err))
    ensures s.refreshCalls <= out.state.refreshCalls
    ensures |out.state.refreshCalls| <= |s.refreshCalls| + (if s.isRefreshing then 0 else 1)
  {
    if err.status == Some(Unauthorized) && !err.config.retry then
      var marked := err.config.(retry := true);
      var e := err.(config := marked);
      var refresh := GetItem(s.storage, RefreshKey);
      if !Truthy(refresh) then
        Outcome(s, Rejected(e))
      else if !s.isRefreshing then
        Outcome(s.(isRefreshing := true, refreshCalls := s.refreshCalls + [refresh.value], awaiting := Some(e)),
                RefreshStarted)
      else
        Outcome(s.(subscribers := s.subscribers + [marked]), Parked)
    else
      Outcome(s, Rejected(err))
  }

  /** What one subscriber sends: its request with the new bearer header,
      passed again through `api`, hence through the request interceptor,
      which reads the storage `st` of that moment. */
  function Replay(r: Request, token: string, st: Storage): (q: Request)
    ensures q.id == r.id && q.retry == r.retry && AuthorizationHeader in q.headers
    ensures Truthy(GetItem(st, AccessKey)) ==> q.headers[AuthorizationHeader] == Bearer(st[AccessKey])
    ensures !Truthy(GetItem(st, AccessKey)) ==> q.headers[AuthorizationHeader] == Bearer(token)
    ensures forall h :: h != AuthorizationHeader ==>
              (h in q.headers <==> h in r.headers) && (h in r.headers ==> q.headers[h] == r.headers[h])
  {
    Authorize(r.(headers := r.headers[AuthorizationHeader := Bearer(token)]), st)
  }

  /** The requests `onRefreshed` sends, one per subscriber, in queue order. */
  function Replays(subs: seq<Request>, token: string, st: Storage): (r: seq<Request>)
    ensures |r| == |subs|
    ensures forall i :: 0 <= i < |subs| ==> r[i].id == subs[i].id && r[i].retry == subs[i].retry
  {
    if subs == [] then [] else Replays(subs[..|subs| - 1], token, st) + [Replay(subs[|subs| - 1], token, st)]
  }

  /** The handler resumes after the refresh call returned `token`. It stores
      the token, clears the flag and runs `onRefreshed`. Only then does it
      queue its own request as a subscriber. */
  function OnRefreshOk(s: State, token: string): (out: Outcome)
    ensures s.awaiting.None? ==> out == Outcome(s, Stray)
    ensures s.awaiting.Some? ==>
              var t := out.state;
              out.reaction == Parked && GetItem(t.storage, AccessKey) == Some(token) &&
              !t.isRefreshing && t.awaiting.None? && t.refreshCalls == s.refreshCalls && t.redirected == s.redirected &&
              |t.sent| == |s.sent| + |s.subscribers| && t.sent[..|s.sent|] == s.sent &&
              t.subscribers == [s.awaiting.value.config]
  {
    if s.awaiting.None? then Outcome(s, Stray)
    else
      var st := s.storage[AccessKey := token];
      Outcome(s.(storage := st, isRefreshing := false,
                 sent := s.sent + Replays(s.subscribers, token, st),
                 subscribers := [s.awaiting.value.config],
                 awaiting := None),
              Parked)
  }

  /** The handler resumes after the refresh call failed. It clears the flag and
      the credential store and redirects to the login page. It rethrows its
      own original error. The queue is left as it was. */
  function OnRefreshFail(s: State): (out: Outcome)
    ensures s.awaiting.None? ==> out == Outcome(s, Stray)
    ensures s.awaiting.Some? ==>
              var t := out.state;
              out.reaction == Rejected(s.awaiting.value) && !t.isRefreshing && t.awaiting.None? && t.redirected &&
              GetItem(t.storage, AccessKey).None? && GetItem(t.storage, RefreshKey).None? && GetItem(t.storage, UserKey).None? &&
              t.subscribers == s.subscribers && t.sent == s.sent && t.refreshCalls == s.refreshCalls
  {
    if s.awaiting.None? then Outcome(s, Stray)
    else
      Outcome(s.(isRefreshing := false, storage := ClearStore(s.storage), awaiting := None, redirected := true),
              Rejected(s.awaiting.value))
  }

  /** `login` after the token request succeeded. */
  function OnLogin(s: State, resp: TokenResponse, c: Codec): (out: Outcome)
    ensures out.reaction == Stored && out.state.(storage := s.storage) == s
    ensures GetItem(out.state.storage, AccessKey) == Some(resp.access)
    ensures GetItem(out.state.storage, RefreshKey) == Some(resp.refresh)
  {
    Outcome(s.(storage := LoginStore(s.storage, resp, c)), Stored)
  }

  /** `logout`. */
  function OnLogout(s: State): (out: Outcome)
    ensures out.reaction == Stored && out.state.(storage := s.storage, redirected := s.redirected) == s
    ensures out.state.redirected
    ensures GetItem(out.state.storage, AccessKey).None? && GetItem(out.state.storage, RefreshKey).None?
    ensures GetItem(out.state.storage, UserKey).None?
  {
    Outcome(s.(storage := ClearStore(s.storage), redirected := true), Stored)
  }

  /** One event of the event loop. */
  function Step(c: Codec, s: State, e: Event): (out: Outcome)
    ensures s.refreshCalls <= out.state.refreshCalls
    ensures |out.state.refreshCalls| <= |s.refreshCalls| + (if s.isRefreshing then 0 else 1)
    ensures !e.Fail? ==> out.state.refreshCalls == s.refreshCalls
  {
    match e
    case Send(req) => OnSend(s, req)
    case Fail(err) => OnError(s, err)
    case RefreshOk(token) => OnRefreshOk(s, token)
    case RefreshFail => OnRefreshFail(s)
    case Login(resp) => OnLogin(s, resp, c)
    case Logout => OnLogout(s)
  }

  /** A run of events, one after the other. */
  function Run(c: Codec, s: State, events: seq<Event>): State
    decreases |events|
  {
    if events == [] then s else Run(c, Step(c, s, events[0]).state, events[1..])
  }

  // ----- The client object -----

  /** The module state of api.ts together with localStorage, the requests
      sent, the refresh calls made and the redirect. */
  class Client {
    const codec: Codec
    var storage: Storage
    var isRefreshing: bool
    var subscribers: seq<Request>
    var awaiting: Option<HttpError>
    var sent: seq<Request>
    var refreshCalls: seq<string>
    var redirected: bool

    /** The client's state as a value. */
    function Snapshot(): State
      reads this
    {
      State(storage, isRefreshing, subscribers, awaiting, sent, refreshCalls, redirected)
    }

    predicate Valid()
      reads this
    {
      Consistent(Snapshot())
    }

    /** Loading api.ts over an existing localStorage. */
    constructor (codec: Codec, storage: Storage)
      ensures Valid()
      ensures this.codec == codec && Snapshot() == Initial(storage)
    {
      this.codec := codec;
      this.storage := storage;
      isRefreshing := false;
      subscribers := [];
      awaiting := None;
      sent := [];
      refreshCalls := [];
      redirected := false;
    }

    /** A call through `api`: the request interceptor, then the transport. */
    method Send(req: Request) returns (out: Request)
      requires Valid()
      modifies this
      ensures Valid()
      ensures Outcome(Snapshot(), Dispatched(out)) == OnSend(old(Snapshot()), req)
    {
      var token := GetItem(storage, AccessKey);
      out := req;
      if token.Some? && token.value != "" {
        out := out.(headers := out.headers[AuthorizationHeader := Bearer(token.value)]);
      }
      sent := sent + [out];
    }

    /** The response interceptor's error handler, up to its `await`. */
    method HandleError(err: HttpError) returns (reaction: Reaction)
      requires Valid()
      modifies this
      ensures Valid()
      ensures Outcome(Snapshot(), reaction) == OnError(old(Snapshot()), err)
    {
      if err.status == Some(Unauthorized) && !err.config.retry {
        var original := err.config.(retry := true);
        var refresh := GetItem(storage, RefreshKey);
        if refresh.None? || refresh.value == "" {
          return Rejected(err.(config := original));
        }
        if !isRefreshing {
          isRefreshing := true;
          refreshCalls := refreshCalls + [refresh.value];
          awaiting := Some(err.(config := original));
          return RefreshStarted;
        }
        AddSubscriber(original);
        return Parked;
      }
      return Rejected(err);
    }

    /** `addSubscriber`. */
    method AddSubscriber(r: Request)
      modifies this`subscribers
      ensures subscribers == old(subscribers) + [r]
    {
      subscribers := subscribers + [r];
    }

    /** `onRefreshed`: every subscriber replays its request with `token`, in
      queue order, and the queue is emptied. */
    method OnRefreshed(token: string)
      modifies this`sent, this`subscribers
      ensures sent == old(sent) + Replays(old(subscribers), token, storage)
      ensures subscribers == []
    {
      var callbacks := subscribers;
      var i := 0;
      while i < |callbacks|
        invariant 0 <= i <= |callbacks|
        invariant sent == old(sent) + Replays(callbacks[..i], token, storage)
      {
        assert callbacks[..i + 1][..i] == callbacks[..i];
        sent := sent + [Replay(callbacks[i], token, storage)];
        i := i + 1;
      }
      assert callbacks[..i] == callbacks;
      subscribers := [];
    }

    /** The suspended handler resumes with the refresh call's access token. */
    method RefreshSucceeded(token: string) returns (reaction: Reaction)
      requires Valid()
      modifies this
      ensures Valid()
      ensures Outcome(Snapshot(), reaction) == OnRefreshOk(old(Snapshot()), token)
    {
      if awaiting.None? {
        return Stray;
      }
      var original := awaiting.value.config;
      storage := storage[AccessKey := token];
      isRefreshing := false;
      OnRefreshed(token);
      awaiting := None;
      AddSubscriber(original);
      return Parked;
    }

    /** The suspended handler resumes after the refresh call failed. */
    method RefreshFailed() returns (reaction: Reaction)
      requires Valid()
      modifies this
      ensures Valid()
      ensures Outcome(Snapshot(), reaction) == OnRefreshFail(old(Snapshot()))
    {
      if awaiting.None? {
        return Stray;
      }
      var error := awaiting.value;
      isRefreshing := false;
      storage := storage - {AccessKey};
      storage := storage - {RefreshKey};
      storage := storage - {UserKey};
      redirected := true;
      awaiting := None;
      return Rejected(error);
    }

    /** `login`, once the token request has answered: stores both tokens and
      the user, and returns the user. */
    method Login(resp: TokenResponse) returns (user: User)
      requires Valid()
      modifies this
      ensures Valid()
      ensures Snapshot() == OnLogin(old(Snapshot()), resp, codec).state
      ensures user == UserOf(resp)
    {
      storage := storage[AccessKey := resp.access];
      storage := storage[RefreshKey := resp.refresh];
      user := User(resp.userId, resp.username, resp.role);
      storage := storage[UserKey := codec.stringify(user)];
    }

    /** `logout`. */
    method Logout()
      requires Valid()
      modifies this
      ensures Valid()
      ensures Snapshot() == OnLogout(old(Snapshot())).state
    {
      storage := storage - {AccessKey};
      storage := storage - {RefreshKey};
      storage := storage - {UserKey};
      redirected := true;
    }
  }
}
