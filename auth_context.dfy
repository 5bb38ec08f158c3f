/** The authentication context of src/context/AuthContext.tsx: the initial
    in-memory user and the clean-up effect that runs when the provider mounts. */
module AuthContext {
  import opened Wrappers
  import opened Api

  /** What the mount effect does to the client. A user is stored but no
      (non-empty) access token is. That session is invalid, so `logout` runs.
      Any other combination is left alone. */
  function BootstrapState(s: State, c: Codec): (t: State)
    ensures GetUser(t.storage, c).Some? ==> Truthy(GetItem(t.storage, AccessKey))
    ensures t.isRefreshing == s.isRefreshing && t.subscribers == s.subscribers && t.awaiting == s.awaiting
    ensures t.sent == s.sent && t.refreshCalls == s.refreshCalls
  {
    if GetUser(s.storage, c).Some? && !Truthy(GetItem(s.storage, AccessKey)) then OnLogout(s).state else s
  }

  /** A stored user without an access token is wiped. All three keys are
      removed, no user can be read back, and the browser goes to the login
      page. */
  lemma UserWithoutAccessIsCleared(s: State, c: Codec)
    requires GetUser(s.storage, c).Some? && !Truthy(GetItem(s.storage, AccessKey))
    ensures var t := BootstrapState(s, c);
            GetItem(t.storage, AccessKey).None? && GetItem(t.storage, RefreshKey).None? &&
            GetItem(t.storage, UserKey).None? && GetUser(t.storage, c).None? && t.redirected
  {
  }

  /** With an access token stored, the effect changes nothing. */
  lemma AccessTokenKeepsSession(s: State, c: Codec)
    requires Truthy(GetItem(s.storage, AccessKey))
    ensures BootstrapState(s, c) == s
  {
  }

  /** With no readable user, the effect changes nothing, even when tokens are
      stored. */
  lemma NoUserKeepsStore(s: State, c: Codec)
    requires GetUser(s.storage, c).None?
    ensures BootstrapState(s, c) == s
  {
  }

  /** The effect is idempotent: running it again changes nothing. */
  lemma BootstrapIdempotent(s: State, c: Codec)
    ensures BootstrapState(BootstrapState(s, c), c) == BootstrapState(s, c)
  {
  }

  /** `AuthProvider` mounting over the client. The in-memory user is
      `getUser()` at creation. Then the effect runs with that user. The
      in-memory user is not reset by the clean-up; the redirect to the login
      page reloads the application instead. */
  method Bootstrap(client: Client) returns (user: Option<User>)
    requires client.Valid()
    modifies client
    ensures client.Valid()
    ensures user == GetUser(old(client.storage), client.codec)
    ensures client.Snapshot() == BootstrapState(old(client.Snapshot()), client.codec)
  {
    user := GetUser(client.storage, client.codec);
    var access := GetItem(client.storage, AccessKey);
    if user.Some? && (access.None? || access.value == "") {
      client.Logout();
    }
  }
}
