/** The session state of the globetrotter front end (AuthContext.jsx): the
    signed-in user, the last error, a loading flag, and the two browser
    storages it reads and writes. The stored auth record is JSON; a stored
    value is either such a record or other text, which `JSON.parse` refuses.
    The result of `authApi.getProfile()` and the clock are parameters. */
module AuthContext {
  import opened Common
  import opened UserRoutes

  const AuthKey := "globetrotter_auth"
  const TokenKey := "token"
  const InitFailed := "Failed to initialize authentication"
  const InvalidLoginData := "Invalid login data"
  const NoTokenFound := "No token found"

  /** `{ user, token, timestamp }` as `JSON.parse` returns it; a field that
      was `undefined` when stringified comes back missing. */
  datatype AuthRecord = AuthRecord(user: Option<UserView>, token: Option<string>, timestamp: string)

  datatype Stored = Text(text: string) | Json(record: AuthRecord)

  /** `localStorage` or `sessionStorage`. */
  type Storage = map<string, Stored>

  /** `{ ...userData, token }` */
  datatype SignedInUser = SignedInUser(user: UserView, token: string)

  datatype AuthState = AuthState(local: Storage, session: Storage, user: Option<SignedInUser>,
                                 error: Option<string>, isLoading: bool)

  /** `storage.getItem(key)` is truthy: present and not the empty text. */
  predicate IsSet(s: Storage, key: string) {
    key in s && (s[key].Text? ==> s[key].text != "")
  }

  /** The token as `localStorage.getItem('token')` gives it, when truthy. */
  function StoredToken(local: Storage): (t: Option<string>)
    ensures t.Some? ==> t.value != ""
  {
    if TokenKey in local && local[TokenKey].Text? && local[TokenKey].text != "" then Some(local[TokenKey].text) else None
  }

  /** The auth record initialisation reads: localStorage's, otherwise sessionStorage's. */
  function StoredAuth(s: AuthState): (r: Option<Stored>)
    ensures IsSet(s.local, AuthKey) ==> r == Some(s.local[AuthKey])
    ensures !IsSet(s.local, AuthKey) && IsSet(s.session, AuthKey) ==> r == Some(s.session[AuthKey])
    ensures r.None? <==> !IsSet(s.local, AuthKey) && !IsSet(s.session, AuthKey)
  {
    if IsSet(s.local, AuthKey) then Some(s.local[AuthKey])
    else if IsSet(s.session, AuthKey) then Some(s.session[AuthKey])
    else None
  }

  /** The three removals of the clearing branches. */
  function Cleared(s: AuthState): AuthState {
    s.(local := s.local - {AuthKey, TokenKey}, session := s.session - {AuthKey})
  }

  /** `initializeAuth`: restore the stored session, refreshing its user when
      the profile can be fetched; clear an incomplete record; report and
      clear one that does not parse. */
  function InitStep(s: AuthState, refreshed: Option<UserView>, now: string): (t: AuthState)
    ensures !t.isLoading
    ensures StoredAuth(s).Some? && s.user.None? && t.user.None? ==>
              AuthKey !in t.local && TokenKey !in t.local && AuthKey !in t.session
    ensures StoredAuth(s).None? ==> t == s.(isLoading := false)
    ensures StoredAuth(s).Some? && s.user.None? ==>
              (t.user.Some? <==> && StoredAuth(s).value.Json? && StoredAuth(s).value.record.user.Some?
                                 && Truthy(StoredAuth(s).value.record.token))
    ensures t.error == (if StoredAuth(s).Some? && StoredAuth(s).value.Text? then Some(InitFailed) else s.error)
  {
    match StoredAuth(s)
    case None => s.(isLoading := false)
    case Some(Text(_)) => Cleared(s).(error := Some(InitFailed), isLoading := false)
    case Some(Json(r)) =>
      if r.user.Some? && Truthy(r.token) then
        var local := s.local[TokenKey := Text(r.token.value)];
        (match refreshed
         case None => s.(local := local, user := Some(SignedInUser(r.user.value, r.token.value)), isLoading := false)
         case Some(latest) =>
           s.(local := local[AuthKey := Json(AuthRecord(Some(latest), r.token, now))],
              user := Some(SignedInUser(latest, r.token.value)), isLoading := false))
      else Cleared(s).(isLoading := false)
  }

  /** `login(userData, token)`: the new state and whether it returned
      (false when it threw "Invalid login data"). */
  function LoginStep(s: AuthState, userData: Option<UserView>, token: Option<string>, now: string)
    : (r: (AuthState, bool))
    ensures r.1 <==> userData.Some? && Truthy(token)
    ensures !r.0.isLoading && r.0.session == s.session
  {
    if userData.None? || !Truthy(token) then (s.(error := Some(InvalidLoginData), isLoading := false), false)
    else
      (s.(local := s.local[AuthKey := Json(AuthRecord(userData, token, now))],
          user := Some(SignedInUser(userData.value, token.value)), error := None, isLoading := false), true)
  }

  /** What `refreshUserData` returned, or the message it threw (none when
      `getProfile` failed, whose error is not modelled). */
  datatype RefreshResult = Fresh(user: UserView) | Thrown(message: Option<string>)

  /** `refreshUserData` */
  function RefreshStep(s: AuthState, fetched: Option<UserView>, now: string): (r: (AuthState, RefreshResult))
    ensures StoredToken(s.local).None? ==> r == (s, Thrown(Some(NoTokenFound)))
    ensures r.1.Thrown? ==> r.0 == s
    ensures r.0.session == s.session && r.0.error == s.error
    ensures StoredToken(s.local).Some? && fetched.Some? ==>
              && r.1 == Fresh(fetched.value)
              && r.0.user == Some(SignedInUser(fetched.value, StoredToken(s.local).value))
  {
    match StoredToken(s.local)
    case None => (s, Thrown(Some(NoTokenFound)))
    case Some(token) =>
      (match fetched
       case None => (s, Thrown(None))
       case Some(latest) =>
         (s.(local := s.local[AuthKey := Json(AuthRecord(Some(latest), Some(token), now))],
             user := Some(SignedInUser(latest, token))), Fresh(latest)))
  }

  /** `logout` */
  function LogoutStep(s: AuthState): (t: AuthState)
    ensures t.user.None? && t.error.None? && t.session == s.session
    ensures AuthKey !in t.local && TokenKey !in t.local
    ensures forall k :: k in s.local && k != AuthKey && k != TokenKey ==> k in t.local && t.local[k] == s.local[k]
  {
    s.(user := None, error := None, local := s.local - {AuthKey, TokenKey})
  }

  /** `isAuthenticated()`: a stored record that parses and has a truthy token. */
  predicate IsAuthenticated(local: Storage) {
    IsSet(local, AuthKey) && local[AuthKey].Json? && Truthy(local[AuthKey].record.token)
  }

  /** The provider's state as a fresh page load finds it. */
  function Reloaded(s: AuthState): AuthState {
    AuthState(s.local, s.session, None, None, true)
  }

  // ---------------------------------------------------------------------
  // The provider

  class AuthProvider {
    var local: Storage
    var session: Storage
    var user: Option<SignedInUser>
    var error: Option<string>
    var isLoading: bool

    function State(): AuthState
      reads this
    {
      AuthState(local, session, user, error, isLoading)
    }

    /** Mounting the provider over the browser's storages. */
    constructor (local0: Storage, session0: Storage)
      ensures State() == AuthState(local0, session0, None, None, true)
    {
      local := local0;
      session := session0;
      user := None;
      error := None;
      isLoading := true;
    }

    method InitializeAuth(refreshed: Option<UserView>, now: string)
      modifies this
      ensures State() == InitStep(old(State()), refreshed, now)
    {
      var stored: Option<Stored> := None;
      if IsSet(local, AuthKey) {
        stored := Some(local[AuthKey]);
      }
      if stored.None? && IsSet(session, AuthKey) {
        stored := Some(session[AuthKey]);
      }
      assert stored == StoredAuth(State());
      if stored.Some? {
        match stored.value
        case Text(_) =>
          error := Some(InitFailed);
          local := local - {AuthKey};
          session := session - {AuthKey};
          local := local - {TokenKey};
          assert local == old(local) - {AuthKey, TokenKey};
        case Json(r) =>
          if r.user.Some? && Truthy(r.token) {
            local := local[TokenKey := Text(r.token.value)];
            user := Some(SignedInUser(r.user.value, r.token.value));
            if refreshed.Some? {
              local := local[AuthKey := Json(AuthRecord(refreshed, r.token, now))];
              user := Some(SignedInUser(refreshed.value, r.token.value));
            }
          } else {
            local := local - {AuthKey};
            session := session - {AuthKey};
            local := local - {TokenKey};
            assert local == old(local) - {AuthKey, TokenKey};
          }
      }
      isLoading := false;
    }

    method Login(userData: Option<UserView>, token: Option<string>, now: string) returns (ok: bool)
      modifies this
      ensures (State(), ok) == LoginStep(old(State()), userData, token, now)
    {
      isLoading := true;
      error := None;
      if userData.None? || !Truthy(token) {
        error := Some(InvalidLoginData);
        isLoading := false;
        return false;
      }
      local := local[AuthKey := Json(AuthRecord(userData, token, now))];
      user := Some(SignedInUser(userData.value, token.value));
      isLoading := false;
      ok := true;
    }

    method RefreshUserData(fetched: Option<UserView>, now: string) returns (r: RefreshResult)
      modifies this
      ensures (State(), r) == RefreshStep(old(State()), fetched, now)
    {
      var token := StoredToken(local);
      if token.None? {
        return Thrown(Some(NoTokenFound));
      }
      if fetched.None? {
        return Thrown(None);
      }
      local := local[AuthKey := Json(AuthRecord(fetched, token, now))];
      user := Some(SignedInUser(fetched.value, token.value));
      r := Fresh(fetched.value);
    }

    method Logout()
      modifies this
      ensures State() == LogoutStep(old(State()))
    {
      user := None;
      error := None;
      local := local - {AuthKey};
      local := local - {TokenKey};
    }

    method ClearError()
      modifies this
      ensures State() == old(State()).(error := None)
    {
      error := None;
    }
  }

  // ---------------------------------------------------------------------
  // Properties of the session

  /** A login with a user and a truthy token signs that user in, and the
      stored record then counts as authenticated; only the auth record changes. */
  lemma LoginAuthenticates(s: AuthState, u: UserView, token: string, now: string)
    requires token != ""
    ensures var (t, ok) := LoginStep(s, Some(u), Some(token), now);
            && ok && t.user == Some(SignedInUser(u, token)) && t.error.None?
            && IsAuthenticated(t.local)
            && forall k :: k in s.local && k != AuthKey ==> k in t.local && t.local[k] == s.local[k]
  {
  }

  /** A login missing the user or the token changes nothing but the error. */
  lemma LoginRefusesIncomplete(s: AuthState, userData: Option<UserView>, token: Option<string>, now: string)
    requires userData.None? || !Truthy(token)
    ensures var (t, ok) := LoginStep(s, userData, token, now);
            !ok && t == s.(error := Some(InvalidLoginData), isLoading := false)
  {
  }

  /** After logging out the user is not authenticated, and a refresh finds
      no token. */
  lemma LogoutDeauthenticates(s: AuthState, fetched: Option<UserView>, now: string)
    ensures !IsAuthenticated(LogoutStep(s).local)
    ensures RefreshStep(LogoutStep(s), fetched, now).1 == Thrown(Some(NoTokenFound))
  {
    assert StoredToken(LogoutStep(s).local).None?;
  }

  /** Reloading the page after a login restores the same user and token,
      refreshed from the profile when that can be fetched, and copies the
      token to its own key. */
  lemma ReloadRestoresLogin(s: AuthState, u: UserView, token: string, now: string,
                            refreshed: Option<UserView>, later: string)
    requires token != ""
    ensures var t := InitStep(Reloaded(LoginStep(s, Some(u), Some(token), now).0), refreshed, later);
            && t.user == Some(SignedInUser(if refreshed.Some? then refreshed.value else u, token))
            && TokenKey in t.local && t.local[TokenKey] == Text(token)
            && IsAuthenticated(t.local) && t.error.None?
  {
    var s1 := LoginStep(s, Some(u), Some(token), now).0;
    assert IsSet(Reloaded(s1).local, AuthKey);
  }

  /** A successful refresh adopts the fetched profile: the user becomes it
      with the stored token, the stored record names it, every other local
      key stays, and a later reload restores it (refreshed again when the
      profile can be fetched then). */
  lemma RefreshAdoptsFetched(s: AuthState, u: UserView, now: string, refreshed: Option<UserView>, later: string)
    requires StoredToken(s.local).Some?
    ensures var tok := StoredToken(s.local).value;
            var (t, res) := RefreshStep(s, Some(u), now);
            && res == Fresh(u)
            && t.user == Some(SignedInUser(u, tok))
            && IsAuthenticated(t.local)
            && (forall k :: k in s.local && k != AuthKey ==> k in t.local && t.local[k] == s.local[k])
            && InitStep(Reloaded(t), refreshed, later).user
               == Some(SignedInUser(if refreshed.Some? then refreshed.value else u, tok))
  {
    var t := RefreshStep(s, Some(u), now).0;
    assert IsSet(Reloaded(t).local, AuthKey);
  }

  /** A failed profile fetch never signs the user out: initialisation keeps
      the stored user, and a refresh leaves everything as it was. */
  lemma RefreshFailureKeepsUser(s: AuthState, r: AuthRecord, now: string)
    requires StoredAuth(s) == Some(Json(r)) && r.user.Some? && Truthy(r.token)
    ensures InitStep(s, None, now).user == Some(SignedInUser(r.user.value, r.token.value))
    ensures RefreshStep(s, None, now).0 == s
  {
  }

  /** A stored record without a user or without a token is removed from both
      storages together with the separate token; user and error stay as they were. */
  lemma InitClearsIncomplete(s: AuthState, r: AuthRecord, refreshed: Option<UserView>, now: string)
    requires StoredAuth(s) == Some(Json(r)) && !(r.user.Some? && Truthy(r.token))
    ensures var t := InitStep(s, refreshed, now);
            && AuthKey !in t.local && TokenKey !in t.local && AuthKey !in t.session
            && t.user == s.user && t.error == s.error && !IsAuthenticated(t.local)
  {
  }

  /** A stored value that does not parse is reported and cleared. */
  lemma InitReportsUnparseable(s: AuthState, text: string, refreshed: Option<UserView>, now: string)
    requires StoredAuth(s) == Some(Text(text))
    ensures var t := InitStep(s, refreshed, now);
            && t.error == Some(InitFailed) && t.user == s.user
            && AuthKey !in t.local && TokenKey !in t.local && AuthKey !in t.session
  {
  }

  /** With nothing stored, initialisation only stops loading. */
  lemma InitWithNothingStored(s: AuthState, refreshed: Option<UserView>, now: string)
    requires !IsSet(s.local, AuthKey) && !IsSet(s.session, AuthKey)
    ensures InitStep(s, refreshed, now) == s.(isLoading := false)
  {
  }
}
