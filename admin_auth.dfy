/** The admin client's session (`AuthProvider`): the signed-in admin, the
    `loading` flag, and the browser's token storage, a map from key to
    string. Each network call is a parameter: its reply, or `None` when the
    request failed. */
module AdminAuth {
  import opened Js
  import opened AuthController
  import opened AdminApi
  import AuthMiddleware

  /** What `setAdmin` received: the session data of a login or register, or
      the profile fetched at startup. */
  datatype CurrentAdmin = FromSession(session: Session) | FromProfile(profile: Profile)

  datatype AuthState = AuthState(admin: Option<CurrentAdmin>, loading: bool, storage: map<string, string>)

  /** The state on mount: nobody signed in, still loading. */
  function Initial(storage: map<string, string>): (s: AuthState)
    ensures s.admin.None? && s.loading && s.storage == storage
  {
    AuthState(None, true, storage)
  }

  /** The startup effect: with a stored token the profile is fetched, and
      either becomes the admin or, on failure, the token is removed; without
      one nothing is fetched. Loading ends in every case. */
  function AfterStartup(s: AuthState, profile: Option<Profile>): AuthState {
    if StoredToken(s.storage).None? then s.(loading := false)
    else if profile.Some? then s.(admin := Some(FromProfile(profile.value)), loading := false)
    else s.(storage := s.storage - {TokenKey}, loading := false)
  }

  /** `login` and `register`: a reply stores its token and becomes the admin;
      a failed request throws before anything changes. */
  function AfterSignIn(s: AuthState, reply: Option<Session>): AuthState {
    match reply
    case None => s
    case Some(session) => s.(storage := s.storage[TokenKey := session.token], admin := Some(FromSession(session)))
  }

  /** `logout`. */
  function AfterLogout(s: AuthState): AuthState {
    s.(storage := s.storage - {TokenKey}, admin := None)
  }

  // ------------------------------------------------------------------ properties

  /** Startup always ends loading; without a token it leaves the admin and
      storage alone; with one, a fetched profile becomes the admin and a
      failed fetch leaves no token behind. */
  lemma StartupSettles(storage: map<string, string>, profile: Option<Profile>)
    ensures var s := AfterStartup(Initial(storage), profile);
      && !s.loading
      && (StoredToken(storage).None? ==> s.admin.None? && s.storage == storage)
      && (StoredToken(storage).Some? && profile.Some? ==> s.admin == Some(FromProfile(profile.value)) && s.storage == storage)
      && (StoredToken(storage).Some? && profile.None? ==> s.admin.None? && TokenKey !in s.storage && StoredToken(s.storage).None?)
      && (forall k :: k != TokenKey ==> (k in s.storage <==> k in storage) && (k in s.storage ==> s.storage[k] == storage[k]))
  {
  }

  /** After a successful sign-in the admin is the returned session and every
      later request carries "Bearer " + its token, which `protect` extracts
      back; other stored keys are untouched. */
  lemma SignInAuthorizesRequests(s: AuthState, session: Session, headers: map<string, string>)
    requires session.token != "" && ' ' !in session.token
    ensures var s' := AfterSignIn(s, Some(session));
      && s'.admin == Some(FromSession(session)) && s'.loading == s.loading
      && StoredToken(s'.storage) == Some(session.token)
      && var h := Intercepted(headers, s'.storage);
         "Authorization" in h && h["Authorization"] == "Bearer " + session.token
         && AuthMiddleware.ExtractToken(Some(h["Authorization"])) == Some(session.token)
    ensures var s' := AfterSignIn(s, Some(session));
      forall k :: k != TokenKey ==> (k in s'.storage <==> k in s.storage) && (k in s'.storage ==> s'.storage[k] == s.storage[k])
  {
    AuthMiddleware.BearerHeaderGivesToken(session.token);
  }

  /** A failed sign-in changes nothing. */
  lemma FailedSignInChangesNothing(s: AuthState)
    ensures AfterSignIn(s, None) == s
  {
  }

  /** After logout nobody is signed in and requests go out without an
      Authorization header, so `protect` refuses them for lack of a token. */
  lemma LogoutSignsOut(s: AuthState, headers: map<string, string>, admins: seq<Admin>, now: int,
                       verify: string -> Option<Claims>)
    requires "Authorization" !in headers
    ensures var s' := AfterLogout(s);
      && s'.admin.None? && StoredToken(s'.storage).None? && s'.loading == s.loading
      && Intercepted(headers, s'.storage) == headers
      && AuthMiddleware.Decide(None, admins, now, verify) == AuthMiddleware.NoToken
  {
  }

  // ------------------------------------------------------------------ the provider

  /** The provider's `admin` and `loading` state and the token storage. */
  class AuthSession {
    var admin: Option<CurrentAdmin>
    var loading: bool
    var storage: map<string, string>

    function State(): AuthState
      reads this
    {
      AuthState(admin, loading, storage)
    }

    constructor (stored: map<string, string>)
      ensures State() == Initial(stored)
    {
      admin := None;
      loading := true;
      storage := stored;
    }

    /** The mount effect; `profile` is what `getProfile` answers if it is
        called. */
    method Startup(profile: Option<Profile>) returns (fetched: bool)
      modifies this
      ensures fetched <==> StoredToken(old(storage)).Some?
      ensures State() == AfterStartup(old(State()), profile)
    {
      fetched := false;
      if TokenKey in storage && storage[TokenKey] != "" {
        fetched := true;
        if profile.Some? {
          admin := Some(FromProfile(profile.value));
        } else {
          storage := storage - {TokenKey};
        }
      }
      loading := false;
    }

    method Login(reply: Option<Session>)
      modifies this
      ensures State() == AfterSignIn(old(State()), reply)
    {
      if reply.None? {
        return;
      }
      storage := storage[TokenKey := reply.value.token];
      admin := Some(FromSession(reply.value));
    }

    method Register(reply: Option<Session>)
      modifies this
      ensures State() == AfterSignIn(old(State()), reply)
    {
      if reply.None? {
        return;
      }
      storage := storage[TokenKey := reply.value.token];
      admin := Some(FromSession(reply.value));
    }

    method Logout()
      modifies this
      ensures State() == AfterLogout(old(State()))
    {
      storage := storage - {TokenKey};
      admin := None;
    }
  }
}
