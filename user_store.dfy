/** The front end's auth store: the signed-in user, the token, the authenticated flag, and the
    token kept in browser storage. Each action is a method on the store, specified by a function
    on the store's state. */
module UserStore {
  import opened Common

  /** A user object as the API returns it. */
  type UserObject = map<string, Json>

  /** What a successful login or register call returns. */
  datatype AuthResponse = AuthResponse(user: UserObject, token: string)

  /** The store's fields, and `storage`, the token held in browser storage. */
  datatype AuthState = AuthState(user: Option<UserObject>, token: Option<string>,
                                 isAuthenticated: bool, storage: Option<string>)

  /** The state every action leaves: the token is the stored one, and the store is authenticated
      exactly when it holds a user. */
  predicate Coherent(s: AuthState)
  {
    s.token == s.storage && (s.isAuthenticated <==> s.user.Some?)
  }

  /** The state `clearAuth` leaves. */
  const Cleared: AuthState := AuthState(None, None, false, None)

  /** The state when the app starts: no user, the stored token, not authenticated. */
  function Initial(stored: Option<string>): (s: AuthState)
    ensures Coherent(s) && !s.isAuthenticated && s.token == stored
  {
    AuthState(None, stored, false, stored)
  }

  /** `login` and `register`: a response sets user and token, authenticates, and stores the
      token; a failed call leaves the cleared state. */
  function AfterSignIn(s: AuthState, response: Option<AuthResponse>): (s': AuthState)
    ensures Coherent(s')
    ensures response.Some? ==>
              s'.isAuthenticated && s'.user == Some(response.value.user) && s'.storage == Some(response.value.token)
    ensures response.None? ==> s' == Cleared
  {
    match response
    case Some(AuthResponse(user, token)) => AuthState(Some(user), Some(token), true, Some(token))
    case None => Cleared
  }

  /** `checkAuthStatus` with the answer to the profile request (`None` when it fails): without a
      truthy stored token, or when the request fails, the state is cleared and the answer is
      false; otherwise the user is the profile and the answer is true. */
  function AfterCheck(s: AuthState, profile: Option<UserObject>): (r: (AuthState, bool))
    ensures Coherent(r.0)
    ensures r.1 <==> IsTruthyString(s.storage) && profile.Some?
    ensures r.1 ==> r.0 == AuthState(profile, s.storage, true, s.storage)
    ensures !r.1 ==> r.0 == Cleared
  {
    if !IsTruthyString(s.storage) then (Cleared, false)
    else if profile.None? then (Cleared, false)
    else (AuthState(profile, s.storage, true, s.storage), true)
  }

  /** `updateUserInfo`: with no user nothing happens; otherwise the supplied keys override and the
      other keys are kept. */
  function AfterUpdateInfo(s: AuthState, data: UserObject): (s': AuthState)
    ensures s.user.None? ==> s' == s
    ensures s.user.Some? ==>
              && s'.user.Some? && s'.user.value.Keys == s.user.value.Keys + data.Keys
              && (forall k :: k in data ==> s'.user.value[k] == data[k])
              && (forall k :: k in s.user.value && k !in data ==> s'.user.value[k] == s.user.value[k])
    ensures s'.token == s.token && s'.isAuthenticated == s.isAuthenticated && s'.storage == s.storage
  {
    if s.user.Some? then s.(user := Some(s.user.value + data)) else s
  }

  /** The `isAdmin` getter: a user whose role is "admin". */
  predicate IsAdminState(s: AuthState)
  {
    s.user.Some? && "role" in s.user.value && s.user.value["role"] == Str("admin")
  }

  /** In a coherent state an admin is always authenticated. */
  lemma AdminIsAuthenticated(s: AuthState)
    requires Coherent(s) && IsAdminState(s)
    ensures s.isAuthenticated
  {
  }

  /** Every action keeps the state coherent. */
  lemma ActionsKeepCoherent(s: AuthState, response: Option<AuthResponse>, profile: Option<UserObject>,
                            data: UserObject)
    requires Coherent(s)
    ensures Coherent(AfterSignIn(s, response)) && Coherent(AfterCheck(s, profile).0)
    ensures Coherent(AfterUpdateInfo(s, data))
  {
  }

  /** Clearing is idempotent, and a check with nothing stored ends signed out. */
  lemma ClearingSettles(s: AuthState, profile: Option<UserObject>)
    ensures AfterCheck(Cleared, profile) == (Cleared, false)
    ensures AfterCheck(AfterCheck(s, None).0, profile) == (Cleared, false)
  {
  }

  class AuthStore {
    var user: Option<UserObject>
    var token: Option<string>
    var isAuthenticated: bool
    var storage: Option<string>

    function State(): AuthState
      reads this
    {
      AuthState(user, token, isAuthenticated, storage)
    }

    predicate Valid()
      reads this
    {
      Coherent(State())
    }

    constructor (stored: Option<string>)
      ensures State() == Initial(stored) && Valid()
    {
      user := None;
      token := stored;
      isAuthenticated := false;
      storage := stored;
    }

    /** The `isAdmin` getter. */
    predicate IsAdmin()
      reads this
    {
      IsAdminState(State())
    }

    /** `clearAuth`. */
    method ClearAuth()
      modifies this
      ensures State() == Cleared && Valid()
    {
      user := None;
      token := None;
      isAuthenticated := false;
      storage := None;
    }

    method Logout()
      modifies this
      ensures State() == Cleared && Valid()
    {
      ClearAuth();
    }

    /** The shared body of `login` and `register`; the answer says whether the call succeeded. */
    method SignIn(response: Option<AuthResponse>) returns (ok: bool)
      modifies this
      ensures State() == AfterSignIn(old(State()), response) && Valid()
      ensures ok <==> response.Some?
    {
      if response.Some? {
        user := Some(response.value.user);
        token := Some(response.value.token);
        isAuthenticated := true;
        storage := Some(response.value.token);
        ok := true;
      } else {
        ClearAuth();
        ok := false;
      }
    }

    method Login(response: Option<AuthResponse>) returns (ok: bool)
      modifies this
      ensures State() == AfterSignIn(old(State()), response) && Valid()
      ensures ok <==> response.Some?
    {
      ok := SignIn(response);
    }

    method Register(response: Option<AuthResponse>) returns (ok: bool)
      modifies this
      ensures State() == AfterSignIn(old(State()), response) && Valid()
      ensures ok <==> response.Some?
    {
      ok := SignIn(response);
    }

    /** `checkAuthStatus`; `profile` is the answer to the profile request, `None` when it fails. */
    method CheckAuthStatus(profile: Option<UserObject>) returns (ok: bool)
      modifies this
      ensures (State(), ok) == AfterCheck(old(State()), profile) && Valid()
    {
      var stored := storage;
      if !IsTruthyString(stored) {
        ClearAuth();
        return false;
      }
      if profile.None? {
        ClearAuth();
        return false;
      }
      user := profile;
      token := stored;
      isAuthenticated := true;
      return true;
    }

    /** `updateUserInfo`. */
    method UpdateUserInfo(data: UserObject)
      requires Valid()
      modifies this
      ensures State() == AfterUpdateInfo(old(State()), data) && Valid()
    {
      if user.Some? {
        user := Some(user.value + data);
      }
    }
  }
}
