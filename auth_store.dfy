/** The frontend's session store: a reducer over the signed-in user, the
    token, an authenticated flag, a loading flag and an error message, and a
    provider that keeps the token and the user in the browser's storage
    alongside it. */
module AuthStore {
  import opened Values
  import opened ServiceReply

  /** The user the frontend keeps. The authentication service's replies
      carry no role, so the role may be absent. */
  datatype User = User(id: string, email: string, role: Option<string>)

  /** The `data` of a successful login or registration reply. */
  datatype AuthReply = AuthReply(token: string, userId: string, email: string, role: Option<string>)

  datatype AuthState = AuthState(
    user: Option<User>,
    token: Option<string>,
    isAuthenticated: bool,
    loading: bool,
    error: Option<string>)

  datatype AuthAction =
    | AuthStart
    | AuthSuccess(user: User, token: string)
    | AuthFailure(message: string)
    | Logout
    | ClearError

  /** The state at load time, read from the stored token: an empty stored
      token is kept but does not count as signed in. */
  function InitialState(stored: Option<string>): (s: AuthState)
    ensures s.token == stored
    ensures s.isAuthenticated <==> stored.Some? && stored.value != ""
    ensures s.user == None && !s.loading && s.error == None
  {
    AuthState(None, stored, stored.Some? && stored.value != "", false, None)
  }

  /** The signed-out state. */
  const LoggedOut := AuthState(None, None, false, false, None)

  /** The reducer. `LOGOUT` starts from the load-time state, so it is given
      the token that was stored at load time. Only `AUTH_SUCCESS` signs in,
      only `AUTH_START` starts loading, and only signing in or out replaces
      the token and the user. */
  function AuthReducer(stored: Option<string>, s: AuthState, a: AuthAction): (r: AuthState)
    ensures r.isAuthenticated && !s.isAuthenticated ==> a.AuthSuccess?
    ensures r.loading && !s.loading ==> a.AuthStart?
    ensures r.token != s.token ==> a.AuthSuccess? || a.Logout?
    ensures r.user != s.user ==> a.AuthSuccess? || a.Logout?
  {
    match a
    case AuthStart => s.(loading := true, error := None)
    case AuthSuccess(user, token) =>
      s.(loading := false, isAuthenticated := true, user := Some(user), token := Some(token), error := None)
    case AuthFailure(message) => s.(loading := false, error := Some(message), isAuthenticated := false)
    case Logout => InitialState(stored).(token := None, isAuthenticated := false)
    case ClearError => s.(error := None)
  }

  /** Dispatching a sequence of actions, first to last. A sequence that
      ends with `LOGOUT` ends signed out, whatever came before. */
  function Run(stored: Option<string>, s: AuthState, actions: seq<AuthAction>): (r: AuthState)
    ensures |actions| > 0 && actions[|actions| - 1].Logout? ==> r == LoggedOut
    decreases |actions|
  {
    if actions == [] then s else Run(stored, AuthReducer(stored, s, actions[0]), actions[1..])
  }

  /** Signed in only with a token in hand. */
  predicate Inv(s: AuthState)
  {
    s.isAuthenticated ==> s.token.Some?
  }

  /** The load-time state satisfies the invariant. */
  lemma InitialStateInv(stored: Option<string>)
    ensures Inv(InitialState(stored))
  {
  }

  /** Every action keeps the invariant. */
  lemma ReducerKeepsInv(stored: Option<string>, s: AuthState, a: AuthAction)
    requires Inv(s)
    ensures Inv(AuthReducer(stored, s, a))
  {
  }

  /** And so does every sequence of actions. */
  lemma {:induction false} RunKeepsInv(stored: Option<string>, s: AuthState, actions: seq<AuthAction>)
    requires Inv(s)
    ensures Inv(Run(stored, s, actions))
    decreases |actions|
  {
    if actions != [] {
      ReducerKeepsInv(stored, s, actions[0]);
      RunKeepsInv(stored, AuthReducer(stored, s, actions[0]), actions[1..]);
    }
  }

  /** `LOGOUT` lands in the same signed-out state whatever came before and
      whatever was stored at load time, and repeating it changes nothing. */
  lemma LogoutIsConstant(stored: Option<string>, s: AuthState)
    ensures AuthReducer(stored, s, Logout) == LoggedOut
    ensures AuthReducer(stored, AuthReducer(stored, s, Logout), Logout) == AuthReducer(stored, s, Logout)
  {
  }

  /** `AUTH_START` raises the flag and clears the error, nothing else. */
  lemma StartLoads(stored: Option<string>, s: AuthState)
    ensures var r := AuthReducer(stored, s, AuthStart);
      r.loading && r.error == None && r.user == s.user && r.token == s.token
      && r.isAuthenticated == s.isAuthenticated
  {
  }

  /** `AUTH_SUCCESS` signs in with the payload's user and token. */
  lemma SuccessSignsIn(stored: Option<string>, s: AuthState, user: User, token: string)
    ensures AuthReducer(stored, s, AuthSuccess(user, token)) == AuthState(Some(user), Some(token), true, false, None)
  {
  }

  /** `AUTH_FAILURE` signs out but keeps the stale user and token: holding
      a token does not mean being signed in. */
  lemma FailureKeepsStaleToken(stored: Option<string>, s: AuthState, message: string)
    ensures var r := AuthReducer(stored, s, AuthFailure(message));
      !r.isAuthenticated && !r.loading && r.error == Some(message) && r.user == s.user && r.token == s.token
  {
  }

  /** The invariant has no converse: a failed sign-in after loading with a
      stored token leaves the token and no sign-in. */
  lemma TokenWithoutSignIn()
    ensures var r := Run(Some("t"), InitialState(Some("t")), [AuthStart, AuthFailure("Login failed")]);
      r.token == Some("t") && !r.isAuthenticated
  {
    var s0 := InitialState(Some("t"));
    var s1 := AuthReducer(Some("t"), s0, AuthStart);
    var actions := [AuthStart, AuthFailure("Login failed")];
    assert actions[1..] == [AuthFailure("Login failed")];
    assert Run(Some("t"), s0, actions) == Run(Some("t"), s1, actions[1..]);
    assert actions[1..][1..] == [];
  }

  /** Running two actions. */
  lemma RunTwo(stored: Option<string>, s: AuthState, a: AuthAction, b: AuthAction)
    ensures Run(stored, s, [a, b]) == AuthReducer(stored, AuthReducer(stored, s, a), b)
  {
    var s1 := AuthReducer(stored, s, a);
    assert [a, b][1..] == [b];
    assert Run(stored, s, [a, b]) == Run(stored, s1, [b]);
    assert [b][1..] == [];
    assert Run(stored, s1, [b]) == Run(stored, AuthReducer(stored, s1, b), []);
  }

  // ----- the provider -----

  const MsgLoginFailed := "Login failed"
  const MsgRegisterFailed := "Registration failed"

  /** The user built from a successful reply: `{id: user_id, email, role}`.
      Its ensures are that definition, field by field. */
  function UserOf(data: AuthReply): (u: User)
    ensures u.id == data.userId && u.email == data.email && u.role == data.role
  {
    User(data.userId, data.email, data.role)
  }

  /** The actions `login` or `register` dispatches, with the operation's
      fallback message. */
  function SignInSteps(reply: Reply<AuthReply>, fallback: string): (r: seq<AuthAction>)
    ensures |r| == 2 && r[0] == AuthStart
    ensures r[1].AuthSuccess? <==> Delivered(reply)
    ensures !Delivered(reply) ==> r[1] == AuthFailure(ErrorText(ReplyError(reply), fallback))
  {
    [AuthStart,
     if Delivered(reply) then AuthSuccess(UserOf(reply.data.value), reply.data.value.token)
     else AuthFailure(ErrorText(ReplyError(reply), fallback))]
  }

  /** A delivered reply signs in as the reply's user with the reply's token;
      anything else leaves the user and token as they were, signed out, with
      the service's message or the fallback. */
  lemma SignInOutcome(stored: Option<string>, s: AuthState, reply: Reply<AuthReply>, fallback: string)
    ensures var r := Run(stored, s, SignInSteps(reply, fallback));
      if Delivered(reply) then
        r == AuthState(Some(UserOf(reply.data.value)), Some(reply.data.value.token), true, false, None)
      else
        r == s.(isAuthenticated := false, loading := false, error := Some(ErrorText(ReplyError(reply), fallback)))
  {
    RunTwo(stored, s, AuthStart, SignInSteps(reply, fallback)[1]);
  }

  /** What the browser's storage holds under `user`: the text written by
      `JSON.stringify` of a user, or text that does not parse. */
  datatype StoredUser = UserJson(user: User) | Unparsable(text: string)

  /** The provider: the reducer's state, the token stored at load time, and
      the two storage entries. Service answers are parameters. */
  class AuthProvider {
    var state: AuthState
    const loadTimeToken: Option<string>
    var storedToken: Option<string>
    var storedUser: Option<StoredUser>

    /** Mounting: the state is read from the stored token. */
    constructor(token: Option<string>, user: Option<StoredUser>)
      ensures loadTimeToken == token && storedToken == token && storedUser == user
      ensures state == InitialState(token)
      ensures Valid()
    {
      loadTimeToken := token;
      storedToken := token;
      storedUser := user;
      state := InitialState(token);
    }

    /** Signed in only with a token in hand. */
    predicate Valid()
      reads this
    {
      Inv(state)
    }

    method Dispatch(a: AuthAction)
      requires Valid()
      modifies this
      ensures Valid()
      ensures state == AuthReducer(loadTimeToken, old(state), a)
      ensures storedToken == old(storedToken) && storedUser == old(storedUser)
    {
      ReducerKeepsInv(loadTimeToken, state, a);
      state := AuthReducer(loadTimeToken, state, a);
    }

    /** The mount effect: with a non-empty stored token and a non-empty
        stored user, a user that parses restores the session and one that
        does not clears both entries. */
    method RestoreSession()
      requires Valid()
      modifies this
      ensures Valid()
      ensures old(storedToken).Some? && old(storedToken).value != "" && old(storedUser).Some?
              && old(storedUser).value.UserJson? ==>
                state == AuthReducer(loadTimeToken, old(state), AuthSuccess(old(storedUser).value.user, old(storedToken).value))
                && storedToken == old(storedToken) && storedUser == old(storedUser)
      ensures old(storedToken).Some? && old(storedToken).value != "" && old(storedUser).Some?
              && old(storedUser).value.Unparsable? && old(storedUser).value.text != "" ==>
                state == old(state) && storedToken == None && storedUser == None
      ensures !(old(storedToken).Some? && old(storedToken).value != "" && old(storedUser).Some?
                && (old(storedUser).value.Unparsable? ==> old(storedUser).value.text != "")) ==>
                state == old(state) && storedToken == old(storedToken) && storedUser == old(storedUser)
    {
      if storedToken.Some? && storedToken.value != "" && storedUser.Some? {
        match storedUser.value
        case UserJson(user) =>
          Dispatch(AuthSuccess(user, storedToken.value));
        case Unparsable(text) =>
          if text != "" {
            storedToken := None;
            storedUser := None;
          }
      }
    }

    /** `login` and `register`: on success the token and the user are
        stored, then the reducer signs in. */
    method SignIn(reply: Reply<AuthReply>, fallback: string)
      requires Valid()
      modifies this
      ensures Valid()
      ensures state == Run(loadTimeToken, old(state), SignInSteps(reply, fallback))
      ensures Delivered(reply) ==>
                storedToken == Some(reply.data.value.token) && storedUser == Some(UserJson(UserOf(reply.data.value)))
      ensures !Delivered(reply) ==> storedToken == old(storedToken) && storedUser == old(storedUser)
    {
      ghost var s0 := state;
      Dispatch(AuthStart);
      if reply.Answered? && reply.success && reply.data.Some? {
        var user := UserOf(reply.data.value);
        storedToken := Some(reply.data.value.token);
        storedUser := Some(UserJson(user));
        Dispatch(AuthSuccess(user, reply.data.value.token));
      } else {
        Dispatch(AuthFailure(ErrorText(ReplyError(reply), fallback)));
      }
      RunTwo(loadTimeToken, s0, AuthStart, SignInSteps(reply, fallback)[1]);
    }

    method Login(reply: Reply<AuthReply>)
      requires Valid()
      modifies this
      ensures Valid()
      ensures state == Run(loadTimeToken, old(state), SignInSteps(reply, MsgLoginFailed))
      ensures Delivered(reply) ==>
                storedToken == Some(reply.data.value.token) && storedUser == Some(UserJson(UserOf(reply.data.value)))
      ensures !Delivered(reply) ==> storedToken == old(storedToken) && storedUser == old(storedUser)
    {
      SignIn(reply, MsgLoginFailed);
    }

    method Register(reply: Reply<AuthReply>)
      requires Valid()
      modifies this
      ensures Valid()
      ensures state == Run(loadTimeToken, old(state), SignInSteps(reply, MsgRegisterFailed))
      ensures Delivered(reply) ==>
                storedToken == Some(reply.data.value.token) && storedUser == Some(UserJson(UserOf(reply.data.value)))
      ensures !Delivered(reply) ==> storedToken == old(storedToken) && storedUser == old(storedUser)
    {
      SignIn(reply, MsgRegisterFailed);
    }

    /** `logout`: whether the service call returns or throws, both storage
        entries are removed and the store signs out. `callFailed` stands for
        that outcome; the body does not read it, because both outcomes end
        the same way. */
    method Logout(callFailed: bool)
      requires Valid()
      modifies this
      ensures Valid()
      ensures state == LoggedOut
      ensures storedToken == None && storedUser == None
    {
      storedToken := None;
      storedUser := None;
      Dispatch(AuthAction.Logout);
    }

    method ClearError()
      requires Valid()
      modifies this
      ensures Valid()
      ensures state == old(state).(error := None)
      ensures storedToken == old(storedToken) && storedUser == old(storedUser)
    {
      Dispatch(AuthAction.ClearError);
    }
  }
}
