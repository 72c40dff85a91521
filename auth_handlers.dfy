/** The authentication service's handlers: the token issuer and the
    early-return chains of Register, Login, Logout and RefreshToken. The
    database, bcrypt, the token signer and UUID parsing are opaque: each
    handler receives their outcomes as inputs and returns the one response
    it writes. */
module AuthHandlers {
  import opened Values
  import opened Strings
  import opened Jwt
  import opened Gin
  import BearerHeader
  import AuthGatekeeper
  import TaskGatekeeper

  /** Tokens live 24 hours. */
  const TokenLifetime := 24 * 60 * 60

  const MsgInvalidEmail := "Invalid email format"
  const MsgShortPassword := "Password must be at least 6 characters"
  const MsgInvalidRequest := "Invalid request data"
  const MsgUserExists := "User with this email already exists"
  const MsgDatabaseError := "Database error"
  const MsgHashFailed := "Could not process password"
  const MsgCreateFailed := "Could not create user account"
  const MsgRegisterTokenFailed := "Could not generate authentication token"
  const MsgTokenFailed := "Could not generate token"
  const MsgInvalidCredentials := "Invalid credentials"
  const MsgLoggedOut := "Successfully logged out"
  const MsgNotAuthenticated := "User not authenticated"
  const MsgUserIdFormat := "Invalid user ID format"
  const MsgInvalidUserId := "Invalid user ID"

  /** The request body once bound and validated. */
  datatype Credentials = Credentials(email: string, password: string)

  /** A stored user, as the lookup by e-mail returns it. */
  datatype UserRecord = UserRecord(id: Uuid, email: string, passwordHash: string)

  /** The outcome of `First` on the users table. */
  datatype Lookup = Found(user: UserRecord) | NotFound | LookupFailed(text: string)

  // ---------------------------------------------------------------------
  // The issuer

  /** The claim set of an issued token, for one clock reading `now`. */
  function IssuedClaims(userId: Uuid, now: int): (c: Claims)
    ensures c.Keys == {"user_id", "exp", "iat"}
    ensures c["user_id"] == JString(userId.text)
    ensures c["iat"].JNumber? && c["exp"].JNumber? && c["iat"].num == now
    ensures c["exp"].num == c["iat"].num + TokenLifetime
  {
    map["user_id" := JString(userId.text), "exp" := JNumber(now + TokenLifetime), "iat" := JNumber(now)]
  }

  /** generateToken: signs with HS256, under the secret, a claim set holding
      exactly `user_id`, `iat` and an `exp` 24 hours after `now`. */
  function GenerateToken(lib: Library, secret: string, userId: Uuid, now: int): (r: Result<string, string>)
    ensures exists c: Claims :: r == lib.sign(HS256, c, secret)
              && c.Keys == {"user_id", "exp", "iat"} && c["user_id"] == JString(userId.text)
              && c["exp"] == JNumber(now + TokenLifetime)
  {
    lib.sign(HS256, IssuedClaims(userId, now), secret)
  }

  /** The issuer never emits a `role` claim. */
  lemma IssuedClaimsHaveNoRole(userId: Uuid, now: int)
    ensures "role" !in IssuedClaims(userId, now)
    ensures !AuthGatekeeper.ClaimsWellFormed(IssuedClaims(userId, now))
    ensures !TaskGatekeeper.Admissible(IssuedClaims(userId, now))
  {
  }

  /** The library, on this token, gives back the HS256 claims it signed and
      accepts the signature under the secret at clock reading `at`. */
  predicate RoundTrips(lib: Library, token: string, claims: Claims, secret: string, at: int)
  {
    lib.decode(token) == Ok(Unverified(HS256, claims)) && lib.verify(token, secret, at) == None
  }

  /** A token the service issues is refused by the authentication
      service's gatekeeper, for its missing `role` claim, at every later
      clock reading at which the library still accepts it. */
  lemma IssuedTokenRejected(lib: Library, secret: string, userId: Uuid, now: int, token: string,
                            store: AuthGatekeeper.KeyValueStore, later: int)
    requires secret != ""
    requires GenerateToken(lib, secret, userId, now) == Ok(token)
    requires RoundTrips(lib, token, IssuedClaims(userId, now), secret, later)
    requires token != "" && !IsSpace(token[0]) && !IsSpace(token[|token| - 1])
    requires store.Reachable? && AuthGatekeeper.DenylistKey(token) !in store.keys
    ensures AuthGatekeeper.Gatekeep("Bearer " + token, store, lib, secret, later)
              == AuthGatekeeper.Reject(Failure(StatusUnauthorized, AuthGatekeeper.MsgNoRole))
  {
    BearerHeader.ExtractFromBearerHeader(token);
    AuthGatekeeper.ReachesClaimChecks("Bearer " + token, store, lib, secret, later);
    IssuedClaimsHaveNoRole(userId, now);
  }

  /** The same token is refused by the task service's gatekeeper too. */
  lemma IssuedTokenRejectedByTaskService(lib: Library, secret: string, userId: Uuid, now: int, token: string,
                                         later: int)
    requires GenerateToken(lib, secret, userId, now) == Ok(token)
    requires RoundTrips(lib, token, IssuedClaims(userId, now),
                        if secret == "" then TaskGatekeeper.DefaultSecret else secret, later)
    requires token != "" && !IsSpace(token[0]) && !IsSpace(token[|token| - 1])
    ensures TaskGatekeeper.Gatekeep("Bearer " + token, lib, secret, later)
              == TaskGatekeeper.Reject(Failure(StatusUnauthorized, TaskGatekeeper.MsgNoRole))
  {
    BearerHeader.ExtractFromBearerHeader(token);
    TaskGatekeeper.ReachesClaimChecks("Bearer " + token, lib, secret, later);
    IssuedClaimsHaveNoRole(userId, now);
  }

  /** The claim set the gatekeepers expect: the issued one plus `role`. */
  function IssuedClaimsWithRole(userId: Uuid, role: string, now: int): (c: Claims)
    ensures c.Keys == {"user_id", "exp", "iat", "role"}
    ensures c["role"] == JString(role)
    ensures forall k :: k in IssuedClaims(userId, now) ==> c[k] == IssuedClaims(userId, now)[k]
  {
    IssuedClaims(userId, now)["role" := JString(role)]
  }

  /** The issuer with the `role` claim added: HS256 over the same claims
      plus `role`. */
  function GenerateTokenWithRole(lib: Library, secret: string, userId: Uuid, role: string, now: int)
    : (r: Result<string, string>)
    ensures exists c: Claims :: r == lib.sign(HS256, c, secret)
              && c.Keys == {"user_id", "exp", "iat", "role"} && c["user_id"] == JString(userId.text)
              && c["role"] == JString(role) && c["exp"] == JNumber(now + TokenLifetime)
  {
    lib.sign(HS256, IssuedClaimsWithRole(userId, role, now), secret)
  }

  /** Issue then verify, once the role is issued, at a later clock reading
      at which the library accepts the token: the authentication service's
      gatekeeper admits the same principal and role up to and including
      `iat + 24h` and refuses the token as expired after it; the task
      service's gatekeeper admits it whenever the library does. */
  lemma IssueThenVerify(lib: Library, secret: string, userId: Uuid, role: string, now: int, token: string,
                        store: AuthGatekeeper.KeyValueStore, later: int)
    requires secret != ""
    requires GenerateTokenWithRole(lib, secret, userId, role, now) == Ok(token)
    requires RoundTrips(lib, token, IssuedClaimsWithRole(userId, role, now), secret, later)
    requires token != "" && !IsSpace(token[0]) && !IsSpace(token[|token| - 1])
    requires store.Reachable? && AuthGatekeeper.DenylistKey(token) !in store.keys
    ensures AuthGatekeeper.Gatekeep("Bearer " + token, store, lib, secret, later)
              == if later <= now + TokenLifetime then AuthGatekeeper.Admit(JString(userId.text), role, token)
                 else AuthGatekeeper.Reject(Failure(StatusUnauthorized, AuthGatekeeper.MsgExpired))
    ensures TaskGatekeeper.Gatekeep("Bearer " + token, lib, secret, later) == TaskGatekeeper.Admit(userId.text, role)
  {
    var claims := IssuedClaimsWithRole(userId, role, now);
    BearerHeader.ExtractFromBearerHeader(token);
    AuthGatekeeper.ReachesClaimChecks("Bearer " + token, store, lib, secret, later);
    TaskGatekeeper.ReachesClaimChecks("Bearer " + token, lib, secret, later);
    AuthGatekeeper.ExpiryBoundary(claims, token, later);
  }

  // ---------------------------------------------------------------------
  // Register

  /** The message for a request that fails to bind: a text that mentions
      `email` wins over one that mentions `password`; anything else is
      generic. */
  function BindErrorMessage(text: string): (m: string)
    ensures Contains(text, "email") ==> m == MsgInvalidEmail
    ensures !Contains(text, "email") && Contains(text, "password") ==> m == MsgShortPassword
    ensures !Contains(text, "email") && !Contains(text, "password") ==> m == MsgInvalidRequest
  {
    if Contains(text, "email") then MsgInvalidEmail
    else if Contains(text, "password") then MsgShortPassword
    else MsgInvalidRequest
  }

  /** A failed insert is a client error when the database reports a
      uniqueness violation, an internal error otherwise. */
  function CreateFailure(text: string): (r: Response)
    ensures r.status == StatusBadRequest <==> Contains(text, "duplicate key") || Contains(text, "unique constraint")
    ensures r.status == StatusBadRequest ==> r == Failure(StatusBadRequest, MsgUserExists)
    ensures r.status != StatusBadRequest ==> r == Failure(StatusInternalServerError, MsgCreateFailed)
  {
    if Contains(text, "duplicate key") || Contains(text, "unique constraint") then
      Failure(StatusBadRequest, MsgUserExists)
    else
      Failure(StatusInternalServerError, MsgCreateFailed)
  }

  /** Register: bind, look the e-mail up, hash the password, insert the
      user (the database assigns its id), issue a token. */
  function Register(bind: Result<Credentials, string>, lookup: Lookup, hash: Result<string, string>,
                    create: Result<Uuid, string>, lib: Library, secret: string, now: int): (r: Response)
    ensures r.status == StatusCreated <==>
              bind.Ok? && lookup.NotFound? && hash.Ok? && create.Ok?
              && GenerateToken(lib, secret, create.value, now).Ok?
    ensures r.status == StatusCreated ==>
              r.body == SuccessBody(AuthData(GenerateToken(lib, secret, create.value, now).value,
                                             create.value, bind.value.email))
    ensures r.status in {StatusCreated, StatusBadRequest, StatusInternalServerError}
    ensures bind.Err? ==> r == Failure(StatusBadRequest, BindErrorMessage(bind.error))
    ensures bind.Ok? && lookup.Found? ==> r == Failure(StatusBadRequest, MsgUserExists)
    ensures bind.Ok? && lookup.LookupFailed? ==> r == Failure(StatusInternalServerError, MsgDatabaseError)
    ensures bind.Ok? && lookup.NotFound? && hash.Err? ==> r == Failure(StatusInternalServerError, MsgHashFailed)
    ensures bind.Ok? && lookup.NotFound? && hash.Ok? && create.Err? ==> r == CreateFailure(create.error)
    ensures bind.Ok? && lookup.NotFound? && hash.Ok? && create.Ok?
            && GenerateToken(lib, secret, create.value, now).Err? ==>
              r == Failure(StatusInternalServerError, MsgRegisterTokenFailed)
  {
    match bind
    case Err(text) => Failure(StatusBadRequest, BindErrorMessage(text))
    case Ok(req) =>
      match lookup
      case Found(_) => Failure(StatusBadRequest, MsgUserExists)
      case LookupFailed(_) => Failure(StatusInternalServerError, MsgDatabaseError)
      case NotFound =>
        match hash
        case Err(_) => Failure(StatusInternalServerError, MsgHashFailed)
        case Ok(_) =>
          match create
          case Err(text) => CreateFailure(text)
          case Ok(id) =>
            match GenerateToken(lib, secret, id, now)
            case Err(_) => Failure(StatusInternalServerError, MsgRegisterTokenFailed)
            case Ok(token) => Response(StatusCreated, SuccessBody(AuthData(token, id, req.email)))
  }

  /** An e-mail already taken is reported the same way whether the lookup
      finds it or the insert trips over the unique index. */
  lemma DuplicateEmailReportedAlike(req: Credentials, user: UserRecord, hash: Result<string, string>,
                                    createError: string, lib: Library, secret: string, now: int)
    requires hash.Ok? && Contains(createError, "duplicate key")
    ensures Register(Ok(req), Found(user), hash, Err(createError), lib, secret, now)
              == Register(Ok(req), NotFound, hash, Err(createError), lib, secret, now)
              == Failure(StatusBadRequest, MsgUserExists)
  {
  }

  // ---------------------------------------------------------------------
  // Login

  /** Login: bind, look the e-mail up, compare the password with the stored
      hash (`passwordMatches`), issue a token. */
  function Login(bind: Result<Credentials, string>, lookup: Lookup, passwordMatches: bool,
                 lib: Library, secret: string, now: int): (r: Response)
    ensures r.status == StatusOK <==>
              bind.Ok? && lookup.Found? && passwordMatches
              && GenerateToken(lib, secret, lookup.user.id, now).Ok?
    ensures r.status == StatusOK ==>
              r.body == SuccessBody(AuthData(GenerateToken(lib, secret, lookup.user.id, now).value,
                                             lookup.user.id, lookup.user.email))
    ensures r.status in {StatusOK, StatusBadRequest, StatusInternalServerError}
    ensures bind.Err? ==> r == Failure(StatusBadRequest, MsgInvalidRequest)
    ensures bind.Ok? && (lookup.NotFound? || lookup.LookupFailed? || !passwordMatches) ==>
              r == Failure(StatusBadRequest, MsgInvalidCredentials)
    ensures bind.Ok? && lookup.Found? && passwordMatches
            && GenerateToken(lib, secret, lookup.user.id, now).Err? ==>
              r == Failure(StatusInternalServerError, MsgTokenFailed)
  {
    match bind
    case Err(_) => Failure(StatusBadRequest, MsgInvalidRequest)
    case Ok(_) =>
      match lookup
      case NotFound => Failure(StatusBadRequest, MsgInvalidCredentials)
      case LookupFailed(_) => Failure(StatusBadRequest, MsgInvalidCredentials)
      case Found(user) =>
        if !passwordMatches then Failure(StatusBadRequest, MsgInvalidCredentials)
        else
          match GenerateToken(lib, secret, user.id, now)
          case Err(_) => Failure(StatusInternalServerError, MsgTokenFailed)
          case Ok(token) => Response(StatusOK, SuccessBody(AuthData(token, user.id, user.email)))
  }

  /** An unknown e-mail, a failing lookup and a wrong password all get the
      identical response. */
  lemma UnknownEmailLooksLikeWrongPassword(req: Credentials, user: UserRecord, lookupError: string,
                                           matches: bool, lib: Library, secret: string, now: int)
    ensures Login(Ok(req), NotFound, matches, lib, secret, now)
              == Login(Ok(req), LookupFailed(lookupError), matches, lib, secret, now)
              == Login(Ok(req), Found(user), false, lib, secret, now)
              == Failure(StatusBadRequest, MsgInvalidCredentials)
  {
  }

  // ---------------------------------------------------------------------
  // Logout

  /** Logout answers success and writes nothing: the denylist after the
      call is the denylist before it. */
  function Logout(store: AuthGatekeeper.KeyValueStore): (r: (Response, AuthGatekeeper.KeyValueStore))
    ensures r.0 == Response(StatusOK, SuccessBody(MessageData(MsgLoggedOut)))
    ensures r.1 == store
  {
    (Response(StatusOK, SuccessBody(MessageData(MsgLoggedOut))), store)
  }

  /** Nothing is revoked: every request gets, after a logout, the verdict it
      got before, so a token admitted before logging out is still admitted. */
  lemma LogoutRevokesNothing(store: AuthGatekeeper.KeyValueStore, header: string, lib: Library, secret: string, now: int)
    ensures AuthGatekeeper.Gatekeep(header, Logout(store).1, lib, secret, now)
              == AuthGatekeeper.Gatekeep(header, store, lib, secret, now)
    ensures AuthGatekeeper.Gatekeep(header, store, lib, secret, now).Admit? ==>
              AuthGatekeeper.Gatekeep(header, Logout(store).1, lib, secret, now).Admit?
  {
  }

  // ---------------------------------------------------------------------
  // RefreshToken

  /** RefreshToken: the `userID` the gatekeeper left in the context must be
      a string that parses as a UUID; a fresh token is issued for it and the
      response carries an empty e-mail. */
  function RefreshToken(userId: Option<JsonValue>, parseUuid: string -> Option<Uuid>,
                        lib: Library, secret: string, now: int): (r: Response)
    ensures userId.None? ==> r == Failure(StatusUnauthorized, MsgNotAuthenticated)
    ensures userId.Some? && !userId.value.JString? ==> r == Failure(StatusUnauthorized, MsgUserIdFormat)
    ensures userId.Some? && userId.value.JString? && parseUuid(userId.value.str).None? ==>
              r == Failure(StatusUnauthorized, MsgInvalidUserId)
    ensures r.status == StatusOK <==>
              userId.Some? && userId.value.JString? && parseUuid(userId.value.str).Some?
              && GenerateToken(lib, secret, parseUuid(userId.value.str).value, now).Ok?
    ensures r.status == StatusOK ==>
              var id := parseUuid(userId.value.str).value;
              r.body == SuccessBody(AuthData(GenerateToken(lib, secret, id, now).value, id, ""))
    ensures userId.Some? && userId.value.JString? && parseUuid(userId.value.str).Some?
            && GenerateToken(lib, secret, parseUuid(userId.value.str).value, now).Err? ==>
              r == Failure(StatusInternalServerError, MsgTokenFailed)
    ensures r.status in {StatusOK, StatusUnauthorized, StatusInternalServerError}
  {
    match userId
    case None => Failure(StatusUnauthorized, MsgNotAuthenticated)
    case Some(v) =>
      if !v.JString? then Failure(StatusUnauthorized, MsgUserIdFormat)
      else
        match parseUuid(v.str)
        case None => Failure(StatusUnauthorized, MsgInvalidUserId)
        case Some(id) =>
          match GenerateToken(lib, secret, id, now)
          case Err(_) => Failure(StatusInternalServerError, MsgTokenFailed)
          case Ok(token) => Response(StatusOK, SuccessBody(AuthData(token, id, "")))
  }

  /** The handler on its request context: `userID` is read from the keys an
      earlier handler set, and the one response is written. */
  method ServeRefresh(c: Context, parseUuid: string -> Option<Uuid>, lib: Library, secret: string, now: int)
    returns (r: Response)
    modifies c
    ensures r == RefreshToken(c.Get("userID"), parseUuid, lib, secret, now)
    ensures c.written == Some(r)
    ensures c.keys == old(c.keys) && c.aborted == old(c.aborted)
    ensures c.proceeded == old(c.proceeded) && c.panicked == old(c.panicked)
  {
    r := RefreshToken(c.Get("userID"), parseUuid, lib, secret, now);
    c.Json(r);
  }

  /** Behind the authentication gatekeeper, refresh reads the `user_id` claim
      the gatekeeper passed on unchecked: a token whose `user_id` is not a
      string is admitted by the gatekeeper and then refused here. */
  lemma RefreshBehindGatekeeper(header: string, store: AuthGatekeeper.KeyValueStore, lib: Library,
                                secret: string, now: int, parseUuid: string -> Option<Uuid>)
    requires AuthGatekeeper.Gatekeep(header, store, lib, secret, now).Admit?
    ensures var v := AuthGatekeeper.Gatekeep(header, store, lib, secret, now).userId;
      && v == lib.decode(BearerHeader.ExtractToken(header)).value.claims["user_id"]
      && (!v.JString? ==> RefreshToken(Some(v), parseUuid, lib, secret, now)
                            == Failure(StatusUnauthorized, MsgUserIdFormat))
  {
    AuthGatekeeper.AdmitIff(header, store, lib, secret, now);
  }
}
