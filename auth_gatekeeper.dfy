/** The authentication service's gatekeeper: the request-entry middleware
    that turns an `Authorization` header into a rejection or into an
    admitted principal (`userID`, `role`, `token`). Its stages, in order:
    read the credential, consult the revocation denylist, parse and verify
    the token, check the claims, check expiry, admit. */
module AuthGatekeeper {
  import opened Values
  import opened Jwt
  import opened Gin
  import opened BearerHeader

  /** The shared key/value store holding the denylist, as one request sees
      it: the keys present, or the error its client reports. */
  datatype KeyValueStore = Reachable(keys: set<string>) | Unreachable(reason: string)

  /** EXISTS on a single key: 1 when it is present, 0 when it is not. */
  function Exists(store: KeyValueStore, key: string): (r: Result<int, string>)
    ensures r.Ok? <==> store.Reachable?
    ensures r.Ok? ==> (r.value == 1 <==> key in store.keys)
  {
    match store
    case Unreachable(reason) => Err(reason)
    case Reachable(keys) => Ok(if key in keys then 1 else 0)
  }

  const DenylistPrefix := "blacklist:"

  /** The denylist entry for a token is keyed by the exact token string. */
  function DenylistKey(token: string): (k: string)
    ensures DenylistPrefix <= k && k[|DenylistPrefix|..] == token
  {
    DenylistPrefix + token
  }

  const MsgStoreError := "Internal server error"
  const MsgRevoked := "Token has been revoked"
  const MsgInvalidToken := "Invalid token"
  const MsgNoUserId := "user_id not found in token"
  const MsgNoRole := "role not found in token"
  const MsgRoleFormat := "Invalid role format in token"
  const MsgNoExp := "exp not found in token"
  const MsgExpFormat := "Invalid exp format in token"
  const MsgExpired := "Token has expired"
  const MsgSecretMissing := "JWT_SECRET is not set"

  /** A rejection is the response written before aborting; an admission is
      what is put into the request context; a crash is the panic the
      middleware raises when no secret is configured. The model stops at
      the panic: the framework's recovery handler, which would answer it,
      is not part of the model. */
  datatype Verdict =
    | Reject(response: Response)
    | Admit(userId: JsonValue, role: string, token: string)
    | Crash(message: string)

  /** The key function: only HMAC-signed tokens get a key, and a missing
      `JWT_SECRET` is a panic. */
  function KeyFor(secret: string, m: SigningMethod): (k: KeyDecision)
    ensures k.Key? <==> IsHmac(m) && secret != ""
    ensures k.Key? ==> k.secret == secret
    ensures k.KeyPanic? <==> IsHmac(m) && secret == ""
    ensures k.KeyError? ==> k.text == ErrSignatureInvalid
  {
    if !IsHmac(m) then KeyError(ErrSignatureInvalid)
    else if secret == "" then KeyPanic(MsgSecretMissing)
    else Key(secret)
  }

  /** The claims the gatekeeper needs, with the types it needs: `user_id`
      present (of any type), `role` a string, `exp` a number. */
  predicate ClaimsWellFormed(claims: Claims)
  {
    && "user_id" in claims
    && "role" in claims && claims["role"].JString?
    && "exp" in claims && claims["exp"].JNumber?
  }

  /** Claims that are admitted at time `now`: well formed and not past
      their expiry; the expiry instant itself is still admitted. */
  predicate Admissible(claims: Claims, now: int)
  {
    ClaimsWellFormed(claims) && now <= claims["exp"].num
  }

  /** The claim checks, in the order the code runs them, each with the
      message written when it is the first to fail. */
  function ClaimChecks(now: int): seq<(Claims -> bool, string)>
  {
    [ ((c: Claims) => "user_id" in c, MsgNoUserId),
      ((c: Claims) => "role" in c, MsgNoRole),
      ((c: Claims) => "role" in c && c["role"].JString?, MsgRoleFormat),
      ((c: Claims) => "exp" in c, MsgNoExp),
      ((c: Claims) => "exp" in c && c["exp"].JNumber?, MsgExpFormat),
      ((c: Claims) => !("exp" in c && c["exp"].JNumber? && now > c["exp"].num), MsgExpired) ]
  }

  /** The message of the first check that fails, if any does. */
  function FirstFailure(checks: seq<(Claims -> bool, string)>, claims: Claims): (r: Option<string>)
    ensures r.None? <==> forall i :: 0 <= i < |checks| ==> checks[i].0(claims)
    ensures r.Some? ==> exists i :: 0 <= i < |checks| && !checks[i].0(claims) && r.value == checks[i].1
                                   && forall j :: 0 <= j < i ==> checks[j].0(claims)
  {
    if checks == [] then None
    else if !checks[0].0(claims) then Some(checks[0].1)
    else FirstFailure(checks[1..], claims)
  }

  /** Stages five to seven: the claim checks, the expiry test, admission. */
  function CheckClaims(claims: Claims, token: string, now: int): (r: Verdict)
    ensures r.Admit? <==> Admissible(claims, now)
    ensures r.Admit? ==> r.userId == claims["user_id"] && r.role == claims["role"].str && r.token == token
    ensures r.Reject? ==> r.response.status == StatusUnauthorized
    ensures !r.Crash?
  {
    if "user_id" !in claims then Reject(Failure(StatusUnauthorized, MsgNoUserId))
    else if "role" !in claims then Reject(Failure(StatusUnauthorized, MsgNoRole))
    else if !claims["role"].JString? then Reject(Failure(StatusUnauthorized, MsgRoleFormat))
    else if "exp" !in claims then Reject(Failure(StatusUnauthorized, MsgNoExp))
    else if !claims["exp"].JNumber? then Reject(Failure(StatusUnauthorized, MsgExpFormat))
    else if now > claims["exp"].num then Reject(Failure(StatusUnauthorized, MsgExpired))
    else Admit(claims["user_id"], claims["role"].str, token)
  }

  /** The whole gatekeeper for one request, `now` being the clock reading. */
  function Gatekeep(header: string, store: KeyValueStore, lib: Library, secret: string, now: int): (r: Verdict)
    ensures header == "" ==> r == Reject(Failure(StatusUnauthorized, MsgHeaderRequired))
    ensures r.Reject? ==> r.response.status == StatusUnauthorized || r.response.status == StatusInternalServerError
    ensures r.Reject? && r.response.status == StatusInternalServerError <==>
              header != "" && ExtractToken(header) != "" && store.Unreachable?
    ensures r.Admit? ==> r.token == ExtractToken(header) && r.token != ""
    ensures r.Admit? ==> store.Reachable? && DenylistKey(r.token) !in store.keys
    ensures r.Crash? <==> header != "" && ExtractToken(header) != "" && store.Reachable?
                          && DenylistKey(ExtractToken(header)) !in store.keys
                          && lib.decode(ExtractToken(header)).Ok?
                          && IsHmac(lib.decode(ExtractToken(header)).value.alg) && secret == ""
  {
    match ReadCredential(header)
    case Err(response) => Reject(response)
    case Ok(token) =>
      match Exists(store, DenylistKey(token))
      case Err(_) => Reject(Failure(StatusInternalServerError, MsgStoreError))
      case Ok(count) =>
        if count == 1 then Reject(Failure(StatusUnauthorized, MsgRevoked))
        else
          match Parse(lib, token, m => KeyFor(secret, m), now)
          case Panicked(message) => Crash(message)
          case Invalid(_) => Reject(Failure(StatusUnauthorized, MsgInvalidToken))
          case Valid(claims) => CheckClaims(claims, token, now)
  }

  /** The middleware applied to a request context: a rejection writes the
      response and aborts, leaving the context keys alone; an admission
      sets exactly `userID`, `role` and `token` and runs the next handler. */
  method Serve(c: Context, header: string, store: KeyValueStore, lib: Library, secret: string, now: int)
    returns (v: Verdict)
    modifies c
    ensures v == Gatekeep(header, store, lib, secret, now)
    ensures v.Reject? ==> c.written == Some(v.response) && c.aborted
                          && c.keys == old(c.keys) && c.proceeded == old(c.proceeded)
                          && c.panicked == old(c.panicked)
    ensures v.Admit? ==> c.keys == old(c.keys)["userID" := v.userId]["role" := JString(v.role)]["token" := JString(v.token)]
                         && c.proceeded && c.written == old(c.written) && c.aborted == old(c.aborted)
                         && c.panicked == old(c.panicked)
    ensures v.Crash? ==> c.panicked == Some(v.message) && c.keys == old(c.keys)
                         && c.written == old(c.written) && c.aborted == old(c.aborted)
                         && c.proceeded == old(c.proceeded)
  {
    v := Gatekeep(header, store, lib, secret, now);
    match v
    case Reject(response) =>
      c.Json(response);
      c.Abort();
    case Admit(userId, role, token) =>
      c.Set("userID", userId);
      c.Set("role", JString(role));
      c.Set("token", JString(token));
      c.Next();
    case Crash(message) =>
      c.Panic(message);
  }

  /** Admission, stated without the code's control flow: a credential is
      present, its denylist entry is absent from a reachable store, the
      library accepts it as HMAC-signed under the configured secret, and its
      claims are admissible now. */
  lemma AdmitIff(header: string, store: KeyValueStore, lib: Library, secret: string, now: int)
    ensures Gatekeep(header, store, lib, secret, now).Admit? <==>
      var t := ExtractToken(header);
      && header != "" && t != ""
      && store.Reachable? && DenylistKey(t) !in store.keys
      && lib.decode(t).Ok? && IsHmac(lib.decode(t).value.alg) && secret != ""
      && lib.verify(t, secret, now) == None
      && Admissible(lib.decode(t).value.claims, now)
  {
  }

  /** A present, unlisted, HMAC-signed token that the library accepts
      under the configured secret is decided by its claims alone. */
  lemma ReachesClaimChecks(header: string, store: KeyValueStore, lib: Library, secret: string, now: int)
    requires header != "" && ExtractToken(header) != "" && secret != ""
    requires store.Reachable? && DenylistKey(ExtractToken(header)) !in store.keys
    requires lib.decode(ExtractToken(header)).Ok? && IsHmac(lib.decode(ExtractToken(header)).value.alg)
    requires lib.verify(ExtractToken(header), secret, now) == None
    ensures Gatekeep(header, store, lib, secret, now)
              == CheckClaims(lib.decode(ExtractToken(header)).value.claims, ExtractToken(header), now)
  {
  }

  /** The denylist is consulted before the parser: a listed token is
      revoked whatever its signature, its claims, the clock, or even a
      missing secret that would otherwise panic. */
  lemma RevokedBeforeParsing(header: string, store: KeyValueStore, lib: Library, secret: string, now: int)
    requires header != "" && ExtractToken(header) != ""
    requires store.Reachable? && DenylistKey(ExtractToken(header)) in store.keys
    ensures Gatekeep(header, store, lib, secret, now) == Reject(Failure(StatusUnauthorized, MsgRevoked))
  {
  }

  /** A failing store lookup is an internal error, never an admission. */
  lemma StoreErrorIsInternal(header: string, store: KeyValueStore, lib: Library, secret: string, now: int)
    requires header != "" && ExtractToken(header) != "" && store.Unreachable?
    ensures Gatekeep(header, store, lib, secret, now) == Reject(Failure(StatusInternalServerError, MsgStoreError))
  {
  }

  /** A token not signed with HMAC is "Invalid token" whatever its claims
      say and whatever the clock reads: no claim is inspected. */
  lemma NonHmacRejected(header: string, store: KeyValueStore, lib: Library, secret: string, now: int)
    requires header != "" && ExtractToken(header) != ""
    requires store.Reachable? && DenylistKey(ExtractToken(header)) !in store.keys
    requires lib.decode(ExtractToken(header)).Ok? && !IsHmac(lib.decode(ExtractToken(header)).value.alg)
    ensures Gatekeep(header, store, lib, secret, now) == Reject(Failure(StatusUnauthorized, MsgInvalidToken))
  {
  }

  /** Any failure of the library (decoding, signature, its own validation
      at that moment) is "Invalid token", whatever the library's text and
      before any claim is inspected. */
  lemma ParseFailureRejected(header: string, store: KeyValueStore, lib: Library, secret: string, now: int)
    requires header != "" && ExtractToken(header) != ""
    requires store.Reachable? && DenylistKey(ExtractToken(header)) !in store.keys
    requires Parse(lib, ExtractToken(header), m => KeyFor(secret, m), now).Invalid?
    ensures Gatekeep(header, store, lib, secret, now) == Reject(Failure(StatusUnauthorized, MsgInvalidToken))
  {
  }

  /** With no secret configured, an HMAC token that reaches the parser
      makes the middleware panic before it writes any response. */
  lemma MissingSecretPanics(header: string, store: KeyValueStore, lib: Library, now: int)
    requires header != "" && ExtractToken(header) != ""
    requires store.Reachable? && DenylistKey(ExtractToken(header)) !in store.keys
    requires lib.decode(ExtractToken(header)).Ok? && IsHmac(lib.decode(ExtractToken(header)).value.alg)
    ensures Gatekeep(header, store, lib, "", now) == Crash(MsgSecretMissing)
  {
  }

  /** The message the code writes for claims that fail a check, in the
      code's own order, or None when every check passes. */
  function FailureMessage(claims: Claims, now: int): Option<string>
  {
    if "user_id" !in claims then Some(MsgNoUserId)
    else if "role" !in claims then Some(MsgNoRole)
    else if !claims["role"].JString? then Some(MsgRoleFormat)
    else if "exp" !in claims then Some(MsgNoExp)
    else if !claims["exp"].JNumber? then Some(MsgExpFormat)
    else if now > claims["exp"].num then Some(MsgExpired)
    else None
  }

  /** Running the check list reports the same message as the code's chain. */
  lemma ClaimChecksReport(claims: Claims, now: int)
    ensures FirstFailure(ClaimChecks(now), claims) == FailureMessage(claims, now)
  {
    var c := ClaimChecks(now);
    var hasExp := "exp" in claims && claims["exp"].JNumber?;
    assert FirstFailure(c[5..], claims) == if hasExp && now > claims["exp"].num then Some(MsgExpired) else None by {
      assert |c[5..]| == 1;
    }
    assert FirstFailure(c[4..], claims) == if !hasExp then Some(MsgExpFormat) else FirstFailure(c[5..], claims) by {
      assert c[4..][1..] == c[5..];
    }
    assert FirstFailure(c[3..], claims) == if "exp" !in claims then Some(MsgNoExp) else FirstFailure(c[4..], claims) by {
      assert c[3..][1..] == c[4..];
    }
    assert FirstFailure(c[2..], claims)
             == if !("role" in claims && claims["role"].JString?) then Some(MsgRoleFormat) else FirstFailure(c[3..], claims) by {
      assert c[2..][1..] == c[3..];
    }
    assert FirstFailure(c[1..], claims) == if "role" !in claims then Some(MsgNoRole) else FirstFailure(c[2..], claims) by {
      assert c[1..][1..] == c[2..];
    }
    assert FirstFailure(c, claims) == if "user_id" !in claims then Some(MsgNoUserId) else FirstFailure(c[1..], claims);
  }

  /** The claims are checked in a fixed order and the first failing check
      decides the message; when none fails the claims are admitted. */
  lemma FirstFailedCheckDecides(claims: Claims, token: string, now: int)
    ensures CheckClaims(claims, token, now).Reject? <==> FirstFailure(ClaimChecks(now), claims).Some?
    ensures CheckClaims(claims, token, now).Reject? ==>
              CheckClaims(claims, token, now).response
                == Failure(StatusUnauthorized, FirstFailure(ClaimChecks(now), claims).value)
  {
    ClaimChecksReport(claims, now);
  }

  /** The type of `user_id` is never checked: replacing its value by any
      other JSON value changes neither whether the token is admitted nor
      anything else admitted, and the value is passed on as it is. */
  lemma UserIdTypeUnchecked(claims: Claims, v: JsonValue, token: string, now: int)
    requires "user_id" in claims
    ensures CheckClaims(claims["user_id" := v], token, now).Admit? == CheckClaims(claims, token, now).Admit?
    ensures CheckClaims(claims["user_id" := v], token, now).Admit? ==>
              CheckClaims(claims["user_id" := v], token, now) == Admit(v, claims["role"].str, token)
  {
  }

  /** Expiry rejects exactly when the clock is past `exp`. */
  lemma ExpiryBoundary(claims: Claims, token: string, now: int)
    requires ClaimsWellFormed(claims)
    ensures CheckClaims(claims, token, now) ==
              if now > claims["exp"].num then Reject(Failure(StatusUnauthorized, MsgExpired))
              else Admit(claims["user_id"], claims["role"].str, token)
  {
  }

  /** A token whose `exp` equals the current second passes the
      middleware's own expiry test, although section 4.1.4 of RFC 7519
      requires it to be rejected. */
  lemma AdmittedAtExpiryInstant(claims: Claims, token: string)
    requires ClaimsWellFormed(claims)
    ensures CheckClaims(claims, token, claims["exp"].num).Admit?
  {
  }
}
