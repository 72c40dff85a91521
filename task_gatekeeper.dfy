/** The task service's gatekeeper: the same chain as the authentication
    service's, weakened. There is no denylist lookup and no expiry check of
    its own (only the library's), `user_id` must be a string, a missing
    secret falls back to a fixed default, and only `userID` and `role` are
    put into the context. */
module TaskGatekeeper {
  import opened Values
  import opened Jwt
  import opened Gin
  import opened BearerHeader
  import AuthGatekeeper

  const DefaultSecret := "your-super-secret-jwt-key-here-make-it-very-long-and-secure"

  const MsgInvalidTokenPrefix := "Invalid token: "
  const MsgNoUserId := "user_id not found in token"
  const MsgUserIdFormat := "Invalid user_id format in token"
  const MsgNoRole := "role not found in token"
  const MsgRoleFormat := "Invalid role format in token"

  datatype Verdict =
    | Reject(response: Response)
    | Admit(userId: string, role: string)

  /** The key function: only HMAC-signed tokens get a key; an empty
      `JWT_SECRET` is replaced by the built-in default, so it never panics. */
  function KeyFor(secret: string, m: SigningMethod): (k: KeyDecision)
    ensures !k.KeyPanic?
    ensures k.Key? <==> IsHmac(m)
    ensures k.Key? ==> k.secret == (if secret == "" then DefaultSecret else secret)
    ensures k.KeyError? ==> k.text == ErrSignatureInvalid
  {
    if !IsHmac(m) then KeyError(ErrSignatureInvalid)
    else Key(if secret == "" then DefaultSecret else secret)
  }

  /** Claims this gatekeeper admits: `user_id` and `role` both strings.
      Nothing about `exp` is required. */
  predicate Admissible(claims: Claims)
  {
    && "user_id" in claims && claims["user_id"].JString?
    && "role" in claims && claims["role"].JString?
  }

  /** The claim checks, in the order the code runs them, each with the
      message written when it is the first to fail. */
  function ClaimChecks(): seq<(Claims -> bool, string)>
  {
    [ ((c: Claims) => "user_id" in c, MsgNoUserId),
      ((c: Claims) => "user_id" in c && c["user_id"].JString?, MsgUserIdFormat),
      ((c: Claims) => "role" in c, MsgNoRole),
      ((c: Claims) => "role" in c && c["role"].JString?, MsgRoleFormat) ]
  }

  /** The claim checks, in order: `user_id` present, `user_id` a string,
      `role` present, `role` a string. */
  function CheckClaims(claims: Claims): (r: Verdict)
    ensures r.Admit? <==> Admissible(claims)
    ensures r.Admit? ==> r.userId == claims["user_id"].str && r.role == claims["role"].str
    ensures r.Reject? ==> r.response.status == StatusUnauthorized
  {
    if "user_id" !in claims then Reject(Failure(StatusUnauthorized, MsgNoUserId))
    else if !claims["user_id"].JString? then Reject(Failure(StatusUnauthorized, MsgUserIdFormat))
    else if "role" !in claims then Reject(Failure(StatusUnauthorized, MsgNoRole))
    else if !claims["role"].JString? then Reject(Failure(StatusUnauthorized, MsgRoleFormat))
    else Admit(claims["user_id"].str, claims["role"].str)
  }

  /** The whole gatekeeper for one request, `now` being the clock reading
      the library validates at. It takes no store: nothing it decides can
      depend on a denylist. */
  function Gatekeep(header: string, lib: Library, secret: string, now: int): (r: Verdict)
    ensures header == "" ==> r == Reject(Failure(StatusUnauthorized, MsgHeaderRequired))
    ensures r.Reject? ==> r.response.status == StatusUnauthorized
    ensures r.Admit? <==>
      var t := ExtractToken(header);
      && header != "" && t != ""
      && lib.decode(t).Ok? && IsHmac(lib.decode(t).value.alg)
      && lib.verify(t, if secret == "" then DefaultSecret else secret, now) == None
      && Admissible(lib.decode(t).value.claims)
  {
    match ReadCredential(header)
    case Err(response) => Reject(response)
    case Ok(token) =>
      match Parse(lib, token, m => KeyFor(secret, m), now)
      case Panicked(_) => assert false; Reject(Failure(StatusUnauthorized, MsgInvalidTokenPrefix))
      case Invalid(text) => Reject(Failure(StatusUnauthorized, MsgInvalidTokenPrefix + text))
      case Valid(claims) => CheckClaims(claims)
  }

  /** The middleware applied to a request context: a rejection writes the
      response and aborts; an admission sets `userID` and `role` only (no
      `token` key) and runs the next handler. */
  method Serve(c: Context, header: string, lib: Library, secret: string, now: int) returns (v: Verdict)
    modifies c
    ensures v == Gatekeep(header, lib, secret, now)
    ensures v.Reject? ==> c.written == Some(v.response) && c.aborted
                          && c.keys == old(c.keys) && c.proceeded == old(c.proceeded)
                          && c.panicked == old(c.panicked)
    ensures v.Admit? ==> c.keys == old(c.keys)["userID" := JString(v.userId)]["role" := JString(v.role)]
                         && c.proceeded && c.written == old(c.written) && c.aborted == old(c.aborted)
                         && c.panicked == old(c.panicked)
  {
    v := Gatekeep(header, lib, secret, now);
    match v
    case Reject(response) =>
      c.Json(response);
      c.Abort();
    case Admit(userId, role) =>
      c.Set("userID", JString(userId));
      c.Set("role", JString(role));
      c.Next();
  }

  /** An HMAC-signed token that the library accepts under the effective
      secret is decided by its claims alone. */
  lemma ReachesClaimChecks(header: string, lib: Library, secret: string, now: int)
    requires header != "" && ExtractToken(header) != ""
    requires lib.decode(ExtractToken(header)).Ok? && IsHmac(lib.decode(ExtractToken(header)).value.alg)
    requires lib.verify(ExtractToken(header), if secret == "" then DefaultSecret else secret, now) == None
    ensures Gatekeep(header, lib, secret, now) == CheckClaims(lib.decode(ExtractToken(header)).value.claims)
  {
  }

  /** The claims are checked in a fixed order and the first failing check
      decides the message; when none fails the claims are admitted. */
  lemma FirstFailedCheckDecides(claims: Claims)
    ensures CheckClaims(claims).Reject? <==> AuthGatekeeper.FirstFailure(ClaimChecks(), claims).Some?
    ensures CheckClaims(claims).Reject? ==>
              CheckClaims(claims).response
                == Failure(StatusUnauthorized, AuthGatekeeper.FirstFailure(ClaimChecks(), claims).value)
  {
    var c := ClaimChecks();
    assert AuthGatekeeper.FirstFailure(c[3..], claims)
             == if !("role" in claims && claims["role"].JString?) then Some(MsgRoleFormat) else None by {
      assert |c[3..]| == 1;
    }
    assert AuthGatekeeper.FirstFailure(c[2..], claims)
             == if "role" !in claims then Some(MsgNoRole) else AuthGatekeeper.FirstFailure(c[3..], claims) by {
      assert c[2..][1..] == c[3..];
    }
    assert AuthGatekeeper.FirstFailure(c[1..], claims)
             == if !("user_id" in claims && claims["user_id"].JString?) then Some(MsgUserIdFormat)
                else AuthGatekeeper.FirstFailure(c[2..], claims) by {
      assert c[1..][1..] == c[2..];
    }
    assert AuthGatekeeper.FirstFailure(c, claims)
             == if "user_id" !in claims then Some(MsgNoUserId) else AuthGatekeeper.FirstFailure(c[1..], claims);
  }

  /** Every failure of the library is reported as "Invalid token: "
      followed by the library's own error text: the decoding error, the key
      function's error for a token not signed with HMAC, or the
      verification error under the effective secret at that moment. */
  lemma ParseFailureMessage(header: string, lib: Library, secret: string, now: int)
    requires header != "" && ExtractToken(header) != ""
    ensures var t := ExtractToken(header);
      lib.decode(t).Err? ==>
        Gatekeep(header, lib, secret, now)
          == Reject(Failure(StatusUnauthorized, MsgInvalidTokenPrefix + lib.decode(t).error))
    ensures var t := ExtractToken(header);
      lib.decode(t).Ok? && !IsHmac(lib.decode(t).value.alg) ==>
        Gatekeep(header, lib, secret, now)
          == Reject(Failure(StatusUnauthorized, MsgInvalidTokenPrefix + ErrSignatureInvalid))
    ensures var t := ExtractToken(header);
      var e := lib.verify(t, if secret == "" then DefaultSecret else secret, now);
      lib.decode(t).Ok? && IsHmac(lib.decode(t).value.alg) && e.Some? ==>
        Gatekeep(header, lib, secret, now)
          == Reject(Failure(StatusUnauthorized, MsgInvalidTokenPrefix + e.value))
  {
    var t := ExtractToken(header);
    var outcome := Parse(lib, t, m => KeyFor(secret, m), now);
    assert Gatekeep(header, lib, secret, now)
             == if outcome.Invalid? then Reject(Failure(StatusUnauthorized, MsgInvalidTokenPrefix + outcome.text))
                else Gatekeep(header, lib, secret, now);
  }

  /** With no secret configured the default secret is used: the verdict is
      the one reached with the default configured explicitly, where the
      authentication service's gatekeeper panics. */
  lemma DefaultSecretFallback(header: string, store: AuthGatekeeper.KeyValueStore, lib: Library, now: int)
    ensures Gatekeep(header, lib, "", now) == Gatekeep(header, lib, DefaultSecret, now)
    ensures header != "" && ExtractToken(header) != ""
            && store.Reachable? && AuthGatekeeper.DenylistKey(ExtractToken(header)) !in store.keys
            && lib.decode(ExtractToken(header)).Ok? && IsHmac(lib.decode(ExtractToken(header)).value.alg)
            ==> AuthGatekeeper.Gatekeep(header, store, lib, "", now).Crash?
  {
    if header != "" && ExtractToken(header) != "" {
      var t := ExtractToken(header);
      assert Parse(lib, t, m => KeyFor("", m), now) == Parse(lib, t, m => KeyFor(DefaultSecret, m), now);
    }
  }

  /** The two credential guard clauses behave identically in both
      services: same status, same message. */
  lemma SameCredentialGuards(header: string, store: AuthGatekeeper.KeyValueStore, lib: Library, secret: string, now: int)
    requires header == "" || ExtractToken(header) == ""
    ensures Gatekeep(header, lib, secret, now).Reject?
    ensures AuthGatekeeper.Gatekeep(header, store, lib, secret, now)
              == AuthGatekeeper.Reject(Gatekeep(header, lib, secret, now).response)
  {
  }

  /** A token on the denylist is refused by the authentication service yet
      admitted here whenever its signature and claims are acceptable. */
  lemma RevocationIgnored(header: string, store: AuthGatekeeper.KeyValueStore, lib: Library, secret: string, now: int)
    requires secret != "" && header != "" && ExtractToken(header) != ""
    requires store.Reachable? && AuthGatekeeper.DenylistKey(ExtractToken(header)) in store.keys
    requires lib.decode(ExtractToken(header)).Ok? && IsHmac(lib.decode(ExtractToken(header)).value.alg)
    requires lib.verify(ExtractToken(header), secret, now) == None
    requires Admissible(lib.decode(ExtractToken(header)).value.claims)
    ensures AuthGatekeeper.Gatekeep(header, store, lib, secret, now)
              == AuthGatekeeper.Reject(Failure(StatusUnauthorized, AuthGatekeeper.MsgRevoked))
    ensures Gatekeep(header, lib, secret, now).Admit?
  {
  }

  /** A token past its `exp` that the library still accepts at that moment
      is refused by the authentication service as expired yet admitted
      here: of the two gatekeepers, only the first tests `exp` itself. */
  lemma ExpiryIgnored(header: string, store: AuthGatekeeper.KeyValueStore, lib: Library, secret: string, now: int)
    requires secret != "" && header != "" && ExtractToken(header) != ""
    requires store.Reachable? && AuthGatekeeper.DenylistKey(ExtractToken(header)) !in store.keys
    requires lib.decode(ExtractToken(header)).Ok? && IsHmac(lib.decode(ExtractToken(header)).value.alg)
    requires lib.verify(ExtractToken(header), secret, now) == None
    requires Admissible(lib.decode(ExtractToken(header)).value.claims)
    requires AuthGatekeeper.ClaimsWellFormed(lib.decode(ExtractToken(header)).value.claims)
    requires now > lib.decode(ExtractToken(header)).value.claims["exp"].num
    ensures AuthGatekeeper.Gatekeep(header, store, lib, secret, now)
              == AuthGatekeeper.Reject(Failure(StatusUnauthorized, AuthGatekeeper.MsgExpired))
    ensures Gatekeep(header, lib, secret, now).Admit?
  {
  }

  /** Whatever the authentication service admits with a string `user_id`,
      this service admits too, as the same principal and role; a non-string
      `user_id` that the authentication service lets through is refused
      here. */
  lemma AuthAdmissionCarriesOver(header: string, store: AuthGatekeeper.KeyValueStore, lib: Library, secret: string, now: int)
    requires AuthGatekeeper.Gatekeep(header, store, lib, secret, now).Admit?
    ensures var a := AuthGatekeeper.Gatekeep(header, store, lib, secret, now);
      if a.userId.JString? then Gatekeep(header, lib, secret, now) == Admit(a.userId.str, a.role)
      else Gatekeep(header, lib, secret, now) == Reject(Failure(StatusUnauthorized, MsgUserIdFormat))
  {
    AuthGatekeeper.AdmitIff(header, store, lib, secret, now);
  }
}
