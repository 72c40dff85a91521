/** The JSON Web Token library (RFC 7519) as the services use it. The
    library itself is opaque: how it splits and decodes a token, how it
    checks an HMAC signature (section 3.2 of RFC 7518) and its own claim
    validation are given as uninterpreted functions. What is modelled is the
    control flow of `jwt.Parse` around the caller's key function. */
module Jwt {
  import opened Values

  datatype SigningMethod =
    | HS256 | HS384 | HS512
    | RS256 | RS384 | RS512
    | PS256 | PS384 | PS512
    | ES256 | ES384 | ES512
    | EdDSA | NoneMethod

  /** The key function's type test `token.Method.(*jwt.SigningMethodHMAC)`. */
  predicate IsHmac(m: SigningMethod)
    ensures IsHmac(m) <==> m in {HS256, HS384, HS512}
    ensures m == NoneMethod ==> !IsHmac(m)
  {
    m.HS256? || m.HS384? || m.HS512?
  }

  /** What the library reads from a token before any key is chosen: the
      header's signing method (`alg`) and the payload's claims. */
  datatype Unverified = Unverified(alg: SigningMethod, claims: Claims)

  /** The opaque library. `decode` splits and decodes a token string, or
      fails with an error text; `verify` checks the signature under a key
      together with the library's own validation of the registered claims
      (`exp`, `iat`, `nbf`) at a clock reading, giving an error text on
      failure; `sign` serialises claims and signs them. */
  datatype Library = Library(
    decode: string -> Result<Unverified, string>,
    verify: (string, string, int) -> Option<string>,
    sign: (SigningMethod, Claims, string) -> Result<string, string>)

  /** What a key function hands back to the library. */
  datatype KeyDecision =
    | Key(secret: string)
    | KeyError(text: string)
    | KeyPanic(message: string)

  /** The text of jwt.ErrSignatureInvalid, which both key functions return
      for a non-HMAC token; the library reports a key-function error with
      that error's own text. */
  const ErrSignatureInvalid := "signature is invalid"

  /** The result of `jwt.Parse`: a valid token's claims, an error text, or a
      panic raised inside the key function. In this version of the library
      a nil error and `token.Valid` coincide, so they are one case here. */
  datatype ParseOutcome =
    | Valid(claims: Claims)
    | Invalid(text: string)
    | Panicked(message: string)

  /** jwt.Parse(token, keyFunc) at clock reading `now`: decode; ask the key
      function for a key for the token's signing method; verify under that
      key at that moment. */
  function Parse(lib: Library, token: string, keyFor: SigningMethod -> KeyDecision, now: int): (r: ParseOutcome)
    ensures r.Valid? <==>
      && lib.decode(token).Ok?
      && keyFor(lib.decode(token).value.alg).Key?
      && lib.verify(token, keyFor(lib.decode(token).value.alg).secret, now) == None
    ensures r.Valid? ==> r.claims == lib.decode(token).value.claims
    ensures r.Panicked? <==> lib.decode(token).Ok? && keyFor(lib.decode(token).value.alg).KeyPanic?
  {
    match lib.decode(token)
    case Err(text) => Invalid(text)
    case Ok(u) =>
      match keyFor(u.alg)
      case KeyPanic(message) => Panicked(message)
      case KeyError(text) => Invalid(text)
      case Key(secret) =>
        match lib.verify(token, secret, now)
        case Some(text) => Invalid(text)
        case None => Valid(u.claims)
  }
}
