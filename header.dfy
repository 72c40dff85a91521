/** Reading the bearer credential from the `Authorization` header. Both
    gatekeepers open with the same two guard clauses and the same
    extraction, `TrimSpace(TrimSpace(TrimPrefix(header, "Bearer")))`.
    The extraction is not that of section 2.1 of RFC 6750: the scheme is
    matched case-sensitively, no space is needed after it, and a header
    without the scheme is taken whole as the token. */
module BearerHeader {
  import opened Values
  import opened Strings
  import opened Gin

  const Scheme := "Bearer"
  const MsgHeaderRequired := "Authorization header is required"
  const MsgHeaderFormat := "Invalid Authorization header format"

  /** The token string the gatekeepers work on. */
  function ExtractToken(header: string): (r: string)
    ensures r == [] || (!IsSpace(r[0]) && !IsSpace(r[|r| - 1]))
    ensures |r| <= |header|
  {
    TrimSpace(TrimSpace(TrimPrefix(header, Scheme)))
  }

  /** The first two guard clauses: a missing header, then a header that
      holds no token once the scheme and white space are removed. */
  function ReadCredential(header: string): (r: Result<string, Response>)
    ensures header == "" ==> r == Err(Failure(StatusUnauthorized, MsgHeaderRequired))
    ensures header != "" && ExtractToken(header) == "" ==>
              r == Err(Failure(StatusUnauthorized, MsgHeaderFormat))
    ensures r.Ok? <==> header != "" && ExtractToken(header) != ""
    ensures r.Ok? ==> r.value == ExtractToken(header)
  {
    if header == "" then Err(Failure(StatusUnauthorized, MsgHeaderRequired))
    else
      var token := ExtractToken(header);
      if token == "" then Err(Failure(StatusUnauthorized, MsgHeaderFormat))
      else Ok(token)
  }

  /** The scheme followed by any run of white space (none included) and a
      token with no white space at its ends extracts to exactly that token. */
  lemma ExtractAfterScheme(spaces: string, t: string)
    requires AllSpace(spaces)
    requires t != [] && !IsSpace(t[0]) && !IsSpace(t[|t| - 1])
    ensures ExtractToken(Scheme + spaces + t) == t
  {
    var rest := spaces + t;
    var h := Scheme + spaces + t;
    assert h == Scheme + rest;
    assert Scheme <= h;
    assert h[|Scheme|..] == rest;
    assert TrimPrefix(h, Scheme) == rest;
    TrimLeftSpacePrefix(spaces, t);
    TrimRightSpaceNoop(t);
    assert TrimSpace(rest) == t;
    TrimSpaceNoop(t);
  }

  /** The header the frontend builds, `Bearer ${token}`, round-trips. */
  lemma ExtractFromBearerHeader(t: string)
    requires t != [] && !IsSpace(t[0]) && !IsSpace(t[|t| - 1])
    ensures ExtractToken("Bearer " + t) == t
    ensures ReadCredential("Bearer " + t) == Ok(t)
  {
    assert AllSpace(" ") by {
      assert IsSpace(" "[0]);
    }
    assert Scheme + " " == "Bearer ";
    ExtractAfterScheme(" ", t);
  }

  /** A header that does not start with the exact, case-sensitive scheme is
      taken as the token itself, once trimmed. */
  lemma ExtractWithoutScheme(header: string)
    requires !(Scheme <= header)
    ensures ExtractToken(header) == TrimSpace(header)
  {
    assert TrimPrefix(header, Scheme) == header;
    TrimSpaceIdempotent(header);
  }

  /** A header that starts with the scheme is not all white space. */
  lemma SchemeIsNotSpace(header: string)
    requires Scheme <= header
    ensures !AllSpace(header)
  {
    assert header[0] == 'B';
  }

  /** No token is found exactly when the header is all white space, or is
      the scheme followed only by white space. */
  lemma ExtractEmptyIff(header: string)
    ensures ExtractToken(header) == [] <==>
              AllSpace(header) || (Scheme <= header && AllSpace(header[|Scheme|..]))
  {
    var p := TrimPrefix(header, Scheme);
    assert ExtractToken(header) == [] <==> AllSpace(p) by {
      TrimSpaceIdempotent(p);
      TrimSpaceEmptyIff(p);
    }
    if Scheme <= header {
      assert p == header[|Scheme|..];
      SchemeIsNotSpace(header);
    } else {
      assert p == header;
    }
  }

  /** Lower-case `bearer` is not the scheme: the whole header becomes the
      token, and it is not rejected as badly formatted. */
  lemma LowerCaseSchemeIsKept()
    ensures ExtractToken("bearer abc") == "bearer abc"
    ensures ReadCredential("bearer abc") == Ok("bearer abc")
  {
    var h := "bearer abc";
    assert h[0] == 'b';
    assert !(Scheme <= h);
    TrimSpaceNoop(h);
    TrimSpaceNoop(TrimSpace(h));
  }
}
