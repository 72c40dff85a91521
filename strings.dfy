/** The string functions of Go's `strings` package that the services use:
    TrimSpace, TrimPrefix and Contains. */
module Strings {

  /** The white space Go recognises below U+0100: tab, line feed, vertical
      tab, form feed, carriage return, space, NEL and no-break space. */
  const LatinSpaces := "\t\n\U{000B}\U{000C}\r \U{0085}\U{00A0}"

  /** Go's unicode.IsSpace: the Latin-1 spaces plus the other characters
      with the Unicode White_Space property. */
  predicate IsSpace(c: char)
    ensures c <= '\U{00FF}' ==> (IsSpace(c) <==> c in LatinSpaces)
    ensures IsSpace(c) ==> c <= '\U{00FF}' || c == '\U{1680}' || '\U{2000}' <= c <= '\U{3000}'
  {
    || c == '\t' || c == '\n' || c == '\U{000B}' || c == '\U{000C}' || c == '\r'
    || c == ' ' || c == '\U{0085}' || c == '\U{00A0}'
    || c == '\U{1680}' || ('\U{2000}' <= c <= '\U{200A}')
    || c == '\U{2028}' || c == '\U{2029}' || c == '\U{202F}' || c == '\U{205F}'
    || c == '\U{3000}'
  }

  predicate AllSpace(s: string)
  {
    forall i :: 0 <= i < |s| ==> IsSpace(s[i])
  }

  /** Drops the leading white space: the result is the suffix of `s` that
      starts at its first non-space character. */
  function TrimLeftSpace(s: string): (r: string)
    ensures |r| <= |s| && r == s[|s| - |r|..]
    ensures AllSpace(s[..|s| - |r|])
    ensures r == [] || !IsSpace(r[0])
  {
    if s != [] && IsSpace(s[0]) then TrimLeftSpace(s[1..]) else s
  }

  /** Drops the trailing white space: the result is the prefix of `s` that
      ends at its last non-space character. */
  function TrimRightSpace(s: string): (r: string)
    ensures |r| <= |s| && r == s[..|r|]
    ensures AllSpace(s[|r|..])
    ensures r == [] || !IsSpace(r[|r| - 1])
  {
    if s != [] && IsSpace(s[|s| - 1]) then
      var init := s[..|s| - 1];
      var r := TrimRightSpace(init);
      assert init[..|r|] == s[..|r|];
      assert s[|r|..] == init[|r|..] + [s[|s| - 1]];
      r
    else s
  }

  /** A prefix of a suffix of `s` is a slice of `s`, and what the prefix
      leaves of the suffix is what follows the slice in `s`. */
  lemma PrefixOfSuffix<T>(s: seq<T>, l: seq<T>, r: seq<T>)
    requires |l| <= |s| && l == s[|s| - |l|..]
    requires |r| <= |l| && r == l[..|r|]
    ensures r == s[|s| - |l|..|s| - |l| + |r|]
    ensures l[|r|..] == s[|s| - |l| + |r|..]
  {
  }

  /** strings.TrimSpace: the slice of `s` left once the white space at
      both ends is removed; it neither starts nor ends with a space. */
  function TrimSpace(s: string): (r: string)
    ensures |r| <= |s|
    ensures r == [] || (!IsSpace(r[0]) && !IsSpace(r[|r| - 1]))
    ensures exists i, j :: 0 <= i <= j <= |s| && r == s[i..j] && AllSpace(s[..i]) && AllSpace(s[j..])
  {
    var l := TrimLeftSpace(s);
    var r := TrimRightSpace(l);
    PrefixOfSuffix(s, l, r);
    assert r != [] ==> r[0] == l[0];
    r
  }

  /** strings.TrimPrefix: `s` without the leading `prefix` when it has one,
      otherwise `s` unchanged. */
  function TrimPrefix(s: string, prefix: string): (r: string)
    ensures prefix <= s ==> prefix + r == s
    ensures !(prefix <= s) ==> r == s
  {
    if prefix <= s then s[|prefix|..] else s
  }

  /** strings.Contains: `sub` occurs somewhere in `s`. */
  predicate Contains(s: string, sub: string)
    ensures sub <= s ==> Contains(s, sub)
    ensures Contains(s, sub) ==> |sub| <= |s|
  {
    assert s[0..] == s;
    exists i :: 0 <= i <= |s| && sub <= s[i..]
  }

  lemma TrimLeftSpaceNoop(s: string)
    requires s == [] || !IsSpace(s[0])
    ensures TrimLeftSpace(s) == s
  {
  }

  lemma TrimRightSpaceNoop(s: string)
    requires s == [] || !IsSpace(s[|s| - 1])
    ensures TrimRightSpace(s) == s
  {
  }

  /** A string that neither starts nor ends with white space is its own
      TrimSpace. */
  lemma TrimSpaceNoop(s: string)
    requires s == [] || (!IsSpace(s[0]) && !IsSpace(s[|s| - 1]))
    ensures TrimSpace(s) == s
  {
    TrimLeftSpaceNoop(s);
    TrimRightSpaceNoop(s);
  }

  /** Trimming twice is trimming once. */
  lemma TrimSpaceIdempotent(s: string)
    ensures TrimSpace(TrimSpace(s)) == TrimSpace(s)
  {
    TrimSpaceNoop(TrimSpace(s));
  }

  /** Leading spaces in front of a string that TrimLeftSpace keeps are
      all dropped. */
  lemma {:induction false} TrimLeftSpacePrefix(spaces: string, s: string)
    requires AllSpace(spaces)
    requires s == [] || !IsSpace(s[0])
    ensures TrimLeftSpace(spaces + s) == s
  {
    if spaces == [] {
      assert spaces + s == s;
    } else {
      assert (spaces + s)[1..] == spaces[1..] + s;
      TrimLeftSpacePrefix(spaces[1..], s);
    }
  }

  /** TrimSpace gives the empty string exactly when every character is
      white space. */
  lemma TrimSpaceEmptyIff(s: string)
    ensures TrimSpace(s) == [] <==> AllSpace(s)
  {
    if !AllSpace(s) {
      assert s[..|s|] == s;
    }
  }
}
