/** `String.prototype.trim`, as far as the validator needs it. */
module Text {

  /** The characters `trim` strips: the WhiteSpace and LineTerminator
      productions of ECMAScript (sections 12.2 and 12.3 of ECMA-262), with the
      Unicode space separators listed out. */
  predicate IsWs(c: char)
  {
    || c == '\t' || c == '\n' || c == '\U{000B}' || c == '\U{000C}' || c == '\r'
    || c == ' ' || c == '\U{00A0}' || c == '\U{1680}'
    || ('\U{2000}' <= c <= '\U{200A}')
    || c == '\U{2028}' || c == '\U{2029}' || c == '\U{202F}' || c == '\U{205F}'
    || c == '\U{3000}' || c == '\U{FEFF}'
  }

  /** Every character of `s` is whitespace; the empty string qualifies. */
  ghost predicate AllWs(s: string)
  {
    forall i :: 0 <= i < |s| ==> IsWs(s[i])
  }

  /** Drops leading whitespace. */
  function TrimStart(s: string): string
    decreases |s|
  {
    if s != [] && IsWs(s[0]) then TrimStart(s[1..]) else s
  }

  /** Drops trailing whitespace. */
  function TrimEnd(s: string): string
    decreases |s|
  {
    if s != [] && IsWs(s[|s| - 1]) then TrimEnd(s[..|s| - 1]) else s
  }

  /** `s.trim()`. */
  function Trim(s: string): string
  {
    TrimEnd(TrimStart(s))
  }

  /** `TrimStart` keeps a suffix of its input that does not start with
      whitespace, and everything it cut off was whitespace. */
  lemma {:induction false} TrimStartIsSuffix(s: string)
    ensures |TrimStart(s)| <= |s|
    ensures TrimStart(s) == s[|s| - |TrimStart(s)|..]
    ensures AllWs(s[..|s| - |TrimStart(s)|])
    ensures TrimStart(s) != [] ==> !IsWs(TrimStart(s)[0])
    decreases |s|
  {
    if s != [] && IsWs(s[0]) {
      TrimStartIsSuffix(s[1..]);
      var r := TrimStart(s[1..]);
      assert TrimStart(s) == r;
      assert s[1..][|s| - 1 - |r|..] == s[|s| - |r|..];
      assert s[..|s| - |r|] == [s[0]] + s[1..][..|s| - 1 - |r|];
    } else {
      assert s[..0] == [];
    }
  }

  /** `TrimEnd` keeps a prefix of its input that does not end with
      whitespace, and everything it cut off was whitespace. */
  lemma {:induction false} TrimEndIsPrefix(s: string)
    ensures |TrimEnd(s)| <= |s|
    ensures TrimEnd(s) == s[..|TrimEnd(s)|]
    ensures AllWs(s[|TrimEnd(s)|..])
    ensures TrimEnd(s) != [] ==> !IsWs(TrimEnd(s)[|TrimEnd(s)| - 1])
    decreases |s|
  {
    if s != [] && IsWs(s[|s| - 1]) {
      TrimEndIsPrefix(s[..|s| - 1]);
      var r := TrimEnd(s[..|s| - 1]);
      assert TrimEnd(s) == r;
      assert s[..|s| - 1][..|r|] == s[..|r|];
      assert s[|r|..] == s[..|s| - 1][|r|..] + [s[|s| - 1]];
    } else {
      assert s[|s|..] == [];
    }
  }

  /** Neither end of a trimmed string is whitespace. */
  lemma TrimEnds(s: string)
    ensures Trim(s) != [] ==> !IsWs(Trim(s)[0]) && !IsWs(Trim(s)[|Trim(s)| - 1])
  {
    var t := TrimStart(s);
    TrimStartIsSuffix(s);
    TrimEndIsPrefix(t);
  }

  /** Whitespace-only strings concatenate to a whitespace-only string. */
  lemma AllWsConcat(a: string, b: string)
    requires AllWs(a) && AllWs(b)
    ensures AllWs(a + b)
  {
  }

  /** A field is blank for the validator (its trimmed value is the empty,
      falsy string) exactly when all of its characters are whitespace. */
  lemma TrimEmptyIffAllWs(s: string)
    ensures Trim(s) == [] <==> AllWs(s)
  {
    var t := TrimStart(s);
    var k := |s| - |t|;
    TrimStartIsSuffix(s);
    TrimEndIsPrefix(t);
    if Trim(s) == [] {
      assert t[0..] == t;
      assert s == s[..k] + t;
      AllWsConcat(s[..k], t);
    }
  }
}
