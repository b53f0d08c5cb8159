/**
 * `String.prototype.trim` as the submit guard uses it: strip the ECMAScript
 * WhiteSpace and LineTerminator code points from both ends of a string.
 */
module Text {

  /** ECMAScript WhiteSpace (TAB, VT, FF, ZWNBSP and the Unicode category Zs) and LineTerminator (LF, CR, LS, PS). */
  predicate IsWhiteSpace(c: char) {
    || c == '\t' || c == '\n' || c == '\U{000B}' || c == '\U{000C}' || c == '\r'
    || c == ' ' || c == '\U{00A0}' || c == '\U{1680}'
    || ('\U{2000}' <= c <= '\U{200A}')
    || c == '\U{2028}' || c == '\U{2029}' || c == '\U{202F}' || c == '\U{205F}'
    || c == '\U{3000}' || c == '\U{FEFF}'
  }

  predicate AllWhiteSpace(s: string) {
    forall i :: 0 <= i < |s| ==> IsWhiteSpace(s[i])
  }

  /** Drops the leading white space: what is left is a suffix of `s` that starts with a non-space. */
  function TrimStart(s: string): (r: string)
    ensures |r| <= |s| && r == s[|s| - |r|..]
    ensures AllWhiteSpace(s[..|s| - |r|])
    ensures r == [] || !IsWhiteSpace(r[0])
  {
    if |s| > 0 && IsWhiteSpace(s[0]) then
      var r := TrimStart(s[1..]);
      assert s[..|s| - |r|] == [s[0]] + s[1..][..|s| - 1 - |r|];
      r
    else s
  }

  /** Drops the trailing white space: what is left is a prefix of `s` that ends with a non-space. */
  function TrimEnd(s: string): (r: string)
    ensures |r| <= |s| && r == s[..|r|]
    ensures AllWhiteSpace(s[|r|..])
    ensures r == [] || !IsWhiteSpace(r[|r| - 1])
  {
    if |s| > 0 && IsWhiteSpace(s[|s| - 1]) then
      var r := TrimEnd(s[..|s| - 1]);
      assert s[|r|..] == s[..|s| - 1][|r|..] + [s[|s| - 1]];
      r
    else s
  }

  /** Both ends stripped; the result is blank exactly when the input is all white space. */
  function Trim(s: string): (r: string)
    ensures r == [] || (!IsWhiteSpace(r[0]) && !IsWhiteSpace(r[|r| - 1]))
    ensures r == [] <==> AllWhiteSpace(s)
  {
    var t := TrimStart(s);
    var r := TrimEnd(t);
    assert r == [] ==> AllWhiteSpace(s) by {
      assert r == [] ==> s[..|s| - |t|] == s;
    }
    assert AllWhiteSpace(s) ==> t == [] by {
      if t != [] {
        assert t[0] == s[|s| - |t|];
      }
    }
    r
  }

  /** Trimming the end of a suffix `s[a..]` keeps `s[a..a + k]` and drops only white space after it. */
  lemma TrimEndOfSuffix(s: string, a: nat)
    requires a <= |s|
    ensures a + |TrimEnd(s[a..])| <= |s|
    ensures TrimEnd(s[a..]) == s[a..a + |TrimEnd(s[a..])|]
    ensures AllWhiteSpace(s[a + |TrimEnd(s[a..])|..])
  {
    var t := s[a..];
    var r := TrimEnd(t);
    assert r == t[..|r|];
    assert s[a + |r|..] == t[|r|..];
  }

  /** `Trim` is `TrimEnd` applied to the suffix `TrimStart` keeps. */
  lemma TrimOfSuffix(s: string)
    ensures |TrimStart(s)| <= |s|
    ensures Trim(s) == TrimEnd(s[|s| - |TrimStart(s)|..])
  {
  }

  /** Trimming keeps one contiguous piece of the input and drops only white space around it. */
  lemma TrimIsInfix(s: string)
    ensures exists a, b :: 0 <= a <= b <= |s| && Trim(s) == s[a..b] && AllWhiteSpace(s[..a]) && AllWhiteSpace(s[b..])
  {
    var a := |s| - |TrimStart(s)|;
    TrimOfSuffix(s);
    TrimEndOfSuffix(s, a);
    var b := a + |TrimEnd(s[a..])|;
    assert 0 <= a <= b <= |s| && Trim(s) == s[a..b] && AllWhiteSpace(s[..a]) && AllWhiteSpace(s[b..]);
  }
}
