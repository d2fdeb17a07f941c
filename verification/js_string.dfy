/**
 The part of JavaScript's `String.prototype.trim` that the item list depends on:
 the add handler only asks whether the trimmed text is empty.
 Strings are sequences of Unicode scalar values; the set of characters trim
 removes is the WhiteSpace and LineTerminator code points of ECMA-262.
 */
module JsString {

  /** A code point that `trim` strips from either end of a string. */
  predicate IsWhitespace(c: char) {
    || c == '\t' || c == '\n' || c == '\U{000B}' || c == '\U{000C}' || c == '\r'
    || c == ' ' || c == '\U{00A0}' || c == '\U{1680}'
    || ('\U{2000}' <= c <= '\U{200A}')
    || c == '\U{2028}' || c == '\U{2029}' || c == '\U{202F}' || c == '\U{205F}'
    || c == '\U{3000}' || c == '\U{FEFF}'
  }

  /** Every character of `s` is whitespace (the empty string included). */
  predicate IsBlank(s: string) {
    forall i :: 0 <= i < |s| ==> IsWhitespace(s[i])
  }

  /** `s` without its leading whitespace: the longest suffix of `s` that does
      not start with a whitespace character. */
  function TrimStart(s: string): (r: string)
    ensures |r| <= |s| && r == s[|s| - |r|..]
    ensures IsBlank(s[..|s| - |r|])
    ensures r == [] || !IsWhitespace(r[0])
  {
    if |s| > 0 && IsWhitespace(s[0]) then
      var r := TrimStart(s[1..]);
      assert s[..|s| - |r|] == [s[0]] + s[1..][..|s| - 1 - |r|];
      r
    else
      s
  }

  /** `s` without its trailing whitespace: the longest prefix of `s` that does
      not end with a whitespace character. */
  function TrimEnd(s: string): (r: string)
    ensures |r| <= |s| && r == s[..|r|]
    ensures IsBlank(s[|r|..])
    ensures r == [] || !IsWhitespace(r[|r| - 1])
  {
    if |s| > 0 && IsWhitespace(s[|s| - 1]) then
      var r := TrimEnd(s[..|s| - 1]);
      assert s[|r|..] == s[..|s| - 1][|r|..] + [s[|s| - 1]];
      r
    else
      s
  }

  /** `r` is the slice of `s` starting at `k`, and everything of `s` before
      and after that slice is whitespace. */
  predicate IsBlankFramed(s: string, r: string, k: nat) {
    && k + |r| <= |s|
    && r == s[k..k + |r|]
    && IsBlank(s[..k])
    && IsBlank(s[k + |r|..])
  }

  /** `s.trim()`: a contiguous slice of `s`, cut out between two blank margins,
      that neither starts nor ends with whitespace. */
  function Trim(s: string): (r: string)
    ensures exists k: nat :: IsBlankFramed(s, r, k)
    ensures r == [] || (!IsWhitespace(r[0]) && !IsWhitespace(r[|r| - 1]))
  {
    var t := TrimStart(s);
    var k := |s| - |t|;
    var r := TrimEnd(t);
    assert s[k..k + |r|] == t[..|r|];
    assert s[k + |r|..] == t[|r|..];
    assert IsBlankFramed(s, r, k);
    r
  }

  /** The guard `!text.trim()`: trimming leaves nothing exactly when every
      character is whitespace. */
  lemma TrimEmptyIffBlank(s: string)
    ensures Trim(s) == [] <==> IsBlank(s)
  {
    if Trim(s) == [] {
      // A non-empty remainder of TrimStart would survive TrimEnd, so it is empty
      assert s[..|s|] == s;
    }
  }
}
