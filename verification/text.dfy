/** The JavaScript string primitives the core relies on: `trim()` and
    upper-casing. */
module Text {

  /** ECMAScript WhiteSpace and LineTerminator code points: what `trim()`
      strips from both ends of a string. */
  predicate IsJsWhitespace(c: char)
  {
    c == '\t' || c == '\n' || c == '\U{000B}' || c == '\U{000C}' || c == '\r' ||
    c == ' ' || c == '\U{00A0}' || c == '\U{1680}' || ('\U{2000}' <= c <= '\U{200A}') ||
    c == '\U{2028}' || c == '\U{2029}' || c == '\U{202F}' || c == '\U{205F}' ||
    c == '\U{3000}' || c == '\U{FEFF}'
  }

  predicate AllWhitespace(s: string)
  {
    forall i :: 0 <= i < |s| ==> IsJsWhitespace(s[i])
  }

  /** Drops the leading whitespace: the result is a suffix of `s` that is
      empty or starts with a non-whitespace character. */
  function TrimStart(s: string): (r: string)
    ensures |r| <= |s| && r == s[|s| - |r|..]
    ensures r == [] || !IsJsWhitespace(r[0])
    ensures AllWhitespace(s[..|s| - |r|])
  {
    if s == [] then []
    else if IsJsWhitespace(s[0]) then
      var t := TrimStart(s[1..]);
      assert s[1..][..|s| - 1 - |t|] == s[1..|s| - |t|];
      t
    else s
  }

  /** Drops the trailing whitespace: the result is a prefix of `s` that is
      empty or ends with a non-whitespace character. */
  function TrimEnd(s: string): (r: string)
    ensures r <= s
    ensures r == [] || !IsJsWhitespace(r[|r| - 1])
    ensures AllWhitespace(s[|r|..])
  {
    if s == [] then []
    else if IsJsWhitespace(s[|s| - 1]) then
      var t := TrimEnd(s[..|s| - 1]);
      assert s[|t|..] == s[..|s| - 1][|t|..] + [s[|s| - 1]];
      t
    else s
  }

  /** Cutting the trailing whitespace off the suffix `t` of `s` leaves the
      slice of `s` that starts where `t` does, followed in `s` only by
      whitespace. */
  lemma TrimIsSlice(s: string, t: string, r: string)
    requires |t| <= |s| && t == s[|s| - |t|..]
    requires r <= t && AllWhitespace(t[|r|..])
    ensures r == s[|s| - |t|..|s| - |t| + |r|]
    ensures AllWhitespace(s[|s| - |t| + |r|..])
  {
    assert s[|s| - |t| + |r|..] == t[|r|..];
  }

  /** `s.trim()`: the piece `s[i..j]` left once the whitespace before `i`
      and after `j` is cut off; it neither starts nor ends with whitespace. */
  function Trim(s: string): (r: string)
    ensures |r| <= |s|
    ensures r != [] ==> !IsJsWhitespace(r[0]) && !IsJsWhitespace(r[|r| - 1])
    ensures exists i, j ::
              0 <= i <= j <= |s| && r == s[i..j] && AllWhitespace(s[..i]) && AllWhitespace(s[j..])
  {
    var t := TrimStart(s);
    var i := |s| - |t|;
    TrimIsSlice(s, t, TrimEnd(t));
    assert AllWhitespace(s[..i]);
    TrimEnd(t)
  }

  /** `!s.trim()` holds exactly when every character of `s` is whitespace
      (in particular for the empty string). */
  lemma TrimEmptyIffBlank(s: string)
    ensures Trim(s) == [] <==> AllWhitespace(s)
  {
    var t := TrimStart(s);
    var k := |s| - |t|;
    if Trim(s) == [] {
      assert t[0..] == t;
      assert t == [];
      assert s == s[..k];
    } else {
      var u := Trim(s);
      assert u <= t && u != [];
      assert !IsJsWhitespace(s[k]);
    }
  }

  /** Upper-case mapping of `toUpperCase()` and of the `/i` regex flag,
      for ASCII letters and the single-character Latin-1 letters
      (à..þ except ÷); every other character maps to itself. */
  function Upper(c: char): char
  {
    if 'a' <= c <= 'z' then (c as int - 32) as char
    else if '\U{00E0}' <= c <= '\U{00FE}' && c != '\U{00F7}' then (c as int - 32) as char
    else c
  }

  /** Each lower-case letter maps to the upper-case letter at the same
      place in its alphabet, `a`..`z` to `A`..`Z` and `à`..`þ` to `À`..`Þ`;
      every other character is left as it is. */
  lemma UpperCases(c: char)
    ensures 'a' <= c <= 'z' ==>
      'A' <= Upper(c) <= 'Z' && Upper(c) as int - 'A' as int == c as int - 'a' as int
    ensures '\U{00E0}' <= c <= '\U{00FE}' && c != '\U{00F7}' ==>
      '\U{00C0}' <= Upper(c) <= '\U{00DE}' && Upper(c) as int - '\U{00C0}' as int == c as int - '\U{00E0}' as int
    ensures !('a' <= c <= 'z') && !('\U{00E0}' <= c <= '\U{00FE}' && c != '\U{00F7}') ==> Upper(c) == c
  {
  }

  /** `s.toUpperCase()`, character by character. */
  function UpperString(s: string): (r: string)
    ensures |r| == |s|
    ensures forall i :: 0 <= i < |s| ==> r[i] == Upper(s[i])
  {
    if s == [] then [] else [Upper(s[0])] + UpperString(s[1..])
  }

  /** Equality of two characters under the `/i` flag. */
  predicate SameIgnoringCase(a: char, b: char)
  {
    Upper(a) == Upper(b)
  }
}
