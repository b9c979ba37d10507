/**
 * JavaScript strings as the browser holds them: sequences of UTF-16 code
 * units. `length`, indexing, the character class `[0-9]` (and `\d` without
 * the `u` flag) and `String.prototype.trim` all work unit by unit, so
 * modelling a string as a sequence of code units makes them exact.
 */
module JsText {

  newtype CodeUnit = x: int | 0 <= x < 0x1_0000

  type JsString = seq<CodeUnit>

  /** A JavaScript string literal written with Dafny characters from the Basic Multilingual Plane. */
  function Lit(s: string): (r: JsString)
    requires forall i :: 0 <= i < |s| ==> s[i] as int < 0x1_0000
    ensures |r| == |s|
    ensures forall i :: 0 <= i < |s| ==> r[i] as int == s[i] as int
  {
    seq(|s|, i requires 0 <= i < |s| => s[i] as int as CodeUnit)
  }

  /** The regular-expression class `[0-9]`, which is also `\d` in a pattern without the `u` flag. */
  predicate IsDigit(c: CodeUnit) {
    '0' as CodeUnit <= c <= '9' as CodeUnit
  }

  predicate AllDigits(s: JsString) {
    forall i :: 0 <= i < |s| ==> IsDigit(s[i])
  }

  /**
   * The code points `String.prototype.trim` strips: the WhiteSpace and
   * LineTerminator productions of ECMA-262, with the Unicode 15 members of
   * category Zs. All of them lie in the Basic Multilingual Plane, so each is
   * one code unit and a surrogate is never whitespace.
   */
  predicate IsTrimSpace(c: CodeUnit) {
    || c == 0x0009 || c == 0x000A || c == 0x000B || c == 0x000C || c == 0x000D
    || c == 0x0020 || c == 0x00A0 || c == 0x1680
    || (0x2000 <= c <= 0x200A)
    || c == 0x2028 || c == 0x2029 || c == 0x202F || c == 0x205F
    || c == 0x3000 || c == 0xFEFF
  }

  predicate AllTrimSpace(s: JsString) {
    forall i :: 0 <= i < |s| ==> IsTrimSpace(s[i])
  }

  /** How many code units of whitespace open the string. */
  function LeadingSpace(s: JsString): (n: nat)
    ensures n <= |s|
    ensures forall i :: 0 <= i < n ==> IsTrimSpace(s[i])
    ensures n < |s| ==> !IsTrimSpace(s[n])
  {
    if s == [] || !IsTrimSpace(s[0]) then 0
    else
      var k := LeadingSpace(s[1..]);
      assert forall i :: 1 <= i < k + 1 ==> s[i] == s[1..][i - 1];
      k + 1
  }

  /** Where the string's trailing whitespace begins (its length if there is none). */
  function ContentEnd(s: JsString): (n: nat)
    ensures n <= |s|
    ensures forall i :: n <= i < |s| ==> IsTrimSpace(s[i])
    ensures n > 0 ==> !IsTrimSpace(s[n - 1])
  {
    if s == [] || !IsTrimSpace(s[|s| - 1]) then |s|
    else
      var k := ContentEnd(s[..|s| - 1]);
      assert forall i :: k <= i < |s| - 1 ==> s[i] == s[..|s| - 1][i];
      k
  }

  /** `s.trimStart()`. */
  function TrimStart(s: JsString): JsString {
    s[LeadingSpace(s)..]
  }

  /** `s.trimEnd()`. */
  function TrimEnd(s: JsString): JsString {
    s[..ContentEnd(s)]
  }

  /** `s.trim()`: the part left after the leading and then the trailing whitespace is dropped. */
  function Trim(s: JsString): (r: JsString)
    ensures |r| <= |s|
    ensures r != [] ==> !IsTrimSpace(r[0]) && !IsTrimSpace(r[|r| - 1])
    ensures r == [] <==> AllTrimSpace(s)
  {
    var t := TrimStart(s);
    var r := TrimEnd(t);
    assert r == [] ==> t == [] by {
      if t != [] {
        assert !IsTrimSpace(t[0]);
      }
    }
    r
  }

  /** The trimmed string is the slice of the input left between a run of leading and a run of trailing whitespace. */
  lemma {:induction false} TrimIsSlice(s: JsString)
    ensures var a, r := LeadingSpace(s), Trim(s);
      && a + |r| <= |s|
      && r == s[a..a + |r|]
      && (forall i :: 0 <= i < a ==> IsTrimSpace(s[i]))
      && (forall i :: a + |r| <= i < |s| ==> IsTrimSpace(s[i]))
  {
    var a := LeadingSpace(s);
    var t := s[a..];
    var e := ContentEnd(t);
    assert Trim(s) == t[..e] == s[a..a + e];
    forall i | a + e <= i < |s|
      ensures IsTrimSpace(s[i])
    {
      assert s[i] == t[i - a];
    }
  }

  /** A string without whitespace at either end is left alone by `trim`. */
  lemma TrimUntouched(s: JsString)
    requires s != [] ==> !IsTrimSpace(s[0]) && !IsTrimSpace(s[|s| - 1])
    ensures Trim(s) == s
  {
  }

  /** Trimming twice is trimming once. */
  lemma TrimIdempotent(s: JsString)
    ensures Trim(Trim(s)) == Trim(s)
  {
    TrimUntouched(Trim(s));
  }
}
