/**
 * The PIN field's input filter in the standalone RSVP form:
 * `value.replace(/[^0-9]/g, '').slice(0, 4)`.
 */
module PinInput {
  import opened JsText
  import opened Form

  /** `s.replace(/[^0-9]/g, '')`: the digit subsequence of `s`. */
  function KeepDigits(s: JsString): (r: JsString)
    ensures AllDigits(r)
    ensures |r| <= |s|
    ensures AllDigits(s) ==> r == s
    ensures (forall i :: 0 <= i < |s| ==> !IsDigit(s[i])) ==> r == []
  {
    if s == [] then []
    else if IsDigit(s[0]) then [s[0]] + KeepDigits(s[1..])
    else KeepDigits(s[1..])
  }

  /** Filtering distributes over concatenation, so it can be computed piece by piece as the user types. */
  lemma {:induction false} KeepDigitsAppend(a: JsString, b: JsString)
    ensures KeepDigits(a + b) == KeepDigits(a) + KeepDigits(b)
  {
    if a == [] {
      assert a + b == b;
    } else {
      assert (a + b)[1..] == a[1..] + b;
      KeepDigitsAppend(a[1..], b);
    }
  }

  /** The filtered value keeps every digit of the input and in the same order: each digit is kept exactly once. */
  lemma {:induction false} KeepDigitsCountsDigits(s: JsString, c: CodeUnit)
    requires IsDigit(c)
    ensures multiset(KeepDigits(s))[c] == multiset(s)[c]
  {
    if s != [] {
      assert s == [s[0]] + s[1..];
      KeepDigitsCountsDigits(s[1..], c);
    }
  }

  /** `KeepDigits(v).slice(0, 4)`: the filtered PIN the form stores. */
  function Sanitize(v: JsString): (r: JsString)
    ensures AllDigits(r)
    ensures |r| <= PinLength
    ensures |r| == if |KeepDigits(v)| < PinLength then |KeepDigits(v)| else PinLength
    ensures r <= KeepDigits(v)
  {
    var d := KeepDigits(v);
    if |d| <= PinLength then d else d[..PinLength]
  }

  /** Filtering an already filtered PIN changes nothing. */
  lemma SanitizeIdempotent(v: JsString)
    ensures Sanitize(Sanitize(v)) == Sanitize(v)
  {
  }

  /** A value that is already at most four digits passes through the filter unchanged. */
  lemma SanitizeKeepsShortDigits(v: JsString)
    requires AllDigits(v) && |v| <= PinLength
    ensures Sanitize(v) == v
  {
  }

  /** Typing more text never changes the digits already accepted: the old PIN is a prefix of the new one. */
  lemma {:induction false} SanitizeMonotone(a: JsString, b: JsString)
    ensures Sanitize(a) <= Sanitize(a + b)
  {
    KeepDigitsAppend(a, b);
  }
}
