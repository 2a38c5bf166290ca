/**
 * The part of JavaScript's string semantics the validator relies on:
 * `String.prototype.trim`, which removes leading and trailing white space
 * and line terminators (sections 22.1.3.32 and 12.2-12.3 of ECMA-262).
 */
module JsText {

  /** ECMAScript WhiteSpace (TAB, VT, FF, SP, NBSP, ZWNBSP and every
      Unicode "Zs" character) and LineTerminator (LF, CR, LS, PS). */
  predicate IsJsWhitespace(c: char) {
    c == '\t' || c == '\n' || c == '\U{B}' || c == '\U{C}' || c == '\r'
    || c == ' ' || c == '\U{A0}' || c == '\U{1680}'
    || ('\U{2000}' <= c <= '\U{200A}')
    || c == '\U{2028}' || c == '\U{2029}' || c == '\U{202F}' || c == '\U{205F}'
    || c == '\U{3000}' || c == '\U{FEFF}'
  }

  /** Every character of `s` is white space (vacuously true of ""). */
  predicate AllWhitespace(s: string) {
    forall i :: 0 <= i < |s| ==> IsJsWhitespace(s[i])
  }

  /** The index of the first character at or after `from` that is not
      white space (`|s|` if there is none). */
  function SkipLeading(s: string, from: nat): (k: nat)
    requires from <= |s|
    ensures from <= k <= |s|
    ensures forall i :: from <= i < k ==> IsJsWhitespace(s[i])
    ensures k == |s| || !IsJsWhitespace(s[k])
    decreases |s| - from
  {
    if from < |s| && IsJsWhitespace(s[from]) then SkipLeading(s, from + 1) else from
  }

  /** The end of `s[lo..end]` once its trailing white space is dropped. */
  function SkipTrailing(s: string, lo: nat, end: nat): (k: nat)
    requires lo <= end <= |s|
    ensures lo <= k <= end
    ensures forall i :: k <= i < end ==> IsJsWhitespace(s[i])
    ensures k == lo || !IsJsWhitespace(s[k - 1])
    decreases end
  {
    if lo < end && IsJsWhitespace(s[end - 1]) then SkipTrailing(s, lo, end - 1) else end
  }

  /** `s.trim()`: drops white space on both sides, so the result neither
      starts nor ends with white space, and `s.trim().length === 0` holds
      exactly when `s` consists of white space only. */
  function Trim(s: string): (r: string)
    ensures |r| <= |s|
    ensures r == [] || (!IsJsWhitespace(r[0]) && !IsJsWhitespace(r[|r| - 1]))
    ensures |r| == 0 <==> AllWhitespace(s)
    ensures exists lo, hi :: 0 <= lo <= hi <= |s| && r == s[lo..hi]
              && AllWhitespace(s[..lo]) && AllWhitespace(s[hi..])
  {
    var lo := SkipLeading(s, 0);
    var hi := SkipTrailing(s, lo, |s|);
    assert lo < |s| ==> hi > lo && !AllWhitespace(s);
    assert AllWhitespace(s[..lo]) && AllWhitespace(s[hi..]);
    s[lo..hi]
  }
}
