/**
 * The parts of JavaScript string semantics the validators depend on.
 *
 * A Dafny `char` is a Unicode scalar value, while a JavaScript string is a
 * sequence of UTF-16 code units. The `length` that zod's `min` compares is
 * the number of code units, so a character outside the Basic Multilingual
 * Plane counts twice.
 */
module JsString {

  /** Number of UTF-16 code units that encode `c`. */
  function CodeUnits(c: char): (n: nat)
    ensures n == 1 || n == 2
    ensures n == 2 <==> c as int > 0xFFFF
  {
    if c as int > 0xFFFF then 2 else 1
  }

  /** The value of `s.length` in JavaScript. */
  function Utf16Length(s: string): (n: nat)
    ensures |s| <= n <= 2 * |s|
  {
    if s == [] then 0 else CodeUnits(s[0]) + Utf16Length(s[1..])
  }

  /** True when every character of `s` lies in the Basic Multilingual Plane. */
  predicate AllBmp(s: string) {
    forall i :: 0 <= i < |s| ==> s[i] as int <= 0xFFFF
  }

  /** `length` agrees with the number of characters exactly for BMP-only strings. */
  lemma {:induction false} Utf16LengthIsSizeIffBmp(s: string)
    ensures Utf16Length(s) == |s| <==> AllBmp(s)
  {
    if s != [] {
      Utf16LengthIsSizeIffBmp(s[1..]);
      assert forall i :: 1 <= i < |s| ==> s[1..][i - 1] == s[i];
      if AllBmp(s) {
        assert AllBmp(s[1..]);
      }
    }
  }

  /** The line terminators of ECMAScript: LF, CR, LINE SEPARATOR, PARAGRAPH SEPARATOR. */
  predicate IsLineTerminator(c: char) {
    c == '\n' || c == '\r' || c == '\U{2028}' || c == '\U{2029}'
  }

  /** The regular-expression class `[A-Z]`. */
  predicate IsAsciiUpper(c: char) {
    'A' <= c <= 'Z'
  }

  /** The regular-expression class `\d` of a pattern without the `u` flag: `[0-9]`. */
  predicate IsAsciiDigit(c: char) {
    '0' <= c <= '9'
  }
}
