/**
 * The Kotlin string operations the chat screen relies on, stated over
 * `string` (a sequence of Unicode scalar values).
 */
module ChatText {

  /**
   * Kotlin's `Char.isWhitespace()` on the JVM: Java whitespace (tab, line
   * feed, vertical tab, form feed, carriage return, the four information
   * separators U+001C..U+001F and the breaking space separators) or a Unicode
   * space, line or paragraph separator (which adds the no-break spaces).
   */
  predicate IsWhitespace(c: char) {
    ('\t' <= c <= '\r') || ('\U{1C}' <= c <= '\U{1F}') || c == ' ' ||
    c == '\U{A0}' || c == '\U{1680}' || ('\U{2000}' <= c <= '\U{200A}') ||
    c == '\U{2028}' || c == '\U{2029}' || c == '\U{202F}' || c == '\U{205F}' ||
    c == '\U{3000}'
  }

  /** Kotlin's `isBlank()`: empty, or whitespace only. */
  predicate IsBlank(s: string) {
    forall i :: 0 <= i < |s| ==> IsWhitespace(s[i])
  }

  /** Kotlin's `startsWith(prefix)`. */
  predicate StartsWith(s: string, prefix: string) {
    prefix <= s
  }

  /** Kotlin's `removePrefix(prefix)`: drops the prefix when it is there. */
  function RemovePrefix(s: string, prefix: string): (r: string)
    ensures StartsWith(s, prefix) ==> prefix + r == s
    ensures !StartsWith(s, prefix) ==> r == s
  {
    if StartsWith(s, prefix) then s[|prefix|..] else s
  }

  predicate IsLowerAsciiLetter(c: char) {
    'a' <= c <= 'z'
  }

  /** A pattern made only of lower-case ASCII letters, as the image extensions are. */
  predicate IsLowerAsciiWord(w: string) {
    forall i :: 0 <= i < |w| ==> IsLowerAsciiLetter(w[i])
  }

  function UpperAscii(c: char): (u: char)
    requires IsLowerAsciiLetter(c)
    ensures 'A' <= u <= 'Z' && u != c
  {
    (c as int - 32) as char
  }

  /**
   * The characters that the JVM's case-insensitive region match (used by
   * Kotlin's `endsWith(…, ignoreCase = true)`) takes as equal to the
   * lower-case ASCII letter `l`: the letter itself, its upper case, and the
   * few non-ASCII characters whose case mapping lands on it (dotted and
   * dotless i, the Kelvin sign, the long s).
   */
  predicate MatchesIgnoringCase(c: char, l: char)
    requires IsLowerAsciiLetter(l)
  {
    c == l || c == UpperAscii(l) ||
    (l == 'i' && (c == '\U{130}' || c == '\U{131}')) ||
    (l == 'k' && c == '\U{212A}') ||
    (l == 's' && c == '\U{17F}')
  }

  /** Kotlin's `s.endsWith(suffix, ignoreCase = true)` for a lower-case ASCII suffix. */
  predicate EndsWithIgnoringCase(s: string, suffix: string)
    requires IsLowerAsciiWord(suffix)
  {
    |suffix| <= |s| &&
    forall i :: 0 <= i < |suffix| ==> MatchesIgnoringCase(s[|s| - |suffix| + i], suffix[i])
  }

  /**
   * `list.any { s.endsWith(it, ignoreCase = true) }`, checked front to back
   * as Kotlin's `any` does.
   */
  function EndsWithAnyIgnoringCase(s: string, suffixes: seq<string>): (r: bool)
    requires forall k :: 0 <= k < |suffixes| ==> IsLowerAsciiWord(suffixes[k])
    ensures r <==> exists k :: 0 <= k < |suffixes| && EndsWithIgnoringCase(s, suffixes[k])
  {
    if suffixes == [] then false
    else if EndsWithIgnoringCase(s, suffixes[0]) then true
    else
      var rest := EndsWithAnyIgnoringCase(s, suffixes[1..]);
      assert forall k :: 1 <= k < |suffixes| ==> suffixes[k] == suffixes[1..][k - 1];
      rest
  }

  predicate IsDigit(c: char) {
    '0' <= c <= '9'
  }

  function DigitChar(d: nat): (c: char)
    requires d < 10
    ensures IsDigit(c)
  {
    ('0' as int + d) as char
  }

  /** Kotlin's rendering of a non-negative `Int` in a string template. */
  function Decimal(n: nat): (r: string)
    ensures |r| >= 1
    ensures forall i :: 0 <= i < |r| ==> IsDigit(r[i])
    ensures |r| > 1 ==> r[0] != '0'
  {
    if n < 10 then [DigitChar(n)] else Decimal(n / 10) + [DigitChar(n % 10)]
  }

  function DigitValue(c: char): (d: nat)
    requires IsDigit(c)
    ensures d < 10
  {
    c as int - '0' as int
  }

  /** The number a string of decimal digits denotes. */
  function DigitsValue(s: string): nat
    requires forall i :: 0 <= i < |s| ==> IsDigit(s[i])
  {
    if s == [] then 0
    else DigitsValue(s[..|s| - 1]) * 10 + DigitValue(s[|s| - 1])
  }

  /** Reading the rendered digits back gives the number: the rendering loses nothing. */
  lemma {:induction false} DecimalRoundTrip(n: nat)
    ensures DigitsValue(Decimal(n)) == n
  {
    if n >= 10 {
      var r := Decimal(n);
      assert r[..|r| - 1] == Decimal(n / 10);
      DecimalRoundTrip(n / 10);
    }
  }
}
