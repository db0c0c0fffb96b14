/** The PHP string semantics the query behaviour relies on: `is_numeric` and the `(int)` cast. */
module PhpString {
  /** The characters PHP skips around a numeric string. */
  predicate IsWhitespace(c: char) {
    c == ' ' || c == '\t' || c == '\n' || c == '\r' || c == '\U{0B}' || c == '\U{0C}'
  }

  predicate IsDigit(c: char) {
    '0' <= c <= '9'
  }

  /** Where a scan for PHP's numeric-string grammar has got to. */
  datatype NumericState = Leading | Signed | Digits | Exponent | ExponentSigned | ExponentDigits | Trailing

  /** Whether the rest `s` of a string, scanned from state `st`, completes a numeric string. */
  predicate NumericFrom(s: string, st: NumericState) {
    if s == [] then st == Digits || st == ExponentDigits || st == Trailing
    else
      var c, rest := s[0], s[1..];
      match st
      case Leading =>
        if IsWhitespace(c) then NumericFrom(rest, Leading)
        else if c == '+' || c == '-' then NumericFrom(rest, Signed)
        else IsDigit(c) && NumericFrom(rest, Digits)
      case Signed => IsDigit(c) && NumericFrom(rest, Digits)
      case Digits =>
        if IsDigit(c) then NumericFrom(rest, Digits)
        else if c == 'e' || c == 'E' then NumericFrom(rest, Exponent)
        else IsWhitespace(c) && NumericFrom(rest, Trailing)
      case Exponent =>
        if c == '+' || c == '-' then NumericFrom(rest, ExponentSigned)
        else IsDigit(c) && NumericFrom(rest, ExponentDigits)
      case ExponentSigned => IsDigit(c) && NumericFrom(rest, ExponentDigits)
      case ExponentDigits =>
        if IsDigit(c) then NumericFrom(rest, ExponentDigits)
        else IsWhitespace(c) && NumericFrom(rest, Trailing)
      case Trailing => IsWhitespace(c) && NumericFrom(rest, Trailing)
  }

  /**
   * PHP's `is_numeric` on a string without a decimal point: optional leading
   * whitespace, an optional sign, digits, an optional exponent and optional
   * trailing whitespace. The forms with a decimal point are not needed: the
   * one caller also accepts every string that contains '.'.
   */
  predicate IsNumeric(s: string) {
    NumericFrom(s, Leading)
  }

  /** The run of digits `s` starts with. */
  function LeadingDigits(s: string): (d: string)
    ensures |d| <= |s| && d == s[..|d|]
    ensures forall i :: 0 <= i < |d| ==> IsDigit(d[i])
  {
    if |s| > 0 && IsDigit(s[0]) then [s[0]] + LeadingDigits(s[1..]) else []
  }

  /** The decimal value of a string of digits. */
  function DigitsValue(d: string): nat
    requires forall i :: 0 <= i < |d| ==> IsDigit(d[i])
  {
    if d == [] then 0
    else
      var n := |d| - 1;
      assert IsDigit(d[n]);
      10 * DigitsValue(d[..n]) + (d[n] as int - '0' as int)
  }

  /**
   * `(int) $s`: leading whitespace is skipped, then an optional sign and the
   * longest run of digits give the value; a string that does not start that
   * way gives 0.
   */
  function ToInt(s: string): int {
    if |s| > 0 && IsWhitespace(s[0]) then ToInt(s[1..])
    else if |s| > 0 && s[0] == '-' then -(DigitsValue(LeadingDigits(s[1..])) as int)
    else if |s| > 0 && s[0] == '+' then DigitsValue(LeadingDigits(s[1..]))
    else DigitsValue(LeadingDigits(s))
  }

  /** A string of digits has a non-zero value exactly when one of its digits is not '0'. */
  lemma {:induction false} DigitsValueZero(d: string)
    requires forall i :: 0 <= i < |d| ==> IsDigit(d[i])
    ensures DigitsValue(d) == 0 <==> forall i :: 0 <= i < |d| ==> d[i] == '0'
  {
    if d != [] {
      var n := |d| - 1;
      DigitsValueZero(d[..n]);
      assert forall i :: 0 <= i < n ==> d[..n][i] == d[i];
    }
  }

  /** A string made of digits alone is read whole by the cast. */
  lemma {:induction false} LeadingDigitsOfDigits(s: string)
    requires forall i :: 0 <= i < |s| ==> IsDigit(s[i])
    ensures LeadingDigits(s) == s
  {
    if s != [] {
      LeadingDigitsOfDigits(s[1..]);
    }
  }
}
