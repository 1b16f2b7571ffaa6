/**
 * JavaScript's `Number(string)` conversion, restricted to decimal integers:
 * surrounding white space is trimmed, an empty (or all-blank) string is 0, an optional
 * sign may precede one or more decimal digits, and everything else is NaN.
 * The parsers in src/server/validation and the `Number(...) || default` idiom of the
 * routes are stated in terms of this function.
 */
module JsNumber {
  import opened Common

  /** The result of `Number(s)`: NaN, or an integral value. */
  datatype Number = NaN | Int(value: int)

  /** The white space `Number()` trims: ECMAScript WhiteSpace and LineTerminator characters. */
  predicate IsJsWhitespace(c: char) {
    c == ' ' || c == '\t' || c == '\n' || c == '\r' || c == '\U{000B}' || c == '\U{000C}'
    || c == '\U{00A0}' || c == '\U{1680}' || ('\U{2000}' <= c <= '\U{200A}')
    || c == '\U{2028}' || c == '\U{2029}' || c == '\U{202F}' || c == '\U{205F}'
    || c == '\U{3000}' || c == '\U{FEFF}'
  }

  function TrimStart(s: string): (r: string)
    ensures |r| <= |s| && r == s[|s| - |r|..]
    ensures r != [] ==> !IsJsWhitespace(r[0])
  {
    if s != [] && IsJsWhitespace(s[0]) then TrimStart(s[1..]) else s
  }

  function TrimEnd(s: string): (r: string)
    ensures |r| <= |s| && r == s[..|r|]
    ensures r != [] ==> !IsJsWhitespace(r[|r| - 1])
  {
    if s != [] && IsJsWhitespace(s[|s| - 1]) then TrimEnd(s[..|s| - 1]) else s
  }

  /** `String.prototype.trim`, as `Number()` applies it to its argument. */
  function Trim(s: string): string {
    TrimEnd(TrimStart(s))
  }

  function DigitValue(c: char): (d: nat)
    requires IsDigit(c)
    ensures d < 10
  {
    c as int - '0' as int
  }

  /** The value of a string of decimal digits, most significant digit first. */
  function DigitsValue(s: string): nat
    requires AllDigits(s)
  {
    if s == [] then 0 else 10 * DigitsValue(s[..|s| - 1]) + DigitValue(s[|s| - 1])
  }

  /**
   * `Number(s)` for a string `s`, restricted to decimal integer syntax: a blank string is 0,
   * a number is read from the trimmed text, which then ends in a digit.
   */
  function ToNumber(s: string): (n: Number)
    ensures Trim(s) == [] ==> n == Int(0)
    ensures n.Int? && Trim(s) != [] ==> IsDigit(Trim(s)[|Trim(s)| - 1])
    ensures n.NaN? ==> Trim(s) != [] && !AllDigits(Trim(s))
  {
    var t := Trim(s);
    if t == [] then Int(0)
    else if |t| > 1 && t[0] == '-' && AllDigits(t[1..]) then Int(0 - DigitsValue(t[1..]) as int)
    else if |t| > 1 && t[0] == '+' && AllDigits(t[1..]) then Int(DigitsValue(t[1..]))
    else if AllDigits(t) then Int(DigitsValue(t))
    else NaN
  }

  /** `Number(x)` for an optional string: `Number(undefined)` is NaN. */
  function ToNumberOpt(o: Option<string>): Number {
    match o
    case None => NaN
    case Some(s) => ToNumber(s)
  }

  /** Whether a number is falsy in JavaScript: NaN and 0. */
  predicate Falsy(n: Number) {
    n.NaN? || n == Int(0)
  }

  /**
   * `Number(x) || d`: a falsy number gives the default, any other its own value, so the
   * result is zero only when the default is.
   */
  function NumberOr(n: Number, d: int): (r: int)
    ensures Falsy(n) ==> r == d
    ensures !Falsy(n) ==> Int(r) == n
    ensures d != 0 ==> r != 0
  {
    if n.Int? && n.value != 0 then n.value else d
  }

  function DigitChar(d: nat): (c: char)
    requires d < 10
    ensures IsDigit(c) && DigitValue(c) == d
  {
    ('0' as int + d) as char
  }

  /** `String(n)` for a natural number: its decimal digits without leading zeros. */
  function NatToDecimal(n: nat): (s: string)
    ensures |s| >= 1 && AllDigits(s)
    ensures (s[0] == '0') <==> (n == 0)
    decreases n
  {
    if n < 10 then [DigitChar(n)] else NatToDecimal(n / 10) + [DigitChar(n % 10)]
  }

  /** `String(n)` for an integer. */
  function IntToDecimal(n: int): (s: string)
    ensures |s| >= 1
  {
    if n < 0 then "-" + NatToDecimal(-n) else NatToDecimal(n)
  }

  /** Reading back the digits that `NatToDecimal` writes gives the number. */
  lemma {:induction false} DecimalDigitsValue(n: nat)
    ensures DigitsValue(NatToDecimal(n)) == n
    decreases n
  {
    if n >= 10 {
      var s := NatToDecimal(n);
      assert s[..|s| - 1] == NatToDecimal(n / 10);
      DecimalDigitsValue(n / 10);
    }
  }

  /** A string without white space at either end is left alone by `Trim`. */
  lemma TrimUnpadded(s: string)
    requires s != [] && !IsJsWhitespace(s[0]) && !IsJsWhitespace(s[|s| - 1])
    ensures Trim(s) == s
  {
  }

  /** `Number(String(n)) == n` for every integer `n`. */
  lemma {:induction false} ToNumberOfDecimal(n: int)
    ensures ToNumber(IntToDecimal(n)) == Int(n)
  {
    var s := IntToDecimal(n);
    if n < 0 {
      var d := NatToDecimal(-n);
      assert s[1..] == d;
      TrimUnpadded(s);
      DecimalDigitsValue(-n);
    } else {
      TrimUnpadded(s);
      DecimalDigitsValue(n);
    }
  }

  /**
   * Under the decimal-integer reading of `Number` modelled here, a string holding a letter
   * anywhere in its trimmed part is NaN (for instance "abc" or "12a"). JavaScript's own
   * `Number` reads "1e3", "0x10" and "Infinity" as numbers; those forms are not modelled.
   */
  lemma {:induction false} LetterMakesNaN(s: string, i: nat)
    requires i < |Trim(s)| && (IsLower(Trim(s)[i]) || IsUpper(Trim(s)[i]))
    ensures ToNumber(s) == NaN
  {
    var t := Trim(s);
    if |t| > 1 && (t[0] == '-' || t[0] == '+') && i > 0 {
      assert t[1..][i - 1] == t[i];
    }
  }
}
