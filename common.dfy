/** Small value types shared by every module of the model. */
module Common {

  /** An optional value: an absent JSON key, a nullable column, an unset session field. */
  datatype Option<T> = None | Some(value: T) {
    function GetOr(default: T): T {
      match this
      case Some(v) => v
      case None => default
    }
  }

  /** The character classes that the password and phone regular expressions use. */
  datatype CharClass = Lower | Upper | Digit | Special

  /** The special characters of the password rule, `[!@#$%^&*(),.?":{}|<>]`. */
  const SpecialChars: string := "!@#$%^&*(),.?\":{}|<>"

  predicate IsLower(c: char) { 'a' <= c <= 'z' }
  predicate IsUpper(c: char) { 'A' <= c <= 'Z' }
  /** JavaScript's `\d` without the `u` flag: the ASCII digits only. */
  predicate IsDigit(c: char) { '0' <= c <= '9' }
  predicate IsSpecial(c: char) { c in SpecialChars }

  predicate InClass(c: char, k: CharClass) {
    match k
    case Lower => IsLower(c)
    case Upper => IsUpper(c)
    case Digit => IsDigit(c)
    case Special => IsSpecial(c)
  }

  /** Some character of `s` belongs to class `k`. */
  predicate HasClass(s: string, k: CharClass) {
    exists i | 0 <= i < |s| :: InClass(s[i], k)
  }

  predicate AllDigits(s: string) {
    forall i | 0 <= i < |s| :: IsDigit(s[i])
  }

  /** The UTF-16 code units of one character: two (a surrogate pair) above U+FFFF, one below. */
  function Utf16Units(c: char): (n: nat)
    ensures 1 <= n <= 2
    ensures n == 1 <==> c as int < 0x1_0000
  {
    if c as int < 0x1_0000 then 1 else 2
  }

  /** JavaScript's `s.length`: the number of UTF-16 code units of `s`. */
  function Utf16Length(s: string): (n: nat)
    ensures |s| <= n <= 2 * |s|
  {
    if s == [] then 0 else Utf16Length(s[..|s| - 1]) + Utf16Units(s[|s| - 1])
  }

  predicate InBmp(s: string) {
    forall i | 0 <= i < |s| :: s[i] as int < 0x1_0000
  }

  /** Without characters above U+FFFF, `.length` counts characters. */
  lemma {:induction false} BmpLength(s: string)
    requires InBmp(s)
    ensures Utf16Length(s) == |s|
  {
    if s != [] {
      BmpLength(s[..|s| - 1]);
    }
  }

  /** Each character above U+FFFF counts twice in `.length`. */
  lemma {:induction false} AstralLength(s: string)
    requires forall i | 0 <= i < |s| :: s[i] as int >= 0x1_0000
    ensures Utf16Length(s) == 2 * |s|
  {
    if s != [] {
      AstralLength(s[..|s| - 1]);
    }
  }

  /** zod's `.min(lo).max(hi)` on a string, which tests its `.length` in UTF-16 code units. */
  predicate LengthIn(s: string, lo: nat, hi: nat) {
    lo <= Utf16Length(s) <= hi
  }

  /** 51 characters outside the Basic Multilingual Plane are 102 code units: over a `max(100)`. */
  lemma AstralOverMax()
    ensures !LengthIn(seq(51, _ => '\U{1F600}'), 1, 100)
  {
    AstralLength(seq(51, _ => '\U{1F600}'));
  }

  /** An optional string field with `.min(lo).max(hi).optional()`. */
  predicate OptLengthIn(o: Option<string>, lo: nat, hi: nat) {
    o.None? || LengthIn(o.value, lo, hi)
  }

  /** JavaScript truthiness of an optional number: `undefined` and `0` are falsy. */
  predicate TruthyInt(o: Option<int>) {
    o.Some? && o.value != 0
  }

  /** JavaScript truthiness of an optional string: `undefined` and `""` are falsy. */
  predicate TruthyString(o: Option<string>) {
    o.Some? && o.value != ""
  }
}
