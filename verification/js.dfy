/**
 * Small pieces of JavaScript semantics shared by every module of the model:
 * optional values (`null` / `undefined`), the truthiness of strings, decimal
 * formatting of integers (template literals) and `parseInt` on the strings a
 * numeric `<input>` produces.
 */
module Js {

  /** A value that may be `null` or `undefined`. */
  datatype Option<+T> = None | Some(value: T) {

    /** The `??` operator: the value if present, otherwise the default. */
    function GetOr(default: T): T {
      match this
      case Some(v) => v
      case None => default
    }
  }

  function Max(a: int, b: int): int {
    if a >= b then a else b
  }

  function Min(a: int, b: int): int {
    if a <= b then a else b
  }

  /** An optional string is truthy when present and non-empty. */
  predicate Truthy(s: Option<string>) {
    s.Some? && s.value != ""
  }

  /** The `||` operator on an optional string with a string fallback. */
  function OrElse(s: Option<string>, fallback: string): (r: string)
    ensures Truthy(s) ==> r == s.value
    ensures !Truthy(s) ==> r == fallback
  {
    if Truthy(s) then s.value else fallback
  }

  /** The character class `[0-9]` (`\d` without the unicode flag). */
  predicate IsDigit(c: char) {
    '0' <= c <= '9'
  }

  predicate AllDigits(s: string) {
    forall i :: 0 <= i < |s| ==> IsDigit(s[i])
  }

  predicate StartsWith(s: string, prefix: string) {
    |prefix| <= |s| && s[..|prefix|] == prefix
  }

  /** `String.prototype.includes`. */
  predicate Contains(s: string, part: string) {
    StartsWith(s, part) || (|s| > 0 && Contains(s[1..], part))
  }

  function DigitChar(d: nat): (c: char)
    requires d < 10
    ensures IsDigit(c)
  {
    (48 + d) as char
  }

  function DigitValue(c: char): (d: nat)
    requires IsDigit(c)
    ensures d < 10
  {
    c as int - 48
  }

  /** Decimal rendering of a natural number, as in `${n}`. */
  function NatToDecimal(n: nat): (s: string)
    ensures |s| > 0 && AllDigits(s)
  {
    if n < 10 then [DigitChar(n)] else NatToDecimal(n / 10) + [DigitChar(n % 10)]
  }

  /** Decimal rendering of an integer, as in `${i}`. */
  function IntToDecimal(i: int): (s: string)
    ensures |s| > 0
  {
    if i < 0 then "-" + NatToDecimal(-i) else NatToDecimal(i)
  }

  /** The value of a string of decimal digits. */
  function DecimalValue(ds: string): nat
    requires AllDigits(ds)
  {
    if |ds| == 0 then 0 else DecimalValue(ds[..|ds| - 1]) * 10 + DigitValue(ds[|ds| - 1])
  }

  /** The longest prefix of `s` made of digits. */
  function DigitPrefix(s: string): (p: string)
    ensures AllDigits(p)
    ensures |p| <= |s| && p == s[..|p|]
    ensures |p| < |s| ==> !IsDigit(s[|p|])
  {
    if |s| > 0 && IsDigit(s[0]) then [s[0]] + DigitPrefix(s[1..]) else ""
  }

  /**
   * `parseInt(s)` on the strings a numeric `<input>` yields: an optional sign,
   * then the longest run of digits; `None` stands for `NaN` (no digits).
   */
  function ParseInt(s: string): (r: Option<int>)
    ensures s == "" ==> r.None?
    ensures |s| > 0 && IsDigit(s[0]) ==> r.Some? && r.value >= 0
    ensures r.Some? && r.value < 0 ==> s[0] == '-'
    ensures |s| > 0 && (s[0] == '-' || s[0] == '+') && (|s| == 1 || !IsDigit(s[1])) ==> r.None?
  {
    var negative := |s| > 0 && s[0] == '-';
    var body := if |s| > 0 && (s[0] == '-' || s[0] == '+') then s[1..] else s;
    var ds := DigitPrefix(body);
    if |ds| == 0 then None
    else
      var magnitude: int := DecimalValue(ds);
      Some(if negative then -magnitude else magnitude)
  }

  lemma {:induction false} DecimalOfNat(n: nat)
    ensures DecimalValue(NatToDecimal(n)) == n
  {
    if n >= 10 {
      DecimalOfNat(n / 10);
      var s := NatToDecimal(n / 10) + [DigitChar(n % 10)];
      assert s[..|s| - 1] == NatToDecimal(n / 10);
    }
  }

  lemma DigitPrefixOfDigits(s: string)
    requires AllDigits(s)
    ensures DigitPrefix(s) == s
  {
  }

  /** Formatting an integer and parsing it back gives the integer. */
  lemma ParseIntOfDecimal(i: int)
    ensures ParseInt(IntToDecimal(i)) == Some(i)
  {
    var m: nat := if i < 0 then -i else i;
    var digits := NatToDecimal(m);
    DigitPrefixOfDigits(digits);
    DecimalOfNat(m);
    var s := IntToDecimal(i);
    if i < 0 {
      assert s == "-" + digits;
      assert s[0] == '-' && s[1..] == digits;
    } else {
      assert s == digits;
      assert IsDigit(s[0]);
    }
  }
}
