/**
 * JavaScript's two string-to-number conversions, over exact reals:
 * `Number(s)` accepts a whole trimmed StrDecimalLiteral (section 7.1.4.1 of ECMA-262) and
 * `parseFloat(s)` takes the longest StrDecimalLiteral prefix after leading whitespace.
 */
module JsNumber {
  import opened Wrappers
  import opened Js

  predicate IsDigit(c: char) {
    '0' <= c <= '9'
  }

  /** Length of the run of decimal digits that starts at `i`. */
  function DigitRun(s: string, i: nat): (n: nat)
    requires i <= |s|
    ensures i + n <= |s|
    ensures forall k :: i <= k < i + n ==> IsDigit(s[k])
    ensures i + n == |s| || !IsDigit(s[i + n])
    decreases |s| - i
  {
    if i < |s| && IsDigit(s[i]) then 1 + DigitRun(s, i + 1) else 0
  }

  /** The value of a string of decimal digits. */
  function DigitsValue(d: string): nat
    requires forall k :: 0 <= k < |d| ==> IsDigit(d[k])
  {
    if d == [] then 0
    else
      assert IsDigit(d[|d| - 1]);
      10 * DigitsValue(d[..|d| - 1]) + (d[|d| - 1] as int - '0' as int)
  }

  function Pow10(n: nat): (r: real)
    ensures r >= 1.0
  {
    if n == 0 then 1.0 else 10.0 * Pow10(n - 1)
  }

  /** A recognised literal: how many characters it spans and what it denotes. */
  datatype Scan = Scan(length: nat, value: Number)

  /** An ExponentPart starting at `i`, as (length, exponent). */
  function ScanExponent(t: string, i: nat): (r: Option<(nat, int)>)
    requires i <= |t|
    ensures r.Some? ==> 2 <= r.value.0 && i + r.value.0 <= |t|
  {
    if i < |t| && (t[i] == 'e' || t[i] == 'E') then
      var signLen := if i + 1 < |t| && (t[i + 1] == '+' || t[i + 1] == '-') then 1 else 0;
      var n := DigitRun(t, i + 1 + signLen);
      if n == 0 then None
      else
        var magnitude: int := DigitsValue(t[i + 1 + signLen..i + 1 + signLen + n]);
        var exponent: int := if signLen == 1 && t[i + 1] == '-' then -magnitude else magnitude;
        Some((1 + signLen + n, exponent))
    else None
  }

  /** The digits of a DecimalDigits '.' DecimalDigits? | '.' DecimalDigits | DecimalDigits at `i`. */
  datatype Mantissa = Mantissa(end: nat, value: real)

  function ScanMantissa(t: string, i: nat): (r: Option<Mantissa>)
    requires i <= |t|
    ensures r.Some? ==> i < r.value.end <= |t|
  {
    var intLen := DigitRun(t, i);
    var afterInt := i + intLen;
    var hasDot := afterInt < |t| && t[afterInt] == '.';
    var fracLen := if hasDot then DigitRun(t, afterInt + 1) else 0;
    if intLen == 0 && fracLen == 0 then None
    else
      var whole := DigitsValue(t[i..afterInt]) as real;
      if hasDot then
        Some(Mantissa(afterInt + 1 + fracLen, whole + DigitsValue(t[afterInt + 1..afterInt + 1 + fracLen]) as real / Pow10(fracLen)))
      else
        Some(Mantissa(afterInt, whole))
  }

  /** `m` times ten to the power `e`. */
  function Scale(m: real, e: int): real {
    if e >= 0 then m * Pow10(e) else m / Pow10(-e)
  }

  /** The longest prefix of `t` that is a StrDecimalLiteral, with its value. */
  function ScanDecimal(t: string): (r: Option<Scan>)
    ensures r.Some? ==> 0 < r.value.length <= |t|
  {
    var signLen := if |t| > 0 && (t[0] == '+' || t[0] == '-') then 1 else 0;
    var negative := signLen == 1 && t[0] == '-';
    if StartsWith(t[signLen..], "Infinity") then
      Some(Scan(signLen + 8, if negative then NegInf else PosInf))
    else
      match ScanMantissa(t, signLen)
      case None => None
      case Some(m) =>
        var exponent := ScanExponent(t, m.end).GetOr((0, 0));
        var magnitude := Scale(m.value, exponent.1);
        Some(Scan(m.end + exponent.0, Finite(if negative then -magnitude else magnitude)))
  }

  /** `Number(s)` for a string (hexadecimal, octal and binary literals are not recognised). */
  function ToNumber(s: string): (r: Number)
    ensures Trim(s) == "" ==> r == Finite(0.0)
  {
    var t := Trim(s);
    if t == "" then Finite(0.0)
    else match ScanDecimal(t)
      case Some(sc) => if sc.length == |t| then sc.value else NaN
      case None => NaN
  }

  /** `parseFloat(s)`. */
  function ParseFloat(s: string): (r: Number)
  {
    match ScanDecimal(TrimStart(s))
    case Some(sc) => sc.value
    case None => NaN
  }

  /** Text that starts with none of a sign, a digit, '.' or the 'I' of Infinity holds no literal prefix. */
  lemma {:induction false} ScanStopsAtNonNumeral(t: string)
    requires t != [] && !IsDigit(t[0]) && t[0] != '.' && t[0] != '+' && t[0] != '-' && t[0] != 'I'
    ensures ScanDecimal(t).None?
  {
    assert DigitRun(t, 0) == 0;
  }

  /** "Infinity", optionally signed, scans to the infinity of that sign. */
  lemma {:induction false} ScanInfinity(t: string)
    requires StartsWith(t, "Infinity") || (t != [] && (t[0] == '+' || t[0] == '-') && StartsWith(t[1..], "Infinity"))
    ensures ScanDecimal(t).Some?
    ensures ScanDecimal(t).value.value == (if t[0] == '-' then NegInf else PosInf)
  {
  }

  /** The characters a cleaned numeric cell may still hold. */
  predicate IsNumeralChar(c: char) {
    IsDigit(c) || c == '.' || c == '+' || c == '-'
  }

  /** Without letters there is no "Infinity": `Number` of such a text is finite or NaN. */
  lemma {:induction false} NumeralTextIsNeverInfinite(s: string)
    requires forall k :: 0 <= k < |s| ==> IsNumeralChar(s[k])
    ensures ToNumber(s) != PosInf && ToNumber(s) != NegInf
  {
    assert TrimStart(s) == s by {
      assert s != [] ==> !IsSpace(s[0]) by { if s != [] { assert IsNumeralChar(s[0]); } }
    }
    assert TrimEnd(s) == s by {
      assert s != [] ==> !IsSpace(s[|s| - 1]) by { if s != [] { assert IsNumeralChar(s[|s| - 1]); } }
    }
    if s != [] {
      var signLen := if s[0] == '+' || s[0] == '-' then 1 else 0;
      assert !StartsWith(s[signLen..], "Infinity") by {
        assert signLen < |s| ==> IsNumeralChar(s[signLen]);
      }
    }
  }

  /** A plain run of digits means what it says, for both conversions. */
  lemma {:induction false} DigitsConvert(d: string)
    requires d != [] && forall k :: 0 <= k < |d| ==> IsDigit(d[k])
    ensures ToNumber(d) == Finite(DigitsValue(d) as real)
    ensures ParseFloat(d) == Finite(DigitsValue(d) as real)
  {
    DigitsToNumber(d);
    DigitsParseFloat(d);
  }

  lemma {:induction false} DigitsToNumber(d: string)
    requires d != [] && forall k :: 0 <= k < |d| ==> IsDigit(d[k])
    ensures ToNumber(d) == Finite(DigitsValue(d) as real)
  {
    assert !IsSpace(d[0]) && !IsSpace(d[|d| - 1]);
    assert TrimStart(d) == d;
    assert TrimEnd(d) == d;
    assert !StartsWith(d, "Infinity") by { assert d[0] != 'I'; }
    assert d[0..] == d;
    assert DigitRun(d, 0) == |d| by { DigitRunToEnd(d, 0); }
    assert d[0..|d|] == d;
  }

  lemma {:induction false} DigitsParseFloat(d: string)
    requires d != [] && forall k :: 0 <= k < |d| ==> IsDigit(d[k])
    ensures ParseFloat(d) == Finite(DigitsValue(d) as real)
  {
    assert !IsSpace(d[0]);
    assert TrimStart(d) == d;
    assert !StartsWith(d, "Infinity") by { assert d[0] != 'I'; }
    assert d[0..] == d;
    assert DigitRun(d, 0) == |d| by { DigitRunToEnd(d, 0); }
    assert d[0..|d|] == d;
  }

  lemma {:induction false} DigitRunToEnd(d: string, i: nat)
    requires i <= |d| && forall k :: 0 <= k < |d| ==> IsDigit(d[k])
    ensures DigitRun(d, i) == |d| - i
    decreases |d| - i
  {
    if i < |d| {
      DigitRunToEnd(d, i + 1);
    }
  }

  /** `String(n)` for a non-negative integer: its decimal digits, without leading zeros. */
  function NatText(n: nat): (r: string)
    ensures r != [] && forall k :: 0 <= k < |r| ==> IsDigit(r[k])
  {
    var last := [('0' as int + n % 10) as char];
    if n < 10 then last else NatText(n / 10) + last
  }

  /** `String(i)` for an integer. */
  function IntText(i: int): string {
    if i < 0 then "-" + NatText(-i) else NatText(i)
  }

  /** A minus sign and digits for a negative integer, digits alone otherwise; they read back as the integer. */
  lemma {:induction false} IntTextValue(i: int)
    ensures var t := IntText(i);
      && (i < 0 ==> |t| > 1 && t[0] == '-' && (forall k :: 1 <= k < |t| ==> IsDigit(t[k])) && DigitsValue(t[1..]) == -i)
      && (i >= 0 ==> (forall k :: 0 <= k < |t| ==> IsDigit(t[k])) && DigitsValue(t) == i)
  {
    if i < 0 {
      NatTextValue(-i);
      assert IntText(i)[1..] == NatText(-i);
    } else {
      NatTextValue(i);
    }
  }

  /** The decimal text reads back as the number it was written from. */
  lemma {:induction false} NatTextValue(n: nat)
    ensures DigitsValue(NatText(n)) == n
  {
    var r := NatText(n);
    if n >= 10 {
      NatTextValue(n / 10);
      assert r[..|r| - 1] == NatText(n / 10);
    }
  }

  /** `Math.round(x)`: the nearest integer, halves rounded up. */
  function Round(x: real): (r: int)
    ensures x - 0.5 < r as real <= x + 0.5
  {
    (x + 0.5).Floor
  }

  /** `Math.ceil(x)`: the least integer not below `x`. */
  function Ceil(x: real): (r: int)
    ensures x <= r as real < x + 1.0
  {
    -((-x).Floor)
  }
}
