/**
 * Decimal text of integers as PHP produces and reads it: the string form of an
 * int in a concatenation, the `(int)` cast of a string (`absint`), and
 * `number_format($minor / 100, 2, '.', '')` for an amount in minor units.
 */
module Decimal {
  import opened Wrappers

  predicate IsDigit(c: char) {
    '0' <= c <= '9'
  }

  predicate IsDigits(s: string) {
    forall i :: 0 <= i < |s| ==> IsDigit(s[i])
  }

  function DigitChar(d: nat): (c: char)
    requires d < 10
    ensures IsDigit(c)
  {
    (48 + d) as char
  }

  function DigitValue(c: char): (d: nat)
    requires IsDigit(c)
    ensures d < 10 && DigitChar(d) == c
  {
    c as int - 48
  }

  /** The value of a string of decimal digits (leading zeros allowed, '' is 0). */
  function Value(s: string): nat
    requires IsDigits(s)
  {
    if s == [] then 0 else Value(s[..|s| - 1]) * 10 + DigitValue(s[|s| - 1])
  }

  /** PHP's string form of a non-negative int: digits, no sign, no leading zero. */
  function Dec(n: nat): (s: string)
    ensures 1 <= |s| && IsDigits(s)
    ensures |s| > 1 ==> s[0] != '0'
  {
    if n < 10 then [DigitChar(n)] else Dec(n / 10) + [DigitChar(n % 10)]
  }

  /** Reading back the string form of a number gives the number. */
  lemma {:induction false} ValueOfDec(n: nat)
    ensures Value(Dec(n)) == n
  {
    if n >= 10 {
      var s := Dec(n);
      assert s[..|s| - 1] == Dec(n / 10);
      ValueOfDec(n / 10);
    }
  }

  /** Distinct numbers have distinct string forms. */
  lemma DecInjective(a: nat, b: nat)
    requires Dec(a) == Dec(b)
    ensures a == b
  {
    ValueOfDec(a);
    ValueOfDec(b);
  }

  /** PHP's string form of any int: a '-' in front of negative values. */
  function IntDec(i: int): (s: string)
    ensures 1 <= |s|
    ensures i >= 0 ==> s == Dec(i)
    ensures i < 0 ==> s[0] == '-' && s[1..] == Dec(-i)
  {
    if i < 0 then "-" + Dec(-i) else Dec(i)
  }

  /** The whitespace PHP skips in front of a numeric string: " \t\n\r\v\f". */
  predicate IsNumericSpace(c: char) {
    c == ' ' || c == '\t' || c == '\n' || c == '\r' || c == '\U{000B}' || c == '\U{000C}'
  }

  function LeadingSpace(s: string): (k: nat)
    ensures k <= |s|
    ensures forall i :: 0 <= i < k ==> IsNumericSpace(s[i])
    ensures k < |s| ==> !IsNumericSpace(s[k])
  {
    if s == [] || !IsNumericSpace(s[0]) then 0 else 1 + LeadingSpace(s[1..])
  }

  /**
   * Below this many minor units the double-precision quotient `amount / 100`
   * is within 0.001 of the exact one, so two-decimal formatting is exact.
   */
  const ExactMinorLimit: nat := 1_000_000_000_000_000

  /** The longest prefix of `s` made of digits. */
  function DigitPrefix(s: string): (r: string)
    ensures r <= s && IsDigits(r)
    ensures |r| < |s| ==> !IsDigit(s[|r|])
  {
    if s == [] || !IsDigit(s[0]) then [] else [s[0]] + DigitPrefix(s[1..])
  }

  /** Digits followed by something that is not a digit: the digits are the digit prefix. */
  lemma {:induction false} DigitPrefixOfDigits(a: string, b: string)
    requires IsDigits(a)
    requires b == [] || !IsDigit(b[0])
    ensures DigitPrefix(a + b) == a
  {
    if a != [] {
      assert (a + b)[1..] == a[1..] + b;
      DigitPrefixOfDigits(a[1..], b);
    }
  }

  function Pow10(k: nat): (r: nat)
    ensures r >= 1
  {
    if k == 0 then 1 else 10 * Pow10(k - 1)
  }

  /** Appending digits shifts the value left by their number. */
  lemma {:induction false} ValueOfAppend(a: string, f: string)
    requires IsDigits(a) && IsDigits(f)
    ensures IsDigits(a + f) && Value(a + f) == Value(a) * Pow10(|f|) + Value(f)
  {
    assert IsDigits(a + f) by {
      assert forall i :: 0 <= i < |a + f| ==> (a + f)[i] == if i < |a| then a[i] else f[i - |a|];
    }
    if f != [] {
      var g := f[..|f| - 1];
      var d := DigitValue(f[|f| - 1]);
      assert Value(a + f) == Value(a + g) * 10 + d by {
        assert (a + f)[..|a + f| - 1] == a + g;
        assert (a + f)[|a + f| - 1] == f[|f| - 1];
      }
      ValueOfAppend(a, g);
      ShiftDigit(Value(a), Pow10(|g|), Value(g), d);
    } else {
      assert a + f == a;
    }
  }

  lemma ShiftDigit(x: nat, y: nat, z: nat, d: nat)
    ensures (x * y + z) * 10 + d == x * (y * 10) + (z * 10 + d)
  {
  }

  /**
   * What the model takes from the PHP runtime: whether it is PHP 8 or later,
   * `number_format($amount / 100, 2, '.', '')` for the posted amounts the
   * model does not compute itself, and the `(int)` cast of the numeric
   * strings whose conversion through a double the model does not compute.
   */
  datatype Runtime = Runtime(php8: bool, floatNet: string -> string, floatToInt: string -> int)

  /** The range of a 64-bit PHP int. */
  const PhpIntMin: int := -0x8000_0000_0000_0000
  const PhpIntMax: int := 0x7FFF_FFFF_FFFF_FFFF
  /** 2^53: every integer below it is a double. */
  const ExactDoubleLimit: nat := 0x20_0000_0000_0000
  /**
   * 10^15: a number whose digits, read without the point, are worth less
   * than this is read into a double closer to it than to any other multiple
   * of its last decimal place, so truncation cannot cross an integer.
   */
  const ExactMantissaLimit: nat := 1_000_000_000_000_000

  /**
   * The number a string begins with, as PHP reads it: a sign, integer
   * digits, an optional '.' with fraction digits, and an optional exponent
   * ('e' or 'E', an optional sign, at least one digit).
   */
  datatype NumericPrefix = NumericPrefix(negative: bool, intDigits: string, point: bool, fracDigits: string, exponent: Option<int>)

  /** The exponent at the front of `a`, if `a` starts with one. */
  function ExponentOf(a: string): Option<int> {
    if |a| > 0 && (a[0] == 'e' || a[0] == 'E') then
      var v := a[1..];
      var w := if |v| > 0 && (v[0] == '+' || v[0] == '-') then v[1..] else v;
      var d := DigitPrefix(w);
      if d == [] then None
      else if |v| > 0 && v[0] == '-' then Some(0 - Value(d))
      else Some(Value(d) as int)
    else None
  }

  /** The fraction and exponent that follow the integer digits `ip`. */
  function AfterDigits(negative: bool, ip: string, a: string): (n: NumericPrefix)
    requires IsDigits(ip)
    ensures IsDigits(n.intDigits) && IsDigits(n.fracDigits) && IsDigits(n.intDigits + n.fracDigits)
  {
    var point := |a| > 0 && a[0] == '.';
    var fp := if point then DigitPrefix(a[1..]) else [];
    var b := if point then a[1 + |fp|..] else a;
    assert forall i :: 0 <= i < |ip + fp| ==> (ip + fp)[i] == if i < |ip| then ip[i] else fp[i - |ip|];
    NumericPrefix(negative, ip, point, fp, ExponentOf(b))
  }

  /** The number at the front of `u`, after the sign. */
  function UnsignedNumber(negative: bool, u: string): (n: NumericPrefix)
    ensures IsDigits(n.intDigits) && IsDigits(n.fracDigits) && IsDigits(n.intDigits + n.fracDigits)
  {
    var ip := DigitPrefix(u);
    AfterDigits(negative, ip, u[|ip|..])
  }

  /** The parts of the number at the front of `s`, after leading whitespace. */
  function LeadingNumber(s: string): (n: NumericPrefix)
    ensures IsDigits(n.intDigits) && IsDigits(n.fracDigits) && IsDigits(n.intDigits + n.fracDigits)
  {
    var t := s[LeadingSpace(s)..];
    var u := if |t| > 0 && (t[0] == '+' || t[0] == '-') then t[1..] else t;
    UnsignedNumber(|t| > 0 && t[0] == '-', u)
  }

  /** A string that starts with digits has no whitespace or sign to skip. */
  lemma LeadingNumberOfDigits(d: string, rest: string)
    requires d != [] && IsDigits(d)
    requires rest == [] || !IsDigit(rest[0])
    ensures LeadingNumber(d + rest) == AfterDigits(false, d, rest)
  {
    var s := d + rest;
    assert IsDigit(s[0]);
    assert LeadingSpace(s) == 0;
    assert s[0..] == s;
    DigitPrefixOfDigits(d, rest);
    assert s[|d|..] == rest;
  }

  /**
   * PHP's test for a string that begins with a number: a digit before or
   * after the point. PHP 8 refuses arithmetic on any other string; PHP 7
   * reads it as 0.
   */
  predicate HasLeadingNumber(s: string) {
    var n := LeadingNumber(s);
    n.intDigits != [] || n.fracDigits != []
  }

  /** All the significant digits of the number, without the point. */
  function Mantissa(n: NumericPrefix): nat
    requires IsDigits(n.intDigits + n.fracDigits)
  {
    Value(n.intDigits + n.fracDigits)
  }

  /** The magnitude of the number, truncated toward zero. */
  function TruncatedMagnitude(n: NumericPrefix): nat
    requires IsDigits(n.intDigits + n.fracDigits)
  {
    var e := if n.exponent.Some? then n.exponent.value else 0;
    var k := |n.fracDigits|;
    var m := Mantissa(n);
    if e >= k then m * Pow10(e - k) else m / Pow10(k - e)
  }

  /**
   * The int PHP makes of a parsed number. No digits give 0. Integer digits
   * within the 64-bit range are read exactly. A fraction or an exponent goes
   * through a double and is truncated toward zero. The model computes that
   * exactly when the mantissa has at most 15 digits and the magnitude is
   * below 2^53; every other conversion is `viaDouble`.
   */
  function NumberToInt(n: NumericPrefix, viaDouble: int): int
    requires IsDigits(n.intDigits + n.fracDigits)
  {
    if n.intDigits + n.fracDigits == [] then 0
    else if !n.point && n.exponent.None? then
      var i := if n.negative then 0 - Mantissa(n) else Mantissa(n);
      if PhpIntMin <= i <= PhpIntMax then i else viaDouble
    else
      var m := TruncatedMagnitude(n);
      if Mantissa(n) < ExactMantissaLimit && m < ExactDoubleLimit then
        if n.negative then 0 - m else m
      else viaDouble
  }

  /** PHP's `(int)` cast of a string (also `intval` and `%d`). */
  function CastToInt(s: string, rt: Runtime): int {
    NumberToInt(LeadingNumber(s), rt.floatToInt(s))
  }

  /** WordPress `absint`: the absolute value of the `(int)` cast. */
  function AbsInt(s: string, rt: Runtime): nat {
    var i := CastToInt(s, rt);
    if i < 0 then -i else i
  }

  /**
   * A non-empty digit string begins with a number; the empty string and a
   * string that starts with a letter do not.
   */
  lemma LeadingNumberCases(s: string)
    ensures s != [] && IsDigits(s) ==> HasLeadingNumber(s)
    ensures s == [] ==> !HasLeadingNumber(s)
    ensures s != [] && ('a' <= s[0] <= 'z' || 'A' <= s[0] <= 'Z') ==> !HasLeadingNumber(s)
  {
    if s != [] && (IsDigits(s) || 'a' <= s[0] <= 'z' || 'A' <= s[0] <= 'Z') {
      assert !IsNumericSpace(s[0]);
      assert LeadingSpace(s) == 0;
      assert s[0..] == s;
      if IsDigits(s) {
        assert IsDigit(s[0]);
      }
    }
  }

  /**
   * An id written in decimal, followed by anything that cannot continue a
   * number, reads back through `(int)` and `absint` as the same id.
   */
  lemma CastOfDecimalPrefix(n: nat, rest: string, rt: Runtime)
    requires n <= PhpIntMax
    requires rest == [] || !(IsDigit(rest[0]) || rest[0] == '.' || rest[0] == 'e' || rest[0] == 'E')
    ensures CastToInt(Dec(n) + rest, rt) == n && AbsInt(Dec(n) + rest, rt) == n
  {
    var num := NumericPrefix(false, Dec(n), false, [], None);
    assert LeadingNumber(Dec(n) + rest) == num by {
      LeadingNumberOfDigits(Dec(n), rest);
    }
    assert Mantissa(num) == n by {
      assert Dec(n) + [] == Dec(n);
      ValueOfDec(n);
    }
  }

  /** An id written out in decimal reads back as the same id through `absint`. */
  lemma AbsIntOfDec(n: nat, rt: Runtime)
    requires n <= PhpIntMax
    ensures CastToInt(Dec(n), rt) == n && AbsInt(Dec(n), rt) == n
  {
    CastOfDecimalPrefix(n, [], rt);
    assert Dec(n) + [] == Dec(n);
  }

  /** Exponent notation `<m>e<k>` is read as m * 10^k, not as its leading digits. */
  lemma CastOfExponent(m: nat, k: nat, rt: Runtime)
    requires m < ExactMantissaLimit && m * Pow10(k) < ExactDoubleLimit
    ensures CastToInt(Dec(m) + "e" + Dec(k), rt) == m * Pow10(k)
  {
    var s := Dec(m) + "e" + Dec(k);
    var num := NumericPrefix(false, Dec(m), false, [], Some(k));
    assert LeadingNumber(s) == num by {
      LeadingNumberOfExponent(m, k);
    }
    assert Mantissa(num) == m by {
      assert Dec(m) + [] == Dec(m);
      ValueOfDec(m);
    }
    MagnitudeOfExponent(num, k);
  }

  /** Without a fraction, the exponent scales the mantissa exactly. */
  lemma MagnitudeOfExponent(n: NumericPrefix, k: nat)
    requires IsDigits(n.intDigits + n.fracDigits)
    requires n.fracDigits == [] && n.exponent == Some(k)
    ensures TruncatedMagnitude(n) == Mantissa(n) * Pow10(k)
  {
  }

  lemma LeadingNumberOfExponent(m: nat, k: nat)
    ensures LeadingNumber(Dec(m) + "e" + Dec(k)) == NumericPrefix(false, Dec(m), false, [], Some(k))
  {
    var rest := "e" + Dec(k);
    assert Dec(m) + "e" + Dec(k) == Dec(m) + rest;
    LeadingNumberOfDigits(Dec(m), rest);
    ExponentOfDec(k);
  }

  /** An exponent written out in decimal. */
  lemma ExponentOfDec(k: nat)
    ensures ExponentOf("e" + Dec(k)) == Some(k)
  {
    var rest := "e" + Dec(k);
    assert rest[1..] == Dec(k);
    assert IsDigit(Dec(k)[0]);
    DigitPrefixOfDigits(Dec(k), []);
    assert Dec(k) + [] == Dec(k);
    ValueOfDec(k);
  }

  /** A decimal fraction is truncated toward zero: `<a>.<f>` reads as the integer part a. */
  lemma CastOfFraction(a: nat, f: string, rt: Runtime)
    requires f != [] && IsDigits(f)
    requires a * Pow10(|f|) + Value(f) < ExactMantissaLimit
    ensures CastToInt(Dec(a) + "." + f, rt) == a
  {
    var s := Dec(a) + "." + f;
    var num := NumericPrefix(false, Dec(a), true, f, None);
    assert LeadingNumber(s) == num by {
      LeadingNumberOfFraction(a, f);
    }
    FractionTruncated(a, f);
  }

  /** The integer part of `<a>.<f>` survives the division by 10^|f|, within the exact range. */
  lemma FractionTruncated(a: nat, f: string)
    requires f != [] && IsDigits(f)
    requires a * Pow10(|f|) + Value(f) < ExactMantissaLimit
    ensures var num := NumericPrefix(false, Dec(a), true, f, None);
      IsDigits(num.intDigits + num.fracDigits)
      && Mantissa(num) < ExactMantissaLimit
      && TruncatedMagnitude(num) == a && a < ExactDoubleLimit
  {
    var num := NumericPrefix(false, Dec(a), true, f, None);
    var p, v := Pow10(|f|), Value(f);
    assert IsDigits(num.intDigits + num.fracDigits) && Mantissa(num) == a * p + v by {
      ValueOfAppend(Dec(a), f);
      ValueOfDec(a);
    }
    assert TruncatedMagnitude(num) == Mantissa(num) / p by {
      MagnitudeOfFraction(num);
    }
    ValueBelowPow10(f);
    DropFraction(a, v, p);
  }

  /** Dividing off a remainder below the divisor leaves the quotient, which is in the exact range. */
  lemma DropFraction(a: nat, v: nat, p: nat)
    requires v < p && a * p + v < ExactMantissaLimit
    ensures (a * p + v) / p == a && a < ExactDoubleLimit
  {
    DivShift(a, v, p);
    MulMono(1, p, a);
    assert p * a == a * p;
  }

  lemma LeadingNumberOfFraction(a: nat, f: string)
    requires f != [] && IsDigits(f)
    ensures LeadingNumber(Dec(a) + "." + f) == NumericPrefix(false, Dec(a), true, f, None)
  {
    var rest := "." + f;
    assert Dec(a) + "." + f == Dec(a) + rest;
    LeadingNumberOfDigits(Dec(a), rest);
    FractionAfterDigits(Dec(a), f);
  }

  /** A '.' and fraction digits at the end, with no exponent. */
  lemma FractionAfterDigits(ip: string, f: string)
    requires IsDigits(ip) && IsDigits(f)
    ensures AfterDigits(false, ip, "." + f) == NumericPrefix(false, ip, true, f, None)
  {
    var rest := "." + f;
    assert rest[1..] == f;
    assert DigitPrefix(f) == f by {
      DigitPrefixOfDigits(f, []);
      assert f + [] == f;
    }
    assert rest[1 + |f|..] == [];
  }

  /** Without an exponent, the fraction digits are divided off. */
  lemma MagnitudeOfFraction(n: NumericPrefix)
    requires IsDigits(n.intDigits + n.fracDigits)
    requires n.exponent == None
    ensures TruncatedMagnitude(n) == Mantissa(n) / Pow10(|n.fracDigits|)
  {
    if n.fracDigits == [] {
      assert Pow10(0) == 1;
    }
  }

  /** A string of k digits is worth less than 10^k. */
  lemma {:induction false} ValueBelowPow10(f: string)
    requires IsDigits(f)
    ensures Value(f) < Pow10(|f|)
  {
    if f != [] {
      ValueBelowPow10(f[..|f| - 1]);
    }
  }

  lemma DivShift(a: nat, r: nat, d: nat)
    requires r < d
    ensures (a * d + r) / d == a
  {
    var q := (a * d + r) / d;
    assert q * d + (a * d + r) % d == a * d + r;
    if q > a {
      MulMono(a + 1, q, d);
    } else if q < a {
      MulMono(q + 1, a, d);
    }
  }

  lemma MulMono(x: nat, y: nat, d: nat)
    requires x <= y
    ensures x * d <= y * d
  {
  }

  /**
   * `number_format($minor / 100, 2, '.', '')` for a non-negative amount in
   * minor units, computed exactly on integers.
   */
  function FormatMinorUnits(minor: nat): string {
    Dec(minor / 100) + "." + [DigitChar(minor % 100 / 10), DigitChar(minor % 10)]
  }

  /**
   * `s` is digits, one '.', and exactly two decimals, and whole part * 100 +
   * decimals is the amount `minor` in minor units.
   */
  predicate ShowsMinorUnits(s: string, minor: nat) {
    && |s| >= 4 && s[|s| - 3] == '.'
    && IsDigits(s[..|s| - 3]) && IsDigits(s[|s| - 2..])
    && Value(s[..|s| - 3]) * 100 + Value(s[|s| - 2..]) == minor
  }

  /** The formatted amount shows the amount in minor units. */
  lemma FormatMinorUnitsMeaning(minor: nat)
    ensures ShowsMinorUnits(FormatMinorUnits(minor), minor)
  {
    var s := FormatMinorUnits(minor);
    var whole := Dec(minor / 100);
    assert s[..|s| - 3] == whole;
    var frac := s[|s| - 2..];
    assert frac == [DigitChar(minor % 100 / 10), DigitChar(minor % 10)];
    var hi, lo := DigitChar(minor % 100 / 10), DigitChar(minor % 10);
    assert frac[..|frac| - 1] == [hi];
    assert [hi][..0] == [];
    assert Value([hi]) == DigitValue(hi);
    assert DigitValue(DigitChar(minor % 100 / 10)) == minor % 100 / 10;
    assert DigitValue(DigitChar(minor % 10)) == minor % 10;
    assert Value(frac) == minor % 100;
    ValueOfDec(minor / 100);
  }

  /**
   * `number_format` of the net amount at includes/class-wc-gateway-qpay.php:692
   * turns 10050 minor units into "100.50", and 0 into "0.00".
   */
  lemma FormatMinorUnitsExample()
    ensures FormatMinorUnits(10050) == "100.50"
    ensures FormatMinorUnits(10000) == "100.00"
    ensures FormatMinorUnits(0) == "0.00"
  {
    assert Dec(1) == "1";
    assert Dec(10) == "10";
    assert Dec(100) == "100";
  }
}
