/**
 * Python's integer conversions as the core uses them: `int(a / b)` on
 * integers (true division, then truncation toward zero), `str(n)`,
 * `int(s)` and `int(float(s))` on decimal text.
 */
module Numbers {
  import opened Wrappers
  import Strings

  function Abs(x: int): nat {
    if x < 0 then -x else x
  }

  /** Non-negative factors keep an inequality. */
  lemma MulLeMono(a: int, b: int, c: nat)
    requires a <= b
    ensures a * c <= b * c
  {}

  /**
   * `int(a / b)`: the quotient rounded toward zero.  Its magnitude is the
   * largest `m` with `m * |b| <= |a|`, and it is never negative when `a`
   * and `b` have the same sign.
   */
  function TruncDiv(a: int, b: int): (q: int)
    requires b != 0
    ensures a >= 0 && b > 0 ==> q == a / b
  {
    if (a < 0) == (b < 0) then Abs(a) / Abs(b) else -(Abs(a) / Abs(b))
  }

  /**
   * The magnitude of `int(a / b)` is the largest `m` with `m * |b| <= |a|`,
   * and its sign is that of the exact quotient (or it is zero).
   */
  lemma TruncDivBounds(a: int, b: int)
    requires b != 0
    ensures var q := TruncDiv(a, b); Abs(q) * Abs(b) <= Abs(a) < (Abs(q) + 1) * Abs(b)
    ensures TruncDiv(a, b) < 0 ==> (a < 0) != (b < 0)
    ensures TruncDiv(a, b) > 0 ==> (a < 0) == (b < 0)
  {
    var m := Abs(a) / Abs(b);
    DivBounds(Abs(a), Abs(b));
    assert m >= 0;
    if (a < 0) == (b < 0) {
      assert TruncDiv(a, b) == m;
    } else {
      assert TruncDiv(a, b) == -m;
    }
  }

  /** Floor division of naturals brackets the dividend between consecutive multiples. */
  lemma DivBounds(x: nat, y: nat)
    requires y > 0
    ensures (x / y) * y <= x < (x / y + 1) * y
  {
    var q, r := x / y, x % y;
    assert x == q * y + r && 0 <= r < y;
    assert (q + 1) * y == q * y + y;
  }

  /** Truncating division by a positive divisor is monotone in the dividend. */
  lemma {:induction false} TruncDivMonotone(a: int, a': int, b: int)
    requires 0 <= a <= a' && b > 0
    ensures TruncDiv(a, b) <= TruncDiv(a', b)
  {
    var q, q' := a / b, a' / b;
    if q > q' {
      MulLeMono(q' + 1, q, b);
      assert false;
    }
  }

  predicate IsDigit(c: char) {
    '0' <= c <= '9'
  }

  predicate AllDigits(s: string) {
    forall i :: 0 <= i < |s| ==> IsDigit(s[i])
  }

  lemma DigitsHaveNoDot(s: string)
    requires AllDigits(s)
    ensures '.' !in s
  {
    forall i | 0 <= i < |s| ensures s[i] != '.' {
      assert IsDigit(s[i]);
    }
  }

  function DigitChar(d: nat): (c: char)
    requires d < 10
    ensures IsDigit(c)
  {
    (('0' as int) + d) as char
  }

  function DigitValue(c: char): (d: nat)
    requires IsDigit(c)
    ensures d < 10
  {
    (c as int) - ('0' as int)
  }

  /** The number written by a string of decimal digits. */
  function DigitsValue(s: string): nat
    requires AllDigits(s)
    decreases |s|
  {
    if s == [] then 0 else DigitsValue(s[..|s| - 1]) * 10 + DigitValue(s[|s| - 1])
  }

  /** `str(n)` for a non-negative integer: decimal digits, no leading zeros. */
  function NatToString(n: nat): (s: string)
    ensures |s| >= 1 && AllDigits(s)
    ensures |s| > 1 ==> s[0] != '0'
    decreases n
  {
    if n < 10 then [DigitChar(n)] else NatToString(n / 10) + [DigitChar(n % 10)]
  }

  /** `str(i)` for any integer. */
  function IntToString(i: int): string {
    if i < 0 then "-" + NatToString(-i) else NatToString(i)
  }

  /** `int(s)` on plain decimal text (an optional sign, then digits). */
  function ParseInt(s: string): Option<int> {
    if |s| > 0 && (s[0] == '-' || s[0] == '+') then
      var body := s[1..];
      if |body| > 0 && AllDigits(body) then
        Some(if s[0] == '-' then -(DigitsValue(body) as int) else DigitsValue(body))
      else None
    else if |s| > 0 && AllDigits(s) then Some(DigitsValue(s))
    else None
  }

  /**
   * `int(float(s))` on plain decimal text: an optional sign, digits, and an
   * optional fractional part; the fraction is dropped (truncation toward zero).
   */
  function ParseTruncatedDecimal(s: string): Option<int> {
    var negative := |s| > 0 && s[0] == '-';
    var body := if |s| > 0 && (s[0] == '-' || s[0] == '+') then s[1..] else s;
    var parts := Strings.Split(body, '.');
    if |parts| > 2 || !AllDigits(parts[0]) then None
    else if |parts| == 1 && parts[0] == [] then None
    else if |parts| == 2 && (!AllDigits(parts[1]) || parts[0] + parts[1] == []) then None
    else
      var magnitude: int := DigitsValue(parts[0]);
      Some(if negative then -magnitude else magnitude)
  }

  /** Reading back the digits of `str(n)` gives `n`. */
  lemma {:induction false} DigitsOfNatToString(n: nat)
    ensures DigitsValue(NatToString(n)) == n
    decreases n
  {
    if n >= 10 {
      var s := NatToString(n);
      DigitsOfNatToString(n / 10);
      assert s[..|s| - 1] == NatToString(n / 10);
    }
  }

  /** `int(str(i)) == i`. */
  lemma ParseIntToString(i: int)
    ensures ParseInt(IntToString(i)) == Some(i)
  {
    if i < 0 {
      DigitsOfNatToString(-i);
      assert ("-" + NatToString(-i))[1..] == NatToString(-i);
    } else {
      DigitsOfNatToString(i);
    }
  }

  /** `str` is injective on integers. */
  lemma IntToStringInjective(i: int, j: int)
    requires IntToString(i) == IntToString(j)
    ensures i == j
  {
    ParseIntToString(i);
    ParseIntToString(j);
  }

  /** `str` is injective on non-negative integers. */
  lemma NatToStringInjective(i: nat, j: nat)
    requires NatToString(i) == NatToString(j)
    ensures i == j
  {
    IntToStringInjective(i, j);
  }

  /** `int(float(d))` and `int(float(d + "." + fraction))` both give the number `d` writes. */
  lemma ParseTruncatedDecimalOfDigits(d: string, fraction: string)
    requires |d| > 0 && AllDigits(d) && AllDigits(fraction)
    ensures ParseTruncatedDecimal(d) == Some(DigitsValue(d))
    ensures ParseTruncatedDecimal(d + "." + fraction) == Some(DigitsValue(d))
  {
    DigitsHaveNoDot(d);
    DigitsHaveNoDot(fraction);
    Strings.SplitWithoutSep(d, '.');
    Strings.SplitWithoutSep(fraction, '.');
    Strings.SplitAfterPart(d, '.', fraction);
    assert IsDigit(d[0]);
    assert d + "." + fraction == d + ['.'] + fraction;
  }

  /** `int(float(str(n)))` and `int(float(str(n) + "." + digits))` both give `n`. */
  lemma ParseTruncatedDecimalOfNat(n: nat, fraction: string)
    requires AllDigits(fraction)
    ensures ParseTruncatedDecimal(NatToString(n)) == Some(n)
    ensures ParseTruncatedDecimal(NatToString(n) + "." + fraction) == Some(n)
  {
    DigitsOfNatToString(n);
    ParseTruncatedDecimalOfDigits(NatToString(n), fraction);
  }
}
