/**
 * The JavaScript number operations the storefront relies on, over exact
 * reals and unbounded integers: `Math.round`, `Math.ceil`, the decimal text
 * of an integer (`String(n)`, `n.toString()`), and `toFixed(2)`.
 * IEEE-754 rounding of the operands is not modelled.
 */
module JsNumber {
  import opened JsString

  /** `Math.round`: halves round towards +infinity. */
  function Round(x: real): (n: int)
    ensures x - 0.5 < n as real <= x + 0.5
  {
    (x + 0.5).Floor
  }

  /** `Math.ceil`. */
  function Ceil(x: real): (n: int)
    ensures x <= n as real < x + 1.0
  {
    -((-x).Floor)
  }

  lemma RoundMonotone(x: real, y: real)
    requires x <= y
    ensures Round(x) <= Round(y)
  {
  }

  function DigitChar(d: nat): (c: char)
    requires d < 10
    ensures IsDigit(c) && c as int - '0' as int == d
  {
    ('0' as int + d) as char
  }

  function DigitValue(c: char): (d: nat)
    requires IsDigit(c)
    ensures d < 10 && DigitChar(d) == c
  {
    (c as int - '0' as int)
  }

  /** The decimal text of a natural number, without leading zeros. */
  function NatToString(n: nat): (s: string)
    ensures |s| >= 1 && AllDigits(s)
    ensures (s[0] == '0') <==> n == 0
    ensures n < 10 <==> |s| == 1
  {
    if n < 10 then [DigitChar(n)] else NatToString(n / 10) + [DigitChar(n % 10)]
  }

  /** The value of a string of decimal digits. */
  function DigitsValue(s: string): nat
    requires AllDigits(s)
  {
    if s == [] then 0 else DigitsValue(s[..|s| - 1]) * 10 + DigitValue(s[|s| - 1])
  }

  /** Reading back the decimal text of `n` gives `n`. */
  lemma {:induction false} DigitsValueOfNatToString(n: nat)
    ensures DigitsValue(NatToString(n)) == n
  {
    if n >= 10 {
      var s := NatToString(n);
      assert s[..|s| - 1] == NatToString(n / 10);
      DigitsValueOfNatToString(n / 10);
    }
  }

  /** Distinct numbers have distinct decimal texts. */
  lemma NatToStringInjective(m: nat, n: nat)
    requires NatToString(m) == NatToString(n)
    ensures m == n
  {
    DigitsValueOfNatToString(m);
    DigitsValueOfNatToString(n);
  }

  /** `String(i)` for an integer `i`. */
  function IntToString(i: int): (s: string)
    ensures |s| >= 1
    ensures (s[0] == '-') <==> i < 0
  {
    if i < 0 then "-" + NatToString(-i) else NatToString(i)
  }

  /** Reads back an optional minus sign followed by digits. */
  function ParseInt(s: string): int
    requires |s| >= 1
    requires s[0] == '-' ==> AllDigits(s[1..])
    requires s[0] != '-' ==> AllDigits(s)
  {
    if s[0] == '-' then 0 - DigitsValue(s[1..]) as int else DigitsValue(s)
  }

  lemma IntToStringRoundTrip(i: int)
    ensures ParseInt(IntToString(i)) == i
  {
    var s := IntToString(i);
    if i < 0 {
      var digits := NatToString(-i);
      assert s == "-" + digits;
      assert s[1..] == digits;
      DigitsValueOfNatToString(-i);
      assert ParseInt(s) == 0 - DigitsValue(digits) as int;
    } else {
      assert s == NatToString(i);
      DigitsValueOfNatToString(i);
    }
  }

  lemma IntToStringInjective(i: int, j: int)
    requires IntToString(i) == IntToString(j)
    ensures i == j
  {
    IntToStringRoundTrip(i);
    IntToStringRoundTrip(j);
  }

  /** A non-negative count of hundredths written with exactly two fractional digits. */
  function FormatHundredths(n: nat): string {
    NatToString(n / 100) + "." + [DigitChar(n % 100 / 10), DigitChar(n % 10)]
  }

  /** Reads back a text of the form digits, `.`, two digits, as a count of hundredths. */
  function ParseHundredths(s: string): nat
    requires |s| >= 4 && s[|s| - 3] == '.'
    requires AllDigits(s[..|s| - 3]) && AllDigits(s[|s| - 2..])
  {
    DigitsValue(s[..|s| - 3]) * 100 + DigitsValue(s[|s| - 2..])
  }

  lemma TwoDigitsValue(a: nat, b: nat)
    requires a < 10 && b < 10
    ensures DigitsValue([DigitChar(a), DigitChar(b)]) == a * 10 + b
  {
    var t := [DigitChar(a), DigitChar(b)];
    var first := t[..1];
    assert first == [DigitChar(a)];
    assert first[..0] == [];
    assert DigitsValue(first) == DigitValue(DigitChar(a)) == a;
    assert DigitsValue(t) == DigitsValue(first) * 10 + DigitValue(t[1]);
  }

  lemma HundredthsSplit(n: nat)
    ensures n == n / 100 * 100 + n % 100 / 10 * 10 + n % 10
  {
  }

  /** The shape of `FormatHundredths` and its inverse. */
  lemma FormatHundredthsRoundTrip(n: nat)
    ensures var s := FormatHundredths(n);
      && |s| >= 4 && s[|s| - 3] == '.'
      && AllDigits(s[..|s| - 3]) && AllDigits(s[|s| - 2..])
      && ParseHundredths(s) == n
  {
    var s := FormatHundredths(n);
    var whole := NatToString(n / 100);
    var frac := [DigitChar(n % 100 / 10), DigitChar(n % 10)];
    assert s == whole + "." + frac;
    assert s[..|s| - 3] == whole;
    assert s[|s| - 2..] == frac;
    TwoDigitsValue(n % 100 / 10, n % 10);
    DigitsValueOfNatToString(n / 100);
    HundredthsSplit(n);
  }

  /** `x.toFixed(2)` for `x` below 1e21: the nearest count of hundredths (ties go up), with the sign written first. */
  function ToFixed2(x: real): (s: string)
    ensures |s| >= 4
  {
    if x < 0.0 then "-" + FormatHundredths(Round(-x * 100.0)) else FormatHundredths(Round(x * 100.0))
  }

  /**
   * `String(x)` for a number `x` given as `c` hundredths: the integer part,
   * then the shortest fractional part ("19.9", "20", "19.95").
   */
  function HundredthsToString(c: int): string {
    var sign := if c < 0 then "-" else "";
    var m: nat := if c < 0 then -c else c;
    var whole := NatToString(m / 100);
    var frac := m % 100;
    if frac == 0 then sign + whole
    else if frac % 10 == 0 then sign + whole + "." + [DigitChar(frac / 10)]
    else sign + whole + "." + [DigitChar(frac / 10), DigitChar(frac % 10)]
  }
}
