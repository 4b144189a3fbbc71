/** Python's conversions between numbers and text, as the plugins use them:
    `str(n)` and `int(s)` on integers, `int(x)` and `round(x)` on reals, and the
    fixed-point formats `f"{x:.0f}"` and `f"{x:.1f}"`.

    Floats are modelled as exact reals: the conversions below agree with Python
    on every value a float holds exactly, and rounding error is not modelled.
 */
module PyNum {
  import opened Wrappers
  import opened PyStr

  predicate IsDigit(c: char) {
    '0' <= c <= '9'
  }

  predicate AllDigits(s: string) {
    forall k :: 0 <= k < |s| ==> IsDigit(s[k])
  }

  function DigitChar(d: int): (c: char)
    requires 0 <= d < 10
    ensures IsDigit(c) && DigitValue(c) == d
  {
    ('0' as int + d) as char
  }

  function DigitValue(c: char): int
    requires IsDigit(c)
  {
    c as int - '0' as int
  }

  // ---------------------------------------------------------------------------
  // Integers and decimal text
  // ---------------------------------------------------------------------------

  /** `str(n)` for a non-negative integer: its decimal digits, without leading zeros. */
  function NatToString(n: nat): (r: string)
    ensures |r| >= 1 && AllDigits(r)
    ensures r[0] == '0' ==> n == 0
    decreases n
  {
    if n < 10 then [DigitChar(n)] else NatToString(n / 10) + [DigitChar(n % 10)]
  }

  /** `str(n)` */
  function IntToString(n: int): (r: string)
    ensures |r| >= 1
    ensures n >= 0 ==> AllDigits(r)
    ensures n < 0 ==> r[0] == '-' && AllDigits(r[1..])
  {
    if n < 0 then "-" + NatToString(-n) else NatToString(n)
  }

  /** The number a string of decimal digits denotes. */
  function DigitsValue(s: string): nat
    requires AllDigits(s)
    decreases |s|
  {
    if |s| == 0 then 0 else DigitsValue(s[..|s| - 1]) * 10 + DigitValue(s[|s| - 1])
  }

  /** Reading back the digits `str(n)` writes gives `n`. */
  lemma {:induction false} DigitsValueOfNat(n: nat)
    ensures DigitsValue(NatToString(n)) == n
    decreases n
  {
    if n >= 10 {
      var s := NatToString(n);
      DigitsValueOfNat(n / 10);
      assert s[..|s| - 1] == NatToString(n / 10);
    }
  }

  /** `int(s)` for base 10: optional surrounding whitespace, an optional sign and at
      least one digit; anything else raises `ValueError` (here `None`). */
  function ParseInt(s: string): Option<int> {
    ParseSigned(Strip(s))
  }

  /** An optional sign followed by at least one digit. */
  function ParseSigned(t: string): Option<int> {
    if |t| > 0 && t[0] == '-' then
      match ParseDigits(t[1..])
      case Some(v) => Some(-v)
      case None => None
    else if |t| > 0 && t[0] == '+' then ParseDigits(t[1..])
    else ParseDigits(t)
  }

  /** At least one digit and nothing else. */
  function ParseDigits(t: string): Option<int> {
    if |t| > 0 && AllDigits(t) then Some(DigitsValue(t)) else None
  }

  /** `int(str(n)) == n`. */
  lemma {:induction false} ParseIntOfString(n: int)
    ensures ParseInt(IntToString(n)) == Some(n)
  {
    if n < 0 {
      ParseIntOfNegative(n);
    } else {
      ParseIntOfNatural(n);
    }
  }

  lemma {:induction false} ParseIntOfNegative(n: int)
    requires n < 0
    ensures ParseInt(IntToString(n)) == Some(n)
  {
    var d := NatToString(-n);
    assert DigitsValue(d) == -n by {
      DigitsValueOfNat(-n);
    }
    ParseNegativeDigits(d);
  }

  lemma {:induction false} ParseIntOfNatural(n: int)
    requires n >= 0
    ensures ParseInt(IntToString(n)) == Some(n)
  {
    var d := NatToString(n);
    DigitsValueOfNat(n);
    ParseUnsignedDigits(d);
  }

  lemma {:induction false} ParseUnsignedDigits(d: string)
    requires |d| > 0 && AllDigits(d)
    ensures ParseInt(d) == Some(DigitsValue(d))
  {
    NotSpace(d[0]);
    NotSpace(d[|d| - 1]);
    StripNoop(d);
  }

  lemma {:induction false} ParseNegativeDigits(d: string)
    requires |d| > 0 && AllDigits(d)
    ensures ParseInt("-" + d) == Some(-(DigitsValue(d) as int))
  {
    StripSigned(d);
    SignedNegative(d);
  }

  lemma {:induction false} StripSigned(d: string)
    requires |d| > 0 && AllDigits(d)
    ensures Strip("-" + d) == "-" + d
  {
    var s := "-" + d;
    assert s[|s| - 1] == d[|d| - 1];
    NotSpace(s[0]);
    NotSpace(s[|s| - 1]);
    StripNoop(s);
  }

  lemma {:induction false} SignedNegative(d: string)
    requires |d| > 0 && AllDigits(d)
    ensures ParseSigned("-" + d) == Some(-(DigitsValue(d) as int))
  {
    assert ("-" + d)[1..] == d;
  }

  lemma {:induction false} NotSpace(c: char)
    requires IsDigit(c) || c == '-'
    ensures !IsSpace(c)
  {
  }

  /** Distinct integers print differently. */
  lemma {:induction false} IntToStringInjective(m: int, n: int)
    requires IntToString(m) == IntToString(n)
    ensures m == n
  {
    ParseIntOfString(m);
    ParseIntOfString(n);
  }

  // ---------------------------------------------------------------------------
  // Reals
  // ---------------------------------------------------------------------------

  /** `int(x)` on a float: truncation toward zero. */
  function Trunc(x: real): (r: int)
    ensures x >= 0.0 ==> r as real <= x < r as real + 1.0
    ensures x < 0.0 ==> r as real - 1.0 < x <= r as real
  {
    if x >= 0.0 then x.Floor else -((-x).Floor)
  }

  /** `round(x)`: the nearest integer, ties going to the even neighbour. */
  function RoundHalfEven(x: real): (r: int)
    ensures x - 0.5 <= r as real <= x + 0.5
    ensures r as real == x - 0.5 || r as real == x + 0.5 ==> r % 2 == 0
  {
    var f := x.Floor;
    var d := x - f as real;
    if d < 0.5 then f
    else if d > 0.5 then f + 1
    else if f % 2 == 0 then f else f + 1
  }

  /** Rounding an integer gives it back, and rounding is monotone. */
  lemma {:induction false} RoundHalfEvenOfInt(n: int)
    ensures RoundHalfEven(n as real) == n
  {
  }

  lemma {:induction false} RoundHalfEvenMonotone(x: real, y: real)
    requires x <= y
    ensures RoundHalfEven(x) <= RoundHalfEven(y)
  {
    // a larger result for x would need a tie on both sides, giving two even
    // integers one apart
  }

  /** `f"{x:.0f}"`: `x` rounded half-to-even, keeping the minus sign of a negative
      value that rounds to zero. */
  function Fixed0(x: real): (r: string)
    ensures |r| >= 1
    ensures x >= 0.0 ==> AllDigits(r) && DigitsValue(r) == RoundHalfEven(x)
  {
    var n := RoundHalfEven(x);
    if x < 0.0 && n == 0 then "-0"
    else if n >= 0 then
      DigitsValueOfNat(n);
      NatToString(n)
    else IntToString(n)
  }

  /** `f"{x:.1f}"`: `x` rounded half-to-even to one decimal place. */
  function Fixed1(x: real): (r: string)
    ensures |r| >= 3 && r[|r| - 2] == '.' && IsDigit(r[|r| - 1])
    ensures x >= 0.0 ==>
      && AllDigits(r[..|r| - 2])
      && DigitsValue(r[..|r| - 2]) * 10 + DigitValue(r[|r| - 1]) == RoundHalfEven(x * 10.0)
  {
    var n := RoundHalfEven(x * 10.0);
    var m := if n < 0 then -n else n;
    var whole := NatToString(m / 10);
    var sign := if x < 0.0 then "-" else "";
    var r := sign + whole + "." + [DigitChar(m % 10)];
    assert r[..|r| - 2] == sign + whole;
    assert r[|r| - 1] == DigitChar(m % 10);
    DigitsValueOfNat(m / 10);
    assert DigitsValue(whole) * 10 + m % 10 == m;
    assert x >= 0.0 ==> sign + whole == whole;
    r
  }

  /** `x // d` on a float and a positive integer divisor: the floor of the quotient. */
  function FloorDiv(x: real, d: int): (q: int)
    requires d > 0
    ensures q as real <= x / d as real < q as real + 1.0
  {
    (x / d as real).Floor
  }

  /** `x % d` on a float and a positive integer divisor: what `FloorDiv` leaves
      over, which takes the sign of the divisor. */
  function FloorMod(x: real, d: int): real
    requires d > 0
  {
    x - FloorDiv(x, d) as real * d as real
  }
}
