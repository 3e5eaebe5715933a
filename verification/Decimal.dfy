/** Decimal renderings: the digits `format!` prints for integers and for six-place fixed-point
    values, with readers that recover the number. */
module Decimal {

  const MILLION := 1_000_000

  predicate IsDigit(c: char) { '0' <= c <= '9' }

  predicate AllDigits(s: string) { forall i :: 0 <= i < |s| ==> IsDigit(s[i]) }

  function Digit(d: nat): char
    requires d < 10
  {
    ('0' as int + d) as char
  }

  /** The decimal digits of a natural number, without leading zeros. */
  function Dec(n: nat): (s: string)
    ensures |s| >= 1 && AllDigits(s)
  {
    if n < 10 then [Digit(n)] else Dec(n / 10) + [Digit(n % 10)]
  }

  /** `r` in exactly `width` digits, padded with zeros on the left. */
  function Padded(width: nat, r: nat): (s: string)
    ensures |s| == width && AllDigits(s)
  {
    if width == 0 then "" else Padded(width - 1, r / 10) + [Digit(r % 10)]
  }

  function Value(s: string): nat
    requires AllDigits(s)
  {
    if s == [] then 0 else Value(s[..|s| - 1]) * 10 + (s[|s| - 1] as int - '0' as int)
  }

  function Pow10(k: nat): (p: nat)
    ensures p >= 1
  {
    if k == 0 then 1 else 10 * Pow10(k - 1)
  }

  lemma {:induction false} ValueOfDec(n: nat)
    ensures Value(Dec(n)) == n
  {
    if n >= 10 {
      ValueOfDec(n / 10);
      assert Dec(n)[..|Dec(n)| - 1] == Dec(n / 10);
    }
  }

  lemma DecInjective(a: nat, b: nat)
    requires Dec(a) == Dec(b)
    ensures a == b
  {
    ValueOfDec(a);
    ValueOfDec(b);
  }

  lemma {:induction false} ValueOfPadded(width: nat, r: nat)
    requires r < Pow10(width)
    ensures Value(Padded(width, r)) == r
  {
    if width > 0 {
      ValueOfPadded(width - 1, r / 10);
      assert Padded(width, r)[..width - 1] == Padded(width - 1, r / 10);
    }
  }

  /** A number needs no more digits than the exponent of a power of ten above it. */
  lemma {:induction false} DecShort(n: nat, k: nat)
    requires k >= 1 && n < Pow10(k)
    ensures |Dec(n)| <= k
  {
    if n >= 10 {
      assert Pow10(1) == 10;
      DecShort(n / 10, k - 1);
    }
  }

  /** From ten on, a number is at least ten times as large as its digit count less one. */
  lemma {:induction false} DecMuchShorter(n: nat)
    requires n >= 10
    ensures |Dec(n)| <= n / 10 + 1
  {
    if n >= 100 {
      DecMuchShorter(n / 10);
    }
  }

  /** A signed quantity of millionths as `{:.6}` prints it; a negative zero keeps its sign. */
  function FixedSix(negative: bool, millionths: nat): (s: string)
  {
    (if negative then "-" else "") + Dec(millionths / MILLION) + "." + Padded(6, millionths % MILLION)
  }

  /** What `{:.6}` of an integer count of millionths prints. */
  function MillionthsText(amount: int): string {
    FixedSix(amount < 0, if amount < 0 then -amount else amount)
  }

  function IntText(i: int): string {
    if i < 0 then "-" + Dec(-i) else Dec(i)
  }

  /** Reads the sign and the millionths back. */
  lemma FixedSixParts(negative: bool, millionths: nat)
    ensures var s := FixedSix(negative, millionths);
            var from := if negative then 1 else 0;
            && |s| >= from + 8 && (s[0] == '-' <==> negative)
            && s[from..|s| - 7] == Dec(millionths / MILLION)
            && s[|s| - 6..] == Padded(6, millionths % MILLION)
  {
  }

  lemma {:induction false} ValueConcat(a: string, b: string)
    requires AllDigits(a) && AllDigits(b)
    ensures Value(a + b) == Value(a) * Pow10(|b|) + Value(b)
  {
    if b == [] {
      assert a + b == a;
    } else {
      var n, d := |b| - 1, b[|b| - 1] as int - '0' as int;
      ValueConcat(a, b[..n]);
      assert (a + b)[..|a + b| - 1] == a + b[..n];
      ShiftedDigits(Value(a), Pow10(n), Value(b[..n]), d);
    }
  }

  lemma ShiftedDigits(x: nat, power: nat, y: nat, digit: int)
    ensures (x * power + y) * 10 + digit == x * (10 * power) + (y * 10 + digit)
  {
  }

  /** The digits before the point and the six after it, taken together, are the millionths. */
  lemma FixedSixReads(negative: bool, millionths: nat)
    ensures var s := FixedSix(negative, millionths);
            var from := if negative then 1 else 0;
            && |s| >= from + 8 && (s[0] == '-' <==> negative) && s[|s| - 7] == '.'
            && var digits := s[from..|s| - 7] + s[|s| - 6..];
               AllDigits(digits) && Value(digits) == millionths
  {
    var whole, rest := Dec(millionths / MILLION), Padded(6, millionths % MILLION);
    FixedSixParts(negative, millionths);
    assert Pow10(6) == 1_000_000;
    ValueConcat(whole, rest);
    ValueOfDec(millionths / MILLION);
    ValueOfPadded(6, millionths % MILLION);
  }

  lemma FixedSixInjective(n1: bool, m1: nat, n2: bool, m2: nat)
    requires FixedSix(n1, m1) == FixedSix(n2, m2)
    ensures n1 == n2 && m1 == m2
  {
    FixedSixParts(n1, m1);
    FixedSixParts(n2, m2);
    DecInjective(m1 / MILLION, m2 / MILLION);
    PaddedInjective(m1 % MILLION, m2 % MILLION);
  }

  lemma PaddedInjective(a: nat, b: nat)
    requires a < MILLION && b < MILLION && Padded(6, a) == Padded(6, b)
    ensures a == b
  {
    assert Pow10(6) == MILLION;
    ValueOfPadded(6, a);
    ValueOfPadded(6, b);
  }

  lemma MillionthsTextInjective(a: int, b: int)
    requires MillionthsText(a) == MillionthsText(b)
    ensures a == b
  {
    FixedSixInjective(a < 0, if a < 0 then -a else a, b < 0, if b < 0 then -b else b);
  }

  lemma IntTextInjective(a: int, b: int)
    requires IntText(a) == IntText(b)
    ensures a == b
  {
    assert a < 0 <==> IntText(a)[0] == '-';
    assert b < 0 <==> IntText(b)[0] == '-';
    if a < 0 {
      assert IntText(a)[1..] == Dec(-a) && IntText(b)[1..] == Dec(-b);
      DecInjective(-a, -b);
    } else {
      DecInjective(a, b);
    }
  }
}
