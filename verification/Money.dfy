/** Money in whole micro-cents: rounding, rates, and saturating sums. */
module Money {

  const MICRO_CENTS_PER_CENT := 10_000
  const TOKENS_PER_RATE := 1_000_000
  const BASIS_POINTS := 10_000
  const I64_MAX := 0x7FFF_FFFF_FFFF_FFFF
  const I64_MIN := -0x8000_0000_0000_0000
  const U64_MAX := 0xFFFF_FFFF_FFFF_FFFF
  const I128_MAX := 0x7FFF_FFFF_FFFF_FFFF_FFFF_FFFF_FFFF_FFFF

  predicate FitsI64(v: int) { I64_MIN <= v <= I64_MAX }

  /** Division that drops the fraction, toward zero. */
  function TruncatingDiv(a: int, b: int): int
    requires b > 0
  {
    if a >= 0 then a / b else -((-a) / b)
  }

  /** Division rounded half away from zero, as both rates use it. */
  function RoundedDiv(product: int, unit: int): int
    requires unit > 0
  {
    if product >= 0 then TruncatingDiv(product + unit / 2, unit) else TruncatingDiv(product - unit / 2, unit)
  }

  function Clamp(v: int): (r: int)
    ensures FitsI64(r)
  {
    if v > I64_MAX then I64_MAX else if v < I64_MIN then I64_MIN else v
  }

  function CostForTokens(ratePerMtok: int, tokens: nat): int {
    Clamp(RoundedDiv(ratePerMtok * tokens, TOKENS_PER_RATE))
  }

  function MulBasisPoints(amount: int, basisPoints: nat): int {
    Clamp(RoundedDiv(amount * basisPoints, BASIS_POINTS))
  }

  function FloorAtZero(amount: int): int { if amount < 0 then 0 else amount }

  function ToCents(amount: int): int { TruncatingDiv(amount, MICRO_CENTS_PER_CENT) }

  function Add(a: int, b: int): int { Clamp(a + b) }

  function Sub(a: int, b: int): int { Clamp(a - b) }

  /** `Sum`: a fold from zero with saturating addition. */
  function SaturatingSum(amounts: seq<int>): int {
    if amounts == [] then 0 else Add(SaturatingSum(amounts[..|amounts| - 1]), amounts[|amounts| - 1])
  }

  function Total(amounts: seq<int>): int {
    if amounts == [] then 0 else Total(amounts[..|amounts| - 1]) + amounts[|amounts| - 1]
  }

  function Abs(v: int): nat { if v < 0 then -v else v }

  // ---------------------------------------------------------------------------------------
  // Rounding
  // ---------------------------------------------------------------------------------------

  /** A rounded quotient is within half a unit of the exact one. */
  lemma RoundedWithinHalf(product: int, unit: int)
    requires unit > 0 && unit % 2 == 0
    ensures 2 * Abs(unit * RoundedDiv(product, unit) - product) <= unit
  {
    var half := unit / 2;
    if product >= 0 {
      var q := (product + half) / unit;
      assert product + half == unit * q + (product + half) % unit;
    } else {
      var q := (-product + half) / unit;
      assert -product + half == unit * q + (-product + half) % unit;
      assert unit * RoundedDiv(product, unit) == -(unit * q);
    }
  }

  lemma Distribute(a: int, b: int, c: int)
    ensures a * (b + c) == a * b + a * c && (b + c) * a == b * a + c * a
  {
  }

  lemma Cancel(unit: int, a: int, b: int)
    requires unit > 0 && unit * a < unit * (b + 1)
    ensures a <= b
  {
    assert a >= b + 1 ==> unit * a >= unit * (b + 1);
  }

  lemma QuotientMonotone(a: int, b: int, unit: int)
    requires unit > 0 && 0 <= a <= b
    ensures 0 <= a / unit <= b / unit
  {
    assert a == unit * (a / unit) + a % unit && b == unit * (b / unit) + b % unit;
    Distribute(unit, b / unit, 1);
    Cancel(unit, a / unit, b / unit);
    Cancel(unit, 0, a / unit);
  }

  lemma RoundedMonotone(a: int, b: int, unit: int)
    requires unit > 0 && a <= b
    ensures RoundedDiv(a, unit) <= RoundedDiv(b, unit)
  {
    var half := unit / 2;
    if b >= 0 {
      QuotientMonotone(if a >= 0 then a + half else 0, b + half, unit);
    }
    if a < 0 {
      QuotientMonotone(if b < 0 then half - b else 0, half - a, unit);
    }
  }

  lemma ProductBound(a: int, b: int, m: int)
    requires -m <= a <= m && b >= 0
    ensures -(m * b) <= a * b <= m * b
  {
  }

  /** The 128-bit intermediate never overflows, for any 64-bit rate and any 64-bit count. */
  lemma IntermediateFits(rate: int, tokens: nat)
    requires FitsI64(rate) && tokens <= U64_MAX
    ensures Abs(rate * tokens) + TOKENS_PER_RATE / 2 <= I128_MAX
  {
    var m := I64_MAX + 1;
    ProductBound(rate, tokens, m);
    assert m * tokens <= m * U64_MAX;
  }

  /** `r` is `product / unit` to the nearest, halves away from zero, unless that lies beyond 64 bits. */
  predicate IsNearest(r: int, product: int, unit: int) {
    if r == I64_MAX then 2 * product >= unit * (2 * I64_MAX - 1)
    else if r == I64_MIN then 2 * product <= unit * (2 * I64_MIN + 1)
    else 2 * Abs(unit * r - product) <= unit && (2 * Abs(unit * r - product) == unit ==> Abs(unit * r) > Abs(product))
  }

  lemma HalvesGoAway(product: int, unit: int)
    requires unit > 0 && unit % 2 == 0
    ensures var r := RoundedDiv(product, unit);
            2 * Abs(unit * r - product) == unit ==> Abs(unit * r) > Abs(product)
  {
    var half := unit / 2;
    if product >= 0 {
      assert product + half == unit * ((product + half) / unit) + (product + half) % unit;
    } else {
      var q := (-product + half) / unit;
      assert -product + half == unit * q + (-product + half) % unit;
      assert unit * RoundedDiv(product, unit) == -(unit * q);
    }
  }

  lemma BeyondBounds(unit: int, r: int, bound: int)
    requires unit > 0
    ensures r >= bound ==> unit * r >= unit * bound
    ensures r <= bound ==> unit * r <= unit * bound
  {
    Distribute(unit, r, -bound);
  }

  lemma ClampedIsNearest(product: int, unit: int)
    requires unit > 0 && unit % 2 == 0
    ensures IsNearest(Clamp(RoundedDiv(product, unit)), product, unit)
  {
    var r := RoundedDiv(product, unit);
    RoundedWithinHalf(product, unit);
    HalvesGoAway(product, unit);
    BeyondBounds(unit, r, I64_MAX);
    BeyondBounds(unit, r, I64_MIN);
  }

  /** The cost is the exact one to the nearest micro-cent, of rates for a million tokens, halves away from zero; only
      one beyond 64 bits is cut off there. */
  lemma CostWithinHalf(rate: int, tokens: nat)
    ensures IsNearest(CostForTokens(rate, tokens), rate * tokens, 1_000_000)
  {
    ClampedIsNearest(rate * tokens, TOKENS_PER_RATE);
  }

  /** The same for a part in ten thousand. */
  lemma PartWithinHalf(amount: int, basisPoints: nat)
    ensures IsNearest(MulBasisPoints(amount, basisPoints), amount * basisPoints, 10_000)
  {
    ClampedIsNearest(amount * basisPoints, BASIS_POINTS);
  }

  /** More tokens never cost less. */
  lemma CostMonotone(rate: int, fewer: nat, more: nat)
    requires rate >= 0 && fewer <= more
    ensures CostForTokens(rate, fewer) <= CostForTokens(rate, more)
  {
    assert rate * fewer <= rate * more;
    RoundedMonotone(rate * fewer, rate * more, TOKENS_PER_RATE);
  }

  // ---------------------------------------------------------------------------------------
  // Splitting
  // ---------------------------------------------------------------------------------------

  /** The parts of a product, each divided and rounded on its own. */
  function RoundedParts(parts: seq<int>, factor: int, unit: int): int
    requires unit > 0
  {
    if parts == [] then 0
    else RoundedParts(parts[..|parts| - 1], factor, unit) + RoundedDiv(parts[|parts| - 1] * factor, unit)
  }

  lemma DriftStep(unit: int, r: int, q: int, total: int, part: int, factor: int, n: int)
    requires 2 * Abs(unit * r - total * factor) <= unit * n
    requires 2 * Abs(unit * q - part * factor) <= unit
    ensures 2 * Abs(unit * (r + q) - (total + part) * factor) <= unit * (n + 1)
  {
    Distribute(unit, r, q);
    Distribute(factor, total, part);
    Distribute(unit, n, 1);
  }

  lemma {:induction false} PartsDrift(parts: seq<int>, factor: int, unit: int)
    requires unit > 0 && unit % 2 == 0
    ensures 2 * Abs(unit * RoundedParts(parts, factor, unit) - Total(parts) * factor) <= unit * |parts|
  {
    if parts == [] {
      assert unit * 0 - 0 * factor == 0;
    } else {
      var n := |parts| - 1;
      PartsDrift(parts[..n], factor, unit);
      RoundedWithinHalf(parts[n] * factor, unit);
      DriftStep(unit, RoundedParts(parts[..n], factor, unit), RoundedDiv(parts[n] * factor, unit),
                Total(parts[..n]), parts[n], factor, n);
    }
  }

  lemma GapBelow(unit: int, x: int, y: int, exact: int, n: int)
    requires unit > 0 && 2 * (unit * x - exact) <= unit && 2 * (exact - unit * y) <= unit * n
    ensures 2 * (x - y) <= n + 1
  {
    assert unit * (2 * (x - y)) == 2 * (unit * x) - 2 * (unit * y);
    Distribute(unit, n, 1);
    Distribute(unit, n + 1, 1);
    Cancel(unit, 2 * (x - y), n + 1);
  }

  lemma GapAbove(unit: int, x: int, y: int, exact: int, n: int)
    requires unit > 0 && 2 * (exact - unit * x) <= unit && 2 * (unit * y - exact) <= unit * n
    ensures 2 * (y - x) <= n + 1
  {
    assert unit * (2 * (y - x)) == 2 * (unit * y) - 2 * (unit * x);
    Distribute(unit, n, 1);
    Distribute(unit, n + 1, 1);
    Cancel(unit, 2 * (y - x), n + 1);
  }

  lemma GapIsSmall(unit: int, whole: int, split: int, exact: int, n: int)
    requires unit > 0
    requires 2 * Abs(unit * whole - exact) <= unit && 2 * Abs(unit * split - exact) <= unit * n
    ensures 2 * Abs(whole - split) <= n + 1
  {
    GapBelow(unit, whole, split, exact, n);
    GapAbove(unit, whole, split, exact, n);
  }

  /** Rounding each of n parts instead of their total moves the result by at most (n + 1) / 2. */
  lemma SplitDrift(parts: seq<int>, factor: int, unit: int)
    requires unit > 0 && unit % 2 == 0
    ensures 2 * Abs(RoundedDiv(Total(parts) * factor, unit) - RoundedParts(parts, factor, unit)) <= |parts| + 1
  {
    PartsDrift(parts, factor, unit);
    RoundedWithinHalf(Total(parts) * factor, unit);
    GapIsSmall(unit, RoundedDiv(Total(parts) * factor, unit), RoundedParts(parts, factor, unit),
               Total(parts) * factor, |parts|);
  }

  /** The costs of several requests, each clamped on its own. */
  function Costs(rate: int, tokens: seq<int>): int
    requires forall i :: 0 <= i < |tokens| ==> tokens[i] >= 0
  {
    if tokens == [] then 0
    else Costs(rate, tokens[..|tokens| - 1]) + CostForTokens(rate, tokens[|tokens| - 1])
  }

  lemma UnclampedCost(rate: int, tokens: nat)
    requires FitsI64(RoundedDiv(tokens * rate, TOKENS_PER_RATE))
    ensures CostForTokens(rate, tokens) == RoundedDiv(tokens * rate, TOKENS_PER_RATE)
  {
    assert rate * tokens == tokens * rate;
  }

  lemma {:induction false} CostsAreParts(rate: int, tokens: seq<int>)
    requires forall i :: 0 <= i < |tokens| ==> tokens[i] >= 0
    requires forall i :: 0 <= i < |tokens| ==> FitsI64(RoundedDiv(tokens[i] * rate, TOKENS_PER_RATE))
    ensures Costs(rate, tokens) == RoundedParts(tokens, rate, TOKENS_PER_RATE)
  {
    if tokens != [] {
      CostsAreParts(rate, tokens[..|tokens| - 1]);
      UnclampedCost(rate, tokens[|tokens| - 1]);
    }
  }

  lemma {:induction false} TotalNonNegative(amounts: seq<int>)
    requires forall i :: 0 <= i < |amounts| ==> amounts[i] >= 0
    ensures Total(amounts) >= 0
  {
    if amounts != [] {
      TotalNonNegative(amounts[..|amounts| - 1]);
    }
  }

  /** Billing a usage in n requests instead of one moves the total by at most (n + 1) / 2 micro-cents,
      as long as nothing is clamped. */
  lemma SplittingUsage(rate: int, tokens: seq<int>)
    requires forall i :: 0 <= i < |tokens| ==> tokens[i] >= 0
    requires forall i :: 0 <= i < |tokens| ==> FitsI64(RoundedDiv(tokens[i] * rate, TOKENS_PER_RATE))
    requires FitsI64(RoundedDiv(Total(tokens) * rate, TOKENS_PER_RATE))
    ensures Total(tokens) >= 0
    ensures 2 * Abs(CostForTokens(rate, Total(tokens)) - Costs(rate, tokens)) <= |tokens| + 1
  {
    TotalNonNegative(tokens);
    CostsAreParts(rate, tokens);
    SplitDrift(tokens, rate, TOKENS_PER_RATE);
    UnclampedCost(rate, Total(tokens));
  }

  // ---------------------------------------------------------------------------------------
  // Sums
  // ---------------------------------------------------------------------------------------

  /** A saturating sum of non-negative amounts is the exact one, up to the largest amount there is. */
  lemma {:induction false} SaturatingSumIsCapped(amounts: seq<int>)
    requires forall i :: 0 <= i < |amounts| ==> amounts[i] >= 0
    ensures Total(amounts) >= 0
    ensures SaturatingSum(amounts) == if Total(amounts) <= I64_MAX then Total(amounts) else I64_MAX
  {
    if amounts != [] {
      SaturatingSumIsCapped(amounts[..|amounts| - 1]);
    }
  }

  /** Whole cents never amount to more than what is owed, and fall short of it by less than a cent. */
  lemma CentsRoundDown(amount: int)
    requires amount >= 0
    ensures 0 <= amount - ToCents(amount) * 10_000 < 10_000
  {
  }
}
