/** What the bandit keeps of the outcomes, and how it explores: the score of a tried arm is its mean reward and
    a bonus that shrinks with its own pulls and grows with those of the band. */
module BanditLaws {
  import opened Bandit
  import opened Money
  import opened Reals
  import opened Wrappers

  // ---------------------------------------------------------------------------------------
  // Statistics
  // ---------------------------------------------------------------------------------------

  function OfArm(history: seq<Outcome>, arm: ArmKey): seq<Outcome> {
    if history == [] then []
    else
      var last := history[|history| - 1];
      OfArm(history[..|history| - 1], arm) + if last.arm == arm then [last] else []
  }

  function SuccessesIn(outcomes: seq<Outcome>): nat {
    if outcomes == [] then 0
    else SuccessesIn(outcomes[..|outcomes| - 1]) + if outcomes[|outcomes| - 1].succeeded then 1 else 0
  }

  /** The sum of what is not negative among the savings. */
  function SavingsIn(outcomes: seq<Outcome>): nat {
    if outcomes == [] then 0
    else
      var savings := outcomes[|outcomes| - 1].savings;
      SavingsIn(outcomes[..|outcomes| - 1]) + if savings > 0 then savings else 0
  }

  /** The same of the costs. */
  function CostIn(outcomes: seq<Outcome>): nat {
    if outcomes == [] then 0
    else
      var cost := outcomes[|outcomes| - 1].cost;
      CostIn(outcomes[..|outcomes| - 1]) + if cost > 0 then cost else 0
  }

  function CappedAt(n: nat, most: nat): nat { if n < most then n else most }

  /** An arm's statistics are the counts and the sums of its own outcomes, each up to what its integer holds. */
  predicate Summarise(s: ArmStats, outcomes: seq<Outcome>) {
    && s.pulls == CappedAt(|outcomes|, U64_MAX)
    && s.successes == CappedAt(SuccessesIn(outcomes), U64_MAX)
    && s.totalSavings == CappedAt(SavingsIn(outcomes), I64_MAX)
    && s.totalCost == CappedAt(CostIn(outcomes), I64_MAX)
  }

  lemma OneMoreOutcome(s: ArmStats, outcomes: seq<Outcome>, o: Outcome)
    requires Summarise(s, outcomes)
    ensures Summarise(Recorded(s, o.succeeded, o.savings, o.cost), outcomes + [o])
  {
    assert (outcomes + [o])[..|outcomes|] == outcomes;
  }

  lemma {:induction false} StatsAreSums(history: seq<Outcome>, arm: ArmKey)
    ensures Summarise(Folded(history, arm), OfArm(history, arm))
  {
    if history != [] {
      var front, last := history[..|history| - 1], history[|history| - 1];
      StatsAreSums(front, arm);
      OneMoreOutcome(Folded(front, arm), OfArm(front, arm), last);
      assert OfArm(front, arm) + [] == OfArm(front, arm);
    }
  }

  /** An arm is left out as unreliable exactly when of thirty pulls or more not nine in ten succeeded. */
  lemma UnreliableMeans(s: ArmStats)
    ensures !Viable(s) <==> s.pulls >= 30 && 10 * s.successes < 9 * s.pulls
  {
    if s.pulls >= 30 {
      BelowNineTenths(s.successes, s.pulls);
    }
  }

  lemma BelowNineTenths(n: nat, p: nat)
    requires p > 0
    ensures n as real / p as real < 0.9 <==> 10 * n < 9 * p
  {
    Quotient(n as real, p as real);
    Scale(0.9, n as real / p as real, p as real);
  }

  /** The mean reward is seven parts the rate of success and three parts the share of what was saved in what it would
      have cost without; and the rate of success alone while there are no amounts. */
  lemma RewardIsSevenToThree(s: ArmStats)
    requires InRange(s) && s.pulls > 0 && s.totalSavings + s.totalCost <= I64_MAX
    ensures var p, n, t := s.pulls as real, s.successes as real, s.totalSavings as real;
            var w := (s.totalSavings + s.totalCost) as real;
            if w == 0.0 then MeanReward(s) * p == n
            else 10.0 * (MeanReward(s) * (p * w)) == 7.0 * (n * w) + 3.0 * (t * p)
  {
    var p, n, t := s.pulls as real, s.successes as real, s.totalSavings as real;
    var w := (s.totalSavings + s.totalCost) as real;
    RewardIsWeighted(s);
    Quotient(n, p);
    if w > 0.0 {
      SevenToThree(MeanReward(s), n, p, t, w);
    } else {
      assert MeanReward(s) == SuccessRate(s);
    }
  }

  lemma SevenToThree(x: real, n: real, p: real, t: real, w: real)
    requires p > 0.0 && w > 0.0 && x == Weighted(n, p, t, w)
    ensures 10.0 * (x * (p * w)) == 7.0 * (n * w) + 3.0 * (t * p)
  {
    Cleared(n, p, w);
    Cleared(t, w, p);
    assert w * p == p * w;
    Spread(n / p, t / w, p * w);
  }

  // ---------------------------------------------------------------------------------------
  // Exploration
  // ---------------------------------------------------------------------------------------

  /** `sqrt` is the square root. */
  ghost predicate IsRoot(sqrt: real -> real) {
    forall x: real :: x >= 0.0 ==> sqrt(x) >= 0.0 && sqrt(x) * sqrt(x) == x
  }

  /** `ln` starts at nothing in 1 and grows from there. */
  ghost predicate IsLog(ln: real -> real) {
    ln(1.0) == 0.0 && forall x: real, y: real :: 1.0 <= x < y ==> ln(x) < ln(y)
  }

  function AtLeastOne(total: nat): real { if total < 1 then 1.0 else total as real }

  lemma LogNotNegative(ln: real -> real, total: nat)
    requires IsLog(ln)
    ensures ln(AtLeastOne(total)) >= 0.0
    ensures total > 1 ==> ln(AtLeastOne(total)) > 0.0
  {
    assert total > 1 ==> ln(1.0) < ln(total as real);
  }

  lemma ShareNotNegative(part: real, whole: real)
    requires part >= 0.0 && whole > 0.0
    ensures part / whole >= 0.0
    ensures part > 0.0 ==> part / whole > 0.0
  {
    Quotient(part, whole);
    Scale(0.0, part / whole, whole);
    Scale(part / whole, 0.0, whole);
  }

  lemma RootScaled(x: real, r: real, part: real, whole: real)
    requires whole > 0.0 && r * r == part / whole && x == 0.6 * r
    ensures x * x * whole == 0.36 * part
  {
    Quotient(part, whole);
    assert x * x == 0.36 * (r * r);
    assert 0.36 * (r * r) * whole == 0.36 * (r * r * whole);
  }

  /** The score of a tried arm is at least its mean reward, and the square of what it has beyond that, times
      the arm's pulls, is 0.36 times the logarithm of the band's pulls. */
  lemma ScoreOfTriedArm(ln: real -> real, sqrt: real -> real, s: ArmStats, total: nat)
    requires IsRoot(sqrt) && IsLog(ln) && s.pulls > 0
    ensures var score := Score(ln, sqrt, s, total);
            && score.Finite? && score.value >= MeanReward(s)
            && var bonus := score.value - MeanReward(s);
               bonus * bonus * s.pulls as real == 0.36 * ln(AtLeastOne(total))
  {
    var part, whole := ln(AtLeastOne(total)), s.pulls as real;
    LogNotNegative(ln, total);
    ShareNotNegative(part, whole);
    RootScaled(Bonus(ln, sqrt, total, s.pulls), sqrt(part / whole), part, whole);
    ScoreHasBonus(ln, sqrt, s, total, MeanReward(s), Bonus(ln, sqrt, total, s.pulls));
  }

  lemma ScoreHasBonus(ln: real -> real, sqrt: real -> real, s: ArmStats, total: nat, mean: real, bonus: real)
    requires s.pulls > 0 && mean == MeanReward(s) && bonus == Bonus(ln, sqrt, total, s.pulls)
    ensures var score := Score(ln, sqrt, s, total); score.Finite? && score.value == mean + bonus
  {
  }

  lemma LargerRoot(x: real, y: real)
    requires x >= 0.0 && y >= 0.0 && x * x > y * y
    ensures x > y
  {
    if x <= y {
      ProductNonNegative(y, y - x);
      ProductNonNegative(x, y - x);
    }
  }

  lemma LargerBonus(a: real, p: real, b: real, q: real, part: real)
    requires a >= 0.0 && b >= 0.0 && 0.0 < p < q && part > 0.0
    requires a * a * p == part && b * b * q == part
    ensures a > b
  {
    var x, y := a * a, b * b;
    Scale(y, 0.0, q);
    ProductPositive(y, q - p);
    assert y * (q - p) == y * q - y * p;
    Scale(x, y, p);
    LargerRoot(a, b);
  }

  /** Of two tried candidates with the same mean reward the one with fewer pulls comes first, once the band has
      more than one. */
  lemma FewerPullsComeFirst(known: Knowledge, a: string, b: string)
    requires IsRoot(known.sqrt) && IsLog(known.ln) && known.total > 1
    requires 0 < known.StatsOf(a).pulls < known.StatsOf(b).pulls
    requires MeanReward(known.StatsOf(a)) == MeanReward(known.StatsOf(b))
    ensures known.Beats(a, b) && !known.Beats(b, a)
  {
    var sa, sb, part := known.StatsOf(a), known.StatsOf(b), 0.36 * known.ln(AtLeastOne(known.total));
    ScoreOfTriedArm(known.ln, known.sqrt, sa, known.total);
    ScoreOfTriedArm(known.ln, known.sqrt, sb, known.total);
    LogNotNegative(known.ln, known.total);
    LargerBonus(known.ScoreOf(a).value - MeanReward(sa), sa.pulls as real,
                known.ScoreOf(b).value - MeanReward(sb), sb.pulls as real, part);
  }

  /** So the choice never has a reliable rival with the same mean reward and fewer pulls. */
  lemma ChoiceIsLeastTried(known: Knowledge, candidates: seq<string>, choice: string, rival: string)
    requires IsRoot(known.sqrt) && IsLog(known.ln) && known.total > 1 && known.IsBest(candidates, choice)
    requires rival in candidates && Viable(known.StatsOf(rival)) && known.StatsOf(rival).pulls > 0
    requires MeanReward(known.StatsOf(rival)) == MeanReward(known.StatsOf(choice))
    ensures known.StatsOf(choice).pulls <= known.StatsOf(rival).pulls
  {
    if known.StatsOf(choice).pulls > known.StatsOf(rival).pulls {
      FewerPullsComeFirst(known, rival, choice);
    }
  }

  /** With the same pulls the better mean reward comes first. */
  lemma BetterRewardComesFirst(known: Knowledge, a: string, b: string)
    requires 0 < known.StatsOf(a).pulls == known.StatsOf(b).pulls
    requires MeanReward(known.StatsOf(a)) > MeanReward(known.StatsOf(b))
    ensures known.Beats(a, b) && !known.Beats(b, a)
  {
  }

  /** What an arm has beyond its mean reward grows with the pulls of the rest of the band. */
  lemma NeglectRaisesScore(ln: real -> real, sqrt: real -> real, s: ArmStats, total: nat, later: nat)
    requires IsRoot(sqrt) && IsLog(ln) && s.pulls > 0 && 1 <= total < later
    ensures Score(ln, sqrt, s, later).value > Score(ln, sqrt, s, total).value
  {
    ScoreOfTriedArm(ln, sqrt, s, total);
    ScoreOfTriedArm(ln, sqrt, s, later);
    var x, y := Score(ln, sqrt, s, later).value - MeanReward(s), Score(ln, sqrt, s, total).value - MeanReward(s);
    assert ln(total as real) < ln(later as real);
    Scale(x * x, y * y, s.pulls as real);
    LargerRoot(x, y);
  }
}
