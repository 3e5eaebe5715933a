/** Outcome-driven routing: what is learned about each model in each complexity band, and which of
    the router's candidates it makes the choice. Logarithm and square root are parameters. */
module Bandit {
  import opened Lexicographic
  import opened Money
  import opened Reals
  import opened Wrappers

  const MIN_OBSERVATIONS := 30
  const MIN_SUCCESS_RATE: real := 0.9
  const EXPLORATION: real := 0.6

  datatype Band = Simple | Medium | Complex

  datatype ArmKey = ArmKey(band: Band, model: string)

  datatype ArmStats = ArmStats(pulls: nat, successes: nat, totalSavings: int, totalCost: int)

  datatype Outcome = Outcome(arm: ArmKey, succeeded: bool, savings: int, cost: int)

  datatype UcbScore = Finite(value: real) | Infinite

  const NO_STATS := ArmStats(0, 0, 0, 0)

  function SuccessRate(s: ArmStats): real {
    if s.pulls == 0 then 1.0 else s.successes as real / s.pulls as real
  }

  function Baseline(s: ArmStats): int { Add(s.totalSavings, s.totalCost) }

  function Ratio(part: int, whole: int): real
    requires whole > 0
  {
    var exact := part as real / whole as real;
    if exact < 0.0 then 0.0 else if exact > 1.0 then 1.0 else exact
  }

  function MeanReward(s: ArmStats): real {
    if s.pulls == 0 then 0.0
    else if Baseline(s) <= 0 then SuccessRate(s)
    else 0.7 * SuccessRate(s) + 0.3 * Ratio(s.totalSavings, Baseline(s))
  }

  predicate IsEstablished(s: ArmStats) { s.pulls >= MIN_OBSERVATIONS }

  /** Not demonstrably unreliable. */
  predicate Viable(s: ArmStats) { !IsEstablished(s) || SuccessRate(s) >= MIN_SUCCESS_RATE }

  function CountUp(n: nat): nat { if n < U64_MAX then n + 1 else n }

  function Recorded(s: ArmStats, succeeded: bool, savings: int, cost: int): ArmStats {
    ArmStats(CountUp(s.pulls), if succeeded then CountUp(s.successes) else s.successes,
             Add(s.totalSavings, FloorAtZero(savings)), Add(s.totalCost, FloorAtZero(cost)))
  }

  function Stats(arms: map<ArmKey, ArmStats>, key: ArmKey): ArmStats {
    if key in arms then arms[key] else NO_STATS
  }

  function Bonus(ln: real -> real, sqrt: real -> real, total: nat, pulls: nat): real
    requires pulls > 0
  {
    EXPLORATION * sqrt(ln((if total < 1 then 1 else total) as real) / pulls as real)
  }

  function Score(ln: real -> real, sqrt: real -> real, s: ArmStats, total: nat): UcbScore {
    if s.pulls == 0 then Infinite else Finite(MeanReward(s) + Bonus(ln, sqrt, total, s.pulls))
  }

  predicate Above(a: UcbScore, b: UcbScore) {
    match b
    case Infinite => false
    case Finite(y) => a.Infinite? || a.value > y
  }

  /** What is known when a choice is made: the statistics, the band and its pulls. */
  datatype Knowledge = Knowledge(arms: map<ArmKey, ArmStats>, band: Band, total: nat, ln: real -> real, sqrt: real -> real) {

    function StatsOf(model: string): ArmStats { Stats(arms, ArmKey(band, model)) }

    function ScoreOf(model: string): UcbScore { Score(ln, sqrt, StatsOf(model), total) }

    /** A higher score, or the same score and the smaller name. */
    predicate Beats(a: string, b: string) {
      Above(ScoreOf(a), ScoreOf(b)) || (ScoreOf(a) == ScoreOf(b) && Less(a, b))
    }

    /** `choice` is a reliable candidate that beats all others. */
    predicate IsBest(candidates: seq<string>, choice: string) {
      && choice in candidates && Viable(StatsOf(choice))
      && forall c :: c in candidates && Viable(StatsOf(c)) && c != choice ==> Beats(choice, c)
    }
  }

  /** The outcomes of one arm folded together, as they came. */
  function Folded(history: seq<Outcome>, key: ArmKey): ArmStats {
    if history == [] then NO_STATS
    else
      var before, last := Folded(history[..|history| - 1], key), history[|history| - 1];
      if last.arm == key then Recorded(before, last.succeeded, last.savings, last.cost) else before
  }

  /** How many outcomes were recorded for the arms in `keys` that belong to the band. */
  function Outcomes(history: seq<Outcome>, band: Band, keys: set<ArmKey>): (n: nat)
    ensures n <= |history|
  {
    if history == [] then 0
    else
      var last := history[|history| - 1];
      Outcomes(history[..|history| - 1], band, keys) + if last.arm.band == band && last.arm in keys then 1 else 0
  }

  /** How many outcomes were recorded for a band, whatever the arm. */
  function BandOutcomes(history: seq<Outcome>, band: Band): (n: nat)
    ensures n <= |history|
  {
    if history == [] then 0
    else BandOutcomes(history[..|history| - 1], band) + if history[|history| - 1].arm.band == band then 1 else 0
  }

  lemma {:induction false} PullsAreOutcomes(history: seq<Outcome>, key: ArmKey)
    requires |history| <= U64_MAX
    ensures Folded(history, key).pulls == Outcomes(history, key.band, {key})
  {
    if history != [] {
      PullsAreOutcomes(history[..|history| - 1], key);
    }
  }

  lemma {:induction false} OutcomesSplit(history: seq<Outcome>, band: Band, keys: set<ArmKey>, key: ArmKey)
    requires key in keys
    ensures Outcomes(history, band, keys) ==
            Outcomes(history, band, keys - {key}) + if key.band == band then Outcomes(history, band, {key}) else 0
  {
    if history != [] {
      OutcomesSplit(history[..|history| - 1], band, keys, key);
    }
  }

  lemma {:induction false} OutcomesOfAll(history: seq<Outcome>, band: Band, keys: set<ArmKey>)
    requires forall i :: 0 <= i < |history| ==> history[i].arm in keys
    ensures Outcomes(history, band, keys) == BandOutcomes(history, band)
  {
    if history != [] {
      OutcomesOfAll(history[..|history| - 1], band, keys);
    }
  }

  lemma {:induction false} NoOutcomes(history: seq<Outcome>, band: Band)
    ensures Outcomes(history, band, {}) == 0
  {
    if history != [] {
      NoOutcomes(history[..|history| - 1], band);
    }
  }

  /** The candidates that are not demonstrably unreliable, in order. */
  function Reliable(arms: map<ArmKey, ArmStats>, band: Band, candidates: seq<string>): seq<string> {
    if candidates == [] then []
    else
      var last := candidates[|candidates| - 1];
      Reliable(arms, band, candidates[..|candidates| - 1]) +
      if Viable(Stats(arms, ArmKey(band, last))) then [last] else []
  }

  lemma {:induction false} ReliableOnes(arms: map<ArmKey, ArmStats>, band: Band, candidates: seq<string>)
    ensures forall c :: c in Reliable(arms, band, candidates) <==> c in candidates && Viable(Stats(arms, ArmKey(band, c)))
  {
    if candidates != [] {
      ReliableOnes(arms, band, candidates[..|candidates| - 1]);
    }
  }

  class RoutingBandit {
    var arms: map<ArmKey, ArmStats>
    ghost var history: seq<Outcome>

    ghost predicate Valid()
      reads this
    {
      && (forall key :: key in arms ==> arms[key] == Folded(history, key))
      && (forall i :: 0 <= i < |history| ==> history[i].arm in arms)
    }

    constructor ()
      ensures Valid() && history == []
    {
      arms := map[];
      history := [];
    }

    method Record(band: Band, model: string, succeeded: bool, savings: int, cost: int)
      requires Valid()
      modifies this
      ensures Valid() && history == old(history) + [Outcome(ArmKey(band, model), succeeded, savings, cost)]
    {
      var key := ArmKey(band, model);
      UnseenIsEmpty(history, key);
      arms := arms[key := Recorded(Stats(arms, key), succeeded, savings, cost)];
      history := history + [Outcome(key, succeeded, savings, cost)];
      assert history[..|history| - 1] == old(history);
    }

    method Reset()
      modifies this
      ensures Valid() && history == []
    {
      arms := map[];
      history := [];
    }

    /** A band's pulls are its recorded outcomes, in whatever order the arms are visited. */
    method BandPulls(band: Band) returns (total: nat)
      requires Valid() && |history| <= U64_MAX
      ensures total == BandOutcomes(history, band)
    {
      total := 0;
      var keys := arms.Keys;
      OutcomesOfAll(history, band, keys);
      while keys != {}
        invariant keys <= arms.Keys
        invariant total + Outcomes(history, band, keys) == BandOutcomes(history, band)
        decreases |keys|
      {
        var key :| key in keys;
        OutcomesSplit(history, band, keys, key);
        PullsAreOutcomes(history, key);
        if key.band == band {
          total := total + arms[key].pulls;
        }
        keys := keys - {key};
      }
      NoOutcomes(history, band);
    }

    /** The router's first choice while the band has no data or every candidate a poor record, and
        the best reliable candidate otherwise. */
    method Select(band: Band, candidates: seq<string>, ln: real -> real, sqrt: real -> real)
      returns (choice: Option<string>)
      requires Valid() && |history| <= U64_MAX
      ensures choice.None? <==> candidates == []
      ensures (exists c :: c in candidates && Viable(Stats(arms, ArmKey(band, c)))) ==>
                Viable(Stats(arms, ArmKey(band, choice.value)))
      ensures candidates != [] ==>
                var known := Knowledge(arms, band, BandOutcomes(history, band), ln, sqrt);
                if known.total == 0 || (forall c :: c in candidates ==> !Viable(known.StatsOf(c)))
                then choice.value == candidates[0]
                else known.IsBest(candidates, choice.value)
    {
      if candidates == [] {
        return None;
      }
      var viable := Reliable(arms, band, candidates);
      ReliableOnes(arms, band, candidates);
      if viable == [] {
        return Some(candidates[0]);
      }
      var total := BandPulls(band);
      if total == 0 {
        ColdBandIsEmpty(history, ArmKey(band, candidates[0]));
        return Some(candidates[0]);
      }
      var known := Knowledge(arms, band, total, ln, sqrt);
      var best := Best(known, viable);
      return Some(best);
    }
  }

  /** The greatest of some models in the order of `Beats`. */
  method Best(known: Knowledge, models: seq<string>) returns (best: string)
    requires models != []
    ensures best in models && forall c :: c in models && c != best ==> known.Beats(best, c)
  {
    best := models[0];
    for i := 1 to |models|
      invariant best in models
      invariant forall k :: 0 <= k < i && models[k] != best ==> known.Beats(best, models[k])
    {
      var next := models[i];
      if !known.Beats(best, next) {
        forall k | 0 <= k < i && models[k] != next
          ensures known.Beats(next, models[k])
        {
          BeatsIsOrder(known, next, best, models[k]);
        }
        best := next;
      }
    }
  }

  lemma {:induction false} UnseenIsEmpty(history: seq<Outcome>, key: ArmKey)
    ensures (forall i :: 0 <= i < |history| ==> history[i].arm != key) ==> Folded(history, key) == NO_STATS
  {
    if history != [] {
      UnseenIsEmpty(history[..|history| - 1], key);
    }
  }

  /** A challenger that is not beaten beats everything the former best beats. */
  lemma BeatsIsOrder(known: Knowledge, next: string, best: string, other: string)
    requires !known.Beats(best, next) && other != next
    requires best == other || known.Beats(best, other)
    ensures known.Beats(next, other)
  {
    LessIsTotal(best, next);
    LessIsTotal(next, other);
    if Less(next, best) && Less(best, other) {
      LessTransitive(next, best, other);
    }
  }

  /** No arm of a band without outcomes has a record, so none of them is unreliable. */
  lemma {:induction false} ColdBandIsEmpty(history: seq<Outcome>, key: ArmKey)
    ensures BandOutcomes(history, key.band) == 0 ==> Folded(history, key) == NO_STATS
  {
    if history != [] {
      ColdBandIsEmpty(history[..|history| - 1], key);
    }
  }

  // ---------------------------------------------------------------------------------------
  // Laws
  // ---------------------------------------------------------------------------------------

  /** The choice depends on which candidates there are, not on their order. */
  lemma ChoiceIgnoresOrder(known: Knowledge, c1: seq<string>, c2: seq<string>, a: string, b: string)
    requires known.IsBest(c1, a) && known.IsBest(c2, b)
    requires forall c :: c in c1 <==> c in c2
    ensures a == b
  {
    LessIsTotal(a, b);
  }

  /** A reliable candidate that was never tried comes before all that were. */
  lemma UnobservedComeFirst(known: Knowledge, candidates: seq<string>, choice: string, unobserved: string)
    requires known.IsBest(candidates, choice)
    requires unobserved in candidates && known.StatsOf(unobserved).pulls == 0
    ensures known.StatsOf(choice).pulls == 0 && (choice == unobserved || Less(choice, unobserved))
  {
    assert Viable(known.StatsOf(unobserved));
  }

  predicate InRange(s: ArmStats) {
    && s.successes <= s.pulls
    && 0 <= s.totalSavings <= I64_MAX && 0 <= s.totalCost <= I64_MAX
    && (s.pulls == 0 ==> s == NO_STATS)
  }

  lemma RewardInRange(s: ArmStats)
    requires InRange(s)
    ensures 0.0 <= MeanReward(s) <= 1.0
  {
    if s.pulls > 0 {
      ShareInUnit(s.successes as real, s.pulls as real);
    }
  }

  /** Whatever was recorded, successes do not exceed pulls and the mean reward lies in [0, 1]. */
  lemma {:induction false} RunsStayInRange(history: seq<Outcome>, key: ArmKey)
    ensures InRange(Folded(history, key))
    ensures 0.0 <= MeanReward(Folded(history, key)) <= 1.0
  {
    if history != [] {
      RunsStayInRange(history[..|history| - 1], key);
    }
    RewardInRange(Folded(history, key));
  }

  /** Failing once more, without any savings to record, never raises an arm's mean reward. */
  lemma BareFailureNeverHelps(s: ArmStats, savings: int, cost: int)
    requires InRange(s) && savings <= 0
    ensures MeanReward(Recorded(s, false, savings, cost)) <= MeanReward(s)
  {
    var after := Recorded(s, false, savings, cost);
    if s.pulls == 0 {
      assert after.successes == 0 && after.totalSavings == 0;
    } else {
      QuotientFalls(s.successes as real, s.pulls as real, after.pulls as real);
      ShareInUnit(s.successes as real, s.pulls as real);
      if Baseline(s) > 0 {
        QuotientFalls(s.totalSavings as real, Baseline(s) as real, Baseline(after) as real);
      }
    }
  }

  /** The share of savings in the mean reward, as a fraction; with no amounts to compare it stands for
      the success rate. */
  function SavedPart(s: ArmStats): real { if Baseline(s) > 0 then s.totalSavings as real else s.successes as real }

  function SavedWhole(s: ArmStats): real { if Baseline(s) > 0 then Baseline(s) as real else s.pulls as real }

  function Weighted(n: real, p: real, t: real, w: real): real
    requires p > 0.0 && w > 0.0
  {
    0.7 * (n / p) + 0.3 * (t / w)
  }

  /** Three times what the share `t / w` gains outweighs seven times what the rate `n / p` loses. */
  predicate Outweighs(n: real, p: real, p': real, t: real, w: real, t': real, w': real) {
    3.0 * (p * p' * (t' * w - t * w')) > 7.0 * (n * (w * w') * (p' - p))
  }

  lemma RewardIsWeighted(s: ArmStats)
    requires InRange(s) && s.pulls > 0
    ensures SavedWhole(s) > 0.0
    ensures MeanReward(s) == Weighted(s.successes as real, s.pulls as real, SavedPart(s), SavedWhole(s))
  {
    if Baseline(s) > 0 {
      ShareInUnit(s.totalSavings as real, Baseline(s) as real);
    }
  }

  lemma WeightedGrows(n: real, p: real, p': real, t: real, w: real, t': real, w': real)
    requires p > 0.0 && p' > 0.0 && w > 0.0 && w' > 0.0
    ensures Weighted(n, p', t', w') > Weighted(n, p, t, w) <==> Outweighs(n, p, p', t, w, t', w')
  {
    var m := p * p' * (w * w');
    ProductPositive(p, p');
    ProductPositive(w, w');
    ProductPositive(p * p', w * w');
    Scale(0.7 * (n / p') + 0.3 * (t' / w'), 0.7 * (n / p) + 0.3 * (t / w), m);
    Cleared(n, p', p * (w * w'));
    Cleared(n, p, p' * (w * w'));
    Cleared(t', w', p * p' * w);
    Cleared(t, w, p * p' * w');
    Regrouped(p, p', w, w');
    Spread(n / p', t' / w', m);
    Spread(n / p, t / w, m);
    Differences(n, p, p', t, w, t', w');
  }

  lemma Regrouped(p: real, p': real, w: real, w': real)
    ensures var m := p * p' * (w * w');
            m == p' * (p * (w * w')) && m == p * (p' * (w * w')) && m == w' * (p * p' * w) && m == w * (p * p' * w')
  {
  }

  lemma Spread(x: real, y: real, m: real)
    ensures (0.7 * x + 0.3 * y) * m == 0.7 * (x * m) + 0.3 * (y * m)
  {
  }

  lemma Differences(n: real, p: real, p': real, t: real, w: real, t': real, w': real)
    ensures n * (p' * (w * w')) - n * (p * (w * w')) == n * (w * w') * (p' - p)
    ensures t' * (p * p' * w) - t * (p * p' * w') == p * p' * (t' * w - t * w')
  {
  }

  /** The gain in the savings share against the loss in the success rate. */
  predicate GainOutweighsLoss(before: ArmStats, after: ArmStats) {
    Outweighs(before.successes as real, before.pulls as real, after.pulls as real,
              SavedPart(before), SavedWhole(before), SavedPart(after), SavedWhole(after))
  }

  lemma HigherReward(before: ArmStats, after: ArmStats)
    requires InRange(before) && InRange(after) && before.pulls > 0 && after.pulls > 0
    requires after.successes == before.successes
    ensures MeanReward(after) > MeanReward(before) <==> GainOutweighsLoss(before, after)
  {
    RewardIsWeighted(before);
    RewardIsWeighted(after);
    HigherWeighted(MeanReward(before), MeanReward(after), before.successes as real, before.pulls as real,
                   after.pulls as real, SavedPart(before), SavedWhole(before), SavedPart(after), SavedWhole(after));
  }

  lemma HigherWeighted(x: real, x': real, n: real, p: real, p': real, t: real, w: real, t': real, w': real)
    requires p > 0.0 && p' > 0.0 && w > 0.0 && w' > 0.0
    requires x == Weighted(n, p, t, w) && x' == Weighted(n, p', t', w')
    ensures x' > x <==> Outweighs(n, p, p', t, w, t', w')
  {
    WeightedGrows(n, p, p', t, w, t', w');
  }

  lemma RecordedInRange(s: ArmStats, succeeded: bool, savings: int, cost: int)
    requires InRange(s)
    ensures InRange(Recorded(s, succeeded, savings, cost)) && Recorded(s, succeeded, savings, cost).pulls > 0
  {
  }

  /** Which arm a failure helps: one never tried, if it comes with savings, and any other exactly when
      the gain in its savings share outweighs the loss in its success rate. */
  lemma FailureHelpsArm(s: ArmStats, savings: int, cost: int)
    requires InRange(s)
    ensures var after := Recorded(s, false, savings, cost);
            MeanReward(after) > MeanReward(s) <==>
            if s.pulls == 0 then savings > 0 else GainOutweighsLoss(s, after)
  {
    RecordedInRange(s, false, savings, cost);
    if s.pulls == 0 {
      UntriedArm(Recorded(s, false, savings, cost), savings);
    } else {
      HigherReward(s, Recorded(s, false, savings, cost));
    }
  }

  /** Without a success the reward is all in the savings. */
  lemma OnlySavings(p: real, t: real, w: real)
    requires p > 0.0 && w > 0.0
    ensures Weighted(0.0, p, t, w) == 0.3 * (t / w)
    ensures t > 0.0 <==> t / w > 0.0
  {
    Quotient(t, w);
    Quotient(0.0, p);
    Scale(t / w, 0.0, w);
    Scale(0.0 / p, 0.0, p);
    Scale(0.0, 0.0 / p, p);
  }

  lemma UntriedArm(after: ArmStats, savings: int)
    requires InRange(after) && after.pulls == 1 && after.successes == 0
    requires after.totalSavings == Add(0, FloorAtZero(savings))
    ensures MeanReward(after) > 0.0 <==> savings > 0
  {
    RewardIsWeighted(after);
    OnlySavings(1.0, SavedPart(after), SavedWhole(after));
  }

  /** `n` successes in `p` pulls, savings `t` and cost `c` so far, all known before the call, and the call
      records the savings `g` and the cost `k`. */
  predicate HelpedBy(n: real, p: real, t: real, c: real, g: real, k: real) {
    var w, w' := t + c, t + c + g + k;
    if w' == 0.0 then false
    else if w == 0.0 then 3.0 * ((p + 1.0) * (g * p - n * w')) > 7.0 * (n * w')
    else 3.0 * (p * (p + 1.0) * (g * c - t * k)) > 7.0 * (n * (w * w'))
  }

  lemma GainBeforehand(t: real, c: real, g: real, k: real)
    ensures var w, w' := t + c, t + c + g + k; (t + g) * w - t * w' == g * c - t * k
  {
  }

  lemma OnlyRateBefore(n: real, p: real, g: real, w': real)
    requires p > 0.0
    ensures Outweighs(n, p, p + 1.0, n, p, g, w') <==> 3.0 * ((p + 1.0) * (g * p - n * w')) > 7.0 * (n * w')
  {
    var gain, loss := (p + 1.0) * (g * p - n * w'), n * w';
    assert p * (p + 1.0) * (g * p - n * w') == gain * p;
    assert n * (p * w') * (p + 1.0 - p) == loss * p;
    assert 3.0 * (gain * p) == (3.0 * gain) * p && 7.0 * (loss * p) == (7.0 * loss) * p;
    Scale(3.0 * gain, 7.0 * loss, p);
  }

  lemma OnlyRate(n: real, p: real)
    requires p > 0.0 && n >= 0.0
    ensures !Outweighs(n, p, p + 1.0, n, p, n, p + 1.0)
  {
    ProductPositive(p, p + 1.0);
    ProductNonNegative(n, p * (p + 1.0));
    assert n * p - n * (p + 1.0) == -n;
    assert p * (p + 1.0) * -n == -(n * (p * (p + 1.0)));
  }

  lemma Beforehand(n: real, p: real, t: real, c: real, g: real, k: real, part: real, whole: real, part': real, whole': real)
    requires n >= 0.0 && p > 0.0 && t >= 0.0 && c >= 0.0 && g >= 0.0 && k >= 0.0
    requires if t + c == 0.0 then part == n && whole == p else part == t && whole == t + c
    requires if t + c + g + k == 0.0 then part' == n && whole' == p + 1.0 else part' == t + g && whole' == t + c + g + k
    ensures Outweighs(n, p, p + 1.0, part, whole, part', whole') <==> HelpedBy(n, p, t, c, g, k)
  {
    if t + c + g + k == 0.0 {
      OnlyRate(n, p);
    } else if t + c == 0.0 {
      OnlyRateBefore(n, p, g, t + c + g + k);
    } else {
      GainBeforehand(t, c, g, k);
    }
  }

  /** The same in values known before the call, as long as nothing saturates. */
  lemma FailureHelpsBeforehand(s: ArmStats, savings: int, cost: int)
    requires InRange(s) && 0 < s.pulls < U64_MAX
    requires s.totalSavings + s.totalCost + FloorAtZero(savings) + FloorAtZero(cost) <= I64_MAX
    ensures MeanReward(Recorded(s, false, savings, cost)) > MeanReward(s) <==>
            HelpedBy(s.successes as real, s.pulls as real, s.totalSavings as real, s.totalCost as real,
                     FloorAtZero(savings) as real, FloorAtZero(cost) as real)
  {
    var after := Recorded(s, false, savings, cost);
    FailureHelpsArm(s, savings, cost);
    SavedAfter(s, savings, cost);
    Beforehand(s.successes as real, s.pulls as real, s.totalSavings as real, s.totalCost as real,
               FloorAtZero(savings) as real, FloorAtZero(cost) as real,
               SavedPart(s), SavedWhole(s), SavedPart(after), SavedWhole(after));
    assert after.pulls as real == s.pulls as real + 1.0;
  }

  lemma SavedAfter(s: ArmStats, savings: int, cost: int)
    requires InRange(s) && 0 < s.pulls < U64_MAX
    requires s.totalSavings + s.totalCost + FloorAtZero(savings) + FloorAtZero(cost) <= I64_MAX
    ensures var after, t, c := Recorded(s, false, savings, cost), s.totalSavings as real, s.totalCost as real;
            var g, k := FloorAtZero(savings) as real, FloorAtZero(cost) as real;
            && (if t + c == 0.0 then SavedPart(s) == s.successes as real && SavedWhole(s) == s.pulls as real
                else SavedPart(s) == t && SavedWhole(s) == t + c)
            && (if t + c + g + k == 0.0
                then SavedPart(after) == s.successes as real && SavedWhole(after) == s.pulls as real + 1.0
                else SavedPart(after) == t + g && SavedWhole(after) == t + c + g + k)
  {
    var after := Recorded(s, false, savings, cost);
    assert Baseline(s) == s.totalSavings + s.totalCost;
    assert Baseline(after) == s.totalSavings + s.totalCost + FloorAtZero(savings) + FloorAtZero(cost);
  }

  lemma FailureAfterFailure(key: ArmKey, savings: int, cost: int)
    requires savings > 0
    ensures var s := Folded([Outcome(key, false, 0, 1)], key);
            MeanReward(s) == 0.0 && MeanReward(Recorded(s, false, savings, cost)) > 0.0
  {
    var history := [Outcome(key, false, 0, 1)];
    assert history[..0] == [] && Folded([], key) == NO_STATS;
    assert Folded(history, key) == Recorded(NO_STATS, false, 0, 1) == ArmStats(1, 0, 0, 1);
    SecondFailure(ArmStats(1, 0, 0, 1), Recorded(ArmStats(1, 0, 0, 1), false, savings, cost));
  }

  lemma SecondFailure(s: ArmStats, after: ArmStats)
    requires s == ArmStats(1, 0, 0, 1) && after.pulls == 2 && after.successes == 0
    requires 0 < after.totalSavings <= I64_MAX && 0 <= after.totalCost <= I64_MAX
    ensures MeanReward(s) == 0.0 && MeanReward(after) > 0.0
  {
    RewardIsWeighted(s);
    RewardIsWeighted(after);
    OnlySavings(1.0, SavedPart(s), SavedWhole(s));
    OnlySavings(2.0, SavedPart(after), SavedWhole(after));
  }

  /** A failure can raise the mean reward of an arm: recording one raises it for some arm exactly
      when it comes with savings. */
  lemma FailureHelpsWithSavings(savings: int, cost: int)
    ensures (exists history, key ::
               MeanReward(Recorded(Folded(history, key), false, savings, cost)) > MeanReward(Folded(history, key))) <==>
            savings > 0
  {
    if savings > 0 {
      var key := ArmKey(Simple, "model");
      FailureAfterFailure(key, savings, cost);
      assert MeanReward(Recorded(Folded([Outcome(key, false, 0, 1)], key), false, savings, cost)) > 0.0;
    } else {
      forall history, key
        ensures MeanReward(Recorded(Folded(history, key), false, savings, cost)) <= MeanReward(Folded(history, key))
      {
        RunsStayInRange(history, key);
        BareFailureNeverHelps(Folded(history, key), savings, cost);
      }
    }
  }
}
