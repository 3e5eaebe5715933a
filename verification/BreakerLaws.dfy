/** The breaker's stored fields say exactly what the history of outcomes says. */
module BreakerLaws {
  import opened Reals
  import opened Wrappers
  import opened Breaker

  // ---------------------------------------------------------------------------------------
  // The circuit
  // ---------------------------------------------------------------------------------------

  /** Failures of a provider since its last success or reset. */
  function FailuresSince(events: seq<Event>, provider: string): nat {
    if events == [] then 0
    else
      var event, before := events[|events| - 1], events[..|events| - 1];
      if event.provider != provider then FailuresSince(before, provider)
      else match event
        case Success(_, _, _) => 0
        case Reset(_, _) => 0
        case Failure(_, _) => FailuresSince(before, provider) + 1
        case _ => FailuresSince(before, provider)
  }

  /** The time of a provider's last failure; 0 when there is none. */
  function LastFailure(events: seq<Event>, provider: string): nat {
    if events == [] then 0
    else
      var event, before := events[|events| - 1], events[..|events| - 1];
      if event.Failure? && event.provider == provider then event.now else LastFailure(before, provider)
  }

  /** What the state should be, told from the history alone. */
  function StateFromHistory(events: seq<Event>, provider: string, now: int): CircuitState {
    if FailuresSince(events, provider) < 5 then Closed
    else if now - LastFailure(events, provider) >= 30_000 then HalfOpen
    else Open
  }

  function Capped(n: nat): nat { if n <= U32_MAX then n else U32_MAX }

  /** The stored failure count is the true one, capped; the timer stands for the last failure once
      the threshold is reached, and for nothing before. */
  predicate Summarises(entry: BreakerEntry, failures: nat, lastFailure: nat) {
    && entry.consecutiveFailures == Capped(failures)
    && entry.openedAt == (if failures >= FAILURE_THRESHOLD then Some(lastFailure) else None)
  }

  lemma {:induction false} SummariesHold(events: seq<Event>, provider: string)
    ensures Summarises(EntryOf(Run(events).breakers, provider), FailuresSince(events, provider),
                       LastFailure(events, provider))
  {
    if events != [] {
      SummariesHold(events[..|events| - 1], provider);
    }
  }

  /** At every moment of every run the state of a provider is a function of its history: closed with
      fewer than five failures since its last success or reset, otherwise open until thirty seconds
      after the last failure, and half open from then on. */
  lemma StateIsHistory(events: seq<Event>, provider: string, now: nat)
    ensures StateOf(EntryOf(Run(events).breakers, provider), now) == StateFromHistory(events, provider, now)
  {
    SummariesHold(events, provider);
  }

  /** What a failure reports back is the state at that moment. */
  lemma FailureReportsState(events: seq<Event>, provider: string, now: nat)
    ensures var after := events + [Failure(now, provider)];
            && FailuresSince(after, provider) == FailuresSince(events, provider) + 1
            && Reported(EntryOf(Run(after).breakers, provider)) == StateFromHistory(after, provider, now)
  {
    var after := events + [Failure(now, provider)];
    assert after[..|after| - 1] == events;
    SummariesHold(after, provider);
  }

  // ---------------------------------------------------------------------------------------
  // Probing
  // ---------------------------------------------------------------------------------------

  /** Claims won for a provider since its last recorded outcome or reset. */
  function WinsSince(events: seq<Event>, provider: string): nat {
    if events == [] then 0
    else
      var event, before := events[|events| - 1], events[..|events| - 1];
      if event.provider != provider then WinsSince(before, provider)
      else match event
        case Claim(_, _, _) => WinsSince(before, provider) + if WinsLast(events) then 1 else 0
        case Check(_, _, _) => WinsSince(before, provider)
        case _ => 0
  }

  /** Between two recorded outcomes or resets at most one caller that saw the circuit half open wins
      the probe, however the checks and claims of several callers interleave. */
  lemma {:induction false} AtMostOneProbe(events: seq<Event>, provider: string)
    ensures WinsSince(events, provider) == if EntryOf(Run(events).breakers, provider).probing then 1 else 0
  {
    if events != [] {
      AtMostOneProbe(events[..|events| - 1], provider);
    }
  }

  /** Nothing is recorded for the provider and it is not reset; callers may check and claim. */
  predicate NoOutcome(events: seq<Event>, provider: string) {
    forall i :: 0 <= i < |events| && events[i].provider == provider ==> events[i].Check? || events[i].Claim?
  }

  lemma {:induction false} ProbeStaysTaken(events: seq<Event>, more: seq<Event>, provider: string)
    requires EntryOf(Run(events).breakers, provider).probing && NoOutcome(more, provider)
    ensures EntryOf(Run(events + more).breakers, provider) == EntryOf(Run(events).breakers, provider)
  {
    if more == [] {
      assert events + more == events;
    } else {
      var all, n := events + more, |more| - 1;
      ProbeStaysTaken(events, more[..n], provider);
      assert all[..|all| - 1] == events + more[..n] && all[|all| - 1] == more[n];
    }
  }

  /** A caller that wins the probe and then neither calls nor records an outcome blocks it for all: until
      someone records an outcome or resets the provider, the entry stays as it is, a circuit that is half
      open stays half open however long one waits, and no caller that sees it so wins a claim. */
  lemma AbandonedProbeBlocks(events: seq<Event>, more: seq<Event>, now: nat, later: nat, caller: nat)
    requires events != [] && WinsLast(events) && NoOutcome(more, events[|events| - 1].provider)
    requires now <= later
    ensures var provider := events[|events| - 1].provider;
            var taken, after := EntryOf(Run(events).breakers, provider), EntryOf(Run(events + more).breakers, provider);
            && after == taken && after.probing
            && (StateOf(taken, now) == HalfOpen ==> StateOf(after, later) == HalfOpen)
            && !WinsLast(events + more + [Check(now, provider, caller), Claim(later, provider, caller)])
  {
    var provider := events[|events| - 1].provider;
    var check, claim := Check(now, provider, caller), Claim(later, provider, caller);
    var all := events + more + [check, claim];
    ProbeStaysTaken(events, more, provider);
    ProbeStaysTaken(events, more + [check], provider);
    assert all[..|all| - 1] == events + (more + [check]);
  }

  // ---------------------------------------------------------------------------------------
  // The rolling window
  // ---------------------------------------------------------------------------------------

  /** When the current window of a provider began: at the first outcome, and then at the first one
      two minutes or more after the last beginning. */
  function WindowStart(events: seq<Event>, provider: string): Option<nat> {
    if events == [] then None
    else
      var event, earlier := events[|events| - 1], WindowStart(events[..|events| - 1], provider);
      if event.provider != provider then earlier
      else match event
        case Reset(_, _) => None
        case Check(_, _, _) => earlier
        case Claim(_, _, _) => earlier
        case _ => if earlier.None? || event.now - earlier.value >= 120_000 then Some(event.now) else earlier
  }

  /** Outcomes of a provider, successes or failures, in its current window. */
  function InWindow(events: seq<Event>, provider: string, successes: bool): nat {
    if events == [] then 0
    else
      var event, before := events[|events| - 1], events[..|events| - 1];
      if event.provider != provider || event.Check? || event.Claim? then InWindow(before, provider, successes)
      else if event.Reset? then 0
      else
        var carried := if WindowStart(events, provider) == WindowStart(before, provider)
                       then InWindow(before, provider, successes) else 0;
        carried + if event.Success? == successes then 1 else 0
  }

  /** The rolling counters hold the outcomes of the current window, up to what 32 bits can count. */
  lemma {:induction false} WindowHolds(events: seq<Event>, provider: string)
    ensures var entry := EntryOf(Run(events).breakers, provider);
            && entry.windowStarted == WindowStart(events, provider)
            && entry.recentSuccesses == Capped(InWindow(events, provider, true))
            && entry.recentFailures == Capped(InWindow(events, provider, false))
  {
    if events != [] {
      WindowHolds(events[..|events| - 1], provider);
    }
  }

  lemma RateOf(successes: nat, attempts: nat)
    requires attempts > 0
    ensures successes as real / attempts as real * attempts as real == successes as real
  {
    Quotient(successes as real, attempts as real);
  }

  /** The success rate is that of the outcomes, as long as the window is less than two minutes old and has five of
      them or more, and perfect otherwise; and the provider is available unless its circuit is open. */
  predicate Tells(score: HealthScore, good: nat, bad: nat, start: Option<nat>, state: CircuitState, now: nat) {
    && (if start.Some? && now - start.value < 120_000 && good + bad >= 5
        then score.successRate * (good + bad) as real == good as real
        else score.successRate == 1.0)
    && (score.available <==> state != Open)
  }

  lemma ScoreOfCounts(entry: BreakerEntry, good: nat, bad: nat, now: nat)
    requires good <= U32_MAX && bad <= U32_MAX
    requires entry.recentSuccesses == Capped(good) && entry.recentFailures == Capped(bad)
    ensures Tells(ScoreOf(entry, now), good, bad, entry.windowStarted, StateOf(entry, now), now)
  {
    if good + bad >= 5 {
      RateOf(good, good + bad);
    }
  }

  /** The score tells the history. */
  lemma ScoreIsHistory(events: seq<Event>, provider: string, now: nat)
    requires InWindow(events, provider, true) <= U32_MAX && InWindow(events, provider, false) <= U32_MAX
    ensures Tells(ScoreOf(EntryOf(Run(events).breakers, provider), now), InWindow(events, provider, true),
                  InWindow(events, provider, false), WindowStart(events, provider),
                  StateFromHistory(events, provider, now), now)
    ensures var entry := EntryOf(Run(events).breakers, provider); ScoreOf(entry, now).latencyMs == entry.ewmaLatencyMs
  {
    WindowHolds(events, provider);
    StateIsHistory(events, provider, now);
    ScoreOfCounts(EntryOf(Run(events).breakers, provider), InWindow(events, provider, true),
                  InWindow(events, provider, false), now);
  }

  /** A provider nobody has called or that was reset is scored as one without a record. */
  lemma UnknownIsUnmarked(now: nat)
    ensures ScoreOf(DEFAULT, now) == HealthScore(1.0, 0.0, true)
  {
  }

  /** The first latency is taken as it is, and each later one moves the average by a fifth of the difference. */
  lemma LatencyMovesAFifth(entry: BreakerEntry, latencyMs: real)
    ensures var before, after := entry.ewmaLatencyMs, AfterLatency(entry, latencyMs).ewmaLatencyMs;
            if before == 0.0 then after == latencyMs else 5.0 * (after - before) == latencyMs - before
  {
  }

  /** All latencies reported with successes lie within bounds; what is not positive is ignored. */
  predicate LatenciesWithin(events: seq<Event>, low: real, high: real) {
    forall i :: 0 <= i < |events| && events[i].Success? && events[i].latencyMs.Some? && events[i].latencyMs.value > 0.0 ==>
      low <= events[i].latencyMs.value <= high
  }

  /** The smoothed latency never leaves the range of the latencies reported. */
  lemma {:induction false} LatencyStaysInRange(events: seq<Event>, provider: string, low: real, high: real)
    requires 0.0 < low <= high && LatenciesWithin(events, low, high)
    ensures var latency := EntryOf(Run(events).breakers, provider).ewmaLatencyMs; latency == 0.0 || low <= latency <= high
  {
    if events != [] {
      LatencyStaysInRange(events[..|events| - 1], provider, low, high);
    }
  }

  /** The penalty makes up for the failures: a price times the rate of success, down to one in eight; a rate of
      nine in ten and more costs nothing. */
  lemma PenaltyMakesUp(score: HealthScore)
    requires 0.0 <= score.successRate <= 1.0
    ensures var rate, penalty := score.successRate, score.PricePenalty();
            if rate >= 0.9 then penalty == 1.0 else if rate >= 0.125 then penalty * rate == 1.0 else penalty == 8.0
  {
    var rate := score.successRate;
    if rate < 0.9 {
      var floored := if rate < 0.05 then 0.05 else rate;
      Quotient(1.0, floored);
      if rate < 0.125 {
        Scale(8.0, 1.0 / floored, floored);
      } else {
        Scale(1.0 / rate, 8.0, rate);
      }
    }
  }

  /** The penalty on the price lies between one and eight, and a better record never costs more. */
  lemma PenaltyIsFair(a: HealthScore, b: HealthScore)
    requires 0.0 <= a.successRate <= b.successRate <= 1.0
    ensures 1.0 <= b.PricePenalty() <= a.PricePenalty() <= MAX_PRICE_PENALTY
  {
    var fa := if a.successRate < 0.05 then 0.05 else a.successRate;
    var fb := if b.successRate < 0.05 then 0.05 else b.successRate;
    QuotientFalls(1.0, fa, fb);
    QuotientFalls(1.0, fb, 1.0);
  }
}
