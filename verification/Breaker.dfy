/** Provider health: a circuit breaker and a rolling window of outcomes for each provider. */
module Breaker {
  import opened Wrappers

  const FAILURE_THRESHOLD := 5
  const OPEN_DURATION_MS := 30_000
  const HEALTH_WINDOW_MS := 120_000
  const MIN_SAMPLE := 5
  const U32_MAX := 0xFFFF_FFFF
  const LATENCY_SMOOTHING := 0.2
  const DEGRADED_SUCCESS_RATE := 0.9
  const MAX_PRICE_PENALTY := 8.0

  datatype CircuitState = Closed | Open | HalfOpen

  datatype BreakerEntry = BreakerEntry(
    consecutiveFailures: nat,
    openedAt: Option<nat>,
    probing: bool,
    recentSuccesses: nat,
    recentFailures: nat,
    ewmaLatencyMs: real,
    windowStarted: Option<nat>)

  const DEFAULT := BreakerEntry(0, None, false, 0, 0, 0.0, None)

  /** `u32::saturating_add(1)` */
  function Bump(n: nat): nat { if n >= U32_MAX then U32_MAX else n + 1 }

  function StateOf(entry: BreakerEntry, now: int): CircuitState {
    match entry.openedAt
    case None => Closed
    case Some(since) => if now - since >= OPEN_DURATION_MS then HalfOpen else Open
  }

  function Rolled(entry: BreakerEntry, now: nat): BreakerEntry {
    if entry.windowStarted.None? || now - entry.windowStarted.value >= HEALTH_WINDOW_MS
    then entry.(windowStarted := Some(now), recentSuccesses := 0, recentFailures := 0)
    else entry
  }

  function AfterSuccess(entry: BreakerEntry, now: nat): BreakerEntry {
    var rolled := Rolled(entry, now);
    rolled.(consecutiveFailures := 0, openedAt := None, probing := false, recentSuccesses := Bump(rolled.recentSuccesses))
  }

  function AfterLatency(entry: BreakerEntry, latencyMs: real): BreakerEntry {
    entry.(ewmaLatencyMs := if entry.ewmaLatencyMs == 0.0 then latencyMs
                            else LATENCY_SMOOTHING * latencyMs + (1.0 - LATENCY_SMOOTHING) * entry.ewmaLatencyMs)
  }

  function AfterFailure(entry: BreakerEntry, now: nat): BreakerEntry {
    var rolled := Rolled(entry, now);
    var failures := Bump(rolled.consecutiveFailures);
    rolled.(consecutiveFailures := failures, recentFailures := Bump(rolled.recentFailures), probing := false,
            openedAt := if failures >= FAILURE_THRESHOLD then Some(now) else rolled.openedAt)
  }

  /** The state that a failure reports back. */
  function Reported(entry: BreakerEntry): CircuitState {
    if entry.consecutiveFailures >= FAILURE_THRESHOLD then Open else Closed
  }

  function EntryOf(breakers: map<string, BreakerEntry>, provider: string): BreakerEntry {
    if provider in breakers then breakers[provider] else DEFAULT
  }

  datatype HealthScore = HealthScore(successRate: real, latencyMs: real, available: bool) {
    /** What a shaky provider's price is multiplied by. */
    function PricePenalty(): real {
      if successRate >= DEGRADED_SUCCESS_RATE then 1.0
      else
        var floored := if successRate < 0.05 then 0.05 else successRate;
        if 1.0 / floored < MAX_PRICE_PENALTY then 1.0 / floored else MAX_PRICE_PENALTY
    }
  }

  function ScoreOf(entry: BreakerEntry, now: int): HealthScore {
    var live := entry.windowStarted.Some? && now - entry.windowStarted.value < HEALTH_WINDOW_MS;
    var attempts := entry.recentSuccesses + entry.recentFailures;
    HealthScore(if !live || attempts < MIN_SAMPLE then 1.0 else entry.recentSuccesses as real / attempts as real,
                entry.ewmaLatencyMs, StateOf(entry, now) != Open)
  }

  class ProviderHealth {
    var breakers: map<string, BreakerEntry>

    constructor ()
      ensures breakers == map[]
    {
      breakers := map[];
    }

    function State(provider: string, now: nat): CircuitState
      reads this
    {
      StateOf(EntryOf(breakers, provider), now)
    }

    method RecordSuccess(provider: string, now: nat)
      modifies this
      ensures breakers == old(breakers)[provider := AfterSuccess(EntryOf(old(breakers), provider), now)]
    {
      var entry := EntryOf(breakers, provider);
      entry := RollWindow(entry, now);
      entry := entry.(consecutiveFailures := 0);
      entry := entry.(openedAt := None);
      entry := entry.(probing := false);
      entry := entry.(recentSuccesses := Bump(entry.recentSuccesses));
      breakers := breakers[provider := entry];
    }

    method RecordSuccessWithLatency(provider: string, latencyMs: real, now: nat)
      modifies this
      ensures var after := AfterSuccess(EntryOf(old(breakers), provider), now);
              breakers == old(breakers)[provider := if latencyMs <= 0.0 then after else AfterLatency(after, latencyMs)]
    {
      RecordSuccess(provider, now);
      if latencyMs <= 0.0 {
        return;
      }
      var entry := EntryOf(breakers, provider);
      var smoothed := if entry.ewmaLatencyMs == 0.0 then latencyMs
                      else LATENCY_SMOOTHING * latencyMs + (1.0 - LATENCY_SMOOTHING) * entry.ewmaLatencyMs;
      breakers := breakers[provider := entry.(ewmaLatencyMs := smoothed)];
    }

    method RecordFailure(provider: string, now: nat) returns (state: CircuitState)
      modifies this
      ensures var after := AfterFailure(EntryOf(old(breakers), provider), now);
              && breakers == old(breakers)[provider := after]
              && state == Reported(after)
    {
      var entry := EntryOf(breakers, provider);
      entry := RollWindow(entry, now);
      entry := entry.(consecutiveFailures := Bump(entry.consecutiveFailures));
      entry := entry.(recentFailures := Bump(entry.recentFailures));
      entry := entry.(probing := false);
      state := Closed;
      if entry.consecutiveFailures >= FAILURE_THRESHOLD {
        entry := entry.(openedAt := Some(now));
        state := Open;
      }
      breakers := breakers[provider := entry];
    }

    method RollWindow(entry: BreakerEntry, now: nat) returns (rolled: BreakerEntry)
      ensures rolled == Rolled(entry, now)
    {
      rolled := entry;
      var expired := entry.windowStarted.None? || now - entry.windowStarted.value >= HEALTH_WINDOW_MS;
      if expired {
        rolled := rolled.(windowStarted := Some(now), recentSuccesses := 0, recentFailures := 0);
      }
    }

    /** The second half of `try_probe`: taking the slot, once the circuit was seen half open. */
    method Claim(provider: string) returns (won: bool)
      modifies this
      ensures won == !EntryOf(old(breakers), provider).probing
      ensures breakers == old(breakers)[provider := EntryOf(old(breakers), provider).(probing := true)]
    {
      var entry := EntryOf(breakers, provider);
      if entry.probing {
        breakers := breakers[provider := entry];
        return false;
      }
      breakers := breakers[provider := entry.(probing := true)];
      return true;
    }

    method TryProbe(provider: string, now: nat) returns (mayCall: bool)
      modifies this
      ensures var entry := EntryOf(old(breakers), provider);
              if StateOf(entry, now) == HalfOpen
              then mayCall == !entry.probing && breakers == old(breakers)[provider := entry.(probing := true)]
              else mayCall && breakers == old(breakers)
    {
      if State(provider, now) != HalfOpen {
        return true;
      }
      mayCall := Claim(provider);
    }

    method Score(provider: string, now: nat) returns (score: HealthScore)
      ensures score == if provider in breakers then ScoreOf(breakers[provider], now)
                       else HealthScore(1.0, 0.0, true)
    {
      var available := State(provider, now) != Open;
      if provider !in breakers {
        return HealthScore(1.0, 0.0, available);
      }
      var entry := breakers[provider];
      var windowLive := entry.windowStarted.Some? && now - entry.windowStarted.value < HEALTH_WINDOW_MS;
      var attempts := entry.recentSuccesses + entry.recentFailures;
      var rate := if !windowLive || attempts < MIN_SAMPLE then 1.0 else entry.recentSuccesses as real / attempts as real;
      score := HealthScore(rate, entry.ewmaLatencyMs, available);
    }

    method Reset(provider: string)
      modifies this
      ensures breakers == old(breakers) - {provider}
    {
      breakers := breakers - {provider};
    }
  }

  // ---------------------------------------------------------------------------------------
  // Runs
  // ---------------------------------------------------------------------------------------

  /** A step of a run, at time `now`. Callers probe in two steps that others may come between: they
      look at the state, and when they saw it half open they claim the slot. */
  datatype Event =
    | Success(now: nat, provider: string, latencyMs: Option<real>)
    | Failure(now: nat, provider: string)
    | Reset(now: nat, provider: string)
    | Check(now: nat, provider: string, caller: nat)
    | Claim(now: nat, provider: string, caller: nat)

  /** The breakers, and which callers have seen which provider half open and not yet claimed. */
  datatype World = World(breakers: map<string, BreakerEntry>, waiting: set<(nat, string)>)

  function Next(world: World, event: Event): World {
    var entry := EntryOf(world.breakers, event.provider);
    match event
    case Success(now, provider, latency) =>
      var after := AfterSuccess(entry, now);
      world.(breakers := world.breakers[provider :=
               if latency.Some? && latency.value > 0.0 then AfterLatency(after, latency.value) else after])
    case Failure(now, provider) => world.(breakers := world.breakers[provider := AfterFailure(entry, now)])
    case Reset(now, provider) => world.(breakers := world.breakers - {provider})
    case Check(now, provider, caller) =>
      if StateOf(entry, now) == HalfOpen then world.(waiting := world.waiting + {(caller, provider)}) else world
    case Claim(now, provider, caller) =>
      if (caller, provider) in world.waiting
      then World(world.breakers[provider := entry.(probing := true)], world.waiting - {(caller, provider)})
      else world
  }

  function Run(events: seq<Event>): World {
    if events == [] then World(map[], {}) else Next(Run(events[..|events| - 1]), events[|events| - 1])
  }

  /** The last event is a claim that takes the slot. */
  predicate WinsLast(events: seq<Event>)
    requires events != []
  {
    var world, event := Run(events[..|events| - 1]), events[|events| - 1];
    event.Claim? && (event.caller, event.provider) in world.waiting && !EntryOf(world.breakers, event.provider).probing
  }
}
