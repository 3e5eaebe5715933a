/** The usage tables: records inserted once per request, and the daily rollup folded from them. */
module UsageTables {
  import opened Wrappers

  /** Micro-seconds in a day; time stamps count from an epoch, and days begin at midnight UTC. */
  const DAY := 86_400_000_000

  datatype CacheType = Exact | Semantic | Miss

  datatype Event = Event(
    request: nat,
    createdAt: int,
    org: nat,
    team: Option<nat>,
    model: string,
    inputTokens: nat,
    outputTokens: nat,
    baseline: int,
    actual: int,
    savings: int,
    fee: int,
    routing: int,
    compression: int,
    caching: int,
    cacheHit: bool,
    cacheType: CacheType)

  /** Sums of the columns that records and rollup share. */
  datatype Totals = Totals(
    requests: int, hits: int, input: int, output: int, baseline: int, actual: int, savings: int, fee: int)

  const ZERO := Totals(0, 0, 0, 0, 0, 0, 0, 0)

  function Plus(a: Totals, b: Totals): Totals {
    Totals(a.requests + b.requests, a.hits + b.hits, a.input + b.input, a.output + b.output,
           a.baseline + b.baseline, a.actual + b.actual, a.savings + b.savings, a.fee + b.fee)
  }

  /** A cast to a signed 32-bit integer. */
  function AsI32(n: int): int { (n + 0x8000_0000) % 0x1_0000_0000 - 0x8000_0000 }

  /** A cast to a signed 64-bit integer. */
  function AsI64(n: int): int { (n + 0x8000_0000_0000_0000) % 0x1_0000_0000_0000_0000 - 0x8000_0000_0000_0000 }

  /** One record adds this to the summary: its token columns are 32 bits wide. */
  function Stored(e: Event): Totals {
    Totals(1, if e.cacheHit then 1 else 0, AsI32(e.inputTokens), AsI32(e.outputTokens),
           e.baseline, e.actual, e.savings, e.fee)
  }

  /** One event adds this to the rollup: its token columns are 64 bits wide. */
  function Folded(e: Event): Totals {
    Totals(1, if e.cacheHit then 1 else 0, AsI64(e.inputTokens), AsI64(e.outputTokens),
           e.baseline, e.actual, e.savings, e.fee)
  }

  /** The check constraints of the records table. */
  predicate Acceptable(e: Event) {
    && AsI32(e.inputTokens) >= 0 && AsI32(e.outputTokens) >= 0
    && e.savings >= 0 && 0 <= e.fee <= e.savings
    && e.routing >= 0 && e.compression >= 0 && e.caching >= 0
    && e.routing + e.compression + e.caching <= e.savings
    && (e.cacheHit ==> e.actual == 0)
    && (e.cacheHit <==> e.cacheType != Miss)
  }

  function Day(createdAt: int): int { createdAt / DAY }

  datatype RollupKey = RollupKey(org: nat, day: int, model: string, team: nat)

  datatype RollupRow = RollupRow(key: RollupKey, totals: Totals)

  /** A missing team is the zero identifier. */
  function KeyOf(e: Event): RollupKey {
    RollupKey(e.org, Day(e.createdAt), e.model, if e.team.Some? then e.team.value else 0)
  }

  predicate SameRequest(a: Event, b: Event) { a.request == b.request && a.createdAt == b.createdAt }

  predicate Present(records: seq<Event>, e: Event) {
    exists i :: 0 <= i < |records| && SameRequest(records[i], e)
  }

  /** The row of a key, with `added` in it; a new row when the key has none. */
  function Upserted(rollup: seq<RollupRow>, key: RollupKey, added: Totals): seq<RollupRow> {
    if rollup == [] then [RollupRow(key, added)]
    else
      var n := |rollup| - 1;
      if rollup[n].key == key then rollup[..n] + [RollupRow(key, Plus(rollup[n].totals, added))]
      else Upserted(rollup[..n], key, added) + [rollup[n]]
  }

  datatype Tables = Tables(records: seq<Event>, rollup: seq<RollupRow>)

  const EMPTY := Tables([], [])

  datatype InsertResult = Inserted | Duplicate | Rejected

  function InsertOutcome(records: seq<Event>, e: Event): InsertResult {
    if !Acceptable(e) then Rejected else if Present(records, e) then Duplicate else Inserted
  }

  /** An event handed to the tables, and whether a fold of it would succeed. It does not when the rollup
      refuses, or when the writer never learns that its insert was committed. */
  datatype Delivery = Delivery(event: Event, folds: bool)

  /** One delivery: the insert, and the fold when the insert wrote a row. */
  function Delivered(t: Tables, d: Delivery): Tables {
    if InsertOutcome(t.records, d.event) != Inserted then t
    else Tables(t.records + [d.event],
                if d.folds then Upserted(t.rollup, KeyOf(d.event), Folded(d.event)) else t.rollup)
  }

  class Database {
    var records: seq<Event>
    var rollup: seq<RollupRow>

    constructor ()
      ensures Tables(records, rollup) == EMPTY
    {
      records, rollup := [], [];
    }

    method InsertUsageRecord(e: Event) returns (result: InsertResult)
      modifies this`records
      ensures result == InsertOutcome(old(records), e)
      ensures records == if result == Inserted then old(records) + [e] else old(records)
    {
      if !Acceptable(e) {
        return Rejected;
      }
      for i := 0 to |records|
        invariant forall k :: 0 <= k < i ==> !SameRequest(records[k], e)
        invariant records == old(records)
      {
        if SameRequest(records[i], e) {
          return Duplicate;
        }
      }
      records := records + [e];
      result := Inserted;
    }

    method UpsertDailyAggregate(e: Event)
      modifies this`rollup
      ensures rollup == Upserted(old(rollup), KeyOf(e), Folded(e))
    {
      rollup := Upserted(rollup, KeyOf(e), Folded(e));
    }

    /** One event of a batch of the usage writer. A fold that fails is dropped. */
    method Deliver(d: Delivery) returns (result: InsertResult)
      modifies this
      ensures result == InsertOutcome(old(records), d.event)
      ensures Tables(records, rollup) == Delivered(Tables(old(records), old(rollup)), d)
    {
      result := InsertUsageRecord(d.event);
      if result == Inserted {
        if d.folds {
          UpsertDailyAggregate(d.event);
        }
      }
    }
  }

  /** The tables after some deliveries, one by one, repeats included. */
  function Run(deliveries: seq<Delivery>): Tables {
    if deliveries == [] then EMPTY else Delivered(Run(deliveries[..|deliveries| - 1]), deliveries[|deliveries| - 1])
  }

  function EventsOf(deliveries: seq<Delivery>): (events: seq<Event>)
    ensures |events| == |deliveries| && forall i :: 0 <= i < |events| ==> events[i] == deliveries[i].event
  {
    if deliveries == [] then []
    else EventsOf(deliveries[..|deliveries| - 1]) + [deliveries[|deliveries| - 1].event]
  }

  /** Nothing, or the event when its insert wrote a row and its fold is lost. */
  function LostBy(records: seq<Event>, d: Delivery): seq<Event> {
    if InsertOutcome(records, d.event) == Inserted && !d.folds then [d.event] else []
  }

  lemma {:induction false} EventsOfConcat(a: seq<Delivery>, b: seq<Delivery>)
    ensures EventsOf(a + b) == EventsOf(a) + EventsOf(b)
  {
    if b == [] {
      assert a + b == a;
    } else {
      EventsOfConcat(a, b[..|b| - 1]);
      assert (a + b)[..|a + b| - 1] == a + b[..|b| - 1];
    }
  }

  /** The events that were recorded without being folded. */
  function LostFolds(deliveries: seq<Delivery>): seq<Event> {
    if deliveries == [] then []
    else
      var before := deliveries[..|deliveries| - 1];
      LostFolds(before) + LostBy(Run(before).records, deliveries[|deliveries| - 1])
  }

  // ---------------------------------------------------------------------------------------
  // Queries
  // ---------------------------------------------------------------------------------------

  /** `usage_summary`: the records of an organisation created in [from, to). */
  function UsageSummary(records: seq<Event>, org: nat, from: int, to: int): Totals {
    if records == [] then ZERO
    else
      var last := records[|records| - 1];
      Plus(UsageSummary(records[..|records| - 1], org, from, to),
           if last.org == org && from <= last.createdAt < to then Stored(last) else ZERO)
  }

  /** The rollup rows of an organisation for the days in [first, end). */
  function RollupTotal(rollup: seq<RollupRow>, org: nat, first: int, end: int): Totals {
    if rollup == [] then ZERO
    else
      var last := rollup[|rollup| - 1];
      Plus(RollupTotal(rollup[..|rollup| - 1], org, first, end),
           if last.key.org == org && first <= last.key.day < end then last.totals else ZERO)
  }

  // ---------------------------------------------------------------------------------------
  // Laws
  // ---------------------------------------------------------------------------------------

  function Keys(rollup: seq<RollupRow>): (keys: set<RollupKey>)
    ensures forall i :: 0 <= i < |rollup| ==> rollup[i].key in keys
  {
    if rollup == [] then {} else Keys(rollup[..|rollup| - 1]) + {rollup[|rollup| - 1].key}
  }

  /** No key has two rollup rows. */
  predicate DistinctKeys(rollup: seq<RollupRow>)
    ensures DistinctKeys(rollup) ==> forall i, j :: 0 <= i < j < |rollup| ==> rollup[i].key != rollup[j].key
  {
    rollup == [] ||
    (rollup[|rollup| - 1].key !in Keys(rollup[..|rollup| - 1]) && DistinctKeys(rollup[..|rollup| - 1]))
  }

  /** No request has two records. */
  predicate DistinctRequests(records: seq<Event>) {
    forall i, j :: 0 <= i < j < |records| ==> !SameRequest(records[i], records[j])
  }

  lemma {:induction false} UpsertedKeys(rollup: seq<RollupRow>, key: RollupKey, added: Totals)
    requires DistinctKeys(rollup)
    ensures DistinctKeys(Upserted(rollup, key, added))
    ensures Keys(Upserted(rollup, key, added)) == Keys(rollup) + {key}
  {
    if rollup != [] {
      var n := |rollup| - 1;
      var upserted := Upserted(rollup, key, added);
      if rollup[n].key == key {
        assert upserted[..n] == rollup[..n];
      } else {
        UpsertedKeys(rollup[..n], key, added);
        assert upserted[..|upserted| - 1] == Upserted(rollup[..n], key, added);
      }
    }
  }

  /** However often and in whatever order events are delivered, and whichever folds are lost, each request
      is recorded once and each rollup key has one row. */
  lemma {:induction false} OneRecordPerRequest(deliveries: seq<Delivery>)
    ensures DistinctRequests(Run(deliveries).records) && DistinctKeys(Run(deliveries).rollup)
  {
    if deliveries != [] {
      var before, last := Run(deliveries[..|deliveries| - 1]), deliveries[|deliveries| - 1].event;
      OneRecordPerRequest(deliveries[..|deliveries| - 1]);
      UpsertedKeys(before.rollup, KeyOf(last), Folded(last));
    }
  }

  /** Every record was delivered and is acceptable, and no acceptable delivery goes unrecorded. */
  lemma {:induction false} RecordsAreDeliveries(deliveries: seq<Delivery>)
    ensures forall e :: e in Run(deliveries).records ==> e in EventsOf(deliveries) && Acceptable(e)
    ensures forall e :: e in EventsOf(deliveries) && Acceptable(e) ==> Present(Run(deliveries).records, e)
  {
    if deliveries != [] {
      var front, last := deliveries[..|deliveries| - 1], deliveries[|deliveries| - 1].event;
      var before, after, events := Run(front).records, Run(deliveries).records, EventsOf(deliveries);
      RecordsAreDeliveries(front);
      assert InsertOutcome(before, last) == Inserted ==> after == before + [last] && SameRequest(after[|before|], last);
      forall e | e in events && Acceptable(e)
        ensures Present(after, e)
      {
        if Present(before, e) {
          var i :| 0 <= i < |before| && SameRequest(before[i], e);
          assert after[i] == before[i];
        }
      }
    }
  }

  /** Requests that are not given different contents. */
  predicate Consistent(a: seq<Event>, b: seq<Event>) {
    forall x, y :: x in a && y in b && SameRequest(x, y) ==> x == y
  }

  /** Delivering the same events in another order, and each any number of times, leaves the same
      records, whichever folds are lost. */
  lemma OrderAndRepeatsDoNotMatter(a: seq<Delivery>, b: seq<Delivery>)
    requires Consistent(EventsOf(a), EventsOf(b)) && forall e :: e in EventsOf(a) <==> e in EventsOf(b)
    ensures multiset(Run(a).records) == multiset(Run(b).records)
  {
    OneRecordPerRequest(a);
    OneRecordPerRequest(b);
    RecordedAsWell(a, b);
    RecordedAsWell(b, a);
    SameMembers(Run(a).records, Run(b).records);
  }

  lemma RecordedAsWell(a: seq<Delivery>, b: seq<Delivery>)
    requires Consistent(EventsOf(a), EventsOf(b)) && forall e :: e in EventsOf(a) <==> e in EventsOf(b)
    ensures forall e :: e in Run(a).records ==> e in Run(b).records
  {
    RecordsAreDeliveries(a);
    RecordsAreDeliveries(b);
    forall e | e in Run(a).records
      ensures e in Run(b).records
    {
      assert Present(Run(b).records, e);
      var i :| 0 <= i < |Run(b).records| && SameRequest(Run(b).records[i], e);
      assert Run(b).records[i] in EventsOf(b) && e in EventsOf(a);
    }
  }

  lemma SameMembers(a: seq<Event>, b: seq<Event>)
    requires DistinctRequests(a) && DistinctRequests(b)
    requires forall e :: e in a <==> e in b
    ensures multiset(a) == multiset(b)
  {
    forall e
      ensures multiset(a)[e] == multiset(b)[e]
    {
      AtMostOnce(a, e);
      AtMostOnce(b, e);
    }
  }

  lemma {:induction false} AtMostOnce(records: seq<Event>, e: Event)
    requires DistinctRequests(records)
    ensures multiset(records)[e] == if e in records then 1 else 0
  {
    if records != [] {
      var n := |records| - 1;
      AtMostOnce(records[..n], e);
      assert records == records[..n] + [records[n]];
    }
  }

  lemma {:induction false} UpsertAdds(rollup: seq<RollupRow>, key: RollupKey, added: Totals, org: nat, first: int, end: int)
    ensures RollupTotal(Upserted(rollup, key, added), org, first, end) ==
            Plus(RollupTotal(rollup, org, first, end),
                 if key.org == org && first <= key.day < end then added else ZERO)
  {
    if rollup != [] {
      var n := |rollup| - 1;
      var upserted := Upserted(rollup, key, added);
      if rollup[n].key == key {
        assert upserted[..n] == rollup[..n];
      } else {
        UpsertAdds(rollup[..n], key, added, org, first, end);
        assert upserted[..|upserted| - 1] == Upserted(rollup[..n], key, added);
      }
    }
  }

  lemma DayRange(createdAt: int, first: int, end: int)
    ensures first * DAY <= createdAt < end * DAY <==> first <= Day(createdAt) < end
  {
  }

  /** Casting to 32 and to 64 bits agrees on the token counts a record can hold, and on no others
      that pass the check constraint. */
  lemma CastsAgree(tokens: nat)
    requires tokens < 0x1_0000_0000_0000_0000 && AsI32(tokens) >= 0
    ensures AsI32(tokens) == AsI64(tokens) <==> tokens < 0x8000_0000
  {
  }

  function WithoutTokens(t: Totals): Totals { t.(input := 0, output := 0) }

  predicate Within(e: Event, org: nat, first: int, end: int) { e.org == org && first <= Day(e.createdAt) < end }

  /** What folding an event adds to the rollup of an organisation for the days in [first, end). */
  function FoldedWithin(e: Event, org: nat, first: int, end: int): Totals {
    if Within(e, org, first, end) then Folded(e) else ZERO
  }

  /** What recording an event adds to the summary of an organisation for the days in [first, end). */
  function StoredWithin(e: Event, org: nat, first: int, end: int): Totals {
    if Within(e, org, first, end) then Stored(e) else ZERO
  }

  function FoldedTotal(events: seq<Event>, org: nat, first: int, end: int): Totals {
    if events == [] then ZERO
    else Plus(FoldedTotal(events[..|events| - 1], org, first, end), FoldedWithin(events[|events| - 1], org, first, end))
  }

  lemma FoldedSnoc(events: seq<Event>, e: Event, org: nat, first: int, end: int)
    ensures FoldedTotal(events + [e], org, first, end) ==
            Plus(FoldedTotal(events, org, first, end), FoldedWithin(e, org, first, end))
  {
    assert (events + [e])[..|events|] == events;
  }

  lemma SummarySnoc(records: seq<Event>, e: Event, org: nat, first: int, end: int)
    ensures UsageSummary(records + [e], org, first * DAY, end * DAY) ==
            Plus(UsageSummary(records, org, first * DAY, end * DAY), StoredWithin(e, org, first, end))
  {
    assert (records + [e])[..|records|] == records;
    DayRange(e.createdAt, first, end);
  }

  lemma FoldAdds(rollup: seq<RollupRow>, e: Event, org: nat, first: int, end: int)
    ensures RollupTotal(Upserted(rollup, KeyOf(e), Folded(e)), org, first, end) ==
            Plus(RollupTotal(rollup, org, first, end), FoldedWithin(e, org, first, end))
  {
    UpsertAdds(rollup, KeyOf(e), Folded(e), org, first, end);
  }

  lemma PlusShifts(rollup: Totals, lost: Totals, all: Totals, added: Totals)
    requires Plus(rollup, lost) == all
    ensures Plus(Plus(rollup, added), lost) == Plus(all, added) && Plus(rollup, Plus(lost, added)) == Plus(all, added)
  {
  }

  /** Rollup and lost folds together hold every record once, in every column. */
  predicate Accounted(t: Tables, lost: seq<Event>, org: nat, first: int, end: int) {
    Plus(RollupTotal(t.rollup, org, first, end), FoldedTotal(lost, org, first, end)) ==
    FoldedTotal(t.records, org, first, end)
  }

  lemma NothingYet(t: Tables, lost: seq<Event>, org: nat, first: int, end: int)
    requires t.records == [] && t.rollup == [] && lost == []
    ensures Accounted(t, lost, org, first, end)
  {
    NothingFolded(lost, org, first, end);
    NothingFolded(t.records, org, first, end);
    NothingAdded(RollupTotal(t.rollup, org, first, end), FoldedTotal(lost, org, first, end));
  }

  lemma NothingFolded(events: seq<Event>, org: nat, first: int, end: int)
    requires events == []
    ensures FoldedTotal(events, org, first, end) == ZERO
  {
  }

  lemma NothingAdded(a: Totals, b: Totals)
    requires a == b == ZERO
    ensures Plus(a, b) == ZERO
  {
  }

  lemma {:induction false} RollupAndLostFolds(deliveries: seq<Delivery>, org: nat, first: int, end: int)
    ensures Accounted(Run(deliveries), LostFolds(deliveries), org, first, end)
  {
    if deliveries != [] {
      var front, last := deliveries[..|deliveries| - 1], deliveries[|deliveries| - 1];
      RollupAndLostFolds(front, org, first, end);
      OneMoreDelivery(Run(front), Run(deliveries), LostFolds(front), LostFolds(deliveries), last, org, first, end);
    } else {
      NothingYet(Run(deliveries), LostFolds(deliveries), org, first, end);
    }
  }

  lemma OneMoreDelivery(t: Tables, t': Tables, lost: seq<Event>, lost': seq<Event>, d: Delivery,
                        org: nat, first: int, end: int)
    requires t' == Delivered(t, d) && lost' == lost + LostBy(t.records, d) && Accounted(t, lost, org, first, end)
    ensures Accounted(t', lost', org, first, end)
  {
    if InsertOutcome(t.records, d.event) != Inserted {
      assert t' == t && lost' == lost;
    } else {
      OneMoreRecord(t.records, t.rollup, lost, d.event, org, first, end);
      if d.folds {
        assert t' == Tables(t.records + [d.event], Upserted(t.rollup, KeyOf(d.event), Folded(d.event))) && lost' == lost;
      } else {
        assert t' == Tables(t.records + [d.event], t.rollup) && lost' == lost + [d.event];
      }
    }
  }

  lemma OneMoreRecord(records: seq<Event>, rollup: seq<RollupRow>, lost: seq<Event>, e: Event,
                      org: nat, first: int, end: int)
    requires Accounted(Tables(records, rollup), lost, org, first, end)
    ensures Accounted(Tables(records + [e], Upserted(rollup, KeyOf(e), Folded(e))), lost, org, first, end)
    ensures Accounted(Tables(records + [e], rollup), lost + [e], org, first, end)
  {
    FoldedSnoc(records, e, org, first, end);
    FoldedSnoc(lost, e, org, first, end);
    FoldAdds(rollup, e, org, first, end);
    PlusShifts(RollupTotal(rollup, org, first, end), FoldedTotal(lost, org, first, end),
               FoldedTotal(records, org, first, end), FoldedWithin(e, org, first, end));
  }

  lemma {:induction false} SummaryIsFolded(records: seq<Event>, org: nat, first: int, end: int)
    ensures WithoutTokens(FoldedTotal(records, org, first, end)) ==
            WithoutTokens(UsageSummary(records, org, first * DAY, end * DAY))
  {
    if records != [] {
      var front, last := records[..|records| - 1], records[|records| - 1];
      SummaryIsFolded(front, org, first, end);
      assert records == front + [last];
      FoldedSnoc(front, last, org, first, end);
      SummarySnoc(front, last, org, first, end);
      SameWithoutTokens(last, org, first, end);
      PlusWithoutTokens(FoldedTotal(front, org, first, end), FoldedWithin(last, org, first, end),
                        UsageSummary(front, org, first * DAY, end * DAY), StoredWithin(last, org, first, end));
    }
  }

  lemma SameWithoutTokens(e: Event, org: nat, first: int, end: int)
    ensures WithoutTokens(FoldedWithin(e, org, first, end)) == WithoutTokens(StoredWithin(e, org, first, end))
  {
  }

  lemma PlusWithoutTokens(a: Totals, b: Totals, c: Totals, d: Totals)
    requires WithoutTokens(a) == WithoutTokens(c) && WithoutTokens(b) == WithoutTokens(d)
    ensures WithoutTokens(Plus(a, b)) == WithoutTokens(Plus(c, d))
  {
  }

  /** None of the events concerns the organisation and the days. */
  predicate NoneWithin(events: seq<Event>, org: nat, first: int, end: int) {
    forall e :: e in events ==> !Within(e, org, first, end)
  }

  lemma NoneWithinSnoc(events: seq<Event>, e: Event, org: nat, first: int, end: int)
    ensures NoneWithin(events + [e], org, first, end) <==> NoneWithin(events, org, first, end) && !Within(e, org, first, end)
  {
    assert e in events + [e];
    assert forall x :: x in events + [e] <==> x in events || x == e;
  }

  lemma RequestsAdd(all: Totals, added: Totals)
    ensures Plus(all, added).requests == all.requests + added.requests && (added == ZERO ==> Plus(all, added) == all)
  {
  }

  lemma RequestOf(e: Event, org: nat, first: int, end: int)
    ensures var added := FoldedWithin(e, org, first, end);
            if Within(e, org, first, end) then added.requests == 1 else added == ZERO
  {
  }

  /** The events that concern the organisation and the days add at least a request each. */
  predicate Counted(events: seq<Event>, org: nat, first: int, end: int) {
    var total := FoldedTotal(events, org, first, end);
    total.requests >= 0 && if NoneWithin(events, org, first, end) then total == ZERO else total.requests > 0
  }

  lemma CountedSnoc(events: seq<Event>, e: Event, org: nat, first: int, end: int)
    requires Counted(events, org, first, end)
    ensures Counted(events + [e], org, first, end)
  {
    FoldedSnoc(events, e, org, first, end);
    NoneWithinSnoc(events, e, org, first, end);
    RequestOf(e, org, first, end);
    RequestsAdd(FoldedTotal(events, org, first, end), FoldedWithin(e, org, first, end));
  }

  lemma {:induction false} FoldedCounts(events: seq<Event>, org: nat, first: int, end: int)
    ensures Counted(events, org, first, end)
  {
    if events != [] {
      var n := |events| - 1;
      FoldedCounts(events[..n], org, first, end);
      CountedSnoc(events[..n], events[n], org, first, end);
      assert events == events[..n] + [events[n]];
    }
  }

  lemma SameWithoutLosses(rollup: Totals, lost: Totals, all: Totals, summary: Totals)
    requires Plus(rollup, lost) == all && WithoutTokens(all) == WithoutTokens(summary)
    requires lost == ZERO || lost.requests > 0
    ensures WithoutTokens(Plus(rollup, lost)) == WithoutTokens(summary)
    ensures WithoutTokens(rollup) == WithoutTokens(summary) <==> lost == ZERO
  {
  }

  /** Every column but the token counts: what the usage summary has beyond the rollup of the same whole
      days is the sum of the lost folds. So they are equal exactly when no lost fold falls there. */
  lemma RollupMatchesSummary(deliveries: seq<Delivery>, org: nat, first: int, end: int)
    ensures var t, lost := Run(deliveries), LostFolds(deliveries);
            var rollup := RollupTotal(t.rollup, org, first, end);
            var summary := UsageSummary(t.records, org, first * DAY, end * DAY);
            && WithoutTokens(Plus(rollup, FoldedTotal(lost, org, first, end))) == WithoutTokens(summary)
            && (WithoutTokens(rollup) == WithoutTokens(summary) <==> NoneWithin(lost, org, first, end))
  {
    var t, lost := Run(deliveries), LostFolds(deliveries);
    RollupAndLostFolds(deliveries, org, first, end);
    SummaryIsFolded(t.records, org, first, end);
    FoldedCounts(lost, org, first, end);
    SameWithoutLosses(RollupTotal(t.rollup, org, first, end), FoldedTotal(lost, org, first, end),
                      FoldedTotal(t.records, org, first, end), UsageSummary(t.records, org, first * DAY, end * DAY));
  }

  /** A lost fold is never made up for, whatever is delivered later. */
  lemma {:induction false} LossesStay(deliveries: seq<Delivery>, more: seq<Delivery>)
    ensures LostFolds(deliveries) <= LostFolds(deliveries + more)
  {
    if more == [] {
      assert deliveries + more == deliveries;
    } else {
      var all, n := deliveries + more, |more| - 1;
      LossesStay(deliveries, more[..n]);
      assert all[..|all| - 1] == deliveries + more[..n];
    }
  }

  predicate Agree(t: Tables, org: nat, first: int, end: int) {
    RollupTotal(t.rollup, org, first, end) == UsageSummary(t.records, org, first * DAY, end * DAY)
  }

  /** The token counts fit the record's columns. */
  predicate TokensFit(e: Event) { e.inputTokens < 0x8000_0000 && e.outputTokens < 0x8000_0000 }

  /** The counts are unsigned 64-bit integers. */
  predicate Sized(e: Event) {
    e.inputTokens < 0x1_0000_0000_0000_0000 && e.outputTokens < 0x1_0000_0000_0000_0000
  }

  /** All columns: an insert keeps rollup and summary equal exactly when it is folded and its token
      counts fit, or it does not concern them. */
  lemma DeliveryKeepsAgreement(t: Tables, d: Delivery, org: nat, first: int, end: int)
    requires Agree(t, org, first, end) && Sized(d.event)
    ensures Agree(Delivered(t, d), org, first, end) <==>
            (InsertOutcome(t.records, d.event) == Inserted && Within(d.event, org, first, end) ==>
               TokensFit(d.event) && d.folds)
  {
    if InsertOutcome(t.records, d.event) == Inserted {
      var within, rollup := Within(d.event, org, first, end), RollupTotal(t.rollup, org, first, end);
      FoldAdds(t.rollup, d.event, org, first, end);
      SummarySnoc(t.records, d.event, org, first, end);
      StoredAsFolded(d.event, org, first, end);
      PlusCancels(rollup, if d.folds then FoldedWithin(d.event, org, first, end) else ZERO,
                  StoredWithin(d.event, org, first, end));
    }
  }

  lemma PlusCancels(a: Totals, b: Totals, c: Totals)
    ensures Plus(a, b) == Plus(a, c) <==> b == c
    ensures Plus(a, ZERO) == a
  {
  }

  lemma StoredAsFolded(e: Event, org: nat, first: int, end: int)
    requires Sized(e) && Acceptable(e)
    ensures var folded, stored := FoldedWithin(e, org, first, end), StoredWithin(e, org, first, end);
            if Within(e, org, first, end) then (folded == stored <==> TokensFit(e)) && stored != ZERO
            else folded == stored == ZERO
  {
    CastsAgree(e.inputTokens);
    CastsAgree(e.outputTokens);
  }

  /** Rollup and summary agree now and after every earlier delivery. */
  predicate AlwaysAgree(deliveries: seq<Delivery>, org: nat, first: int, end: int) {
    Agree(Run(deliveries), org, first, end) &&
    (deliveries == [] || AlwaysAgree(deliveries[..|deliveries| - 1], org, first, end))
  }

  /** All columns agree after every delivery of a run exactly when each record it leaves for that
      organisation and those days was folded and has token counts that fit 31 bits. */
  lemma {:induction false} AgreementCondition(deliveries: seq<Delivery>, org: nat, first: int, end: int)
    requires forall i :: 0 <= i < |deliveries| ==> Sized(deliveries[i].event)
    ensures AlwaysAgree(deliveries, org, first, end) <==>
            AllFit(Run(deliveries).records, org, first, end) && NoneWithin(LostFolds(deliveries), org, first, end)
  {
    if deliveries != [] {
      var front, last := deliveries[..|deliveries| - 1], deliveries[|deliveries| - 1];
      AgreementCondition(front, org, first, end);
      FitAndNotLost(Run(front), LostFolds(front), last, org, first, end);
      if Agree(Run(front), org, first, end) {
        DeliveryKeepsAgreement(Run(front), last, org, first, end);
      }
    }
  }

  /** Those of the records that concern the organisation and the days have token counts that fit 31 bits. */
  predicate AllFit(records: seq<Event>, org: nat, first: int, end: int) {
    forall e :: e in records && Within(e, org, first, end) ==> TokensFit(e)
  }

  lemma FitAndNotLost(t: Tables, lost: seq<Event>, d: Delivery, org: nat, first: int, end: int)
    ensures var inserted := InsertOutcome(t.records, d.event) == Inserted;
            AllFit(Delivered(t, d).records, org, first, end) && NoneWithin(lost + LostBy(t.records, d), org, first, end) <==>
            && AllFit(t.records, org, first, end) && NoneWithin(lost, org, first, end)
            && (inserted && Within(d.event, org, first, end) ==> TokensFit(d.event) && d.folds)
  {
    assert lost + [] == lost;
    NoneWithinSnoc(lost, d.event, org, first, end);
    assert forall x :: x in t.records + [d.event] <==> x in t.records || x == d.event;
  }

  /** Counts that do not fit 31 bits but are accepted are of 33 bits or more: below that the cast makes
      them negative, and the check constraint rejects the record. */
  lemma LargeCountsAreRejected(e: Event)
    requires e.inputTokens < 0x1_0000_0000 && e.outputTokens < 0x1_0000_0000
    ensures Acceptable(e) ==> TokensFit(e)
  {
  }

  /** An input on which rollup and summary differ although every fold succeeds. */
  lemma RollupCanDiffer(e: Event)
    requires Acceptable(e) && Sized(e) && e.inputTokens == 0x1_0000_0000
    ensures var t := Run([Delivery(e, true)]);
            t.records == [e] && !Agree(t, e.org, Day(e.createdAt), Day(e.createdAt) + 1)
  {
    assert [Delivery(e, true)][..0] == [] && Run([]) == EMPTY;
    DeliveryKeepsAgreement(EMPTY, Delivery(e, true), e.org, Day(e.createdAt), Day(e.createdAt) + 1);
  }

  lemma RunSnoc(deliveries: seq<Delivery>, d: Delivery)
    ensures Run(deliveries + [d]) == Delivered(Run(deliveries), d)
  {
    assert (deliveries + [d])[..|deliveries|] == deliveries;
  }
}
