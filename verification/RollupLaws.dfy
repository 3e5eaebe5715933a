/** What the rollup and the usage summary hold, told from the fields of the events alone. */
module RollupLaws {
  import opened UsageTables
  import opened Wrappers

  datatype Column = Requests | Hits | Input | Output | Baseline | Actual | Savings | Fee

  function Of(t: Totals, column: Column): int {
    match column
    case Requests => t.requests
    case Hits => t.hits
    case Input => t.input
    case Output => t.output
    case Baseline => t.baseline
    case Actual => t.actual
    case Savings => t.savings
    case Fee => t.fee
  }

  /** The signed number of `bits` bits, 32 or 64, that the lowest bits of a count stand for. */
  function Signed(n: nat, wide: bool): int {
    var modulus := if wide then 0x1_0000_0000_0000_0000 else 0x1_0000_0000;
    if n % modulus < modulus / 2 then n % modulus else n % modulus - modulus
  }

  /** What one event counts for in a column; token counts take 64 bits in the rollup and 32 in a record. */
  function Field(e: Event, column: Column, wide: bool): int {
    match column
    case Requests => 1
    case Hits => if e.cacheHit then 1 else 0
    case Input => Signed(e.inputTokens, wide)
    case Output => Signed(e.outputTokens, wide)
    case Baseline => e.baseline
    case Actual => e.actual
    case Savings => e.savings
    case Fee => e.fee
  }

  function Sum(events: seq<Event>, column: Column, wide: bool): int {
    if events == [] then 0
    else Sum(events[..|events| - 1], column, wide) + Field(events[|events| - 1], column, wide)
  }

  lemma SumSnoc(events: seq<Event>, e: Event, column: Column, wide: bool)
    ensures Sum(events + [e], column, wide) == Sum(events, column, wide) + Field(e, column, wide)
  {
    assert (events + [e])[..|events|] == events;
  }

  lemma WideCast(n: nat)
    ensures AsI64(n) == Signed(n, true)
  {
    var q, r := n / 0x1_0000_0000_0000_0000, n % 0x1_0000_0000_0000_0000;
    assert n == q * 0x1_0000_0000_0000_0000 + r;
  }

  lemma NarrowCast(n: nat)
    ensures AsI32(n) == Signed(n, false)
  {
    var q, r := n / 0x1_0000_0000, n % 0x1_0000_0000;
    assert n == q * 0x1_0000_0000 + r;
  }

  lemma CastsAreSigned(n: nat)
    ensures AsI64(n) == Signed(n, true) && AsI32(n) == Signed(n, false)
  {
    WideCast(n);
    NarrowCast(n);
  }

  lemma FieldsOf(e: Event, column: Column)
    ensures Of(Folded(e), column) == Field(e, column, true) && Of(Stored(e), column) == Field(e, column, false)
  {
    CastsAreSigned(e.inputTokens);
    CastsAreSigned(e.outputTokens);
  }

  lemma PlusOf(a: Totals, b: Totals, column: Column)
    ensures Of(Plus(a, b), column) == Of(a, column) + Of(b, column)
  {
  }

  // ---------------------------------------------------------------------------------------
  // The summary
  // ---------------------------------------------------------------------------------------

  /** The records of an organisation created in [from, to). */
  function Between(records: seq<Event>, org: nat, from: int, to: int): seq<Event> {
    if records == [] then []
    else
      var last := records[|records| - 1];
      Between(records[..|records| - 1], org, from, to) + if last.org == org && from <= last.createdAt < to then [last] else []
  }

  /** Each column of the usage summary is the sum of that column over the records it is about. */
  lemma {:induction false} SummaryIsSum(records: seq<Event>, org: nat, from: int, to: int, column: Column)
    ensures Of(UsageSummary(records, org, from, to), column) == Sum(Between(records, org, from, to), column, false)
  {
    if records != [] {
      var front, last := records[..|records| - 1], records[|records| - 1];
      SummaryIsSum(front, org, from, to, column);
      OneMoreRecord(UsageSummary(front, org, from, to), Between(front, org, from, to), last,
                    last.org == org && from <= last.createdAt < to, column);
    }
  }

  lemma OneMoreRecord(total: Totals, events: seq<Event>, e: Event, counts: bool, column: Column)
    requires Of(total, column) == Sum(events, column, false)
    ensures Of(Plus(total, if counts then Stored(e) else ZERO), column) ==
            Sum(events + if counts then [e] else [], column, false)
  {
    FieldsOf(e, column);
    PlusOf(total, if counts then Stored(e) else ZERO, column);
    SumSnoc(events, e, column, false);
    assert events + [] == events;
  }

  // ---------------------------------------------------------------------------------------
  // The rollup, row by row
  // ---------------------------------------------------------------------------------------

  /** The events that were recorded and folded. */
  function FoldedEvents(deliveries: seq<Delivery>): seq<Event> {
    if deliveries == [] then []
    else
      var before := deliveries[..|deliveries| - 1];
      FoldedEvents(before) + FoldedBy(Run(before).records, deliveries[|deliveries| - 1])
  }

  function FoldedBy(records: seq<Event>, d: Delivery): seq<Event> {
    if InsertOutcome(records, d.event) == Inserted && d.folds then [d.event] else []
  }

  /** Every record was either folded or lost to the rollup. */
  lemma {:induction false} FoldedOrLost(deliveries: seq<Delivery>)
    ensures multiset(Run(deliveries).records) == multiset(FoldedEvents(deliveries)) + multiset(LostFolds(deliveries))
  {
    if deliveries != [] {
      var front, d := deliveries[..|deliveries| - 1], deliveries[|deliveries| - 1];
      FoldedOrLost(front);
      FoldedOrLostStep(Run(front), FoldedEvents(front), LostFolds(front), d, Run(deliveries).records);
    }
  }

  lemma FoldedOrLostStep(t: Tables, folded: seq<Event>, lost: seq<Event>, d: Delivery, records: seq<Event>)
    requires multiset(t.records) == multiset(folded) + multiset(lost) && records == Delivered(t, d).records
    ensures multiset(records) ==
            multiset(folded + FoldedBy(t.records, d)) + multiset(lost + LostBy(t.records, d))
  {
    assert folded + [] == folded && lost + [] == lost;
  }

  /** What the checks of the records table let through: token counts whose low 32 bits are not negative; a fee that
      leaves the customer some of the saving or all of it; parts that the saving covers; and answers from the
      cache, of either kind, that cost nothing. */
  predicate Sound(e: Event) {
    && e.inputTokens % 0x1_0000_0000 < 0x8000_0000 && e.outputTokens % 0x1_0000_0000 < 0x8000_0000
    && 0 <= e.savings - e.fee <= e.savings
    && e.routing >= 0 && e.compression >= 0 && e.caching >= 0
    && e.savings - e.routing - e.compression - e.caching >= 0
    && (match e.cacheType
        case Miss => !e.cacheHit
        case Exact => e.cacheHit && e.actual == 0
        case Semantic => e.cacheHit && e.actual == 0)
  }

  /** Only sound events are ever recorded, and a sound event is never refused. */
  lemma OnlySoundRecords(deliveries: seq<Delivery>, e: Event)
    ensures e in Run(deliveries).records ==> Sound(e)
    ensures Sound(e) <==> InsertOutcome(Run(deliveries).records, e) != Rejected
  {
    RecordsAreDeliveries(deliveries);
    CastsAreSigned(e.inputTokens);
    CastsAreSigned(e.outputTokens);
  }

  /** Every delivery that is in order has a record of its request and time, and no two records have both in common:
      the same request at another time, or another at the same time, is recorded as well. */
  lemma OneRecordEach(deliveries: seq<Delivery>, e: Event)
    requires e in EventsOf(deliveries) && Sound(e)
    ensures var records := Run(deliveries).records;
            exists i :: 0 <= i < |records| && records[i].request == e.request && records[i].createdAt == e.createdAt &&
                        forall j :: 0 <= j < |records| && j != i ==>
                          records[j].request != e.request || records[j].createdAt != e.createdAt
  {
    var records := Run(deliveries).records;
    OnlySoundRecords(deliveries, e);
    RecordsAreDeliveries(deliveries);
    OneRecordPerRequest(deliveries);
    var i :| 0 <= i < |records| && SameRequest(records[i], e);
    forall j | 0 <= j < |records| && j != i
      ensures records[j].request != e.request || records[j].createdAt != e.createdAt
    {
      if i < j {
        assert !SameRequest(records[i], records[j]);
      } else {
        assert !SameRequest(records[j], records[i]);
      }
    }
  }

  /** The event is of this organisation, day, model and team; no team is team 0. */
  predicate Concerns(e: Event, org: nat, day: int, model: string, team: nat) {
    && e.org == org && e.model == model
    && day * 86_400_000_000 <= e.createdAt < (day + 1) * 86_400_000_000
    && (e.team == Some(team) || (e.team == None && team == 0))
  }

  function Concerning(events: seq<Event>, org: nat, day: int, model: string, team: nat): seq<Event> {
    if events == [] then []
    else
      var last := events[|events| - 1];
      Concerning(events[..|events| - 1], org, day, model, team) +
      if Concerns(last, org, day, model, team) then [last] else []
  }

  lemma ConcerningSnoc(events: seq<Event>, e: Event, org: nat, day: int, model: string, team: nat)
    ensures Concerning(events + [e], org, day, model, team) ==
            Concerning(events, org, day, model, team) + if Concerns(e, org, day, model, team) then [e] else []
  {
    assert (events + [e])[..|events|] == events;
  }

  lemma KeyIsOfFields(e: Event, org: nat, day: int, model: string, team: nat)
    ensures KeyOf(e) == RollupKey(org, day, model, team) <==> Concerns(e, org, day, model, team)
  {
  }

  /** What the row of a key holds, if there is one. */
  function RowOf(rollup: seq<RollupRow>, key: RollupKey): Option<Totals> {
    if rollup == [] then None
    else
      var n := |rollup| - 1;
      if rollup[n].key == key then Some(rollup[n].totals) else RowOf(rollup[..n], key)
  }

  lemma {:induction false} RowIsRowOf(rollup: seq<RollupRow>, i: nat)
    requires DistinctKeys(rollup) && i < |rollup|
    ensures RowOf(rollup, rollup[i].key) == Some(rollup[i].totals)
  {
    if i < |rollup| - 1 {
      RowIsRowOf(rollup[..|rollup| - 1], i);
    }
  }

  lemma {:induction false} NoRow(rollup: seq<RollupRow>, key: RollupKey)
    ensures RowOf(rollup, key) == None <==> forall i :: 0 <= i < |rollup| ==> rollup[i].key != key
  {
    if rollup != [] {
      NoRow(rollup[..|rollup| - 1], key);
    }
  }

  lemma {:induction false} RowUpserted(rollup: seq<RollupRow>, key: RollupKey, added: Totals, other: RollupKey)
    ensures var row := RowOf(rollup, other);
            RowOf(Upserted(rollup, key, added), other) ==
            if other != key then row else if row.None? then Some(added) else Some(Plus(row.value, added))
  {
    if rollup != [] {
      var n, upserted := |rollup| - 1, Upserted(rollup, key, added);
      if rollup[n].key == key {
        assert upserted[..n] == rollup[..n];
      } else {
        RowUpserted(rollup[..n], key, added, other);
        assert upserted[..|upserted| - 1] == Upserted(rollup[..n], key, added);
      }
    } else {
      assert Upserted(rollup, key, added)[..0] == [];
    }
  }

  /** There is a row exactly when there are events for it, and each column is their sum. */
  predicate Holds(row: Option<Totals>, events: seq<Event>) {
    && (row.None? <==> events == [])
    && (row.Some? ==> forall column :: Of(row.value, column) == Sum(events, column, true))
  }

  lemma HoldsOneMore(row: Option<Totals>, events: seq<Event>, e: Event)
    requires Holds(row, events)
    ensures Holds(if row.None? then Some(Folded(e)) else Some(Plus(row.value, Folded(e))), events + [e])
  {
    var after := if row.None? then Folded(e) else Plus(row.value, Folded(e));
    forall column
      ensures Of(after, column) == Sum(events + [e], column, true)
    {
      FieldsOf(e, column);
      SumSnoc(events, e, column, true);
      if row.Some? {
        PlusOf(row.value, Folded(e), column);
      }
    }
  }

  lemma {:induction false} RowHolds(deliveries: seq<Delivery>, org: nat, day: int, model: string, team: nat)
    ensures Holds(RowOf(Run(deliveries).rollup, RollupKey(org, day, model, team)),
                  Concerning(FoldedEvents(deliveries), org, day, model, team))
  {
    if deliveries != [] {
      var front, d := deliveries[..|deliveries| - 1], deliveries[|deliveries| - 1];
      RowHolds(front, org, day, model, team);
      OneMoreDelivery(Run(front), Run(deliveries), FoldedEvents(front), FoldedEvents(deliveries), d, org, day, model, team);
    }
  }

  lemma OneMoreDelivery(t: Tables, t': Tables, folded: seq<Event>, folded': seq<Event>, d: Delivery,
                        org: nat, day: int, model: string, team: nat)
    requires t' == Delivered(t, d) && folded' == folded + FoldedBy(t.records, d)
    requires Holds(RowOf(t.rollup, RollupKey(org, day, model, team)), Concerning(folded, org, day, model, team))
    ensures Holds(RowOf(t'.rollup, RollupKey(org, day, model, team)), Concerning(folded', org, day, model, team))
  {
    var key, events := RollupKey(org, day, model, team), Concerning(folded, org, day, model, team);
    if FoldedBy(t.records, d) == [] {
      assert t'.rollup == t.rollup && folded' == folded;
    } else {
      assert folded' == folded + [d.event];
      ConcerningSnoc(folded, d.event, org, day, model, team);
      KeyIsOfFields(d.event, org, day, model, team);
      RowUpserted(t.rollup, KeyOf(d.event), Folded(d.event), key);
      HoldsOneMore(RowOf(t.rollup, key), events, d.event);
      assert events + [] == events;
    }
  }

  /** The rollup has a row with this key exactly when there are events for it, and each column of the row is the sum of
      that column over them. */
  predicate RowsSum(rollup: seq<RollupRow>, key: RollupKey, events: seq<Event>) {
    && ((exists i :: 0 <= i < |rollup| && rollup[i].key == key) <==> events != [])
    && (forall i, column :: 0 <= i < |rollup| && rollup[i].key == key ==>
          Of(rollup[i].totals, column) == Sum(events, column, true))
  }

  lemma RowsHold(rollup: seq<RollupRow>, key: RollupKey, events: seq<Event>)
    requires DistinctKeys(rollup) && Holds(RowOf(rollup, key), events)
    ensures RowsSum(rollup, key, events)
  {
    NoRow(rollup, key);
    forall i, column | 0 <= i < |rollup| && rollup[i].key == key
      ensures Of(rollup[i].totals, column) == Sum(events, column, true)
    {
      RowIsRowOf(rollup, i);
    }
  }

  /** After any deliveries the rollup has a row for an organisation, day, model and team exactly when an event
      with these fields was recorded and folded, and each column of the row is the sum of that column over all
      such events. */
  lemma RowsAreSums(deliveries: seq<Delivery>, org: nat, day: int, model: string, team: nat)
    ensures RowsSum(Run(deliveries).rollup, RollupKey(org, day, model, team),
                    Concerning(FoldedEvents(deliveries), org, day, model, team))
  {
    RowHolds(deliveries, org, day, model, team);
    OneRecordPerRequest(deliveries);
    RowsHold(Run(deliveries).rollup, RollupKey(org, day, model, team),
             Concerning(FoldedEvents(deliveries), org, day, model, team));
  }
}
