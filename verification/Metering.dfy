/** From the stream to the tables: the usage writer's batches, and what they leave recorded over any
    interleaving of appends, failures and retries. */
module Metering {
  import opened Sequences
  import opened Wrappers
  import Store
  import Stream = UsageStream
  import StreamLaws = UsageStreamLaws
  import Tables = UsageTables

  const USAGE_STREAM := "aegis:usage_events"

  type Decode = string -> Option<Tables.Event>

  datatype BatchResult = BatchResult(read: nat, inserted: nat, duplicates: nat, malformed: nat)

  /** What goes wrong in one batch. The database answers for `patience` entries; the insert of the next
      one may be committed all the same, its answer lost. The folds of the entries at the `unfolded`
      positions fail and are dropped. The cursor is written back only if it `persists`. A crash of the
      writer is the end of a batch that does not persist. */
  datatype Faults = Faults(patience: nat, commits: bool, unfolded: set<nat>, persists: bool)

  predicate Folds(unfolded: set<nat>, position: nat) { position !in unfolded }

  /** The deliveries some entries come to; what cannot be decoded is passed over. */
  function Deliveries(decode: Decode, entries: seq<Stream.StreamEntry>, unfolded: set<nat>): seq<Tables.Delivery> {
    if entries == [] then []
    else
      var n := |entries| - 1;
      Deliveries(decode, entries[..n], unfolded) + DeliveryOf(decode, entries[n], Folds(unfolded, n))
  }

  function DeliveryOf(decode: Decode, entry: Stream.StreamEntry, folds: bool): seq<Tables.Delivery> {
    var event := decode(entry.payload);
    if event.Some? then [Tables.Delivery(event.value, folds)] else []
  }

  /** An insert the tables refuse stops the batch at its entry. */
  predicate Halts(decode: Decode, entry: Stream.StreamEntry) {
    var event := decode(entry.payload);
    event.Some? && !Tables.Acceptable(event.value)
  }

  /** How many entries a batch gets through when the database answers for `patience` of them. */
  function Through(decode: Decode, entries: seq<Stream.StreamEntry>, patience: nat): (k: nat)
    ensures k <= patience && k <= |entries|
  {
    if entries == [] || patience == 0 || Halts(decode, entries[0]) then 0
    else 1 + Through(decode, entries[1..], patience - 1)
  }

  lemma {:induction false} ThroughIsFirstHalt(decode: Decode, entries: seq<Stream.StreamEntry>, patience: nat)
    ensures var k := Through(decode, entries, patience);
            && (forall i :: 0 <= i < k ==> !Halts(decode, entries[i]))
            && (k < |entries| ==> k == patience || Halts(decode, entries[k]))
  {
    if !(entries == [] || patience == 0 || Halts(decode, entries[0])) {
      ThroughIsFirstHalt(decode, entries[1..], patience - 1);
      assert forall i :: 1 <= i < |entries| ==> entries[i] == entries[1..][i - 1];
    }
  }

  lemma ThroughStep(decode: Decode, entries: seq<Stream.StreamEntry>, patience: nat, k: nat)
    requires k < |entries| && k < patience
    ensures var event := decode(entries[k].payload);
            ThroughFrom(decode, entries, patience, k) ==
            if event.Some? && !Tables.Acceptable(event.value) then 0 else 1 + ThroughFrom(decode, entries, patience, k + 1)
  {
    assert entries[k..][1..] == entries[k + 1..];
  }

  /** How many more entries, when `k` are done. */
  function ThroughFrom(decode: Decode, entries: seq<Stream.StreamEntry>, patience: nat, k: nat): (left: nat)
    requires k <= |entries| && k <= patience
    ensures k == |entries| || k == patience ==> left == 0
  {
    Through(decode, entries[k..], patience - k)
  }

  /** What a batch gets through of what it reads. */
  function Batch(decode: Decode, entries: seq<Stream.StreamEntry>, cursor: string, count: nat, patience: nat)
    : seq<Stream.StreamEntry>
  {
    Stream.Taken(entries, cursor, count, Through(decode, Stream.ReadAfter(entries, cursor, count), patience))
  }

  /** How many of some entries cannot be decoded. */
  function Undecodable(decode: Decode, entries: seq<Stream.StreamEntry>): nat {
    if entries == [] then 0
    else
      var n := |entries| - 1;
      Undecodable(decode, entries[..n]) + if decode(entries[n].payload).None? then 1 else 0
  }

  /** The delivery the writer never learns of: the insert at which the database stopped answering. */
  function Unanswered(decode: Decode, read: seq<Stream.StreamEntry>, faults: Faults): seq<Tables.Delivery> {
    var k := Through(decode, read, faults.patience);
    if faults.commits && k == faults.patience && k < |read| && !Halts(decode, read[k])
    then DeliveryOf(decode, read[k], false) else []
  }

  /** All that a batch delivers to the tables of the entries it reads. */
  function Attempted(decode: Decode, read: seq<Stream.StreamEntry>, faults: Faults): seq<Tables.Delivery> {
    Deliveries(decode, read[..Through(decode, read, faults.patience)], faults.unfolded) + Unanswered(decode, read, faults)
  }

  class UsageWriter {
    const store: Store.MemoryStore
    const database: Tables.Database
    const decode: Decode
    var cursor: string
    ghost var applied: seq<Tables.Delivery>

    ghost predicate Valid()
      reads this, database
    {
      Tables.Tables(database.records, database.rollup) == Tables.Run(applied)
    }

    constructor (store: Store.MemoryStore, database: Tables.Database, decode: Decode)
      requires database.records == [] && database.rollup == []
      ensures Valid() && applied == [] && cursor == Stream.START
      ensures this.store == store && this.database == database && this.decode == decode
    {
      this.store, this.database, this.decode := store, database, decode;
      cursor, applied := Stream.START, [];
    }

    /** One batch, with whatever goes wrong in it. Nobody notices when the cursor is not written back. */
    method ProcessBatch(count: nat, faults: Faults) returns (result: BatchResult)
      requires Valid()
      modifies this, database
      ensures Valid()
      ensures var entries := Stream.Entries(store.streams, USAGE_STREAM);
              var read := Stream.ReadAfter(entries, old(cursor), count);
              var taken := Batch(decode, entries, old(cursor), count, faults.patience);
              && applied == old(applied) + Attempted(decode, read, faults)
              && cursor == (if faults.persists then Stream.CursorAfter(old(cursor), taken) else old(cursor))
              && result.read == |read| && result.malformed == Undecodable(decode, taken)
              && result.inserted + result.duplicates + result.malformed == |taken|
              && result.inserted <= |database.records| - |old(database.records)| <=
                 result.inserted + if faults.commits then 1 else 0
    {
      var entries := store.StreamRead(USAGE_STREAM, cursor, count);
      var k, inserted, duplicates, malformed := Deliver(entries, faults);
      result := BatchResult(|entries|, inserted, duplicates, malformed);
      if faults.persists && k > 0 {
        cursor := entries[k - 1].id;
      }
    }

    /** Entry by entry, up to the first that the tables refuse or the database does not answer for. */
    method Deliver(entries: seq<Stream.StreamEntry>, faults: Faults)
      returns (k: nat, inserted: nat, duplicates: nat, malformed: nat)
      requires Valid()
      modifies this`applied, database
      ensures Valid()
      ensures k == Through(decode, entries, faults.patience)
      ensures applied == old(applied) + Attempted(decode, entries, faults)
      ensures inserted + duplicates + malformed == k && malformed == Undecodable(decode, entries[..k])
      ensures inserted <= |database.records| - |old(database.records)| <= inserted + if faults.commits then 1 else 0
    {
      k, inserted, duplicates, malformed := 0, 0, 0, 0;
      var halted := false;
      ghost var was, done, left := applied, [], Through(decode, entries, faults.patience);
      assert entries[0..] == entries && was + done == was;
      while k < |entries| && k < faults.patience && !halted
        invariant k <= |entries| && k <= faults.patience && Valid()
        invariant left == ThroughFrom(decode, entries, faults.patience, k)
        invariant k + left == Through(decode, entries, faults.patience)
        invariant halted ==> left == 0 && k < faults.patience
        invariant done == Deliveries(decode, entries[..k], faults.unfolded) && applied == was + done
        invariant inserted + duplicates + malformed == k && malformed == Undecodable(decode, entries[..k])
        invariant inserted == |database.records| - |old(database.records)|
        decreases |entries| - k, !halted
      {
        var event := decode(entries[k].payload);
        DeliveriesSnoc(decode, entries, faults.unfolded, k);
        UndecodableSnoc(decode, entries, k);
        ThroughStep(decode, entries, faults.patience, k);
        if event.None? {
          malformed, k, left := malformed + 1, k + 1, left - 1;
        } else {
          var outcome := DeliverOne(Tables.Delivery(event.value, Folds(faults.unfolded, k)));
          if outcome == Tables.Rejected {
            halted := true;
          } else {
            Assoc(was, done, [Tables.Delivery(event.value, Folds(faults.unfolded, k))]);
            done, k, left := done + [Tables.Delivery(event.value, Folds(faults.unfolded, k))], k + 1, left - 1;
            if outcome == Tables.Inserted {
              inserted := inserted + 1;
            } else {
              duplicates := duplicates + 1;
            }
          }
        }
      }
      if faults.commits && k == faults.patience && k < |entries| {
        var event := decode(entries[k].payload);
        if event.Some? {
          var lost := DeliverOne(Tables.Delivery(event.value, false));
        }
      }
      Assoc(was, done, Unanswered(decode, entries, faults));
    }

    /** The insert, and the fold when it wrote a row. */
    method DeliverOne(d: Tables.Delivery) returns (outcome: Tables.InsertResult)
      requires Valid()
      modifies this`applied, database
      ensures Valid()
      ensures outcome == Tables.Rejected <==> !Tables.Acceptable(d.event)
      ensures applied == if outcome == Tables.Rejected then old(applied) else old(applied) + [d]
      ensures |database.records| == |old(database.records)| + if outcome == Tables.Inserted then 1 else 0
    {
      outcome := database.Deliver(d);
      if outcome != Tables.Rejected {
        Tables.RunSnoc(applied, d);
        applied := applied + [d];
      }
    }
  }

  lemma DeliveriesSnoc(decode: Decode, entries: seq<Stream.StreamEntry>, unfolded: set<nat>, i: nat)
    requires i < |entries|
    ensures Deliveries(decode, entries[..i + 1], unfolded) ==
            Deliveries(decode, entries[..i], unfolded) + DeliveryOf(decode, entries[i], Folds(unfolded, i))
  {
    assert entries[..i + 1][..i] == entries[..i];
  }

  lemma UndecodableSnoc(decode: Decode, entries: seq<Stream.StreamEntry>, i: nat)
    requires i < |entries|
    ensures Undecodable(decode, entries[..i + 1]) ==
            Undecodable(decode, entries[..i]) + if decode(entries[i].payload).None? then 1 else 0
  {
    assert entries[..i + 1][..i] == entries[..i];
  }

  // ---------------------------------------------------------------------------------------
  // Runs
  // ---------------------------------------------------------------------------------------

  datatype Step =
    | Append(stream: string, payload: string, maxLen: nat, now: nat)
    | ProcessBatch(count: nat, faults: Faults)

  /** The streams and the writer's cursor, and what its batches delivered to the tables. */
  datatype World = World(stream: Stream.World, applied: seq<Tables.Delivery>)

  /** What the writer reads next. */
  function Read(w: Stream.World, count: nat): seq<Stream.StreamEntry> {
    Stream.ReadAfter(Stream.Entries(w.streams, USAGE_STREAM), w.cursor, count)
  }

  /** What a step is to the stream: a batch that fails to write its cursor leaves the consumer where it was. */
  function StreamEvent(w: Stream.World, step: Step, decode: Decode): Stream.Event {
    match step
    case Append(stream, payload, maxLen, now) => Stream.Append(stream, payload, maxLen, now)
    case ProcessBatch(count, faults) =>
      Stream.Consume(count, if faults.persists then Through(decode, Read(w, count), faults.patience) else 0)
  }

  function Next(w: World, step: Step, decode: Decode): World {
    World(Stream.Next(w.stream, StreamEvent(w.stream, step, decode), USAGE_STREAM),
          if step.Append? then w.applied
          else w.applied + Attempted(decode, Read(w.stream, step.count), step.faults))
  }

  function Run(steps: seq<Step>, decode: Decode): World {
    if steps == [] then World(Stream.INITIAL, []) else Next(Run(steps[..|steps| - 1], decode), steps[|steps| - 1], decode)
  }

  /** The run as the stream sees it. */
  function StreamEvents(steps: seq<Step>, decode: Decode): seq<Stream.Event> {
    if steps == [] then []
    else
      var before := steps[..|steps| - 1];
      StreamEvents(before, decode) + [StreamEvent(Run(before, decode).stream, steps[|steps| - 1], decode)]
  }

  /** The records after a run. */
  function Records(steps: seq<Step>, decode: Decode): seq<Tables.Event> {
    Tables.Run(Run(steps, decode).applied).records
  }

  lemma {:induction false} StreamRuns(steps: seq<Step>, decode: Decode)
    ensures Run(steps, decode).stream == Stream.Run(StreamEvents(steps, decode), USAGE_STREAM)
  {
    if steps != [] {
      var before, events := steps[..|steps| - 1], StreamEvents(steps, decode);
      StreamRuns(before, decode);
      assert events[..|events| - 1] == StreamEvents(before, decode);
    }
  }

  // ---------------------------------------------------------------------------------------
  // Laws
  // ---------------------------------------------------------------------------------------

  /** Some of the entries stands for the event. */
  predicate Holds(decode: Decode, entries: seq<Stream.StreamEntry>, e: Tables.Event) {
    exists i :: 0 <= i < |entries| && decode(entries[i].payload) == Some(e)
  }

  lemma {:induction false} DeliveriesHold(decode: Decode, entries: seq<Stream.StreamEntry>, unfolded: set<nat>,
                                          e: Tables.Event)
    ensures e in Tables.EventsOf(Deliveries(decode, entries, unfolded)) <==> Holds(decode, entries, e)
  {
    if entries != [] {
      var n := |entries| - 1;
      var front, last := Deliveries(decode, entries[..n], unfolded), DeliveryOf(decode, entries[n], Folds(unfolded, n));
      DeliveriesHold(decode, entries[..n], unfolded, e);
      Tables.EventsOfConcat(front, last);
      DeliveryHolds(decode, entries[n], Folds(unfolded, n), e);
      HoldsSnoc(decode, entries, e);
      assert Deliveries(decode, entries, unfolded) == front + last;
    }
  }

  lemma DeliveryHolds(decode: Decode, entry: Stream.StreamEntry, folds: bool, e: Tables.Event)
    ensures e in Tables.EventsOf(DeliveryOf(decode, entry, folds)) <==> decode(entry.payload) == Some(e)
  {
  }

  lemma HoldsSnoc(decode: Decode, entries: seq<Stream.StreamEntry>, e: Tables.Event)
    requires entries != []
    ensures var n := |entries| - 1;
            Holds(decode, entries, e) <==> Holds(decode, entries[..n], e) || decode(entries[n].payload) == Some(e)
  {
    var n := |entries| - 1;
    assert forall i :: 0 <= i < n ==> entries[..n][i] == entries[i];
  }

  lemma TakenHolds(decode: Decode, read: seq<Stream.StreamEntry>, patience: nat, e: Tables.Event)
    requires Holds(decode, read[..Through(decode, read, patience)], e)
    ensures Tables.Acceptable(e) && Holds(decode, read, e)
  {
    var taken := read[..Through(decode, read, patience)];
    ThroughIsFirstHalt(decode, read, patience);
    var i :| 0 <= i < |taken| && decode(taken[i].payload) == Some(e);
    assert read[i] == taken[i] && !Halts(decode, read[i]);
  }

  lemma UnansweredHolds(decode: Decode, read: seq<Stream.StreamEntry>, faults: Faults, e: Tables.Event)
    requires e in Tables.EventsOf(Unanswered(decode, read, faults))
    ensures Tables.Acceptable(e) && Holds(decode, read, e)
  {
    var k := Through(decode, read, faults.patience);
    DeliveryHolds(decode, read[k], false, e);
    assert decode(read[k].payload) == Some(e) && !Halts(decode, read[k]);
  }

  /** What a batch delivers are acceptable events of entries it read, among them those of all entries it got
      through. */
  lemma AttemptedHold(decode: Decode, read: seq<Stream.StreamEntry>, faults: Faults, e: Tables.Event)
    ensures e in Tables.EventsOf(Attempted(decode, read, faults)) ==> Tables.Acceptable(e) && Holds(decode, read, e)
    ensures Holds(decode, read[..Through(decode, read, faults.patience)], e) ==>
              e in Tables.EventsOf(Attempted(decode, read, faults))
  {
    var taken, last := read[..Through(decode, read, faults.patience)], Unanswered(decode, read, faults);
    DeliveriesHold(decode, taken, faults.unfolded, e);
    Tables.EventsOfConcat(Deliveries(decode, taken, faults.unfolded), last);
    if e in Tables.EventsOf(last) {
      UnansweredHolds(decode, read, faults, e);
    } else if Holds(decode, taken, e) {
      TakenHolds(decode, read, faults.patience, e);
    }
  }

  /** Everything the consumer was given and could decode was delivered to the tables, and all of that
      is acceptable. */
  predicate Applied(w: World, decode: Decode) {
    && (forall i :: 0 <= i < |w.stream.delivered| && decode(w.stream.delivered[i].payload).Some? ==>
          decode(w.stream.delivered[i].payload).value in Tables.EventsOf(w.applied))
    && (forall e :: e in Tables.EventsOf(w.applied) ==> Tables.Acceptable(e))
  }

  lemma StepApplied(w: World, step: Step, decode: Decode)
    requires Applied(w, decode)
    ensures Applied(Next(w, step, decode), decode)
  {
    if step.ProcessBatch? {
      var read, after := Read(w.stream, step.count), Next(w, step, decode);
      var taken := read[..Through(decode, read, step.faults.patience)];
      var given := if step.faults.persists then taken else [];
      Tables.EventsOfConcat(w.applied, Attempted(decode, read, step.faults));
      forall e
        ensures e in Tables.EventsOf(Attempted(decode, read, step.faults)) ==> Tables.Acceptable(e)
        ensures Holds(decode, taken, e) ==> e in Tables.EventsOf(Attempted(decode, read, step.faults))
      {
        AttemptedHold(decode, read, step.faults, e);
      }
      assert after.stream.delivered == w.stream.delivered + given;
      forall i | 0 <= i < |after.stream.delivered| && decode(after.stream.delivered[i].payload).Some?
        ensures decode(after.stream.delivered[i].payload).value in Tables.EventsOf(after.applied)
      {
        if i >= |w.stream.delivered| {
          assert after.stream.delivered[i] == taken[i - |w.stream.delivered|];
          assert Holds(decode, taken, decode(after.stream.delivered[i].payload).value);
        }
      }
    }
  }

  lemma {:induction false} AlwaysApplied(steps: seq<Step>, decode: Decode)
    ensures Applied(Run(steps, decode), decode)
  {
    if steps != [] {
      AlwaysApplied(steps[..|steps| - 1], decode);
      StepApplied(Run(steps[..|steps| - 1], decode), steps[|steps| - 1], decode);
    }
  }

  /** The event has one record. */
  predicate RecordedOnce(records: seq<Tables.Event>, e: Tables.Event) {
    exists i :: 0 <= i < |records| && Tables.SameRequest(records[i], e) &&
                forall j :: 0 <= j < |records| && Tables.SameRequest(records[j], e) ==> j == i
  }

  /** Over any interleaving of appends and batches, of halts, lost answers, failed folds and cursor writes, and
      retries: every entry the cursor has passed was trimmed unread, or cannot be decoded, or its event is acceptable and has
      exactly one record. So nothing passed is lost, and nothing is recorded twice. */
  lemma PassedEventsAreRecordedOnce(steps: seq<Step>, decode: Decode, position: nat)
    requires position < Stream.IdealRun(StreamEvents(steps, decode), USAGE_STREAM).passed
    ensures var ideal := Stream.IdealRun(StreamEvents(steps, decode), USAGE_STREAM);
            && position < |ideal.history|
            && var event := decode(ideal.history[position].payload);
               || StreamLaws.TrimmedUnread(StreamEvents(steps, decode), USAGE_STREAM, position)
               || event.None?
               || (Tables.Acceptable(event.value) && RecordedOnce(Records(steps, decode), event.value))
  {
    var events := StreamEvents(steps, decode);
    var ideal, w := Stream.IdealRun(events, USAGE_STREAM), Run(steps, decode);
    StreamLaws.AlwaysMirrors(events, USAGE_STREAM);
    StreamLaws.ConsumerSeesEachOnceInOrder(events, USAGE_STREAM);
    StreamRuns(steps, decode);
    var event := decode(ideal.history[position].payload);
    if position in ideal.given && event.Some? {
      var i :| 0 <= i < |ideal.given| && ideal.given[i] == position;
      AlwaysApplied(steps, decode);
      assert w.stream.delivered[i] == ideal.history[position];
      AppliedIsRecordedOnce(w.applied, event.value);
    }
  }

  lemma AppliedIsRecordedOnce(applied: seq<Tables.Delivery>, e: Tables.Event)
    requires e in Tables.EventsOf(applied) && Tables.Acceptable(e)
    ensures RecordedOnce(Tables.Run(applied).records, e)
  {
    Tables.RecordsAreDeliveries(applied);
    Tables.OneRecordPerRequest(applied);
    PresentOnce(Tables.Run(applied).records, e);
  }

  lemma PresentOnce(records: seq<Tables.Event>, e: Tables.Event)
    requires Tables.DistinctRequests(records) && Tables.Present(records, e)
    ensures RecordedOnce(records, e)
  {
    var i :| 0 <= i < |records| && Tables.SameRequest(records[i], e);
    forall j | 0 <= j < |records| && Tables.SameRequest(records[j], e)
      ensures j == i
    {
      assert Tables.SameRequest(records[i], records[j]) && Tables.SameRequest(records[j], records[i]);
    }
  }

  /** No record was made up: each is the event of an entry that was appended to the stream. */
  lemma {:induction false} RecordsWereAppended(steps: seq<Step>, decode: Decode, e: Tables.Event)
    ensures var history := Stream.IdealRun(StreamEvents(steps, decode), USAGE_STREAM).history;
            && (e in Tables.EventsOf(Run(steps, decode).applied) ==> Holds(decode, history, e))
            && (e in Records(steps, decode) ==> Holds(decode, history, e))
  {
    Tables.RecordsAreDeliveries(Run(steps, decode).applied);
    if steps != [] && e in Tables.EventsOf(Run(steps, decode).applied) {
      var before, step := steps[..|steps| - 1], steps[|steps| - 1];
      var earlier, later := StreamEvents(before, decode), StreamEvents(steps, decode);
      var w, ideal := Run(before, decode), Stream.IdealRun(earlier, USAGE_STREAM);
      RecordsWereAppended(before, decode, e);
      StreamRuns(before, decode);
      StreamLaws.AlwaysMirrors(earlier, USAGE_STREAM);
      assert later[..|later| - 1] == earlier;
      var history := Stream.IdealRun(later, USAGE_STREAM).history;
      assert ideal.history <= history;
      if e !in Tables.EventsOf(w.applied) {
        BatchWasAppended(w, ideal, step, decode, e);
      }
      StillHolds(ideal.history, history, decode, e);
    }
  }

  lemma StillHolds(shorter: seq<Stream.StreamEntry>, longer: seq<Stream.StreamEntry>, decode: Decode, e: Tables.Event)
    requires shorter <= longer && Holds(decode, shorter, e)
    ensures Holds(decode, longer, e)
  {
    var i :| 0 <= i < |shorter| && decode(shorter[i].payload) == Some(e);
    assert longer[i] == shorter[i];
  }

  lemma BatchWasAppended(w: World, ideal: Stream.Ideal, step: Step, decode: Decode, e: Tables.Event)
    requires StreamLaws.Mirrors(w.stream, ideal, USAGE_STREAM)
    requires e in Tables.EventsOf(Next(w, step, decode).applied) && e !in Tables.EventsOf(w.applied)
    ensures Holds(decode, ideal.history, e)
  {
    var entries, read := Stream.Entries(w.stream.streams, USAGE_STREAM), Read(w.stream, step.count);
    Tables.EventsOfConcat(w.applied, Attempted(decode, read, step.faults));
    AttemptedHold(decode, read, step.faults, e);
    ReadHolds(entries, w.stream.cursor, step.count, decode, e);
    StillHoldsAfter(ideal.history, ideal.trimmed, decode, e);
  }

  lemma ReadHolds(entries: seq<Stream.StreamEntry>, cursor: string, count: nat, decode: Decode, e: Tables.Event)
    requires Holds(decode, Stream.ReadAfter(entries, cursor, count), e)
    ensures Holds(decode, entries, e)
  {
    var read := Stream.ReadAfter(entries, cursor, count);
    var i :| 0 <= i < |read| && decode(read[i].payload) == Some(e);
    assert read[i] == entries[Stream.ReadStart(entries, cursor) + i];
  }

  lemma StillHoldsAfter(history: seq<Stream.StreamEntry>, trimmed: nat, decode: Decode, e: Tables.Event)
    requires trimmed <= |history| && Holds(decode, history[trimmed..], e)
    ensures Holds(decode, history, e)
  {
    var k :| 0 <= k < |history[trimmed..]| && decode(history[trimmed..][k].payload) == Some(e);
    assert history[trimmed..][k] == history[trimmed + k];
  }

  /** An event that the tables refuse blocks the writer: while it is the oldest unread entry, no batch
      delivers anything or moves the cursor. */
  lemma RefusedEventBlocks(steps: seq<Step>, decode: Decode, count: nat, faults: Faults)
    requires var ideal := Stream.IdealRun(StreamEvents(steps, decode), USAGE_STREAM);
             var oldest := Stream.Larger(ideal.trimmed, ideal.passed);
             oldest < |ideal.history| && Halts(decode, ideal.history[oldest])
    ensures Run(steps + [ProcessBatch(count, faults)], decode) == Run(steps, decode)
  {
    var events := StreamEvents(steps, decode);
    var ideal, w := Stream.IdealRun(events, USAGE_STREAM), Run(steps, decode);
    var entries := Stream.Entries(w.stream.streams, USAGE_STREAM);
    StreamRuns(steps, decode);
    StreamLaws.AlwaysMirrors(events, USAGE_STREAM);
    StreamLaws.NumberedAlways(events, USAGE_STREAM);
    StreamLaws.ReadStartsRight(ideal, w.stream.sequence);
    var start := Stream.ReadStart(entries, w.stream.cursor);
    assert entries[start] == ideal.history[ideal.trimmed + start];
    assert (steps + [ProcessBatch(count, faults)])[..|steps|] == steps;
    BlockedStep(w, ProcessBatch(count, faults), decode);
  }

  lemma BlockedStep(w: World, step: Step, decode: Decode)
    requires step.ProcessBatch?
    requires var entries := Stream.Entries(w.stream.streams, USAGE_STREAM);
             var start := Stream.ReadStart(entries, w.stream.cursor);
             start < |entries| && Halts(decode, entries[start])
    ensures Next(w, step, decode) == w
  {
    var entries, read := Stream.Entries(w.stream.streams, USAGE_STREAM), Read(w.stream, step.count);
    assert read != [] ==> read[0] == entries[Stream.ReadStart(entries, w.stream.cursor)];
    assert Through(decode, read, step.faults.patience) == 0;
    assert Attempted(decode, read, step.faults) == [];
  }
}
