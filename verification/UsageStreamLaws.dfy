/** The cursor-driven consumer gets what the ideal one gets: every entry at most once, in append
    order, and all but those trimmed before it came to them. */
module UsageStreamLaws {
  import opened Decimal
  import opened Sequences
  import opened UsageStream

  lemma EntryIdUnique(now1: nat, s1: nat, now2: nat, s2: nat)
    requires EntryId(now1, s1) == EntryId(now2, s2)
    ensures s1 == s2
  {
    assert '-' !in Dec(now1) && '-' !in Dec(now2) by {
      assert !IsDigit('-');
    }
    FieldUnique(Dec(now1), Dec(s1), Dec(now2), Dec(s2), '-');
    DecInjective(s1, s2);
  }

  /** The id was made from a sequence number no greater than `sequence`. */
  ghost predicate Issued(id: string, sequence: nat) {
    exists now: nat, s: nat :: s <= sequence && id == EntryId(now, s)
  }

  ghost predicate WellNumbered(history: seq<StreamEntry>, sequence: nat) {
    && (forall i :: 0 <= i < |history| ==> Issued(history[i].id, sequence))
    && (forall i, j :: 0 <= i < j < |history| ==> history[i].id != history[j].id)
  }

  lemma IssuedIsNotStart(id: string, sequence: nat)
    requires Issued(id, sequence)
    ensures id != START
  {
  }

  lemma NumberNext(history: seq<StreamEntry>, sequence: nat, now: nat, payload: string)
    requires WellNumbered(history, sequence)
    ensures WellNumbered(history, sequence + 1)
    ensures WellNumbered(history + [StreamEntry(EntryId(now, sequence + 1), payload)], sequence + 1)
  {
    forall i | 0 <= i < |history|
      ensures Issued(history[i].id, sequence + 1) && history[i].id != EntryId(now, sequence + 1)
    {
      var n: nat, s: nat :| s <= sequence && history[i].id == EntryId(n, s);
      if EntryId(n, s) == EntryId(now, sequence + 1) {
        EntryIdUnique(n, s, now, sequence + 1);
      }
    }
  }

  /** Strictly increasing, and all below `bound`. */
  predicate InOrder(given: seq<nat>, bound: nat) {
    && (forall i :: 0 <= i < |given| ==> given[i] < bound)
    && (forall i, j :: 0 <= i < j < |given| ==> given[i] < given[j])
  }

  /** The entries delivered are the ones at the given positions. */
  predicate Delivered(delivered: seq<StreamEntry>, history: seq<StreamEntry>, given: seq<nat>) {
    && |delivered| == |given|
    && forall i :: 0 <= i < |given| ==> given[i] < |history| && delivered[i] == history[given[i]]
  }

  lemma {:induction false} GivePoint(given: seq<nat>, start: nat, n: nat, i: nat)
    requires i < |given| + n
    ensures Give(given, start, n)[i] == if i < |given| then given[i] else start + i - |given|
  {
    if n > 0 && i < |given| + n - 1 {
      GivePoint(given, start, n - 1, i);
    }
  }

  lemma GivePoints(given: seq<nat>, start: nat, n: nat)
    ensures forall i :: 0 <= i < |given| ==> Give(given, start, n)[i] == given[i]
    ensures forall i :: |given| <= i < |given| + n ==> Give(given, start, n)[i] == start + i - |given|
  {
    forall i: nat | i < |given| + n
      ensures Give(given, start, n)[i] == if i < |given| then given[i] else start + i - |given|
    {
      GivePoint(given, start, n, i);
    }
  }

  lemma GiveInOrder(given: seq<nat>, bound: nat, start: nat, n: nat)
    requires InOrder(given, bound) && bound <= start
    ensures InOrder(Give(given, start, n), if n == 0 then bound else start + n)
  {
    GivePoints(given, start, n);
  }

  lemma DeliveredMore(delivered: seq<StreamEntry>, history: seq<StreamEntry>, given: seq<nat>, start: nat, n: nat)
    requires Delivered(delivered, history, given) && start + n <= |history|
    ensures Delivered(delivered + history[start..start + n], history, Give(given, start, n))
  {
    GivePoints(given, start, n);
  }

  lemma DeliveredLonger(delivered: seq<StreamEntry>, history: seq<StreamEntry>, given: seq<nat>, entry: StreamEntry)
    requires Delivered(delivered, history, given)
    ensures Delivered(delivered, history + [entry], given)
  {
  }

  function CursorOf(ideal: Ideal): string
    requires ideal.passed <= |ideal.history|
  {
    if ideal.passed == 0 then START else ideal.history[ideal.passed - 1].id
  }

  /** The store and the consumer, next to the ideal. */
  predicate Mirrors(world: World, ideal: Ideal, own: string) {
    && ideal.trimmed <= |ideal.history| && ideal.passed <= |ideal.history|
    && Entries(world.streams, own) == ideal.history[ideal.trimmed..]
    && world.cursor == CursorOf(ideal)
    && InOrder(ideal.given, ideal.passed)
    && Delivered(world.delivered, ideal.history, ideal.given)
  }

  lemma {:induction false} NumberedAlways(events: seq<Event>, own: string)
    ensures WellNumbered(IdealRun(events, own).history, Run(events, own).sequence)
  {
    if events != [] {
      var before, event := events[..|events| - 1], events[|events| - 1];
      NumberedAlways(before, own);
      if event.Append? {
        NumberNext(IdealRun(before, own).history, Run(before, own).sequence, event.now, event.payload);
      }
    }
  }

  lemma {:induction false} PositionOf(entries: seq<StreamEntry>, id: string)
    ensures var k := Position(entries, id);
            && (k < |entries| ==> entries[k].id == id)
            && (forall j :: 0 <= j < k ==> entries[j].id != id)
  {
    if entries != [] {
      PositionOf(entries[1..], id);
    }
  }

  /** A read starts at the first entry that is neither trimmed nor passed, also when the entry the
      cursor names is itself gone. */
  lemma ReadStartsRight(ideal: Ideal, sequence: nat)
    requires ideal.trimmed <= |ideal.history| && ideal.passed <= |ideal.history|
    requires WellNumbered(ideal.history, sequence)
    ensures ideal.trimmed + ReadStart(ideal.history[ideal.trimmed..], CursorOf(ideal)) ==
            Larger(ideal.trimmed, ideal.passed)
  {
    if ideal.passed > 0 {
      var history, at := ideal.history, ideal.passed - 1;
      var k := Position(history[ideal.trimmed..], CursorOf(ideal));
      PositionOf(history[ideal.trimmed..], CursorOf(ideal));
      IssuedIsNotStart(history[at].id, sequence);
      assert k < |history| - ideal.trimmed ==> history[ideal.trimmed + k].id == history[at].id;
      assert at >= ideal.trimmed ==> history[ideal.trimmed..][at - ideal.trimmed] == history[at];
    }
  }

  /** What a read takes is the next stretch of the history. */
  lemma TakenIsStretch(ideal: Ideal, sequence: nat, count: nat, patience: nat)
    requires ideal.trimmed <= |ideal.history| && ideal.passed <= |ideal.history|
    requires WellNumbered(ideal.history, sequence)
    ensures var start, n := Larger(ideal.trimmed, ideal.passed), Takes(ideal, count, patience);
            start <= |ideal.history| && start + n <= |ideal.history| &&
            Taken(ideal.history[ideal.trimmed..], CursorOf(ideal), count, patience) == ideal.history[start..start + n]
  {
    ReadStartsRight(ideal, sequence);
    FrontOfSuffix(ideal.history, ideal.trimmed, Larger(ideal.trimmed, ideal.passed), count, patience);
  }

  lemma FrontOfSuffix(history: seq<StreamEntry>, trimmed: nat, start: nat, count: nat, patience: nat)
    requires trimmed <= start <= |history|
    ensures var rest := history[trimmed..][start - trimmed..];
            var read := rest[..Min(count, |rest|)];
            var n := Min(patience, Min(count, |history| - start));
            |read| == Min(count, |history| - start) && read[..Min(patience, |read|)] == history[start..start + n]
  {
    assert history[trimmed..][start - trimmed..] == history[start..];
  }

  lemma TrimmedSuffix(history: seq<StreamEntry>, trimmed: nat, entry: StreamEntry, maxLen: nat)
    requires trimmed <= |history|
    ensures var longer := history + [entry];
            var trimmed' := Larger(trimmed, if |longer| > maxLen then |longer| - maxLen else 0);
            trimmed' <= |longer| && Appended(history[trimmed..], entry, maxLen) == longer[trimmed'..]
  {
    assert history[trimmed..] + [entry] == (history + [entry])[trimmed..];
  }

  /** One more entry in the history, and `trimmed` of them gone. */
  lemma LongerMirrors(world: World, ideal: Ideal, own: string, world': World, entry: StreamEntry, trimmed: nat)
    requires Mirrors(world, ideal, own)
    requires world'.cursor == world.cursor && world'.delivered == world.delivered
    requires trimmed <= |ideal.history| + 1
    requires Entries(world'.streams, own) == (ideal.history + [entry])[trimmed..]
    ensures Mirrors(world', ideal.(history := ideal.history + [entry], trimmed := trimmed), own)
  {
    DeliveredLonger(world.delivered, ideal.history, ideal.given, entry);
  }

  lemma OwnAppendMirrors(world: World, ideal: Ideal, own: string, entry: StreamEntry, maxLen: nat, sequence: nat)
    requires Mirrors(world, ideal, own)
    ensures var history := ideal.history + [entry];
            var trimmed := Larger(ideal.trimmed, if |history| > maxLen then |history| - maxLen else 0);
            Mirrors(world.(streams := world.streams[own := Appended(Entries(world.streams, own), entry, maxLen)],
                           sequence := sequence),
                    ideal.(history := history, trimmed := trimmed), own)
  {
    var history := ideal.history + [entry];
    var trimmed := Larger(ideal.trimmed, if |history| > maxLen then |history| - maxLen else 0);
    TrimmedSuffix(ideal.history, ideal.trimmed, entry, maxLen);
    LongerMirrors(world, ideal, own,
                  world.(streams := world.streams[own := Appended(Entries(world.streams, own), entry, maxLen)],
                         sequence := sequence), entry, trimmed);
  }

  lemma OtherAppendMirrors(world: World, ideal: Ideal, own: string, other: string, entries: seq<StreamEntry>, sequence: nat)
    requires Mirrors(world, ideal, own) && other != own
    ensures Mirrors(world.(streams := world.streams[other := entries], sequence := sequence), ideal, own)
  {
  }

  lemma AppendMirrors(world: World, ideal: Ideal, event: Event, own: string)
    requires Mirrors(world, ideal, own) && event.Append?
    ensures Mirrors(Next(world, event, own), IdealNext(ideal, event, world.sequence, own), own)
  {
    var sequence := world.sequence + 1;
    var entry := StreamEntry(EntryId(event.now, sequence), event.payload);
    var world' := world.(streams := world.streams[event.stream :=
                                    Appended(Entries(world.streams, event.stream), entry, event.maxLen)],
                         sequence := sequence);
    assert Next(world, event, own) == world';
    if event.stream == own {
      var history := ideal.history + [entry];
      var trimmed := Larger(ideal.trimmed, if |history| > event.maxLen then |history| - event.maxLen else 0);
      assert IdealNext(ideal, event, world.sequence, own) == ideal.(history := history, trimmed := trimmed);
      OwnAppendMirrors(world, ideal, own, entry, event.maxLen, sequence);
    } else {
      OtherAppendMirrors(world, ideal, own, event.stream, world'.streams[event.stream], sequence);
    }
  }

  lemma CursorMoves(ideal: Ideal, start: nat, n: nat)
    requires ideal.passed <= |ideal.history| && start + n <= |ideal.history|
    ensures CursorAfter(CursorOf(ideal), ideal.history[start..start + n]) ==
            CursorOf(if n == 0 then ideal else ideal.(passed := start + n))
  {
  }

  /** The stretch of `n` entries from `start` on is delivered. */
  lemma StretchMirrors(world: World, ideal: Ideal, own: string, start: nat, n: nat)
    requires Mirrors(world, ideal, own) && ideal.passed <= start && start + n <= |ideal.history|
    ensures var taken := ideal.history[start..start + n];
            Mirrors(world.(cursor := CursorAfter(world.cursor, taken), delivered := world.delivered + taken),
                    ideal.(passed := if n == 0 then ideal.passed else start + n, given := Give(ideal.given, start, n)),
                    own)
  {
    CursorMoves(ideal, start, n);
    GiveInOrder(ideal.given, ideal.passed, start, n);
    DeliveredMore(world.delivered, ideal.history, ideal.given, start, n);
  }

  lemma ConsumeMirrors(world: World, ideal: Ideal, event: Event, own: string)
    requires Mirrors(world, ideal, own) && event.Consume? && WellNumbered(ideal.history, world.sequence)
    ensures Mirrors(Next(world, event, own), IdealNext(ideal, event, world.sequence, own), own)
  {
    var start, n := Larger(ideal.trimmed, ideal.passed), Takes(ideal, event.count, event.patience);
    TakenIsStretch(ideal, world.sequence, event.count, event.patience);
    ConsumeGets(world, event, own, ideal.history[start..start + n]);
    assert IdealNext(ideal, event, world.sequence, own) ==
           ideal.(passed := if n == 0 then ideal.passed else start + n, given := Give(ideal.given, start, n));
    StretchMirrors(world, ideal, own, start, n);
  }

  lemma ConsumeGets(world: World, event: Event, own: string, taken: seq<StreamEntry>)
    requires event.Consume? && taken == Taken(Entries(world.streams, own), world.cursor, event.count, event.patience)
    ensures Next(world, event, own) ==
            world.(cursor := CursorAfter(world.cursor, taken), delivered := world.delivered + taken)
  {
  }

  lemma {:induction false} AlwaysMirrors(events: seq<Event>, own: string)
    ensures Mirrors(Run(events, own), IdealRun(events, own), own)
  {
    if events != [] {
      var before, event := events[..|events| - 1], events[|events| - 1];
      AlwaysMirrors(before, own);
      NumberedAlways(before, own);
      if event.Append? {
        AppendMirrors(Run(before, own), IdealRun(before, own), event, own);
      } else {
        ConsumeMirrors(Run(before, own), IdealRun(before, own), event, own);
      }
    }
  }

  // ---------------------------------------------------------------------------------------
  // What the ideal consumer is given
  // ---------------------------------------------------------------------------------------

  /** After some prefix of the run the entry at `position` was trimmed, and the consumer had not come to it. */
  ghost predicate TrimmedUnread(events: seq<Event>, own: string, position: nat) {
    exists n: nat :: n <= |events| && IdealRun(events[..n], own).passed <= position < IdealRun(events[..n], own).trimmed
  }

  lemma {:induction false} GiveHolds(given: seq<nat>, start: nat, n: nat, p: nat)
    ensures p in Give(given, start, n) <==> p in given || start <= p < start + n
  {
    if n > 0 {
      GiveHolds(given, start, n - 1, p);
    }
  }

  lemma {:induction false} MissedWereTrimmed(events: seq<Event>, own: string, position: nat)
    requires position < IdealRun(events, own).passed && position !in IdealRun(events, own).given
    ensures TrimmedUnread(events, own, position)
  {
    if events != [] {
      var before, event := events[..|events| - 1], events[|events| - 1];
      var ideal := IdealRun(before, own);
      var start := Larger(ideal.trimmed, ideal.passed);
      if event.Consume? {
        GiveHolds(ideal.given, start, Takes(ideal, event.count, event.patience), position);
      }
      if position < ideal.passed {
        MissedWereTrimmed(before, own, position);
        var n: nat :| n <= |before| && IdealRun(before[..n], own).passed <= position < IdealRun(before[..n], own).trimmed;
        assert before[..n] == events[..n];
      } else {
        assert events[..|before|] == before;
      }
    }
  }

  /** Over every interleaving of appends and reads, what the consumer has been given are entries of
      the history at strictly increasing positions: each at most once, in append order. Every
      earlier position it was not given had been trimmed before it came there. */
  lemma ConsumerSeesEachOnceInOrder(events: seq<Event>, own: string)
    ensures var world, ideal := Run(events, own), IdealRun(events, own);
            && |world.delivered| == |ideal.given|
            && (forall i :: 0 <= i < |ideal.given| ==>
                  ideal.given[i] < |ideal.history| && world.delivered[i] == ideal.history[ideal.given[i]])
            && (forall i, j :: 0 <= i < j < |ideal.given| ==> ideal.given[i] < ideal.given[j])
            && (forall p :: 0 <= p < ideal.passed && p !in ideal.given ==> TrimmedUnread(events, own, p))
  {
    AlwaysMirrors(events, own);
    forall p | 0 <= p < IdealRun(events, own).passed && p !in IdealRun(events, own).given
      ensures TrimmedUnread(events, own, p)
    {
      MissedWereTrimmed(events, own, p);
    }
  }

  /** A read that may take entries takes at least one as long as an unread one is left, and it
      takes the oldest unread one first. */
  lemma ConsumerMakesProgress(events: seq<Event>, own: string, count: nat, patience: nat)
    requires count > 0 && patience > 0
    ensures var world, ideal := Run(events, own), IdealRun(events, own);
            var oldest := Larger(ideal.trimmed, ideal.passed);
            var after := Run(events + [Consume(count, patience)], own);
            if oldest < |ideal.history|
            then |after.delivered| > |world.delivered| &&
                 after.delivered[|world.delivered|] == ideal.history[oldest]
            else after.delivered == world.delivered
  {
    var event := Consume(count, patience);
    assert (events + [event])[..|events|] == events;
    AlwaysMirrors(events, own);
    NumberedAlways(events, own);
    TakenIsStretch(IdealRun(events, own), Run(events, own).sequence, count, patience);
  }
}
