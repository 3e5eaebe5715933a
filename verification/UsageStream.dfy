/** The trimmed append-only stream of usage events, and a consumer that reads it by cursor. */
module UsageStream {
  import opened Decimal

  datatype StreamEntry = StreamEntry(id: string, payload: string)

  const START := "0"

  function EntryId(now: nat, sequence: nat): string { Dec(now) + "-" + Dec(sequence) }

  /** Appends an entry and drops the oldest ones beyond `maxLen`. */
  function Appended(entries: seq<StreamEntry>, entry: StreamEntry, maxLen: nat): seq<StreamEntry> {
    var all := entries + [entry];
    if |all| > maxLen then all[|all| - maxLen..] else all
  }

  /** The position of the entry with this id; the length when there is none. */
  function Position(entries: seq<StreamEntry>, id: string): (k: nat)
    ensures k <= |entries|
  {
    if entries == [] then 0
    else if entries[0].id == id then 0
    else 1 + Position(entries[1..], id)
  }

  /** Where a read after `cursor` starts: after the entry it names, or at the front when the cursor
      is the start mark or names an entry that is gone. */
  function ReadStart(entries: seq<StreamEntry>, cursor: string): (k: nat)
    ensures k <= |entries|
  {
    if cursor == START then 0
    else
      var k := Position(entries, cursor);
      if k < |entries| then k + 1 else 0
  }

  function Min(a: nat, b: nat): nat { if a < b then a else b }

  function ReadAfter(entries: seq<StreamEntry>, cursor: string, count: nat): (r: seq<StreamEntry>)
    ensures |r| <= count
  {
    var rest := entries[ReadStart(entries, cursor)..];
    rest[..Min(count, |rest|)]
  }

  /** What a consumer that stops after `patience` entries gets through of one read. */
  function Taken(entries: seq<StreamEntry>, cursor: string, count: nat, patience: nat): seq<StreamEntry> {
    var read := ReadAfter(entries, cursor, count);
    read[..Min(patience, |read|)]
  }

  /** The consumer's cursor names the last entry it got through. */
  function CursorAfter(cursor: string, taken: seq<StreamEntry>): string {
    if taken == [] then cursor else taken[|taken| - 1].id
  }

  // ---------------------------------------------------------------------------------------
  // Runs
  // ---------------------------------------------------------------------------------------

  /** A step of a run: someone appends to a stream, or the consumer reads up to `count` entries of
      its own stream and gets through at most `patience` of them before it stops. */
  datatype Event =
    | Append(stream: string, payload: string, maxLen: nat, now: nat)
    | Consume(count: nat, patience: nat)

  /** The store's streams and counter, the consumer's cursor, and what it has been given so far. */
  datatype World = World(streams: map<string, seq<StreamEntry>>, sequence: nat, cursor: string,
                         delivered: seq<StreamEntry>)

  const INITIAL := World(map[], 0, START, [])

  function Entries(streams: map<string, seq<StreamEntry>>, stream: string): seq<StreamEntry> {
    if stream in streams then streams[stream] else []
  }

  function Next(world: World, event: Event, own: string): World {
    match event
    case Append(stream, payload, maxLen, now) =>
      var entry := StreamEntry(EntryId(now, world.sequence + 1), payload);
      world.(streams := world.streams[stream := Appended(Entries(world.streams, stream), entry, maxLen)],
             sequence := world.sequence + 1)
    case Consume(count, patience) =>
      var taken := Taken(Entries(world.streams, own), world.cursor, count, patience);
      world.(cursor := CursorAfter(world.cursor, taken), delivered := world.delivered + taken)
  }

  function Run(events: seq<Event>, own: string): World {
    if events == [] then INITIAL else Next(Run(events[..|events| - 1], own), events[|events| - 1], own)
  }

  // ---------------------------------------------------------------------------------------
  // The ideal consumer: it counts positions in the full history of its stream
  // ---------------------------------------------------------------------------------------

  /** Every entry ever appended, how many of them have been trimmed, how many the consumer has left
      behind it, and the positions of the ones it was given. */
  datatype Ideal = Ideal(history: seq<StreamEntry>, trimmed: nat, passed: nat, given: seq<nat>)

  const FRESH := Ideal([], 0, 0, [])

  function Larger(a: nat, b: nat): nat { if a < b then b else a }

  /** The positions given so far, and then the `n` positions from `start` on. */
  function Give(given: seq<nat>, start: nat, n: nat): (r: seq<nat>)
    ensures |r| == |given| + n
  {
    if n == 0 then given else Give(given, start, n - 1) + [start + n - 1]
  }

  /** How many entries a read takes that starts at position `start`. */
  function Takes(ideal: Ideal, count: nat, patience: nat): nat {
    var start := Larger(ideal.trimmed, ideal.passed);
    if start <= |ideal.history| then Min(patience, Min(count, |ideal.history| - start)) else 0
  }

  function IdealNext(ideal: Ideal, event: Event, sequence: nat, own: string): Ideal {
    match event
    case Append(stream, payload, maxLen, now) =>
      if stream != own then ideal
      else
        var history := ideal.history + [StreamEntry(EntryId(now, sequence + 1), payload)];
        ideal.(history := history, trimmed := Larger(ideal.trimmed, if |history| > maxLen then |history| - maxLen else 0))
    case Consume(count, patience) =>
      var start, n := Larger(ideal.trimmed, ideal.passed), Takes(ideal, count, patience);
      ideal.(passed := if n == 0 then ideal.passed else start + n, given := Give(ideal.given, start, n))
  }

  function IdealRun(events: seq<Event>, own: string): Ideal {
    if events == [] then FRESH
    else
      var before := events[..|events| - 1];
      IdealNext(IdealRun(before, own), events[|events| - 1], Run(before, own).sequence, own)
  }
}
