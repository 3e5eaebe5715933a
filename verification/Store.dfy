/** The in-process store behind the hot path: values with a time to live, sliding windows, streams. */
module Store {
  import opened Decimal
  import opened Wrappers
  import Limiter = RateLimit
  import Money
  import Usage = UsageStream

  datatype Entry = Entry(value: string, expiresAt: Option<nat>) {
    predicate Live(now: nat) { expiresAt.None? || expiresAt.value > now }
  }

  type Values = map<string, Entry>

  function Lookup(values: Values, key: string, now: nat): Option<string> {
    if key in values && values[key].Live(now) then Some(values[key].value) else None
  }

  /** A read removes the entry it finds expired, and nothing else. */
  function AfterRead(values: Values, key: string, now: nat): Values {
    if key in values && !values[key].Live(now) then values - {key} else values
  }

  function WithValue(values: Values, key: string, value: string, ttl: nat, now: nat): Values {
    values[key := Entry(value, Some(now + ttl))]
  }

  function WithoutPrefix(values: Values, prefix: string): Values {
    map key | key in values && !(prefix <= key) :: values[key]
  }

  /** A text as a signed 64-bit integer, when it is one. */
  function ReadInt(s: string): Option<int> {
    var digits := if s != "" && (s[0] == '-' || s[0] == '+') then s[1..] else s;
    if digits == "" || !AllDigits(digits) then None
    else
      var v: int := if s[0] == '-' then -(Value(digits) as int) else Value(digits);
      if Money.FitsI64(v) then Some(v) else None
  }

  function EntryOf(values: Values, key: string): Option<Entry> {
    if key in values then Some(values[key]) else None
  }

  /** Where a counter stands: at zero when it is missing, expired, or no number. */
  function Count(entry: Option<Entry>, now: nat): int {
    if entry.None? || !entry.value.Live(now) then 0
    else
      var read := ReadInt(entry.value.value);
      if read.Some? then read.value else 0
  }

  function ExpiryIn(ttl: Option<nat>, now: nat): Option<nat> {
    if ttl.Some? then Some(now + ttl.value) else None
  }

  /** A counter after an increment: only one that stood at zero gets a new time to live. */
  function Counted(entry: Option<Entry>, step: int, ttl: Option<nat>, now: nat): Entry {
    Entry(IntText(Money.Add(Count(entry, now), step)),
          if Count(entry, now) == 0 then ExpiryIn(ttl, now) else entry.value.expiresAt)
  }

  lemma RemoveOneMore(values: Values, doomed: set<string>, left: set<string>, key: string)
    requires key in left && left <= doomed
    ensures values - (doomed - left) - {key} == values - (doomed - (left - {key}))
  {
    assert doomed - (left - {key}) == (doomed - left) + {key};
  }

  lemma RemovedAll(values: Values, doomed: set<string>, prefix: string)
    requires doomed == set key | key in values && prefix <= key
    ensures values - (doomed - {}) == WithoutPrefix(values, prefix)
    ensures |WithoutPrefix(values, prefix)| == |values| - |doomed|
  {
    assert doomed - {} == doomed;
    assert values - doomed == WithoutPrefix(values, prefix);
    assert values.Keys == (values - doomed).Keys + doomed;
  }

  class MemoryStore {
    var values: Values
    var windows: map<string, seq<nat>>
    var streams: map<string, seq<Usage.StreamEntry>>
    var streamSeq: nat

    constructor ()
      ensures values == map[] && windows == map[] && streams == map[] && streamSeq == 0
    {
      values, windows, streams, streamSeq := map[], map[], map[], 0;
    }

    method Get(key: string, now: nat) returns (value: Option<string>)
      modifies this`values
      ensures value == Lookup(old(values), key, now)
      ensures values == AfterRead(old(values), key, now)
    {
      if key !in values {
        return None;
      }
      if values[key].Live(now) {
        return Some(values[key].value);
      }
      values := values - {key};
      return None;
    }

    method SetEx(key: string, value: string, ttl: nat, now: nat)
      modifies this`values
      ensures values == WithValue(old(values), key, value, ttl, now)
    {
      values := values[key := Entry(value, Some(now + ttl))];
    }

    method Del(key: string) returns (removed: bool)
      modifies this`values
      ensures removed == (key in old(values)) && values == old(values) - {key}
    {
      removed := key in values;
      values := values - {key};
    }

    method DelPrefix(prefix: string) returns (removed: nat)
      modifies this`values
      ensures values == WithoutPrefix(old(values), prefix)
      ensures removed == |old(values)| - |values|
    {
      ghost var before := values;
      var doomed := set key | key in values && prefix <= key;
      removed := |doomed|;
      var left := doomed;
      while left != {}
        invariant left <= doomed
        invariant values == before - (doomed - left)
        decreases left
      {
        var key :| key in left;
        RemoveOneMore(before, doomed, left, key);
        values := values - {key};
        left := left - {key};
      }
      RemovedAll(before, doomed, prefix);
    }

    method IncrBy(key: string, step: int, ttl: Option<nat>, now: nat) returns (updated: int)
      modifies this`values
      ensures values == old(values)[key := Counted(EntryOf(old(values), key), step, ttl, now)]
      ensures updated == Money.Add(Count(EntryOf(old(values), key), now), step)
    {
      var existing := 0;
      if key in values && values[key].Live(now) {
        var read := ReadInt(values[key].value);
        existing := if read.Some? then read.value else 0;
      }
      updated := Money.Add(existing, step);
      var expiresAt := if existing == 0 then ExpiryIn(ttl, now) else values[key].expiresAt;
      values := values[key := Entry(IntText(updated), expiresAt)];
    }

    method RateLimit(key: string, limit: nat, window: nat, now: nat) returns (outcome: Limiter.Outcome)
      modifies this`windows
      ensures var live := Limiter.Live(Limiter.HitsOf(old(windows), key), window, now);
              && outcome == Limiter.MemoryOutcome(live, limit, window, now)
              && windows == old(windows)[key := Limiter.MemoryHits(live, limit, now)]
    {
      var hits := Limiter.HitsOf(windows, key);
      hits := Limiter.Live(hits, window, now);
      if |hits| < limit {
        hits := hits + [now];
        windows := windows[key := hits];
        return Limiter.Outcome(true, limit - |hits|, 0);
      }
      windows := windows[key := hits];
      var oldest := if hits == [] then now else Limiter.Oldest(hits);
      var retryMs := Limiter.Max(oldest + window - now, 0);
      return Limiter.Outcome(false, 0, Limiter.Max(retryMs / 1000, 1));
    }

    method StreamAppend(stream: string, payload: string, maxLen: nat, now: nat) returns (id: string)
      modifies this`streams, this`streamSeq
      ensures streamSeq == old(streamSeq) + 1 && id == Usage.EntryId(now, streamSeq)
      ensures streams == old(streams)[stream :=
                Usage.Appended(Usage.Entries(old(streams), stream),
                                     Usage.StreamEntry(id, payload), maxLen)]
    {
      streamSeq := streamSeq + 1;
      id := Usage.EntryId(now, streamSeq);
      var entries := Usage.Entries(streams, stream);
      entries := entries + [Usage.StreamEntry(id, payload)];
      if |entries| > maxLen {
        var excess := |entries| - maxLen;
        entries := entries[excess..];
      }
      streams := streams[stream := entries];
    }

    method StreamRead(stream: string, afterId: string, count: nat) returns (read: seq<Usage.StreamEntry>)
      ensures read == Usage.ReadAfter(Usage.Entries(streams, stream), afterId, count)
    {
      if stream !in streams {
        return [];
      }
      var entries := streams[stream];
      var start := Usage.ReadStart(entries, afterId);
      var rest := entries[start..];
      read := if |rest| <= count then rest else rest[..count];
    }
  }
}
