/** The two limiters answer alike, and neither admits more than the limit in any window. */
module RateLimitLaws {
  import opened Wrappers
  import opened RateLimit

  // ---------------------------------------------------------------------------------------
  // Agreement
  // ---------------------------------------------------------------------------------------

  function Scores(entries: seq<Scored>): (r: seq<nat>)
    ensures |r| == |entries|
  {
    if entries == [] then [] else [entries[0].score] + Scores(entries[1..])
  }

  predicate Sorted(s: seq<nat>) { forall i, j :: 0 <= i < j < |s| ==> s[i] <= s[j] }

  predicate AtMost(s: seq<nat>, bound: int) { forall i :: 0 <= i < |s| ==> s[i] <= bound }

  lemma {:induction false} RemoveIsLive(entries: seq<Scored>, window: nat, now: nat)
    ensures Scores(RemoveUpTo(entries, now - window)) == Live(Scores(entries), window, now)
  {
    if entries != [] {
      RemoveIsLive(entries[1..], window, now);
      assert Scores(entries)[1..] == Scores(entries[1..]);
    }
  }

  lemma {:induction false} LiveKeepsOrder(hits: seq<nat>, window: nat, now: nat)
    requires Sorted(hits)
    ensures Sorted(Live(hits, window, now))
    ensures forall t :: t in Live(hits, window, now) <==> t in hits && t + window > now
  {
    if hits != [] {
      LiveKeepsOrder(hits[1..], window, now);
    }
  }

  lemma {:induction false} OldestIsFirst(hits: seq<nat>)
    requires hits != [] && Sorted(hits)
    ensures Oldest(hits) == hits[0]
  {
    if |hits| > 1 {
      OldestIsFirst(hits[1..]);
    }
  }

  lemma {:induction false} InsertLast(entries: seq<Scored>, entry: Scored)
    requires Sorted(Scores(entries)) && AtMost(Scores(entries), entry.score)
    ensures Scores(Insert(entries, entry)) == Scores(entries) + [entry.score]
  {
    if entries != [] {
      var scores := Scores(entries);
      assert scores[1..] == Scores(entries[1..]);
      if Before(entry, entries[0]) {
        assert scores[0] == entry.score;
        assert forall i :: 0 <= i < |scores| ==> scores[i] == entry.score;
        assert [entry.score] + scores == scores + [entry.score];
        assert ([entry] + entries)[1..] == entries;
      } else {
        InsertLast(entries[1..], entry);
        assert Insert(entries, entry)[1..] == Insert(entries[1..], entry);
      }
    }
  }

  lemma {:induction false} NothingWithout(entries: seq<Scored>, member: string)
    requires forall i :: 0 <= i < |entries| ==> entries[i].member != member
    ensures Without(entries, member) == entries
  {
    if entries != [] {
      NothingWithout(entries[1..], member);
    }
  }

  lemma {:induction false} InsertMembers(entries: seq<Scored>, entry: Scored)
    ensures forall e :: e in Insert(entries, entry) ==> e == entry || e in entries
  {
    if entries != [] && !Before(entry, entries[0]) {
      InsertMembers(entries[1..], entry);
    }
  }

  lemma {:induction false} RemoveMembers(entries: seq<Scored>, upTo: int)
    ensures forall e :: e in RemoveUpTo(entries, upTo) ==> e in entries
  {
    if entries != [] {
      RemoveMembers(entries[1..], upTo);
    }
  }

  predicate Named(entries: seq<Scored>, names: set<string>) {
    forall e :: e in entries ==> e.member in names
  }

  /** For one key: what Redis holds, next to what memory holds, no hit being later than `last` and
      no member name outside `names`. A set that is missing or past its deadline stands for hits
      that have all left the window. */
  predicate Match(zset: Option<ZSet>, hits: seq<nat>, window: nat, last: nat, names: set<string>) {
    && Sorted(hits) && AtMost(hits, last)
    && match zset
       case None => hits == []
       case Some(z) => Scores(z.entries) == hits && AtMost(hits, z.deadline - window) && Named(z.entries, names)
  }

  lemma {:induction false} AllGone(hits: seq<nat>, window: nat, now: nat)
    requires AtMost(hits, now - window)
    ensures Live(hits, window, now) == []
  {
    if hits != [] {
      AllGone(hits[1..], window, now);
    }
  }

  lemma LiveAtMost(hits: seq<nat>, window: nat, now: nat, bound: int)
    requires Sorted(hits) && AtMost(hits, bound)
    ensures Sorted(Live(hits, window, now)) && AtMost(Live(hits, window, now), bound)
  {
    LiveKeepsOrder(hits, window, now);
    var live := Live(hits, window, now);
    forall i | 0 <= i < |live|
      ensures live[i] <= bound
    {
      assert live[i] in live;
    }
  }

  /** What the script keeps has the scores that memory keeps. */
  lemma KeptIsLive(zset: Option<ZSet>, hits: seq<nat>, window: nat, last: nat, names: set<string>, now: nat)
    requires Match(zset, hits, window, last, names)
    ensures var kept := RemoveUpTo(Found(zset, now), now - window);
            Scores(kept) == Live(hits, window, now) && Named(kept, names)
  {
    RemoveMembers(Found(zset, now), now - window);
    if zset.Some? && now <= zset.value.deadline {
      RemoveIsLive(zset.value.entries, window, now);
    } else {
      AllGone(hits, window, now);
    }
  }

  lemma AddMatches(kept: seq<Scored>, live: seq<nat>, window: nat, now: nat, member: string, names: set<string>)
    requires Scores(kept) == live && Sorted(live) && AtMost(live, now) && Named(kept, names) && member !in names
    ensures Match(Some(ZSet(Add(kept, Scored(now, member)), now + window)), live + [now], window, now, names + {member})
  {
    NothingWithout(kept, member);
    InsertLast(kept, Scored(now, member));
    InsertMembers(kept, Scored(now, member));
  }

  lemma MatchStep(zset: Option<ZSet>, hits: seq<nat>, limit: nat, window: nat, last: nat, names: set<string>,
                  now: nat, member: string)
    requires Match(zset, hits, window, last, names) && last <= now && member !in names
    ensures Match(ScriptSet(RemoveUpTo(Found(zset, now), now - window), limit, window, now, member),
                  MemoryHits(Live(hits, window, now), limit, now), window, now, names + {member})
  {
    var kept, live := RemoveUpTo(Found(zset, now), now - window), Live(hits, window, now);
    KeptIsLive(zset, hits, window, last, names, now);
    LiveAtMost(hits, window, now, now);
    if |kept| < limit {
      AddMatches(kept, live, window, now, member, names);
    }
  }

  function Names(calls: seq<Call>): set<string> { set call | call in calls :: call.member }

  /** What one call makes of the two stores, for one key. */
  function AfterCall(zset: Option<ZSet>, hits: seq<nat>, call: Call, key: string, limit: nat, window: nat)
    : (Option<ZSet>, seq<nat>)
  {
    if key != call.key then (zset, hits)
    else (ScriptSet(RemoveUpTo(Found(zset, call.now), call.now - window), limit, window, call.now, call.member),
          MemoryHits(Live(hits, window, call.now), limit, call.now))
  }

  /** Only the last call touches the key it names. */
  lemma RunStep(before: seq<Call>, call: Call, key: string, limit: nat, window: nat)
    ensures (SetOf(Sets(before + [call], limit, window), key), HitsOf(Windows(before + [call], limit, window), key)) ==
            AfterCall(SetOf(Sets(before, limit, window), key), HitsOf(Windows(before, limit, window), key),
                      call, key, limit, window)
  {
    var calls := before + [call];
    assert calls[..|before|] == before && calls[|before|] == call;
  }

  function LastTime(calls: seq<Call>): nat { if calls == [] then 0 else calls[|calls| - 1].now }

  /** A run that may be followed by `call`. */
  predicate MayFollow(calls: seq<Call>, call: Call) {
    ClockForward(calls) && FreshMembers(calls) && LastTime(calls) <= call.now && call.member !in Names(calls)
  }

  lemma Unsnoc(calls: seq<Call>, call: Call)
    requires ClockForward(calls + [call]) && FreshMembers(calls + [call])
    ensures MayFollow(calls, call) && Names(calls + [call]) == Names(calls) + {call.member}
  {
    var all := calls + [call];
    assert forall i :: 0 <= i < |calls| ==> calls[i] == all[i];
    assert all[|calls|] == call;
    forall c | c in calls
      ensures c.member != call.member && c.now <= call.now
    {
      var i :| 0 <= i < |calls| && calls[i] == c;
      assert all[i].member != all[|calls|].member;
    }
  }

  /** The two stores after a run, side by side for one key. */
  predicate InStep(calls: seq<Call>, key: string, limit: nat, window: nat) {
    Match(SetOf(Sets(calls, limit, window), key), HitsOf(Windows(calls, limit, window), key), window,
          LastTime(calls), Names(calls))
  }

  lemma InStepAfter(before: seq<Call>, call: Call, key: string, limit: nat, window: nat)
    requires InStep(before, key, limit, window) && LastTime(before) <= call.now && call.member !in Names(before)
    requires Names(before + [call]) == Names(before) + {call.member}
    ensures InStep(before + [call], key, limit, window)
  {
    var zset, hits := SetOf(Sets(before, limit, window), key), HitsOf(Windows(before, limit, window), key);
    var (zset', hits') := AfterCall(zset, hits, call, key, limit, window);
    assert (before + [call])[|before|] == call;
    assert zset' == SetOf(Sets(before + [call], limit, window), key) &&
           hits' == HitsOf(Windows(before + [call], limit, window), key) by {
      RunStep(before, call, key, limit, window);
    }
    assert Match(zset', hits', window, call.now, Names(before + [call])) by {
      MatchAfterCall(zset, hits, call, key, limit, window, LastTime(before), Names(before));
    }
  }

  lemma MatchAfterCall(zset: Option<ZSet>, hits: seq<nat>, call: Call, key: string, limit: nat, window: nat,
                       last: nat, names: set<string>)
    requires Match(zset, hits, window, last, names) && last <= call.now && call.member !in names
    ensures var (zset', hits') := AfterCall(zset, hits, call, key, limit, window);
            Match(zset', hits', window, call.now, names + {call.member})
  {
    if key == call.key {
      MatchStep(zset, hits, limit, window, last, names, call.now, call.member);
    } else {
      MatchLater(zset, hits, window, last, call.now, names, call.member);
    }
  }

  lemma {:induction false} MatchAlways(calls: seq<Call>, key: string, limit: nat, window: nat)
    requires ClockForward(calls) && FreshMembers(calls)
    ensures InStep(calls, key, limit, window)
  {
    if calls != [] {
      var call, before := calls[|calls| - 1], calls[..|calls| - 1];
      assert before + [call] == calls;
      Unsnoc(before, call);
      MatchAlways(before, key, limit, window);
      InStepAfter(before, call, key, limit, window);
    }
  }

  lemma MatchLater(zset: Option<ZSet>, hits: seq<nat>, window: nat, last: nat, now: nat, names: set<string>, member: string)
    requires Match(zset, hits, window, last, names) && last <= now
    ensures Match(zset, hits, window, now, names + {member})
  {
  }

  /** At every step of every run the two limiters give the same verdict and the same remaining
      count, and the same wait when they refuse; when they admit, Redis hints 1 and memory 0. */
  lemma LimitersAgree(calls: seq<Call>, call: Call, limit: nat, window: nat)
    requires ClockForward(calls + [call]) && FreshMembers(calls + [call])
    ensures var redis, memory := RedisAnswer(calls, call, limit, window), MemoryAnswer(calls, call, limit, window);
            && redis.allowed == memory.allowed && redis.remaining == memory.remaining
            && (!redis.allowed ==> redis == memory)
            && (redis.allowed ==> redis.retryAfterSecs == 1 && memory.retryAfterSecs == 0)
  {
    Unsnoc(calls, call);
    MatchAlways(calls, call.key, limit, window);
    AnswersAgree(SetOf(Sets(calls, limit, window), call.key), HitsOf(Windows(calls, limit, window), call.key),
                 limit, window, LastTime(calls), Names(calls), call.now);
  }

  lemma AnswersAgree(zset: Option<ZSet>, hits: seq<nat>, limit: nat, window: nat, last: nat, names: set<string>, now: nat)
    requires Match(zset, hits, window, last, names) && last <= now
    ensures var kept, live := RemoveUpTo(Found(zset, now), now - window), Live(hits, window, now);
            var redis, memory := OutcomeOf(ScriptReply(kept, limit, window, now)), MemoryOutcome(live, limit, window, now);
            && redis.allowed == memory.allowed && redis.remaining == memory.remaining
            && (!redis.allowed ==> redis == memory)
            && (redis.allowed ==> redis.retryAfterSecs == 1 && memory.retryAfterSecs == 0)
  {
    KeptIsLive(zset, hits, window, last, names, now);
    LiveAtMost(hits, window, now, last);
    if Live(hits, window, now) != [] {
      OldestIsFirst(Live(hits, window, now));
    }
  }

  // ---------------------------------------------------------------------------------------
  // Safety
  // ---------------------------------------------------------------------------------------

  /** The times at which a run admitted a call for `key`. */
  function Admissions(calls: seq<Call>, key: string, limit: nat, window: nat): seq<nat> {
    if calls == [] then []
    else
      var call, before := calls[|calls| - 1], calls[..|calls| - 1];
      var earlier := Admissions(before, key, limit, window);
      if call.key == key && MemoryAnswer(before, call, limit, window).allowed then earlier + [call.now] else earlier
  }

  /** How many of the times lie in [from, from + window). */
  function CountWithin(times: seq<nat>, from: int, window: nat): nat {
    if times == [] then 0
    else CountWithin(times[..|times| - 1], from, window) +
         if from <= times[|times| - 1] < from + window then 1 else 0
  }

  lemma {:induction false} LiveSnoc(hits: seq<nat>, t: nat, window: nat, now: nat)
    ensures Live(hits + [t], window, now) ==
            if t + window > now then Live(hits, window, now) + [t] else Live(hits, window, now)
  {
    if hits == [] {
      assert hits + [t] == [t];
    } else {
      LiveSnoc(hits[1..], t, window, now);
      assert hits + [t] == [hits[0]] + (hits[1..] + [t]);
    }
  }

  lemma {:induction false} LiveLater(hits: seq<nat>, window: nat, now: nat, later: nat)
    requires now <= later
    ensures Live(Live(hits, window, now), window, later) == Live(hits, window, later)
  {
    if hits != [] {
      LiveLater(hits[1..], window, now, later);
    }
  }

  /** The list a key keeps stands for all its admissions, as far as any later check can tell. */
  lemma {:induction false} HitsAreAdmissions(calls: seq<Call>, key: string, limit: nat, window: nat, now: nat)
    requires ClockForward(calls) && LastTime(calls) <= now
    ensures Live(HitsOf(Windows(calls, limit, window), key), window, now) ==
            Live(Admissions(calls, key, limit, window), window, now)
  {
    if calls != [] {
      var call, before := calls[|calls| - 1], calls[..|calls| - 1];
      assert before + [call] == calls;
      assert LastTime(before) <= call.now;
      HitsAreAdmissions(before, key, limit, window, now);
      RunStep(before, call, key, limit, window);
      var hits := HitsOf(Windows(before, limit, window), key);
      LiveLater(hits, window, call.now, now);
      LiveSnoc(Live(hits, window, call.now), call.now, window, now);
      LiveSnoc(Admissions(before, key, limit, window), call.now, window, now);
    }
  }

  lemma {:induction false} LiveCounts(times: seq<nat>, window: nat, now: nat)
    requires AtMost(times, now)
    ensures |Live(times, window, now)| == CountWithin(times, now + 1 - window, window)
  {
    if times != [] {
      var n := |times| - 1;
      LiveCounts(times[..n], window, now);
      LiveSnoc(times[..n], times[n], window, now);
      assert times == times[..n] + [times[n]];
    }
  }

  lemma {:induction false} AdmissionsAtMost(calls: seq<Call>, key: string, limit: nat, window: nat)
    requires ClockForward(calls)
    ensures AtMost(Admissions(calls, key, limit, window), LastTime(calls))
  {
    if calls != [] {
      var call, before := calls[|calls| - 1], calls[..|calls| - 1];
      assert LastTime(before) <= call.now;
      AdmissionsAtMost(before, key, limit, window);
    }
  }

  /** A call is refused exactly when the window that ends now is full: `limit` admissions of its
      key in (now - window, now]. What is left after an admission counts down the same number. */
  lemma RefusedOnlyWhenFull(calls: seq<Call>, call: Call, limit: nat, window: nat)
    requires ClockForward(calls) && LastTime(calls) <= call.now
    ensures var used := CountWithin(Admissions(calls, call.key, limit, window), call.now + 1 - window, window);
            var answer := MemoryAnswer(calls, call, limit, window);
            && answer.allowed == (used < limit)
            && answer.remaining == if used < limit then limit - used - 1 else 0
  {
    HitsAreAdmissions(calls, call.key, limit, window, call.now);
    AdmissionsAtMost(calls, call.key, limit, window);
    LiveCounts(Admissions(calls, call.key, limit, window), window, call.now);
  }

  lemma {:induction false} CountShifts(times: seq<nat>, from: int, to: int, window: nat)
    requires from <= to && AtMost(times, from + window - 1)
    ensures CountWithin(times, to, window) <= CountWithin(times, from, window)
  {
    if times != [] {
      CountShifts(times[..|times| - 1], from, to, window);
    }
  }

  lemma CountSnoc(times: seq<nat>, t: nat, from: int, window: nat)
    ensures CountWithin(times + [t], from, window) ==
            CountWithin(times, from, window) + if from <= t < from + window then 1 else 0
  {
    assert (times + [t])[..|times|] == times;
  }

  /** No interval as long as the window ever holds more than `limit` admissions of one key. */
  lemma {:induction false} NeverOverLimit(calls: seq<Call>, key: string, limit: nat, window: nat, from: int)
    requires ClockForward(calls)
    ensures CountWithin(Admissions(calls, key, limit, window), from, window) <= limit
  {
    if calls != [] {
      var call, before := calls[|calls| - 1], calls[..|calls| - 1];
      assert LastTime(before) <= call.now;
      NeverOverLimit(before, key, limit, window, from);
      var earlier := Admissions(before, key, limit, window);
      CountSnoc(earlier, call.now, from, window);
      if call.key == key && from <= call.now < from + window {
        RefusedOnlyWhenFull(before, call, limit, window);
        AdmissionsAtMost(before, key, limit, window);
        CountShifts(earlier, call.now + 1 - window, from, window);
      }
    }
  }

  // ---------------------------------------------------------------------------------------
  // The wait
  // ---------------------------------------------------------------------------------------

  lemma {:induction false} OldestIsLeast(hits: seq<nat>)
    requires hits != []
    ensures Oldest(hits) in hits && forall t :: t in hits ==> Oldest(hits) <= t
  {
    assert forall t :: t in hits <==> t == hits[0] || t in hits[1..];
    if |hits| > 1 {
      OldestIsLeast(hits[1..]);
    }
  }

  lemma {:induction false} LiveOnes(hits: seq<nat>, window: nat, now: nat)
    ensures forall t :: t in Live(hits, window, now) <==> t in hits && t + window > now
  {
    if hits != [] {
      LiveOnes(hits[1..], window, now);
    }
  }

  lemma {:induction false} CountDrops(times: seq<nat>, from: int, to: int, window: nat, gone: nat)
    requires from <= to && AtMost(times, from + window - 1) && gone in times && from <= gone < to
    ensures CountWithin(times, to, window) < CountWithin(times, from, window)
  {
    var n := |times| - 1;
    CountShifts(times[..n], from, to, window);
    if gone in times[..n] {
      CountDrops(times[..n], from, to, window, gone);
    }
  }

  lemma {:induction false} CountStays(times: seq<nat>, from: int, to: int, window: nat)
    requires from <= to && AtMost(times, from + window - 1)
    requires forall t :: t in times && from <= t ==> to <= t
    ensures CountWithin(times, to, window) == CountWithin(times, from, window)
  {
    if times != [] {
      var n := |times| - 1;
      assert times[n] in times && forall t :: t in times[..n] ==> t in times;
      CountStays(times[..n], from, to, window);
    }
  }

  /** `oldest` is the earliest of the times that are still inside the window. */
  predicate IsEarliest(times: seq<nat>, oldest: nat, window: nat, now: nat) {
    oldest in times && oldest + window > now && forall t :: t in times && t + window > now ==> oldest <= t
  }

  lemma RefusalChangesNothing(calls: seq<Call>, call: Call, limit: nat, window: nat)
    requires !MemoryAnswer(calls, call, limit, window).allowed
    ensures Admissions(calls + [call], call.key, limit, window) == Admissions(calls, call.key, limit, window)
  {
    assert (calls + [call])[..|calls|] == calls;
  }

  /** The hint of a refusal is the time until the earliest admission leaves the window, in whole seconds and at
      least one. A call of the key alone is admitted again exactly when all of that time has passed, so waiting
      as long as the hint says is enough exactly when no more than a second or whole seconds are left. */
  lemma HintIsTheWait(calls: seq<Call>, call: Call, later: nat, limit: nat, window: nat, oldest: nat)
    requires ClockForward(calls + [call]) && call.now <= later && limit > 0
    requires !MemoryAnswer(calls, call, limit, window).allowed
    requires IsEarliest(Admissions(calls, call.key, limit, window), oldest, window, call.now)
    ensures var wait, hint := oldest + window - call.now, MemoryAnswer(calls, call, limit, window).retryAfterSecs;
            && hint == (if wait < 1000 then 1 else wait / 1000)
            && (MemoryAnswer(calls + [call], call.(now := later), limit, window).allowed <==> later - call.now >= wait)
            && (hint * 1000 >= wait <==> wait <= 1000 || wait % 1000 == 0)
  {
    ForwardSplits(calls, call);
    HintSize(calls, call, limit, window, oldest);
    AdmittedAfterWait(calls, call, later, limit, window, oldest);
  }

  lemma ForwardSplits(calls: seq<Call>, call: Call)
    requires ClockForward(calls + [call])
    ensures ClockForward(calls) && LastTime(calls) <= call.now
  {
    var all := calls + [call];
    assert forall i :: 0 <= i < |calls| ==> calls[i] == all[i];
    assert all[|calls|] == call;
  }

  lemma HintSize(calls: seq<Call>, call: Call, limit: nat, window: nat, oldest: nat)
    requires ClockForward(calls) && LastTime(calls) <= call.now && limit > 0
    requires !MemoryAnswer(calls, call, limit, window).allowed
    requires IsEarliest(Admissions(calls, call.key, limit, window), oldest, window, call.now)
    ensures var wait := oldest + window - call.now;
            MemoryAnswer(calls, call, limit, window).retryAfterSecs == if wait < 1000 then 1 else wait / 1000
  {
    var live := Live(HitsOf(Windows(calls, limit, window), call.key), window, call.now);
    HitsAreAdmissions(calls, call.key, limit, window, call.now);
    LiveOnes(Admissions(calls, call.key, limit, window), window, call.now);
    OldestIsLeast(live);
  }

  lemma AdmittedAfterWait(calls: seq<Call>, call: Call, later: nat, limit: nat, window: nat, oldest: nat)
    requires ClockForward(calls + [call]) && ClockForward(calls) && LastTime(calls) <= call.now <= later
    requires !MemoryAnswer(calls, call, limit, window).allowed
    requires IsEarliest(Admissions(calls, call.key, limit, window), oldest, window, call.now)
    ensures MemoryAnswer(calls + [call], call.(now := later), limit, window).allowed <==> later >= oldest + window
  {
    var times := Admissions(calls, call.key, limit, window);
    var from, to := call.now + 1 - window, later + 1 - window;
    RefusalChangesNothing(calls, call, limit, window);
    RefusedOnlyWhenFull(calls, call, limit, window);
    RefusedOnlyWhenFull(calls + [call], call.(now := later), limit, window);
    NeverOverLimit(calls, call.key, limit, window, from);
    AdmissionsAtMost(calls, call.key, limit, window);
    if later >= oldest + window {
      CountDrops(times, from, to, window, oldest);
    } else {
      CountStays(times, from, to, window);
    }
  }

  // ---------------------------------------------------------------------------------------
  // Independence
  // ---------------------------------------------------------------------------------------

  function OnlyKey(calls: seq<Call>, key: string): seq<Call> {
    if calls == [] then []
    else OnlyKey(calls[..|calls| - 1], key) + if calls[|calls| - 1].key == key then [calls[|calls| - 1]] else []
  }

  lemma {:induction false} HitsIgnoreOtherKeys(calls: seq<Call>, key: string, limit: nat, window: nat)
    ensures HitsOf(Windows(calls, limit, window), key) == HitsOf(Windows(OnlyKey(calls, key), limit, window), key)
  {
    if calls != [] {
      var call, before := calls[|calls| - 1], calls[..|calls| - 1];
      assert before + [call] == calls;
      HitsIgnoreOtherKeys(before, key, limit, window);
      RunStep(before, call, key, limit, window);
      if call.key == key {
        RunStep(OnlyKey(before, key), call, key, limit, window);
      } else {
        assert OnlyKey(calls, key) == OnlyKey(before, key);
      }
    }
  }

  /** Calls for other keys never matter: the answer is the one the key's own calls give. */
  lemma OtherKeysNeverMatter(calls: seq<Call>, call: Call, limit: nat, window: nat)
    ensures MemoryAnswer(calls, call, limit, window) == MemoryAnswer(OnlyKey(calls, call.key), call, limit, window)
  {
    HitsIgnoreOtherKeys(calls, call.key, limit, window);
  }
}
