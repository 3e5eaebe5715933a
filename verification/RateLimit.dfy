/** The sliding-window rate limiter, in its two forms: the in-memory one and the Lua script. */
module RateLimit {
  import opened Wrappers
  import Lexicographic

  datatype Outcome = Outcome(allowed: bool, remaining: nat, retryAfterSecs: nat)

  /** One check of a key; `member` is the unique name the script stores the request under. */
  datatype Call = Call(key: string, now: nat, member: string)

  function Max(a: int, b: int): int { if a < b then b else a }

  // ---------------------------------------------------------------------------------------
  // In memory: a list of hit times for each key
  // ---------------------------------------------------------------------------------------

  /** The hits that are still inside the window at `now`. */
  function Live(hits: seq<nat>, window: nat, now: nat): seq<nat> {
    if hits == [] then []
    else if hits[0] + window > now then [hits[0]] + Live(hits[1..], window, now)
    else Live(hits[1..], window, now)
  }

  function Oldest(hits: seq<nat>): (t: nat)
    requires hits != []
  {
    if |hits| == 1 then hits[0]
    else var rest := Oldest(hits[1..]); if hits[0] <= rest then hits[0] else rest
  }

  /** The outcome of a check against the hits `live` left in the window. */
  function MemoryOutcome(live: seq<nat>, limit: nat, window: nat, now: nat): Outcome {
    if |live| < limit then Outcome(true, limit - |live| - 1, 0)
    else
      var oldest := if live == [] then now else Oldest(live);
      Outcome(false, 0, Max(Max(oldest + window - now, 0) / 1000, 1))
  }

  function MemoryHits(live: seq<nat>, limit: nat, now: nat): seq<nat> {
    if |live| < limit then live + [now] else live
  }

  function HitsOf(windows: map<string, seq<nat>>, key: string): seq<nat> {
    if key in windows then windows[key] else []
  }

  // ---------------------------------------------------------------------------------------
  // In Redis: a sorted set with an expiry for each key
  // ---------------------------------------------------------------------------------------

  datatype Scored = Scored(score: nat, member: string)

  /** A sorted set in its order, by score and then by name, and the time after which it is gone. */
  datatype ZSet = ZSet(entries: seq<Scored>, deadline: nat)

  /** What the script returns: allowed, remaining, and the wait in milliseconds. */
  datatype Reply = Reply(allowed: int, remaining: int, retryMs: int)

  /** ZREMRANGEBYSCORE key 0 upTo */
  function RemoveUpTo(entries: seq<Scored>, upTo: int): seq<Scored> {
    if entries == [] then []
    else if entries[0].score <= upTo then RemoveUpTo(entries[1..], upTo)
    else [entries[0]] + RemoveUpTo(entries[1..], upTo)
  }

  function Without(entries: seq<Scored>, member: string): seq<Scored> {
    if entries == [] then []
    else if entries[0].member == member then Without(entries[1..], member)
    else [entries[0]] + Without(entries[1..], member)
  }

  predicate Before(a: Scored, b: Scored) {
    a.score < b.score || (a.score == b.score && Lexicographic.Less(a.member, b.member))
  }

  function Insert(entries: seq<Scored>, entry: Scored): seq<Scored> {
    if entries == [] || Before(entry, entries[0]) then [entry] + entries
    else [entries[0]] + Insert(entries[1..], entry)
  }

  /** ZADD key score member: a member that is already there moves. */
  function Add(entries: seq<Scored>, entry: Scored): seq<Scored> {
    Insert(Without(entries, entry.member), entry)
  }

  /** The members the script finds: none once the whole key has expired. */
  function Found(zset: Option<ZSet>, now: nat): seq<Scored> {
    if zset.Some? && now <= zset.value.deadline then zset.value.entries else []
  }

  function ScriptReply(kept: seq<Scored>, limit: nat, window: nat, now: nat): Reply {
    if |kept| < limit then Reply(1, limit - |kept| - 1, 0)
    else if kept != [] then Reply(0, 0, Max(0, kept[0].score + window - now))
    else Reply(0, 0, window)
  }

  /** The key after the script; an empty sorted set does not exist. */
  function ScriptSet(kept: seq<Scored>, limit: nat, window: nat, now: nat, member: string): Option<ZSet> {
    if |kept| < limit then Some(ZSet(Add(kept, Scored(now, member)), now + window))
    else if kept == [] then None
    else Some(ZSet(kept, now + window))
  }

  /** How the store reads the script's reply. */
  function OutcomeOf(reply: Reply): Outcome {
    Outcome(reply.allowed == 1, Max(reply.remaining, 0), Max(Max(reply.retryMs, 0) / 1000, 1))
  }

  function SetOf(sets: map<string, ZSet>, key: string): Option<ZSet> {
    if key in sets then Some(sets[key]) else None
  }

  function WithSet(sets: map<string, ZSet>, key: string, zset: Option<ZSet>): map<string, ZSet> {
    if zset.Some? then sets[key := zset.value] else sets - {key}
  }

  class RedisLimiter {
    var sets: map<string, ZSet>

    constructor ()
      ensures sets == map[]
    {
      sets := map[];
    }

    /** The Lua script, one command after another. */
    method Script(key: string, limit: nat, window: nat, now: nat, member: string) returns (reply: Reply)
      modifies this
      ensures var kept := RemoveUpTo(Found(SetOf(old(sets), key), now), now - window);
              && reply == ScriptReply(kept, limit, window, now)
              && sets == WithSet(old(sets), key, ScriptSet(kept, limit, window, now, member))
    {
      var entries := Found(SetOf(sets, key), now);
      entries := RemoveUpTo(entries, now - window);
      var used := |entries|;
      if used < limit {
        entries := Add(entries, Scored(now, member));
        sets := sets[key := ZSet(entries, now + window)];
        return Reply(1, limit - used - 1, 0);
      }
      var retry := window;
      if entries != [] {
        retry := Max(0, entries[0].score + window - now);
        sets := sets[key := ZSet(entries, now + window)];
      } else {
        sets := sets - {key};
      }
      return Reply(0, 0, retry);
    }

    method RateLimit(key: string, limit: nat, window: nat, now: nat, member: string) returns (outcome: Outcome)
      modifies this
      ensures var kept := RemoveUpTo(Found(SetOf(old(sets), key), now), now - window);
              && outcome == OutcomeOf(ScriptReply(kept, limit, window, now))
              && sets == WithSet(old(sets), key, ScriptSet(kept, limit, window, now, member))
    {
      var reply := Script(key, limit, window, now, member);
      outcome := OutcomeOf(reply);
    }
  }

  // ---------------------------------------------------------------------------------------
  // Runs: the same limit and window throughout, on a clock that does not go back
  // ---------------------------------------------------------------------------------------

  predicate ClockForward(calls: seq<Call>) {
    forall i, j :: 0 <= i < j < |calls| ==> calls[i].now <= calls[j].now
  }

  predicate FreshMembers(calls: seq<Call>) {
    forall i, j :: 0 <= i < j < |calls| ==> calls[i].member != calls[j].member
  }

  /** The in-memory windows after a run. */
  function Windows(calls: seq<Call>, limit: nat, window: nat): map<string, seq<nat>> {
    if calls == [] then map[]
    else
      var call, before := calls[|calls| - 1], Windows(calls[..|calls| - 1], limit, window);
      before[call.key := MemoryHits(Live(HitsOf(before, call.key), window, call.now), limit, call.now)]
  }

  /** What the in-memory limiter answers when `call` follows the run. */
  function MemoryAnswer(calls: seq<Call>, call: Call, limit: nat, window: nat): Outcome {
    MemoryOutcome(Live(HitsOf(Windows(calls, limit, window), call.key), window, call.now), limit, window, call.now)
  }

  /** The sorted sets after a run. */
  function Sets(calls: seq<Call>, limit: nat, window: nat): map<string, ZSet> {
    if calls == [] then map[]
    else
      var call, before := calls[|calls| - 1], Sets(calls[..|calls| - 1], limit, window);
      WithSet(before, call.key, ScriptSet(Kept(before, call, window), limit, window, call.now, call.member))
  }

  function Kept(sets: map<string, ZSet>, call: Call, window: nat): seq<Scored> {
    RemoveUpTo(Found(SetOf(sets, call.key), call.now), call.now - window)
  }

  /** What the store answers from Redis when `call` follows the run. */
  function RedisAnswer(calls: seq<Call>, call: Call, limit: nat, window: nat): Outcome {
    OutcomeOf(ScriptReply(Kept(Sets(calls, limit, window), call, window), limit, window, call.now))
  }
}
