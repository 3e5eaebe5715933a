/** The cache behaves as a timed map for each organisation: a get returns the latest put of that
    organisation under that request, as long as it is neither expired nor invalidated. */
module CacheLaws {
  import opened Wrappers
  import opened Fingerprint
  import opened FingerprintLaws
  import opened Store
  import opened Cache

  // ---------------------------------------------------------------------------------------
  // Keys
  // ---------------------------------------------------------------------------------------

  lemma {:induction false} HexInjective(a: bytes, b: bytes)
    requires Hex(a) == Hex(b)
    ensures a == b
  {
    if a != [] {
      assert Hex(a)[2..] == Hex(a[1..]) && Hex(b)[2..] == Hex(b[1..]);
      HexInjective(a[1..], b[1..]);
      assert Hex(a)[0] == Hex(b)[0] && Hex(a)[1] == Hex(b)[1];
      assert a[0] == b[0];
      assert a == [a[0]] + a[1..] && b == [b[0]] + b[1..];
    }
  }

  lemma UuidParts(org: OrgId)
    ensures var t := UuidText(org);
            && t[..8] == Hex(org[..4]) && t[9..13] == Hex(org[4..6]) && t[14..18] == Hex(org[6..8])
            && t[19..23] == Hex(org[8..10]) && t[24..] == Hex(org[10..])
            && t[8] == '-' && t[13] == '-' && t[18] == '-' && t[23] == '-'
  {
  }

  lemma UuidTextInjective(a: OrgId, b: OrgId)
    requires UuidText(a) == UuidText(b)
    ensures a == b
  {
    UuidParts(a);
    UuidParts(b);
    HexInjective(a[..4], b[..4]);
    HexInjective(a[4..6], b[4..6]);
    HexInjective(a[6..8], b[6..8]);
    HexInjective(a[8..10], b[8..10]);
    HexInjective(a[10..], b[10..]);
    assert a == a[..4] + a[4..6] + a[6..8] + a[8..10] + a[10..];
    assert b == b[..4] + b[4..6] + b[6..8] + b[8..10] + b[10..];
  }

  /** A cache key starts with one organisation's prefix only: its own. */
  lemma PrefixIsScoped(a: OrgId, b: OrgId, fingerprint: string)
    ensures NAMESPACE <= CacheKey(b, fingerprint)
    ensures OrgPrefix(a) <= CacheKey(b, fingerprint) <==> a == b
  {
    var n, key := |NAMESPACE|, CacheKey(b, fingerprint);
    assert key[n..n + 36] == UuidText(b);
    assert OrgPrefix(a)[n..n + 36] == UuidText(a);
    if OrgPrefix(a) <= key {
      assert key[n..n + 36] == OrgPrefix(a)[n..n + 36];
      UuidTextInjective(a, b);
    }
  }

  lemma CacheKeyInjective(a: OrgId, f: string, b: OrgId, g: string)
    requires CacheKey(a, f) == CacheKey(b, g)
    ensures a == b && f == g
  {
    PrefixIsScoped(a, b, g);
    assert OrgPrefix(a) <= CacheKey(a, f);
    assert CacheKey(a, f)[|OrgPrefix(a)|..] == f && CacheKey(b, g)[|OrgPrefix(b)|..] == g;
  }

  /** With a collision-free digest a key names one request of one organisation. */
  lemma KeysAreIdentities(a: Request, orgA: OrgId, b: Request, orgB: OrgId, digest: bytes -> string)
    requires SeparatorFree(a) && SeparatorFree(b) && CollisionFree(digest)
    ensures KeyOf(a, orgA, digest) == KeyOf(b, orgB, digest) <==> IdentityOf(a, orgA) == IdentityOf(b, orgB)
  {
    EncodingIsUnique(a, orgA, b, orgB);
    if KeyOf(a, orgA, digest) == KeyOf(b, orgB, digest) {
      CacheKeyInjective(orgA, digest(Encode(a, orgA)), orgB, digest(Encode(b, orgB)));
    }
  }

  /** Invalidating one organisation removes all of its entries and none of any other. */
  lemma InvalidationIsScoped(values: Values, a: OrgId, b: OrgId, fingerprint: string)
    ensures var key := CacheKey(b, fingerprint);
            key in WithoutPrefix(values, OrgPrefix(a)) <==> key in values && a != b
  {
    PrefixIsScoped(a, b, fingerprint);
  }

  // ---------------------------------------------------------------------------------------
  // The timed map
  // ---------------------------------------------------------------------------------------

  /** A response and the time it expires. */
  datatype Timed = Timed(response: CachedResponse, expires: nat)

  /** How one step changes the latest put of an identity. */
  function LatestAfter(latest: Option<Timed>, op: Op, id: Identity, ttl: nat): Option<Timed> {
    match op
    case OpPut(now, request, org, zero, response, servedModel) =>
      if CacheabilityOf(request, zero).Cacheable? && IdentityOf(request, org) == id
      then Some(Timed(CachedResponse(response, servedModel, now / 1000), now + ttl))
      else latest
    case OpInvalidate(_, org) => if org == id.org then None else latest
    case _ => latest
  }

  /** The latest put of this identity that its organisation has not invalidated since. */
  function Latest(ops: seq<Op>, id: Identity, ttl: nat): Option<Timed> {
    if ops == [] then None
    else LatestAfter(Latest(ops[..|ops| - 1], id, ttl), ops[|ops| - 1], id, ttl)
  }

  function Current(latest: Option<Timed>, now: nat): Option<CachedResponse> {
    if latest.Some? && latest.value.expires > now then Some(latest.value.response) else None
  }

  /** Cached requests keep to the separator rule; nobody else writes into the cache's namespace. */
  predicate Allowed(op: Op) {
    match op
    case OpGet(_, request, _, _) => SeparatorFree(request)
    case OpPut(_, request, _, _, _, _) => SeparatorFree(request)
    case OpInvalidate(_, _) => true
    case OpForeign(_, key, _, _) => !(NAMESPACE <= key)
  }

  function LastTime(ops: seq<Op>): nat { if ops == [] then 0 else ops[|ops| - 1].now }

  predicate WellFormed(ops: seq<Op>) {
    ops == [] ||
    (WellFormed(ops[..|ops| - 1]) && Allowed(ops[|ops| - 1]) && LastTime(ops[..|ops| - 1]) <= ops[|ops| - 1].now)
  }

  ghost predicate Sound(codec: Codec) {
    CollisionFree(codec.digest) && forall r :: codec.decode(codec.encode(r)) == Some(r)
  }

  /** What the store holds under the key, next to the timed map: the same, unless it has been
      cleared away after its time. */
  predicate Tracks(values: Values, key: string, latest: Option<Timed>, now: nat, codec: Codec) {
    match latest
    case None => key !in values
    case Some(timed) =>
      if key in values then values[key] == Entry(codec.encode(timed.response), Some(timed.expires))
      else timed.expires <= now
  }

  /** What a step that works on `opKey` has to do with the entry of one identity under `key`. */
  predicate KeyAgrees(op: Op, opKey: string, key: string, id: Identity) {
    match op
    case OpGet(_, _, _, _) => true
    case OpPut(_, request, org, _, _, _) => (opKey == key) == (IdentityOf(request, org) == id)
    case OpInvalidate(_, org) => (OrgPrefix(org) <= key) == (org == id.org)
    case OpForeign(_, foreign, _, _) => foreign != key
  }

  lemma KeysAgree(op: Op, request: Request, org: OrgId, digest: bytes -> string)
    requires SeparatorFree(request) && Allowed(op) && CollisionFree(digest)
    ensures KeyAgrees(op, KeyOfOp(op, digest), KeyOf(request, org, digest), IdentityOf(request, org))
  {
    match op
    case OpGet(_, _, _, _) =>
    case OpPut(_, other, o, _, _, _) => KeysAreIdentities(other, o, request, org, digest);
    case OpInvalidate(_, o) => PrefixIsScoped(o, org, digest(Encode(request, org)));
    case OpForeign(_, _, _, _) => PrefixIsScoped(org, org, digest(Encode(request, org)));
  }

  lemma StepTracks(values: Values, key: string, latest: Option<Timed>, last: nat, codec: Codec, op: Op, opKey: string,
                   ttl: nat, id: Identity)
    requires KeyAgrees(op, opKey, key, id) && Sound(codec) && last <= op.now
    requires Tracks(values, key, latest, last, codec)
    ensures Tracks(Step(values, op, opKey, ttl, codec), key, LatestAfter(latest, op, id, ttl), op.now, codec)
  {
    match op
    case OpGet(now, _, _, _) => ReadTracks(values, key, latest, last, codec, opKey, now);
    case OpPut(now, _, _, _, response, servedModel) =>
      WriteTracks(values, key, latest, last, codec, opKey, CachedResponse(response, servedModel, now / 1000), ttl, now);
    case OpInvalidate(now, org) => ClearTracks(values, key, latest, last, codec, OrgPrefix(org), now);
    case OpForeign(_, _, _, _) =>
  }

  lemma ReadTracks(values: Values, key: string, latest: Option<Timed>, last: nat, codec: Codec, other: string, now: nat)
    requires Tracks(values, key, latest, last, codec) && last <= now && Sound(codec)
    ensures Tracks(AfterHit(values, other, now, codec), key, latest, now, codec) && Tracks(values, key, latest, now, codec)
  {
  }

  lemma WriteTracks(values: Values, key: string, latest: Option<Timed>, last: nat, codec: Codec, other: string,
                    response: CachedResponse, ttl: nat, now: nat)
    requires Tracks(values, key, latest, last, codec) && last <= now
    ensures Tracks(WithValue(values, other, codec.encode(response), ttl, now), key,
                   if other == key then Some(Timed(response, now + ttl)) else latest, now, codec)
    ensures Tracks(values, key, latest, now, codec)
  {
  }

  lemma ClearTracks(values: Values, key: string, latest: Option<Timed>, last: nat, codec: Codec, prefix: string, now: nat)
    requires Tracks(values, key, latest, last, codec) && last <= now
    ensures Tracks(WithoutPrefix(values, prefix), key, if prefix <= key then None else latest, now, codec)
  {
  }

  /** A lookup leaves nothing under its key that it could not read, and nothing else goes; on a clock that does not
      go back no later lookup of any key can tell. */
  lemma LookupDiscardsUnreadable(values: Values, key: string, now: nat, codec: Codec, other: string, later: nat)
    requires now <= later
    ensures var after := AfterHit(values, key, now, codec);
            && (key in after ==> Hit(values, key, now, codec).Some? && after[key] == values[key])
            && (Hit(values, key, now, codec).Some? ==> after == values)
            && (other != key ==> (other in after <==> other in values) && (other in values ==> after[other] == values[other]))
            && Hit(after, other, later, codec) == Hit(values, other, later, codec)
  {
  }

  lemma {:induction false} AlwaysTracks(ops: seq<Op>, ttl: nat, codec: Codec, request: Request, org: OrgId, key: string)
    requires WellFormed(ops) && SeparatorFree(request) && Sound(codec) && key == KeyOf(request, org, codec.digest)
    ensures Tracks(Run(ops, ttl, codec), key, Latest(ops, IdentityOf(request, org), ttl), LastTime(ops), codec)
  {
    if ops != [] {
      var op, before := ops[|ops| - 1], ops[..|ops| - 1];
      AlwaysTracks(before, ttl, codec, request, org, key);
      KeysAgree(op, request, org, codec.digest);
      StepTracks(Run(before, ttl, codec), key, Latest(before, IdentityOf(request, org), ttl), LastTime(before), codec,
                 op, KeyOfOp(op, codec.digest), ttl, IdentityOf(request, org));
    }
  }

  /** Through any run of gets, puts, invalidations and foreign writes, on a clock that does not go
      back, a get answers with the latest put of its own organisation under the same request, unless
      that has expired or been invalidated; a request that may not be cached gets nothing. */
  lemma CacheIsTimedMap(ops: seq<Op>, get: Op, ttl: nat, codec: Codec)
    requires get.OpGet? && WellFormed(ops + [get]) && Sound(codec)
    ensures Answer(ops, get, ttl, codec) ==
            if CacheabilityOf(get.request, get.zeroRetention).Cacheable?
            then Current(Latest(ops, IdentityOf(get.request, get.org), ttl), get.now) else None
  {
    assert (ops + [get])[..|ops|] == ops;
    var key := KeyOf(get.request, get.org, codec.digest);
    AlwaysTracks(ops, ttl, codec, get.request, get.org, key);
    TrackedHit(Run(ops, ttl, codec), key,
               Latest(ops, IdentityOf(get.request, get.org), ttl), LastTime(ops), codec, get.now);
  }

  lemma TrackedHit(values: Values, key: string, latest: Option<Timed>, last: nat, codec: Codec, now: nat)
    requires Tracks(values, key, latest, last, codec) && last <= now && Sound(codec)
    ensures Hit(values, key, now, codec) == Current(latest, now)
  {
  }

  lemma PutAnswers(ops: seq<Op>, put: Op, get: Op, ttl: nat, codec: Codec)
    requires put.OpPut? && get.OpGet? && WellFormed(ops + [put] + [get]) && Sound(codec)
    requires IdentityOf(get.request, get.org) == IdentityOf(put.request, put.org)
    requires CacheabilityOf(put.request, put.zeroRetention).Cacheable?
    requires CacheabilityOf(get.request, get.zeroRetention).Cacheable?
    requires get.now < put.now + ttl
    ensures Answer(ops + [put], get, ttl, codec) == Some(CachedResponse(put.response, put.servedModel, put.now / 1000))
  {
    CacheIsTimedMap(ops + [put], get, ttl, codec);
    LatestPut(ops, put, IdentityOf(get.request, get.org), ttl);
  }

  lemma LatestPut(ops: seq<Op>, put: Op, id: Identity, ttl: nat)
    requires put.OpPut? && IdentityOf(put.request, put.org) == id
    requires CacheabilityOf(put.request, put.zeroRetention).Cacheable?
    ensures Latest(ops + [put], id, ttl) ==
            Some(Timed(CachedResponse(put.response, put.servedModel, put.now / 1000), put.now + ttl))
  {
    assert (ops + [put])[..|ops|] == ops;
  }

  lemma OneMoreOp(ops: seq<Op>, op: Op)
    requires WellFormed(ops) && Allowed(op) && LastTime(ops) <= op.now
    ensures WellFormed(ops + [op])
  {
    assert (ops + [op])[..|ops|] == ops;
  }

  lemma MessagesDoNotMatter(request: Request, messages: seq<Message>, zeroRetention: bool)
    ensures CacheabilityOf(request.(messages := messages), zeroRetention) == CacheabilityOf(request, zeroRetention)
  {
  }

  /** So a response can be given to another request: one that asks the same of the same model, but whose
      messages have other names, tool calls, call identifiers or parts without text. */
  lemma AnsweredForAnother(ops: seq<Op>, now: nat, request: Request, org: OrgId, zeroRetention: bool, response: string,
                           servedModel: string, messages: seq<Message>, later: nat, ttl: nat, codec: Codec)
    requires WellFormed(ops + [OpPut(now, request, org, zeroRetention, response, servedModel)]) && Sound(codec)
    requires SeparatorFree(request) && CacheabilityOf(request, zeroRetention).Cacheable?
    requires |messages| == |request.messages|
    requires forall i :: 0 <= i < |messages| ==>
               messages[i].role == request.messages[i].role &&
               AsText(messages[i].content) == AsText(request.messages[i].content)
    requires now <= later < now + ttl
    ensures var put := OpPut(now, request, org, zeroRetention, response, servedModel);
            var get := OpGet(later, request.(messages := messages), org, zeroRetention);
            Answer(ops + [put], get, ttl, codec) == Some(CachedResponse(response, servedModel, now / 1000))
  {
    var put := OpPut(now, request, org, zeroRetention, response, servedModel);
    var get := OpGet(later, request.(messages := messages), org, zeroRetention);
    UnhashedFieldsCollide(request, messages, request.toolChoice, request.user, org);
    MessagesDoNotMatter(request, messages, zeroRetention);
    OneMoreOp(ops + [put], get);
    PutAnswers(ops, put, get, ttl, codec);
  }

  // ---------------------------------------------------------------------------------------
  // What stays out of the cache
  // ---------------------------------------------------------------------------------------

  /** The organisation keeps nothing, or the request uses tools, is streamed, or asks for variety. */
  predicate Excluded(request: Request, zeroRetention: bool) {
    zeroRetention || request.tools != [] || request.stream ||
    (request.temperature.Some? && request.temperature.value > 0.7)
  }

  /** The reason given is the first that applies, and the organisation's opt-out comes before all others. */
  lemma FirstReasonIsGiven(request: Request, zeroRetention: bool)
    ensures var reason := CacheabilityOf(request, zeroRetention);
            && (reason.Cacheable? <==> !Excluded(request, zeroRetention))
            && (reason.ZeroRetention? <==> zeroRetention)
            && (reason.ZeroRetention? || reason.ToolUse? <==> zeroRetention || request.tools != [])
            && (reason.Cacheable? || reason.NonDeterministic? <==>
                !zeroRetention && request.tools == [] && !request.stream)
  {
  }

  /** A get or a put that the cache must pass by. */
  predicate PassedBy(op: Op) { (op.OpGet? || op.OpPut?) && Excluded(op.request, op.zeroRetention) }

  /** A run without the gets and puts that the cache must pass by. */
  function Admitted(ops: seq<Op>): seq<Op> {
    if ops == [] then []
    else Admitted(ops[..|ops| - 1]) + if PassedBy(ops[|ops| - 1]) then [] else [ops[|ops| - 1]]
  }

  lemma RunSnoc(ops: seq<Op>, op: Op, ttl: nat, codec: Codec)
    ensures Run(ops + [op], ttl, codec) == Step(Run(ops, ttl, codec), op, KeyOfOp(op, codec.digest), ttl, codec)
  {
    assert (ops + [op])[..|ops|] == ops;
  }

  lemma PassingByChangesNothing(values: Values, op: Op, key: string, ttl: nat, codec: Codec)
    requires PassedBy(op)
    ensures Step(values, op, key, ttl, codec) == values
  {
  }

  lemma {:induction false} SameWithoutThem(ops: seq<Op>, ttl: nat, codec: Codec)
    ensures Run(ops, ttl, codec) == Run(Admitted(ops), ttl, codec)
  {
    if ops != [] {
      var front, last := ops[..|ops| - 1], ops[|ops| - 1];
      SameWithoutThem(front, ttl, codec);
      if PassedBy(last) {
        PassingByChangesNothing(Run(front, ttl, codec), last, KeyOfOp(last, codec.digest), ttl, codec);
        assert Admitted(ops) == Admitted(front) + [] == Admitted(front);
      } else {
        RunSnoc(Admitted(front), last, ttl, codec);
        assert Admitted(ops) == Admitted(front) + [last];
      }
    }
  }

  /** Calls for organisations that keep nothing, and for requests with tools, streamed ones and ones that ask
      for variety, leave no trace: they are answered with nothing, and without them the store and every
      answer would be the same. */
  lemma ExcludedLeaveNoTrace(ops: seq<Op>, get: Op, ttl: nat, codec: Codec)
    requires get.OpGet?
    ensures Run(ops, ttl, codec) == Run(Admitted(ops), ttl, codec)
    ensures Answer(ops, get, ttl, codec) == if PassedBy(get) then None else Answer(Admitted(ops), get, ttl, codec)
  {
    SameWithoutThem(ops, ttl, codec);
    SameStoreSameAnswer(ops, Admitted(ops), get, ttl, codec);
    PassedByGetsNothing(ops, get, ttl, codec);
  }

  lemma SameStoreSameAnswer(a: seq<Op>, b: seq<Op>, get: Op, ttl: nat, codec: Codec)
    requires get.OpGet? && Run(a, ttl, codec) == Run(b, ttl, codec)
    ensures Answer(a, get, ttl, codec) == Answer(b, get, ttl, codec)
  {
  }

  lemma PassedByGetsNothing(ops: seq<Op>, get: Op, ttl: nat, codec: Codec)
    requires get.OpGet?
    ensures PassedBy(get) ==> Answer(ops, get, ttl, codec) == None
  {
    FirstReasonIsGiven(get.request, get.zeroRetention);
    assert Answer(ops, get, ttl, codec).Some? ==> CacheabilityOf(get.request, get.zeroRetention).Cacheable?;
  }

  /** Every other request is stored and read: after a put a get of the same request of the same organisation
      is answered with it, until it expires. */
  lemma AllOthersAreCached(ops: seq<Op>, put: Op, get: Op, ttl: nat, codec: Codec)
    requires put.OpPut? && get.OpGet? && forall r :: codec.decode(codec.encode(r)) == Some(r)
    requires get.request == put.request && get.org == put.org && !PassedBy(put) && !PassedBy(get)
    requires get.now < put.now + ttl
    ensures Answer(ops + [put], get, ttl, codec) == Some(CachedResponse(put.response, put.servedModel, put.now / 1000))
  {
    RunSnoc(ops, put, ttl, codec);
    StoredIsRead(Run(ops, ttl, codec), put, get, KeyOfOp(put, codec.digest), ttl, codec);
  }

  lemma StoredIsRead(values: Values, put: Op, get: Op, key: string, ttl: nat, codec: Codec)
    requires put.OpPut? && !PassedBy(put) && get.now < put.now + ttl
    requires forall r :: codec.decode(codec.encode(r)) == Some(r)
    ensures Hit(Step(values, put, key, ttl, codec), key, get.now, codec) ==
            Some(CachedResponse(put.response, put.servedModel, put.now / 1000))
  {
  }
}
