/** The exact-match cache: responses kept in the shared store under tenant-scoped fingerprints. */
module Cache {
  import opened Wrappers
  import opened Fingerprint
  import opened Store

  datatype CachedResponse = CachedResponse(response: string, servedModel: string, storedAt: nat)

  /** How entries are written as text and read back, and the digest that names them. */
  datatype Codec = Codec(encode: CachedResponse -> string, decode: string -> Option<CachedResponse>,
                         digest: bytes -> string)

  // ---------------------------------------------------------------------------------------
  // Keys
  // ---------------------------------------------------------------------------------------

  function HexDigit(d: nat): char
    requires d < 16
  {
    if d < 10 then ('0' as int + d) as char else ('a' as int + d - 10) as char
  }

  function Hex(s: bytes): (r: string)
    ensures |r| == 2 * |s|
  {
    if s == [] then "" else [HexDigit(s[0] / 16), HexDigit(s[0] % 16)] + Hex(s[1..])
  }

  /** The hyphenated form of a sixteen-byte identifier. */
  function UuidText(org: OrgId): (r: string)
    ensures |r| == 36
  {
    Hex(org[..4]) + "-" + Hex(org[4..6]) + "-" + Hex(org[6..8]) + "-" + Hex(org[8..10]) + "-" + Hex(org[10..])
  }

  const NAMESPACE := "aegis:cache:"

  function OrgPrefix(org: OrgId): string { NAMESPACE + UuidText(org) + ":" }

  function CacheKey(org: OrgId, fingerprint: string): string { OrgPrefix(org) + fingerprint }

  function KeyOf(request: Request, org: OrgId, digest: bytes -> string): string {
    CacheKey(org, digest(Encode(request, org)))
  }

  // ---------------------------------------------------------------------------------------
  // What may be cached
  // ---------------------------------------------------------------------------------------

  datatype Cacheability = Cacheable | NonDeterministic | ToolUse | ZeroRetention | Streaming

  const CACHE_TEMPERATURE_CEILING := 0.7

  function CacheabilityOf(request: Request, zeroRetention: bool): Cacheability {
    if zeroRetention then ZeroRetention
    else if request.tools != [] then ToolUse
    else if request.stream then Streaming
    else if request.temperature.Some? && request.temperature.value > CACHE_TEMPERATURE_CEILING then NonDeterministic
    else Cacheable
  }

  // ---------------------------------------------------------------------------------------
  // The cache
  // ---------------------------------------------------------------------------------------

  /** The text found under the key, read back; unreadable text is a miss. */
  function Hit(values: Values, key: string, now: nat, codec: Codec): Option<CachedResponse> {
    match Lookup(values, key, now)
    case None => None
    case Some(raw) => codec.decode(raw)
  }

  /** Looking a key up removes an expired entry, and an unreadable one. */
  function AfterHit(values: Values, key: string, now: nat, codec: Codec): Values {
    match Lookup(values, key, now)
    case None => AfterRead(values, key, now)
    case Some(raw) => if codec.decode(raw).Some? then values else values - {key}
  }

  class ExactCache {
    const store: MemoryStore
    const ttl: nat
    const codec: Codec

    constructor (store: MemoryStore, ttl: nat, codec: Codec)
      ensures this.store == store && this.ttl == ttl && this.codec == codec
    {
      this.store, this.ttl, this.codec := store, ttl, codec;
    }

    method Get(request: Request, org: OrgId, zeroRetention: bool, now: nat) returns (hit: Option<CachedResponse>)
      modifies store`values
      ensures CacheabilityOf(request, zeroRetention).Cacheable? ==>
                var key := KeyOf(request, org, codec.digest);
                && hit == Hit(old(store.values), key, now, codec)
                && store.values == AfterHit(old(store.values), key, now, codec)
      ensures !CacheabilityOf(request, zeroRetention).Cacheable? ==> hit == None && store.values == old(store.values)
    {
      if !CacheabilityOf(request, zeroRetention).Cacheable? {
        return None;
      }
      var fingerprint := Compute(request, org, codec.digest);
      hit := GetAt(CacheKey(org, fingerprint), now);
    }

    /** The lookup itself; an entry that cannot be read is deleted. */
    method GetAt(key: string, now: nat) returns (hit: Option<CachedResponse>)
      modifies store`values
      ensures hit == Hit(old(store.values), key, now, codec)
      ensures store.values == AfterHit(old(store.values), key, now, codec)
    {
      var raw := store.Get(key, now);
      if raw.None? {
        return None;
      }
      hit := codec.decode(raw.value);
      if hit.None? {
        var _ := store.Del(key);
      }
    }

    method Put(request: Request, org: OrgId, zeroRetention: bool, response: string, servedModel: string, now: nat)
      returns (stored: bool)
      modifies store`values
      ensures stored == CacheabilityOf(request, zeroRetention).Cacheable?
      ensures store.values == if stored
                              then WithValue(old(store.values), KeyOf(request, org, codec.digest),
                                             codec.encode(CachedResponse(response, servedModel, now / 1000)), ttl, now)
                              else old(store.values)
    {
      if !CacheabilityOf(request, zeroRetention).Cacheable? {
        return false;
      }
      var entry := CachedResponse(response, servedModel, now / 1000);
      var payload := codec.encode(entry);
      var fingerprint := Compute(request, org, codec.digest);
      store.SetEx(CacheKey(org, fingerprint), payload, ttl, now);
      return true;
    }

    method InvalidateOrg(org: OrgId) returns (removed: nat)
      modifies store`values
      ensures store.values == WithoutPrefix(old(store.values), OrgPrefix(org))
      ensures removed == |old(store.values)| - |store.values|
    {
      removed := store.DelPrefix(OrgPrefix(org));
    }
  }

  // ---------------------------------------------------------------------------------------
  // Runs
  // ---------------------------------------------------------------------------------------

  /** A step at time `now`: a call on the cache, or someone else's write to the shared store. */
  datatype Op =
    | OpGet(now: nat, request: Request, org: OrgId, zeroRetention: bool)
    | OpPut(now: nat, request: Request, org: OrgId, zeroRetention: bool, response: string, servedModel: string)
    | OpInvalidate(now: nat, org: OrgId)
    | OpForeign(now: nat, key: string, value: string, ttl: nat)

  /** The key a get or a put works on. */
  function KeyOfOp(op: Op, digest: bytes -> string): string {
    if op.OpGet? || op.OpPut? then KeyOf(op.request, op.org, digest) else ""
  }

  function Step(values: Values, op: Op, key: string, ttl: nat, codec: Codec): Values {
    match op
    case OpGet(now, request, org, zero) =>
      if CacheabilityOf(request, zero).Cacheable? then AfterHit(values, key, now, codec) else values
    case OpPut(now, request, org, zero, response, servedModel) =>
      if CacheabilityOf(request, zero).Cacheable?
      then WithValue(values, key, codec.encode(CachedResponse(response, servedModel, now / 1000)), ttl, now)
      else values
    case OpInvalidate(now, org) => WithoutPrefix(values, OrgPrefix(org))
    case OpForeign(now, foreign, value, foreignTtl) => WithValue(values, foreign, value, foreignTtl, now)
  }

  function Run(ops: seq<Op>, ttl: nat, codec: Codec): Values {
    if ops == [] then map[]
    else
      var op := ops[|ops| - 1];
      Step(Run(ops[..|ops| - 1], ttl, codec), op, KeyOfOp(op, codec.digest), ttl, codec)
  }

  /** What a get answers after a run. */
  function Answer(ops: seq<Op>, get: Op, ttl: nat, codec: Codec): Option<CachedResponse>
    requires get.OpGet?
  {
    if CacheabilityOf(get.request, get.zeroRetention).Cacheable?
    then Hit(Run(ops, ttl, codec), KeyOfOp(get, codec.digest), get.now, codec)
    else None
  }
}
