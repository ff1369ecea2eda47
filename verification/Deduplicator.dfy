/** The two-level duplicate check: the local cache, then Redis `SET NX PX`.

    Redis is one instance that remembers each key until its expiry. What happens to each
    command on its way there and back is an oracle, and so is each clock reading. */
module Deduplicator {
  import opened Decimal
  import opened MessageKeys
  import opened LocalCache

  /** Keys of the Redis instance, with their expiry times. */
  type Keys = map<string, int>

  /** What becomes of one `SET NX`: no connection could be had; the client or the server
      refused it unexecuted; it was executed and answered; it was executed but the answer
      was lost; an exception surfaced, before or after execution. */
  datatype Outcome = NoConnection | Refused | Genuine | ReplyLost | Threw(executed: bool)

  datatype Reply = Reply(outcome: Outcome, now: int)

  datatype Answer = Unique | Duplicate | Error

  datatype Dedup = Dedup(
    prefix: string, window: int, initialized: bool, shuttingDown: bool, cacheOn: bool,
    cache: Cache, keys: Keys,
    totalChecks: nat, duplicatesFound: nat, uniqueMessages: nat,
    redisFailures: nat, cacheHits: nat, cacheMisses: nat)
  {
    predicate Running() {
      initialized && !shuttingDown
    }
  }

  predicate IsValidMessageId(m: MessageId) {
    |m.imei| == 15 && AllDigits(m.imei) && 0 < m.sequenceNumber <= 0xFFFFFF
  }

  // ---------------------------------------------------------------- Redis

  predicate Alive(keys: Keys, key: string, now: int) {
    key in keys && now < keys[key]
  }

  /** `SET key 1 NX PX window` on the server: true when the key was set. */
  function SetNX(keys: Keys, key: string, window: int, now: int): (Keys, bool) {
    if Alive(keys, key, now) then (keys, false) else (keys[key := now + window], true)
  }

  /** One check against Redis: the server's keys, the answer, and whether it counts as a failure. */
  function CheckRedis(keys: Keys, key: string, window: int, r: Reply): (Keys, Answer) {
    var (after, won) := SetNX(keys, key, window, r.now);
    match r.outcome
    case NoConnection => (keys, Error)
    case Refused => (keys, Duplicate)
    case Genuine => (after, if won then Unique else Duplicate)
    case ReplyLost => (after, Duplicate)
    case Threw(executed) => (if executed then after else keys, Error)
  }

  // ---------------------------------------------------------------- single checks

  function Failures(answer: Answer): nat {
    if answer == Error then 1 else 0
  }

  /** The part of a check that goes to Redis. */
  function CheckedWithRedis(d: Dedup, id: MessageId, r: Reply): (Dedup, Answer) {
    var (keys, answer) := CheckRedis(d.keys, RedisKey(d.prefix, id), d.window, r);
    (d.(keys := keys, redisFailures := d.redisFailures + Failures(answer)), answer)
  }

  function CacheUpdated(d: Dedup, id: MessageId, answer: Answer, now: int): Dedup {
    if d.cacheOn && answer != Error
    then d.(cache := InsertAt(d.cache, id, now + d.cache.ttl, now))
    else d
  }

  function Counted(d: Dedup, answer: Answer): Dedup {
    match answer
    case Unique => d.(uniqueMessages := d.uniqueMessages + 1)
    case Duplicate => d.(duplicatesFound := d.duplicatesFound + 1)
    case Error => d
  }

  /** The check once the cache has not found the message. */
  function CheckedPastCache(d: Dedup, id: MessageId, r: Reply): (Dedup, Answer) {
    var (e, answer) := CheckedWithRedis(d, id, r);
    (Counted(CacheUpdated(e, id, answer, r.now), answer), answer)
  }

  function IsDuplicateAt(d: Dedup, id: MessageId, r: Reply): (Dedup, Answer) {
    if !d.Running() || !IsValidMessageId(id) then (d, Error)
    else
      var c := d.(totalChecks := d.totalChecks + 1);
      if d.cacheOn then
        var (cache, hit) := ContainsAt(c.cache, id, r.now);
        if hit then (c.(cache := cache, cacheHits := c.cacheHits + 1), Duplicate)
        else CheckedPastCache(c.(cache := cache, cacheMisses := c.cacheMisses + 1), id, r)
      else CheckedPastCache(c, id, r)
  }

  // ---------------------------------------------------------------- batches

  function BatchChecked(d: Dedup, ids: seq<MessageId>, rs: seq<Reply>): (r: (Dedup, seq<Answer>))
    requires |ids| == |rs|
    ensures |r.1| == |ids|
    decreases |ids|
  {
    if ids == [] then (d, [])
    else
      var n := |ids| - 1;
      var (before, answers) := BatchChecked(d, ids[..n], rs[..n]);
      var (after, answer) := CheckedWithRedis(before, ids[n], rs[n]);
      (after, answers + [answer])
  }

  function BatchCached(d: Dedup, ids: seq<MessageId>, answers: seq<Answer>, now: int): Dedup
    requires |ids| == |answers|
    decreases |ids|
  {
    if ids == [] then d
    else
      var n := |ids| - 1;
      CacheUpdated(BatchCached(d, ids[..n], answers[..n], now), ids[n], answers[n], now)
  }

  function BatchCounted(d: Dedup, answers: seq<Answer>): Dedup
    decreases |answers|
  {
    if answers == [] then d
    else
      var n := |answers| - 1;
      var before := BatchCounted(d, answers[..n]);
      Counted(before.(totalChecks := before.totalChecks + 1), answers[n])
  }

  /** A batch goes to Redis first, then updates the cache at `end`, then the counters.
      Unlike the single check it neither validates ids nor consults the cache. */
  function AreDuplicatesAt(d: Dedup, ids: seq<MessageId>, rs: seq<Reply>, end: int): (Dedup, seq<Answer>)
    requires |ids| == |rs|
  {
    if !d.Running() then (d, seq(|ids|, _ => Error))
    else
      var (checked, answers) := BatchChecked(d, ids, rs);
      (BatchCounted(BatchCached(checked, ids, answers, end), answers), answers)
  }

  function Maintained(d: Dedup, now: int): Dedup {
    if d.shuttingDown then d else d.(cache := CleanedUp(d.cache, now))
  }

  function ShutDown(d: Dedup): Dedup {
    if d.initialized
    then d.(initialized := false, shuttingDown := true, cache := d.cache.(entries := []))
    else d
  }

  // ---------------------------------------------------------------- the classes

  /** The Redis instance all clients talk to. */
  class RedisInstance {
    var keys: Keys

    constructor ()
      ensures keys == map[]
    {
      keys := map[];
    }

    method ExecuteSetNX(key: string, window: int, now: int) returns (won: bool)
      modifies this
      ensures (keys, won) == SetNX(old(keys), key, window, now)
    {
      if key in keys && now < keys[key] {
        return false;
      }
      keys := keys[key := now + window];
      return true;
    }
  }

  class Deduplicator {
    const prefix: string
    const window: int
    const redis: RedisInstance
    const localCache: LocalCache
    var initialized: bool
    var shuttingDown: bool
    var cacheFallbackEnabled: bool
    var totalChecks: nat
    var duplicatesFound: nat
    var uniqueMessages: nat
    var redisFailures: nat
    var cacheHits: nat
    var cacheMisses: nat

    ghost predicate Valid()
      reads localCache`cacheList, localCache`cacheMap
    {
      localCache.Valid()
    }

    ghost function State(): Dedup
      reads this, redis, localCache, localCache.cacheList
    {
      Dedup(prefix, window, initialized, shuttingDown, cacheFallbackEnabled, localCache.State(), redis.keys,
            totalChecks, duplicatesFound, uniqueMessages, redisFailures, cacheHits, cacheMisses)
    }

    constructor (prefix: string, window: int, redis: RedisInstance, localCache: LocalCache, cacheEnabled: bool)
      requires localCache.Valid()
      ensures Valid() && this.redis == redis && this.localCache == localCache
      ensures State()
        == Dedup(prefix, window, true, false, cacheEnabled, localCache.State(), redis.keys, 0, 0, 0, 0, 0, 0)
    {
      this.prefix, this.window, this.redis, this.localCache := prefix, window, redis, localCache;
      initialized, shuttingDown, cacheFallbackEnabled := true, false, cacheEnabled;
      totalChecks, duplicatesFound, uniqueMessages := 0, 0, 0;
      redisFailures, cacheHits, cacheMisses := 0, 0, 0;
    }

    method CheckWithRedis(id: MessageId, r: Reply) returns (answer: Answer)
      requires Valid()
      modifies this`redisFailures, redis
      ensures Valid() && (State(), answer) == CheckedWithRedis(old(State()), id, r)
    {
      var key := RedisKey(prefix, id);
      match r.outcome {
        case NoConnection =>
          redisFailures := redisFailures + 1;
          answer := Error;
        case Refused =>
          answer := Duplicate;
        case Genuine =>
          var won := redis.ExecuteSetNX(key, window, r.now);
          answer := if won then Unique else Duplicate;
        case ReplyLost =>
          var _ := redis.ExecuteSetNX(key, window, r.now);
          answer := Duplicate;
        case Threw(executed) =>
          if executed {
            var _ := redis.ExecuteSetNX(key, window, r.now);
          }
          redisFailures := redisFailures + 1;
          answer := Error;
      }
    }

    method UpdateLocalCache(id: MessageId, answer: Answer, now: int)
      requires Valid()
      modifies localCache, localCache.Nodes()
      ensures Valid() && fresh(localCache.Nodes() - old(localCache.Nodes()))
      ensures State() == CacheUpdated(old(State()), id, answer, now)
    {
      hide InsertAt, Contents;
      if cacheFallbackEnabled && answer != Error {
        var _ := localCache.InsertWithTtl(id, now);
      }
    }

    method CountAnswer(answer: Answer)
      requires Valid()
      modifies this`duplicatesFound, this`uniqueMessages
      ensures Valid() && State() == Counted(old(State()), answer)
    {
      match answer {
        case Duplicate => duplicatesFound := duplicatesFound + 1;
        case Unique => uniqueMessages := uniqueMessages + 1;
        case Error =>
      }
    }

    method CheckPastCache(id: MessageId, r: Reply) returns (answer: Answer)
      requires Valid()
      modifies this, redis, localCache, localCache.Nodes()
      ensures Valid() && fresh(localCache.Nodes() - old(localCache.Nodes()))
      ensures (State(), answer) == CheckedPastCache(old(State()), id, r)
    {
      hide CheckedWithRedis, CacheUpdated, Counted, Contents;
      answer := CheckWithRedis(id, r);
      UpdateLocalCache(id, answer, r.now);
      CountAnswer(answer);
    }

    method IsDuplicate(id: MessageId, r: Reply) returns (answer: Answer)
      requires Valid()
      modifies this, redis, localCache, localCache.Nodes()
      ensures Valid() && fresh(localCache.Nodes() - old(localCache.Nodes()))
      ensures (State(), answer) == IsDuplicateAt(old(State()), id, r)
    {
      hide ContainsAt, CheckedPastCache, Contents, IsValidMessageId;
      if !initialized || shuttingDown {
        return Error;
      }
      if !IsValidMessageId(id) {
        return Error;
      }
      totalChecks := totalChecks + 1;
      if cacheFallbackEnabled {
        var hit := localCache.Contains(id, r.now);
        if hit {
          cacheHits := cacheHits + 1;
          return Duplicate;
        }
        cacheMisses := cacheMisses + 1;
      }
      answer := CheckPastCache(id, r);
    }

    method BatchCheckWithRedis(ids: seq<MessageId>, rs: seq<Reply>) returns (results: seq<Answer>)
      requires Valid() && |ids| == |rs|
      modifies this`redisFailures, redis
      ensures Valid() && (State(), results) == BatchChecked(old(State()), ids, rs)
    {
      hide CheckedWithRedis, Contents;
      results := [];
      for i := 0 to |ids|
        invariant Valid() && (State(), results) == BatchChecked(old(State()), ids[..i], rs[..i])
      {
        assert ids[..i + 1][..i] == ids[..i] && rs[..i + 1][..i] == rs[..i];
        var answer := CheckWithRedis(ids[i], rs[i]);
        results := results + [answer];
      }
      assert ids[..|ids|] == ids && rs[..|ids|] == rs;
    }

    method CacheBatch(ids: seq<MessageId>, results: seq<Answer>, now: int)
      requires Valid() && |ids| == |results|
      modifies localCache, localCache.Nodes()
      ensures Valid() && fresh(localCache.Nodes() - old(localCache.Nodes()))
      ensures State() == BatchCached(old(State()), ids, results, now)
    {
      hide CacheUpdated, Contents;
      for i := 0 to |ids|
        invariant Valid() && fresh(localCache.Nodes() - old(localCache.Nodes()))
        invariant State() == BatchCached(old(State()), ids[..i], results[..i], now)
      {
        assert ids[..i + 1][..i] == ids[..i] && results[..i + 1][..i] == results[..i];
        UpdateLocalCache(ids[i], results[i], now);
      }
      assert ids[..|ids|] == ids && results[..|ids|] == results;
    }

    method CountBatch(results: seq<Answer>)
      requires Valid()
      modifies this`totalChecks, this`duplicatesFound, this`uniqueMessages
      ensures Valid() && State() == BatchCounted(old(State()), results)
    {
      hide Counted, Contents;
      for i := 0 to |results|
        invariant Valid() && State() == BatchCounted(old(State()), results[..i])
      {
        assert results[..i + 1][..i] == results[..i];
        totalChecks := totalChecks + 1;
        CountAnswer(results[i]);
      }
      assert results[..|results|] == results;
    }

    method AreDuplicates(ids: seq<MessageId>, rs: seq<Reply>, end: int) returns (results: seq<Answer>)
      requires Valid() && |ids| == |rs|
      modifies this, redis, localCache, localCache.Nodes()
      ensures Valid() && fresh(localCache.Nodes() - old(localCache.Nodes()))
      ensures (State(), results) == AreDuplicatesAt(old(State()), ids, rs, end)
    {
      hide BatchChecked, BatchCached, BatchCounted, Contents;
      if !initialized || shuttingDown {
        return seq(|ids|, _ => Error);
      }
      results := BatchCheckWithRedis(ids, rs);
      CacheBatch(ids, results, end);
      CountBatch(results);
    }

    method SetLocalCacheFallbackEnabled(enabled: bool)
      requires Valid()
      modifies this`cacheFallbackEnabled
      ensures Valid() && State() == old(State()).(cacheOn := enabled)
    {
      cacheFallbackEnabled := enabled;
    }

    method PerformMaintenance(now: int)
      requires Valid()
      modifies localCache
      ensures Valid() && localCache.Nodes() <= old(localCache.Nodes())
      ensures State() == Maintained(old(State()), now)
    {
      hide CleanedUp, Contents;
      if !shuttingDown {
        var _ := localCache.CleanupExpired(now);
      }
    }

    method Shutdown()
      requires Valid()
      modifies this, localCache
      ensures Valid() && State() == ShutDown(old(State()))
    {
      if initialized {
        shuttingDown := true;
        localCache.Clear();
        initialized := false;
      }
    }
  }
}
