# UDP-to-RabbitMQ gateway: verified models

Dafny models of the parts of the gateway that keep state or transform data, with proofs about
whole runs. Each component the C++ updates in place is a class; its methods are proved against
functions on values, and the theorems are about those functions. `dafny verify dfyconfig.toml`
checks everything.

| file | what it models |
|---|---|
| RateLimiter, RateLimiterTheorems | per-device token buckets with lazy refill, priority costs and CRITICAL debt |
| Decimal, MessageKeys, QueueNames | decimal printing and reading, Redis and cache keys, queue names |
| LocalCache, LocalCacheTheorems | hash index over an LRU list with expiry |
| Deduplicator, DeduplicatorTheorems | local cache in front of Redis `SET NX PX` |
| ConnectionPool, ConnectionPoolTheorems, ConnectionPoolLaws | Redis connection pool with failover, as interleaved steps |
| Fragmentation, FragmentationTheorems | splitting a message into parts and combining them |
| Bytes, Checksum, WireMessage, WireMessageTheorems | the binary form of a protocol message |
| PacketParser, PacketParserTheorems | the parser for device packets, a different format |
| Publisher, PublisherTheorems | publishing with an offline queue |
| Gateway, Session, SessionTheorems, SessionLaws | the packet pipeline end to end |

Each mutex-protected method is one atomic step, except `getConnection`, which drops its lock
during the health check, and failover and failback, which look at `usingStandby_` before they lock;
these are two. Clock readings are parameters. What Redis, the broker, a
connect or a health check does are oracle arguments, and so is the set of calls that throw: those
to parser, device records, duplicate service, publisher, handler and metrics collector. The
theorems hold for all of them. `double` is `real`.

## Where the code differs from what is said about it

The models follow the code.

- The local cache is called a fallback, but it is consulted first and not again when Redis cannot
  be reached; what it did not hold is then answered ERROR (deduplicator.cpp:112-130, 339-356):
  `UnreachableRedisIff`.
- A `SET NX` that failed is indistinguishable from one that found the key, so it is reported as
  DUPLICATE (redis_client.cpp:146-173): `FirstCheckInventsDuplicateIff`, `OutcomeInventsIff`.
- A batch neither validates ids nor looks into the cache (deduplicator.cpp:150-202):
  `BatchAgreesIffIdsValid`, `BatchAgreesIff`.
- A limit change keeps the time of the last refill, so the time since then is earned at the new
  rate (rate_limiter.cpp:138-159): `ReadBeforeLimitChangeMattersIff`.
- A message is recorded before it is handled; when publishing fails, or the status update or the
  metrics collector throws in between, the retry is a duplicate (session.cpp:174, 273-280):
  `RecordedIsFinal`, `PacketUnpublishedIff`, `PacketLostIff`, `RunKeepsIff`.
- An exception while publishing the debug copy or counting makes the result an error, and the
  acknowledgment negative, although the message itself was published (gateway.cpp:425-466):
  `NegativeAckOfPublishedIff`.
- A paused publisher still drains its queue on reconnect (publisher.cpp:606-616):
  `PausedReconnectSendsIff`.
- A send that fails during a drain asks for the lock the drain holds, so the call never returns and
  the queue is dead (publisher.cpp:522-557): `DrainHangsIff`, `LockedForGood`. The put-back branch is
  reached only when another thread has switched the queue off during the drain, and it puts the
  oldest message last: `PutBackKeepsOrderIff`.
- Two failovers at once swap the queues twice (connection_pool.cpp:211-219):
  `RacingFailoversSwapBack`.
- Failback leaves the parked master connections in the standby queue
  (connection_pool.cpp:442-465): `SecondFailoverServesParkedConnections`. It reports success even if
  no master connection could be made (connection_pool.cpp:224-243): `FailbackLeavesStandbyIff`.
- A connection taken before a switch and returned after it serves the wrong instance
  (connection_pool.cpp:324-341): `StepServesIff`, `RunServesIff`.
- `Message::toBinary` writes a format the parser does not read; some of it the parser accepts all
  the same, as something else: `WrittenIsValidIff`, `WrittenReadsAs`.
- The parser takes its header to be 19 bytes long but reads 17 of them, so bytes 17 and 18 are
  covered by the checksum alone; its options are not consulted (parser.cpp:26-121).

## Model

| member | source | states |
|---|---|---|
| RateLimiterTheorems.AdmissionBound | components/udp-gateway/src/rate_limiter.cpp:252-292 | In every run from an empty limiter and every window without a reset or limit change of the device, admitted messages cost less than burst + 4.1 + rate × length; those that cannot owe cost at most burst + rate × length. |
| RateLimiterTheorems.WindowBound | components/udp-gateway/src/rate_limiter.cpp:252-292 | The same bound for a window opened in any state that satisfies the bucket invariant. |
| RateLimiterTheorems.WindowBudget | components/udp-gateway/src/rate_limiter.cpp:252-292 | What a window spends plus its closing balance never exceeds its opening balance plus what the rate earned; also for the balance cut off at zero. |
| RateLimiterTheorems.StepBudget | components/udp-gateway/src/rate_limiter.cpp:113-128 | One operation pays for what it admits out of the balance and what was earned since. |
| RateLimiterTheorems.RunKeepsInv | components/udp-gateway/src/rate_limiter.cpp:252-292 | Every reachable bucket holds more than −4.1 and at most its size in tokens, and was last refilled no later than now. |
| RateLimiterTheorems.StepKeepsInv | components/udp-gateway/src/rate_limiter.cpp:113-185 | Each check, read, limit change, reset and default change keeps that bound for every bucket. |
| RateLimiterTheorems.RefillOnlyAdds | components/udp-gateway/src/rate_limiter.cpp:282-292 | A refill never takes tokens and never exceeds the bucket size. |
| RateLimiterTheorems.RefillPathIndependent | components/udp-gateway/src/rate_limiter.cpp:282-292 | Refilling at t and then at u leaves the same bucket as refilling at u alone, for any rate. |
| RateLimiterTheorems.ReadsAreInvisible | components/udp-gateway/src/rate_limiter.cpp:187-222 | Statistics reads, which refill, change no later decision in a run that changes no existing limit. |
| RateLimiterTheorems.ReadBeforeLimitChangeMattersIff | components/udp-gateway/src/rate_limiter.cpp:138-159 | Why limit changes are excluded there: for any old and new limit, a read just before the change makes some later run come out differently exactly when, with a positive new rate, the old rate earned something since the last refill, the two rates do not pay the same for it under both caps and the new limit ever admits anything; with any other new rate, when some level that decides separates the tokens left with and without the read. |
| RateLimiterTheorems.FrozenShowsIff | components/udp-gateway/src/rate_limiter.cpp:252-292 | Two buckets that never refill can be told apart exactly when such a level separates them: a multiple of the cheapest cost, above −4 for CRITICAL and from HIGH's cost on with the boost, a positive whole number without it. |
| RateLimiterTheorems.SameAfterChangeIff | components/udp-gateway/src/rate_limiter.cpp:138-159 | Read first or not, the limiter after the change is the same up to refills exactly when the rates pay the same or, for a new rate that is not positive, when the old one earned nothing. |
| RateLimiterTheorems.ReadBeforeLimitChangeMatters | components/udp-gateway/src/rate_limiter.cpp:138-159 | One such run with a new rate of zero. |
| RateLimiterTheorems.WiderAdmitsNoLess | components/udp-gateway/src/rate_limiter.cpp:252-292 | For any trace of requests that cost the same, a bucket with at least the rate, size and tokens has admitted at least as many at every point, CRITICAL debt included. |
| RateLimiterTheorems.MonotoneIff | components/udp-gateway/src/rate_limiter.cpp:224-292 | Wider limits never admit less of a set of priorities, in any mix, from any buckets and over any trace, exactly when they all cost the same: always without priority boost, and with it only for a single priority. |
| RateLimiterTheorems.MixedPrioritiesCanAdmitLess | components/udp-gateway/src/rate_limiter.cpp:252-292 | A witness from construction on: a larger burst admits one LOW message that starves two HIGH ones. |
| RateLimiterTheorems.CheckLaw | components/udp-gateway/src/rate_limiter.cpp:113-128 | For any limiter, device, priority and time: the decision and the whole new bucket in plain arithmetic, with the prices and the CRITICAL debt written out; no other device changes. |
| RateLimiterTheorems.PricesAreCosts | components/udp-gateway/src/rate_limiter.cpp:224-243 | The price of each priority is one over its multiplier, and only CRITICAL with the boost may owe. |
| RateLimiterTheorems.LimitLaw | components/udp-gateway/src/rate_limiter.cpp:138-185 | A limit change, a reset and a change of the default, field by field. |
| RateLimiterTheorems.RunCounts | components/udp-gateway/src/rate_limiter.cpp:252-280 | Over every run without a reset of the device its two counters grow by its checks and by its refusals. |
| RateLimiterTheorems.StatisticsTell | components/udp-gateway/src/rate_limiter.cpp:187-222 | Statistics report the checks and refusals since the last reset, the limit in force, the tokens the next check would find, and the exact percentage. |
| RateLimiter.DeviceBucket.constructor | components/udp-gateway/src/rate_limiter.cpp:245-250 | A bucket starts full. |
| RateLimiter.DeviceBucket.Refill | components/udp-gateway/src/rate_limiter.cpp:282-292 | The in-place refill computes the specified bucket value. |
| RateLimiter.DeviceBucket.ConsumeToken | components/udp-gateway/src/rate_limiter.cpp:252-280 | Refill, then admit or refuse, with the debt allowance; new bucket value and answer. |
| RateLimiter.TokenBucketRateLimiter.constructor | components/udp-gateway/src/rate_limiter.cpp:56-58 | A limiter starts without buckets. |
| RateLimiter.TokenBucketRateLimiter.CheckLimit | components/udp-gateway/src/rate_limiter.cpp:113-128 | Creates the bucket on first use and charges the priority cost; every other device keeps its bucket. |
| RateLimiter.TokenBucketRateLimiter.SetDeviceLimit | components/udp-gateway/src/rate_limiter.cpp:138-159 | New rate and size; tokens capped at the new size; no refill. |
| RateLimiter.TokenBucketRateLimiter.SetDefaultLimit | components/udp-gateway/src/rate_limiter.cpp:161-164 | Changes the limits of devices that have no bucket yet, and nothing else. |
| RateLimiter.TokenBucketRateLimiter.ResetDevice | components/udp-gateway/src/rate_limiter.cpp:166-185 | Fills the bucket and clears its counters, if there is one. |
| RateLimiter.TokenBucketRateLimiter.GetDeviceStatistics | components/udp-gateway/src/rate_limiter.cpp:187-222 | Reports the refilled bucket and leaves it refilled; defaults for unknown devices. |
| MessageKeys.RedisKeyIdentifies | components/redis_deduplication/include/redis_deduplication/types.hpp:114-121 | For a fixed prefix two messages share a Redis key exactly when they are equal. |
| MessageKeys.CacheKeyIdentifies | components/redis_deduplication/src/local_cache.cpp:191-193 | Two messages share a cache key exactly when they are equal. |
| QueueNames.PublisherNameIdentifies | components/rabbitmq_integration/src/publisher.cpp:564-567 | For fifteen-digit IMEIs the publisher's queue name determines region, device and queue type. |
| QueueNames.GatewayNameIdentifies | components/udp-gateway/src/gateway.cpp:391-422 | The same for the gateway's names under one prefix. |
| QueueNames.NameIdentifiesWithinRegion | components/udp-gateway/src/gateway.cpp:391-422 | Within one gateway the name determines device and queue type for any device string at all. |
| QueueNames.NamesAgree | components/udp-gateway/src/gateway.cpp:391-422 | Gateway and publisher build the same name exactly when the prefix is empty. |
| QueueNames.NameIsUniqueIff | components/rabbitmq_integration/src/publisher.cpp:564-567 | For any region and device at all, no other region, device or type has the same name exactly when neither contains a dot. |
| QueueNames.ShortImeisCanCollide | components/rabbitmq_integration/src/publisher.cpp:564-567 | Two devices that share a queue; concrete names. |
| LocalCache.LocalCache.LookupAgrees | components/redis_deduplication/src/local_cache.cpp:23-51 | In every valid state the index has a key exactly when the list has an entry of that id, and it points at that entry. |
| LocalCache.LocalCache.constructor | components/redis_deduplication/src/local_cache.cpp:8-21 | An empty cache whose first cleanup is due after the default interval. |
| LocalCache.LocalCache.Contains | components/redis_deduplication/src/local_cache.cpp:23-51 | Answers and ends as the naive list does: due cleanup, miss, lazy expiry or move to front; index and list stay in agreement. |
| LocalCache.LocalCache.LookUp | components/redis_deduplication/src/local_cache.cpp:27-50 | The part of a lookup after the cleanup. |
| LocalCache.LocalCache.Insert | components/redis_deduplication/src/local_cache.cpp:58-90 | Refreshes a present id or evicts the last entry when full; the naive list's new state. |
| LocalCache.LocalCache.InsertWithTtl | components/redis_deduplication/src/local_cache.cpp:53-56 | Insertion with the default lifetime. |
| LocalCache.LocalCache.Put | components/redis_deduplication/src/local_cache.cpp:64-89 | The part of an insertion after the cleanup. |
| LocalCache.LocalCache.Remove | components/redis_deduplication/src/local_cache.cpp:92-106 | Removes the entry of an id and says whether there was one. |
| LocalCache.LocalCache.Clear | components/redis_deduplication/src/local_cache.cpp:108-115 | Leaves no entry and keeps the statistics. |
| LocalCache.LocalCache.CleanupExpired | components/redis_deduplication/src/local_cache.cpp:117-120 | Removes exactly the expired entries, in order, and counts them. |
| LocalCache.LocalCache.EffectiveSize | components/redis_deduplication/src/local_cache.cpp:127-140 | The number of unexpired entries. |
| LocalCache.LocalCache.SetCleanupInterval | components/redis_deduplication/src/local_cache.cpp:177-189 | Sets the next deadline, or none for a non-positive interval. |
| LocalCache.LocalCache.MoveToFront | components/redis_deduplication/src/local_cache.cpp:195-198 | Splices one node to the front; the others keep their order. |
| LocalCache.LocalCache.EvictLRU | components/redis_deduplication/src/local_cache.cpp:200-214 | Drops the last node from list and index; false and no change when empty. |
| LocalCache.LocalCache.RemoveExpiredEntries | components/redis_deduplication/src/local_cache.cpp:216-239 | The filtering loop removes exactly the expired entries from list and index. |
| LocalCache.LocalCache.CheckAndRunCleanup | components/redis_deduplication/src/local_cache.cpp:241-253 | Cleans up when due and sets the next deadline. |
| LocalCacheTheorems.RunKeepsInv | components/redis_deduplication/src/local_cache.cpp:23-115 | Over every run the list is ordered by last insertion or hit, has no id twice and at most the maximum number of entries. |
| LocalCacheTheorems.LruRetention | components/redis_deduplication/src/local_cache.cpp:66-87 | After any run of a new cache, an insertion makes an unexpired id disappear only if at least maxSize distinct other ids, the incoming one included, were inserted or hit since that id's own last touch. |
| LocalCacheTheorems.DroppedIsLast | components/redis_deduplication/src/local_cache.cpp:76-82 | An insertion drops no id but the last one of a full list that lacks the incoming id. |
| LocalCacheTheorems.FoundIff | components/redis_deduplication/src/local_cache.cpp:23-51 | A lookup answers true exactly when the cache has an unexpired entry for the message. |
| LocalCacheTheorems.FindLaw | components/redis_deduplication/src/local_cache.cpp:23-51 | What is found is in front afterwards, what is not has no entry; other entries change only by a due cleanup; one hit or one miss is counted. |
| LocalCacheTheorems.InsertLaw | components/redis_deduplication/src/local_cache.cpp:58-90 | The inserted entry is in front with its expiry, and the rest was there before. |
| LocalCacheTheorems.KeepsPlace | components/redis_deduplication/src/local_cache.cpp:66-87 | An insertion moves an unexpired entry of another message back by at most one place, unless that place is past the end. |
| LocalCacheTheorems.SweepLaw | components/redis_deduplication/src/local_cache.cpp:241-253 | The automatic cleanup: when due exactly the unexpired entries remain, in order, the others are counted and the next is due an interval later; otherwise the cache is unchanged. |
| LocalCacheTheorems.IntervalDecides | components/redis_deduplication/src/local_cache.cpp:177-189 | A cleanup is due exactly when the interval last set is positive and has passed. |
| LocalCacheTheorems.CleanupSparesLive | components/redis_deduplication/src/local_cache.cpp:58-90 | When a cleanup is due, an insertion drops an unexpired message only if the cache is full of unexpired ones. |
| LocalCacheTheorems.CountersBalance | components/redis_deduplication/src/local_cache.cpp:23-140 | Over every run: lookups are hits and misses, hits are the lookups that answered true, and insertions are what is there, evicted, expired or taken out. |
| DeduplicatorTheorems.NoDoubleAccept | components/redis_deduplication/src/deduplicator.cpp:93-202 | From any state of service and Redis, over every mix of single and batch checks, cache toggles, cleanups, failures and lost replies, two UNIQUE answers for one message are at least a window apart. |
| DeduplicatorTheorems.RunIsSafe | components/redis_deduplication/src/deduplicator.cpp:339-368 | The invariant behind it: Redis remembers every accepted message for its full window. |
| DeduplicatorTheorems.NoInventedDuplicates | components/redis_deduplication/src/deduplicator.cpp:112-130 | If every command for a message is answered genuinely or fails unexecuted with an error, a DUPLICATE for it goes back to a UNIQUE for it earlier in the run and at most window + ttl (+ the batch delay) ago, whatever happens to other messages. |
| DeduplicatorTheorems.OutcomeInventsIff | components/redis_deduplication/src/redis_client.cpp:146-173 | On any running service and for any message unknown to Redis and cache, an outcome invents a duplicate, at once or at a genuine check within the window, exactly when the command was refused, its reply lost, or it was executed before an exception. |
| DeduplicatorTheorems.SumIsNeeded | components/redis_deduplication/src/deduplicator.cpp:388-398 | The sum is needed: a Redis DUPLICATE refreshes the cache entry, so a message accepted at 0 is still a duplicate at 14 with window 10 and ttl 5. |
| DeduplicatorTheorems.BoundIsTight | components/redis_deduplication/src/deduplicator.cpp:168-179 | The whole bound is tight, for every window, ttl and batch delay: a message accepted at 0 only is still a DUPLICATE at window − 1 + delay + ttl. |
| DeduplicatorTheorems.UnreachableRedisIff | components/redis_deduplication/src/deduplicator.cpp:112-125 | Without a connection a valid check is a DUPLICATE exactly on a cache hit and an ERROR otherwise. |
| DeduplicatorTheorems.FirstCheckInventsDuplicateIff | components/redis_deduplication/src/redis_client.cpp:146-173 | On any running service the first check of an unknown message is a false DUPLICATE exactly when the command was refused or its reply lost. |
| DeduplicatorTheorems.ExecutedExceptionLeavesKey | components/redis_deduplication/src/deduplicator.cpp:345-355 | A command executed before an exception answers ERROR and makes the next genuine check within the window a DUPLICATE. |
| DeduplicatorTheorems.BatchEqualsSingles | components/redis_deduplication/src/deduplicator.cpp:150-202 | With the cache off and valid ids, a batch gives the answers, the Redis state and all counters of checking each message in order. |
| DeduplicatorTheorems.BatchAgreesIffIdsValid | components/redis_deduplication/src/deduplicator.cpp:358-368 | Batches skip id validation: with the cache off and every command answered the answers agree with single checks exactly when every id is valid. |
| DeduplicatorTheorems.BatchAgreesIff | components/redis_deduplication/src/deduplicator.cpp:150-202 | Batches skip the cache too: with genuine answers, cache on or off, the answers agree exactly when every id is valid and no single check would be answered by a cache entry that outlived its Redis key. |
| DeduplicatorTheorems.RepeatsInBatchAreDuplicates | components/redis_deduplication/src/deduplicator.cpp:358-368 | A repeat of an accepted message inside one batch comes out DUPLICATE. |
| DeduplicatorTheorems.AnswerLaw | components/redis_deduplication/src/deduplicator.cpp:93-148 | For any id, service state and outcome: ERROR and no change unless the service runs and the id is fifteen decimal characters with a sequence number from 1 to 16777215; otherwise DUPLICATE on a live cache entry with the cache on; otherwise what Redis says, whose key is set exactly by an executed command on a dead key. |
| DeduplicatorTheorems.CountersLaw | components/redis_deduplication/src/deduplicator.cpp:93-148 | All six counters after any check. |
| DeduplicatorTheorems.CacheLaw | components/redis_deduplication/src/deduplicator.cpp:388-398 | An answer from Redis puts the message in front of the cache for the whole ttl, and nothing else gets an entry. |
| DeduplicatorTheorems.BatchIsCached | components/redis_deduplication/src/deduplicator.cpp:168-179 | Every message a batch does not fail on is cached afterwards for the whole ttl, if the cache is on and no smaller than the batch and the ttl is not negative. |
| DeduplicatorTheorems.HousekeepingLaw | components/redis_deduplication/src/deduplicator.cpp:456-466 | Maintenance drops exactly the expired cache entries; a shutdown empties the cache and ends the service; neither touches Redis or counters. |
| DeduplicatorTheorems.StoppedForGood | components/redis_deduplication/src/deduplicator.cpp:93-202 | Once stopped, over every run, everything is answered ERROR and Redis is left alone. |
| DeduplicatorTheorems.CountersAddUp | components/redis_deduplication/src/deduplicator.cpp:93-202 | Over every run of a service just started the checks are the acceptances, Redis duplicates, cache hits and failures. |
| Deduplicator.RedisInstance.ExecuteSetNX | components/redis_deduplication/src/redis_client.cpp:154-172 | Sets the key with its expiry exactly when no live key is there, and says so. |
| Deduplicator.Deduplicator.CheckWithRedis | components/redis_deduplication/src/deduplicator.cpp:339-356 | One command under every outcome: unavailable, refused, genuine, reply lost, exception. |
| Deduplicator.Deduplicator.UpdateLocalCache | components/redis_deduplication/src/deduplicator.cpp:388-398 | Refreshes the cache entry for UNIQUE and DUPLICATE alike, when the cache is on. |
| Deduplicator.Deduplicator.CheckPastCache | components/redis_deduplication/src/deduplicator.cpp:124-137 | The Redis check, the cache refresh and the counters of a cache miss. |
| Deduplicator.Deduplicator.IsDuplicate | components/redis_deduplication/src/deduplicator.cpp:93-148 | The cache first, then Redis; counters, cache and key space as specified; ERROR and no change for invalid ids or when not running. |
| Deduplicator.Deduplicator.BatchCheckWithRedis | components/redis_deduplication/src/deduplicator.cpp:358-368 | One command per element, in order. |
| Deduplicator.Deduplicator.CacheBatch | components/redis_deduplication/src/deduplicator.cpp:171-179 | Refreshes the entries of all elements that did not fail. |
| Deduplicator.Deduplicator.CountBatch | components/redis_deduplication/src/deduplicator.cpp:181-189 | The counters of all elements. |
| Deduplicator.Deduplicator.AreDuplicates | components/redis_deduplication/src/deduplicator.cpp:150-202 | Redis for all, then the cache, then the counters; all ERROR when not running. |
| Deduplicator.Deduplicator.SetLocalCacheFallbackEnabled | components/redis_deduplication/src/deduplicator.cpp:333-336 | Switches the cache and changes nothing else. |
| Deduplicator.Deduplicator.PerformMaintenance | components/redis_deduplication/src/deduplicator.cpp:456-466 | Removes expired cache entries unless shutting down. |
| Deduplicator.Deduplicator.Shutdown | components/redis_deduplication/src/deduplicator.cpp:56-87 | Stops answering and empties the cache; Redis keeps its keys. |
| ConnectionPoolTheorems.ExclusiveLeases | components/redis_deduplication/src/connection_pool.cpp:140-198 | In every interleaving of taking, health-checked checkout, handle moves, release, destruction, test, refill, and the two parts of failover and failback, from a fresh pool: no connection is in two places, the active counter is threads in flight plus live handles, and no lease is returned twice. |
| ConnectionPoolTheorems.RunKeepsInv | components/redis_deduplication/src/connection_pool.cpp:140-465 | The invariant holds after every run from any state that has it. |
| ConnectionPoolTheorems.StepKeepsInv | components/redis_deduplication/src/connection_pool.cpp:140-465 | Each atomic step keeps it. |
| ConnectionPoolTheorems.StartKeepsInv | components/redis_deduplication/src/connection_pool.cpp:56-103 | It holds after initialization, whichever connects succeed. |
| ConnectionPoolTheorems.StepServesIff | components/redis_deduplication/src/connection_pool.cpp:140-465 | Which of the machine's steps keep the queue on the instance in use, exactly: a step that gives a connection back keeps it when that belongs to this instance, a switch to the standby when all parked connections lead there, and every other step always. |
| ConnectionPoolTheorems.RunServesIff | components/redis_deduplication/src/connection_pool.cpp:140-465 | A run serves one instance throughout exactly when it starts so and every step keeps it. |
| ConnectionPoolTheorems.StartServes | components/redis_deduplication/src/connection_pool.cpp:56-103 | It starts so: after initialization the queue leads to the master and the parked connections to the standby. |
| ConnectionPoolTheorems.ReturnKeepsInstanceIff | components/redis_deduplication/src/connection_pool.cpp:324-341 | A returned connection keeps the queue on one instance exactly when it is discarded or belongs to the instance in use. |
| ConnectionPoolTheorems.FailoverKeepsInstanceIff | components/redis_deduplication/src/connection_pool.cpp:420-440 | The locked part of a failover, in any state, keeps the queue on one instance exactly when there is no standby or all parked connections lead to it. |
| ConnectionPoolTheorems.RacingFailoversSwapBack | components/redis_deduplication/src/connection_pool.cpp:205-222 | Two failovers that both look before either switches swap the queues twice: the pool says standby and serves its master connections, unless it has none. |
| ConnectionPoolTheorems.SecondFailoverServesParkedConnections | components/redis_deduplication/src/connection_pool.cpp:442-465 | A failback that switches leaves the parked master connections in the standby queue, so the next failover serves them as standby connections. |
| ConnectionPoolTheorems.FailbackLeavesStandbyIff | components/redis_deduplication/src/connection_pool.cpp:224-243 | Failback reports success exactly when the standby is not in use or the probe is healthy, and has then left the standby exactly when it was not in use or some master connect succeeded. |
| ConnectionPoolLaws.CheckOutLaw | components/redis_deduplication/src/connection_pool.cpp:169-198 | On any reachable machine the lease is live with the connection taken exactly when that was found healthy; otherwise with a new connection to the instance in use if the connect succeeds, and empty if not; the failure count grows exactly for an unhealthy one. |
| ConnectionPoolLaws.UnhealthyNeverReturns | components/redis_deduplication/src/connection_pool.cpp:169-341 | A connection found unhealthy at checkout, return or test is never queued or held again, in any interleaving. |
| ConnectionPoolLaws.KeptWasHealthy | components/redis_deduplication/src/connection_pool.cpp:270-297 | A test keeps exactly the connections found healthy. |
| ConnectionPoolLaws.FailuresCounted | components/redis_deduplication/src/connection_pool.cpp:140-413 | Over every run the failure counter grows by the connections found unhealthy. |
| ConnectionPoolLaws.FirstInFirstOut | components/redis_deduplication/src/connection_pool.cpp:140-341 | Over every interleaving without tests and switches connections are taken in the order in which they were queued, returned and made. |
| ConnectionPoolLaws.InitializeLaw | components/redis_deduplication/src/connection_pool.cpp:56-103 | What both queues and the counters are after initialization, for any connect outcomes. |
| ConnectionPoolLaws.RefillLaw | components/redis_deduplication/src/connection_pool.cpp:385-413 | A refill adds one new connection to the instance in use per success, at the end, and recomputes the total. |
| ConnectionPoolLaws.AskLaw | components/redis_deduplication/src/connection_pool.cpp:205-243 | When failover and failback answer at once and when they go on, and what an uninterrupted failover leaves. |
| ConnectionPoolLaws.FailbackLaw | components/redis_deduplication/src/connection_pool.cpp:224-243 | A failback serves new master connections alone exactly after a healthy probe and at least one connect; otherwise the queues stay. |
| ConnectionPool.ConnectionPool.Initialize | components/redis_deduplication/src/connection_pool.cpp:56-103 | Fills both queues with the connects that succeed; false when there is no master connection. |
| ConnectionPool.ConnectionPool.TakeConnection | components/redis_deduplication/src/connection_pool.cpp:140-167 | The locked first part: pops the oldest connection and counts it active, or times out without change. |
| ConnectionPool.ConnectionPool.CheckOut | components/redis_deduplication/src/connection_pool.cpp:169-198 | The rest: a healthy connection is leased, an unhealthy one replaced or dropped, counters alike. |
| ConnectionPool.ConnectionPool.CreateConnection | components/redis_deduplication/src/connection_pool.cpp:299-322 | A successful connect is a new connection to the asked-for instance. |
| ConnectionPool.ConnectionPool.ReturnConnection | components/redis_deduplication/src/connection_pool.cpp:324-341 | Queues a healthy connection at the end, drops another. |
| ConnectionPool.ConnectionPool.TestConnections | components/redis_deduplication/src/connection_pool.cpp:270-297 | Keeps exactly the healthy connections, in order, and counts the others as failed. |
| ConnectionPool.ConnectionPool.ReplaceFailedConnections | components/redis_deduplication/src/connection_pool.cpp:385-413 | Appends the connects that succeed, up to the pool size, and recomputes the total. |
| ConnectionPool.ConnectionPool.SwitchToStandby | components/redis_deduplication/src/connection_pool.cpp:420-440 | Swaps the two queues. |
| ConnectionPool.ConnectionPool.AskFailover | components/redis_deduplication/src/connection_pool.cpp:205-216 | What a failover finds before it takes the lock. |
| ConnectionPool.ConnectionPool.CompleteFailover | components/redis_deduplication/src/connection_pool.cpp:218-222 | Under the lock it switches whatever it finds, and says whether a connection is available. |
| ConnectionPool.ConnectionPool.FailoverToStandby | components/redis_deduplication/src/connection_pool.cpp:205-222 | Both parts with no other thread between: switches once. |
| ConnectionPool.ConnectionPool.SwitchToMaster | components/redis_deduplication/src/connection_pool.cpp:442-465 | Replaces the available queue if any master connect succeeds; nothing is closed or parked. |
| ConnectionPool.ConnectionPool.AskFailback | components/redis_deduplication/src/connection_pool.cpp:224-230 | What a failback finds before it takes the lock. |
| ConnectionPool.ConnectionPool.CompleteFailback | components/redis_deduplication/src/connection_pool.cpp:232-243 | Under the lock it probes first and reports success whenever the probe was healthy. |
| ConnectionPool.ConnectionPool.FailbackToMaster | components/redis_deduplication/src/connection_pool.cpp:224-243 | Both parts with no other thread between. |
| ConnectionPool.PooledConnection.Empty | components/redis_deduplication/src/connection_pool.cpp:140-155 | The handle of a failed acquisition holds nothing. |
| ConnectionPool.PooledConnection.constructor | components/redis_deduplication/src/connection_pool.cpp:9-12 | A handle holding one lease. |
| ConnectionPool.PooledConnection.Move | components/redis_deduplication/src/connection_pool.cpp:14-18 | The lease moves over; the source counts as released. |
| ConnectionPool.PooledConnection.MoveAssign | components/redis_deduplication/src/connection_pool.cpp:20-31 | Returns the target's own lease first; self-assignment changes nothing. |
| ConnectionPool.PooledConnection.Release | components/redis_deduplication/src/connection_pool.cpp:33-42 | Returns the connection once; later calls change nothing. |
| FragmentationTheorems.Reassembly | components/rabbitmq_integration/src/message.cpp:729-788 | For every message, positive part size, arrival order and choice the sort makes, combining the parts gives exactly the data and id, and the headers exactly when the message carried none of the three split headers. |
| FragmentationTheorems.SplitShape | components/rabbitmq_integration/src/message.cpp:729-757 | Every part has at most maxSize bytes; a split has ⌈size / maxSize⌉ parts and every part says so; a small message is its own only part. |
| FragmentationTheorems.PartShape | components/rabbitmq_integration/src/message.cpp:741-752 | Number, total, marker and correlation id of each part; all other properties and headers are the message's. |
| FragmentationTheorems.AllChunks | components/rabbitmq_integration/src/message.cpp:738-755 | The parts' data in order is the data. |
| FragmentationTheorems.SortIsUnique | components/rabbitmq_integration/src/message.cpp:764-771 | Distinct part numbers leave the sort no choice. |
| FragmentationTheorems.LeastNumberRules | components/rabbitmq_integration/src/message.cpp:759-788 | Messages that are no parts of one combine too: properties and first bytes are those of the one with the least number. |
| Fragmentation.SplitMessage | components/rabbitmq_integration/src/message.cpp:729-757 | The offset loop produces the specified parts. |
| Fragmentation.SortByPart | components/rabbitmq_integration/src/message.cpp:764-771 | A permutation sorted by part number; fails exactly when two or more messages include one with an unreadable number. |
| Fragmentation.CombineMessages | components/rabbitmq_integration/src/message.cpp:759-788 | The concatenation of a sort of the input under the first part's properties without split headers; a blank message for no input; the exception for unreadable numbers. |
| Decimal.ReadPrinted | components/rabbitmq_integration/src/message.cpp:748-769 | What to_string prints stoi reads back up to the largest int, and throws beyond. |
| Decimal.ReadIntLaw | components/rabbitmq_integration/src/message.cpp:759-788 | What reading a part number takes: blanks, one sign, the longest run of digits, and 32 bits, or an exception. |
| Checksum.ChecksumOkIffZero | components/protocol_parser/src/parser.cpp:364-377 | A packet passes exactly when it is not empty and all its bytes XOR to zero. |
| Checksum.OneByteChangeDetected | components/protocol_parser/src/parser.cpp:364-377 | Changing exactly one byte of any passing packet, of any length and anywhere, makes it fail. |
| Checksum.SealedPasses | components/protocol_parser/src/message.cpp:230-237 | Any bytes followed by their XOR pass. |
| Checksum.VerifyChecksum | components/protocol_parser/src/parser.cpp:364-377 | Compares the fold of all but the last byte with the last; false for no bytes. |
| Checksum.ComputeChecksum | components/protocol_parser/src/message.cpp:230-234 | The accumulating loop is the fold. |
| WireMessageTheorems.RoundTripIff | components/protocol_parser/src/message.cpp:124-337 | fromBinary(toBinary(m)) is m exactly when the IMEI is fifteen digits, there are at most 255 fields, names have at most 255 bytes, and values are bool, int8, uint8, float or strings of at most 255 bytes; for any walk of the field map. |
| WireMessageTheorems.RoundTrip | components/protocol_parser/src/message.cpp:124-337 | Every message of that domain reads back. |
| WireMessageTheorems.ImeiSurvivesIff | components/protocol_parser/src/message.cpp:141-148 | The IMEI survives exactly when it is fifteen digits. |
| WireMessageTheorems.ReadFieldsBack | components/protocol_parser/src/message.cpp:278-334 | Written fields read back in the order written, whatever precedes them. |
| WireMessageTheorems.WrittenPassesChecksum | components/protocol_parser/src/message.cpp:230-237 | Everything toBinary writes passes the parser's checksum test. |
| WireMessageTheorems.CorruptionDetected | components/protocol_parser/src/parser.cpp:364-377 | Any one changed byte of it is noticed. |
| WireMessageTheorems.WrittenValue | components/protocol_parser/src/message.cpp:167-227 | The bytes of every type of value. |
| WireMessageTheorems.WrittenImei | components/protocol_parser/src/message.cpp:141-148 | The IMEI bytes of every encoding, for any string. |
| WireMessageTheorems.ReadingHeader | components/protocol_parser/src/message.cpp:240-275 | When reading fails, and the header it takes otherwise. |
| WireMessageTheorems.ReadingValue | components/protocol_parser/src/message.cpp:276-337 | Reading beyond what was written: a known name keeps its value, unknown types take no bytes, cut-off values are dropped. |
| WireMessage.ToBinary | components/protocol_parser/src/message.cpp:124-238 | The buffer built byte by byte is the specified encoding, for any order of the map. |
| WireMessage.PushValue | components/protocol_parser/src/message.cpp:167-227 | Tag and bytes of each of the fourteen value types, 64-bit integers writing nothing. |
| WireMessage.PushInteger | components/protocol_parser/src/message.cpp:181-213 | The shift-and-mask loop writes the number's low bytes, lowest first. |
| WireMessage.FromBinary | components/protocol_parser/src/message.cpp:240-337 | The advancing-offset reader computes the specified decoding, with its two errors. |
| WireMessage.ReadFields | components/protocol_parser/src/message.cpp:278-334 | The field loop, stopping early on truncation. |
| WireMessage.ReadValue | components/protocol_parser/src/message.cpp:293-333 | One value by tag; truncated values are dropped and unknown tags skip nothing. |
| PacketParserTheorems.ValidIff | components/protocol_parser/src/parser.cpp:26-186 | A packet of at least 25 bytes with the magic bytes always parses, and is valid exactly when version ≤ 2.0, type in 1..10, fifteen decimal nibbles, payload long enough for its type, and XOR of all bytes zero. |
| PacketParserTheorems.ParsesIff | components/protocol_parser/src/parser.cpp:26-46 | Parsing fails outright exactly for short packets and wrong magic bytes. |
| PacketParserTheorems.ValidImei | components/protocol_parser/src/parser.cpp:100-112 | The IMEI of a valid packet is the fifteen digits its nibbles spell, low nibble first. |
| PacketParserTheorems.CorruptPacketIsInvalid | components/protocol_parser/src/parser.cpp:364-377 | Any one changed byte after the magic of a valid packet makes the result invalid. |
| PacketParserTheorems.GpsReadsBack | components/protocol_parser/src/parser.cpp:188-252 | Every position report reads back as the readings it was written from, signs and scales included, and as nothing else. |
| PacketParserTheorems.StatusReadsBack | components/protocol_parser/src/parser.cpp:254-294 | Every status report reads back, each flag on its own, whatever the unused flag bits are. |
| PacketParserTheorems.EventReadsBack | components/protocol_parser/src/parser.cpp:296-329 | Every event with at most 255 bytes of data reads back. |
| PacketParserTheorems.EventReadsBackIff | components/protocol_parser/src/parser.cpp:296-329 | For any bytes, data and timestamp of an event are both read, and as sent, exactly when the announced length and four more bytes are there. |
| PacketParserTheorems.TruncatedEventReadsBackIff | components/protocol_parser/src/parser.cpp:296-329 | An event cut off anywhere reads back exactly when nothing is cut off. |
| PacketParserTheorems.OversizedEventMisreadsTimestamp | components/protocol_parser/src/parser.cpp:296-329 | Event data that does not fit is dropped and its first four bytes are read as the timestamp. |
| PacketParserTheorems.AckReadsBack | components/protocol_parser/src/parser.cpp:331-362 | Every acknowledgment with at most 255 bytes of text reads back; an empty text gives no field. |
| PacketParserTheorems.WrittenIsValidIff | components/protocol_parser/src/message.cpp:124-238 | The parser calls what toBinary writes valid exactly when type and major version pass for a version ≤ 2.0, the minor version is 1..10, the first eight IMEI bytes pass for nibbles, and there are enough bytes for the type the minor version is taken for. |
| PacketParserTheorems.WrittenWithImeiIsValidIff | components/protocol_parser/src/message.cpp:124-238 | The same for fifteen-digit IMEIs, which always pass for nibbles. |
| PacketParserTheorems.WrittenReadsAs | components/protocol_parser/src/parser.cpp:80-121 | Such an accepted message is read with the minor version as its type, type and major version as its version, the first eight IMEI digits interleaved with zeros, and the next four as its sequence. |
| PacketParserTheorems.WrittenMessagesAreInvalid | components/protocol_parser/src/message.cpp:124-238 | In particular every message with minor version 0 is invalid to the parser. |
| PacketParserTheorems.GpsPacketReadsBack | components/protocol_parser/src/parser.cpp:166-252 | A whole packet of type 1 parses to exactly the nine fields of its payload, at offset 19. |
| PacketParserTheorems.StatusPacketReadsBack | components/protocol_parser/src/parser.cpp:166-294 | The same of type 2 and the status readings and flags. |
| PacketParserTheorems.EventPacketReadsBack | components/protocol_parser/src/parser.cpp:166-329 | The same of type 3 and the event. |
| PacketParserTheorems.AckPacketReadsBack | components/protocol_parser/src/parser.cpp:166-362 | The same of type 4 and the acknowledgment. |
| PacketParserTheorems.OtherPacketIsRaw | components/protocol_parser/src/parser.cpp:166-186 | A packet of any other type carries its payload bytes as they are. |
| PacketParserTheorems.HeaderReads | components/protocol_parser/src/parser.cpp:80-121 | The header fields of every parsed packet, byte by byte. |
| PacketParserTheorems.ErrorsExactly | components/protocol_parser/src/parser.cpp:26-164 | Exactly which errors a parsed packet reports, and in which order. |
| PacketParser.ParseHeader | components/protocol_parser/src/parser.cpp:80-121 | The header, BCD digits included, or nothing for short input or wrong magic. |
| PacketParser.ValidateHeader | components/protocol_parser/src/parser.cpp:123-164 | Exactly the four header errors, in order. |
| PacketParser.ParsePayload | components/protocol_parser/src/parser.cpp:166-186 | Fields by type, or one error when too small; unknown types keep the raw bytes. |
| PacketParser.ParseGpsUpdate | components/protocol_parser/src/parser.cpp:188-252 | All nine fields at their offsets. |
| PacketParser.ParseStatusUpdate | components/protocol_parser/src/parser.cpp:254-294 | Fields and the four flag bits. |
| PacketParser.ParseEventNotification | components/protocol_parser/src/parser.cpp:296-329 | Data that does not fit is skipped and the timestamp then read where it began. |
| PacketParser.ParseCommandAck | components/protocol_parser/src/parser.cpp:331-362 | The message is read only when it is non-empty and fits. |
| PacketParser.Parser.ParsePacket | components/protocol_parser/src/parser.cpp:12-17 | The result, and what the last error is afterwards; an empty packet leaves it alone. |
| PacketParser.Parser.ParseNonEmpty | components/protocol_parser/src/parser.cpp:26-78 | All errors collected in the order found. |
| PublisherTheorems.NothingLostOrDuplicated | components/rabbitmq_integration/src/publisher.cpp:96-125 | Over every run of a new publisher the bag of accepted messages is sent + queued + cleared + held by a hung drain; the size counter is the queue length and within its bound; the success counter counts the accepted. |
| PublisherTheorems.RunConserves | components/rabbitmq_integration/src/publisher.cpp:491-562 | The same from any state that satisfies it. |
| PublisherTheorems.DeliveredInOrder | components/rabbitmq_integration/src/publisher.cpp:538-562 | While sends succeed messages leave in the order accepted, across any pauses and reconnects. |
| PublisherTheorems.PutBackKeepsOrderIff | components/rabbitmq_integration/src/publisher.cpp:545-557 | A drain that returns keeps the order of sent and queued messages exactly when all messages from the first failing one on are equal. |
| PublisherTheorems.DrainShape | components/rabbitmq_integration/src/publisher.cpp:545-557 | A drain sends the messages before the first that fails; that one goes behind the others when the queue has been switched off, and is held otherwise. |
| PublisherTheorems.DrainHangsIff | components/rabbitmq_integration/src/publisher.cpp:522-557 | A drain waits for its own lock exactly when its first failing send finds the queue on. |
| PublisherTheorems.LockedForGood | components/rabbitmq_integration/src/publisher.cpp:522-557 | From then on, over every run, the held message and the queue stay as they are: nothing is sent from it, added or cleared. |
| PublisherTheorems.PausedReconnectSendsIff | components/rabbitmq_integration/src/publisher.cpp:606-616 | Pausing does not hold back the queue: a reconnect during a pause sends exactly when the queue is enabled, unlocked and non-empty and its first send succeeds. |
| PublisherTheorems.AcceptanceLaw | components/rabbitmq_integration/src/publisher.cpp:96-125 | When a message is taken, waits or is refused, exactly; where a taken one goes, in the broker or at the end of the queue; and every counter. |
| PublisherTheorems.StepLaw | components/rabbitmq_integration/src/publisher.cpp:375-418 | Pause, connection and queue switch are as last set, over every operation. |
| PublisherTheorems.BytesAreCounted | components/rabbitmq_integration/src/publisher.cpp:96-125 | Over every run the byte counter is the size of what was accepted. |
| Publisher.Publisher.Publish | components/rabbitmq_integration/src/publisher.cpp:96-125 | Refuses while paused or for an invalid message; otherwise sends or queues and counts, or waits for the queue's lock. |
| Publisher.Publisher.PublishInternal | components/rabbitmq_integration/src/publisher.cpp:491-520 | Sends when connected, queues when not or when the send throws. |
| Publisher.Publisher.PublishToLocal | components/rabbitmq_integration/src/publisher.cpp:522-536 | Appends unless the queue is full; waits for ever if a drain holds the lock. |
| Publisher.Publisher.ProcessLocalQueue | components/rabbitmq_integration/src/publisher.cpp:538-562 | The draining loop: sent, put back, or waiting for its own lock with the message in hand. |
| Publisher.Publisher.ResumePublishing | components/rabbitmq_integration/src/publisher.cpp:412-418 | Unpauses and drains. |
| Publisher.Publisher.OnConnectionStateChanged | components/rabbitmq_integration/src/publisher.cpp:606-616 | Drains on connect. |
| Publisher.Publisher.PausePublishing | components/rabbitmq_integration/src/publisher.cpp:407-410 | Refuses later publishes and changes nothing else. |
| Publisher.Publisher.ClearLocalQueue | components/rabbitmq_integration/src/publisher.cpp:379-385 | Empties queue and counter, or waits for the lock. |
| Publisher.Publisher.EnableLocalQueue | components/rabbitmq_integration/src/publisher.cpp:375-377 | Switches queueing; what is queued stays. |
| Gateway.Gateway.CreateQueueName | components/udp-gateway/src/gateway.cpp:391-422 | Prefix and dot only when there is a prefix, then region, device and suffix. |
| Gateway.Gateway.HandleMessage | components/udp-gateway/src/gateway.cpp:425-466 | Publishes, publishes again when debugging, counts; the error of each failing step, the metrics collector included, and what was already done by then. |
| Gateway.Gateway.HandleError | components/udp-gateway/src/gateway.cpp:468-502 | A discard report for two of the errors, counters for all; a throwing publication or metrics collector skips the counters. |
| Session.Session.constructor | components/udp-gateway/src/session.cpp:62-86 | Inactive, with zero counters, on the given collaborators. |
| Session.Session.HandlePacket | components/udp-gateway/src/session.cpp:122-163 | The whole new state of session, limiter, record, devices and gateway for any packet, any receive error and any set of throwing calls, and whether an exception escapes. |
| Session.Session.ProcessPacket | components/udp-gateway/src/session.cpp:165-220 | Hands a valid message to the handler and replies, or reports the error; either is counted first, which may throw. |
| Session.Session.ParseAndValidate | components/udp-gateway/src/session.cpp:222-283 | The five checks in order, then record and status; the verdict and all state changed on the way. |
| Session.Session.RecordAndConnect | components/udp-gateway/src/session.cpp:273-282 | Recorded before the status update; what is left behind when either throws. |
| Session.Session.Deliver | components/udp-gateway/src/session.cpp:170-195 | A valid message is counted, handled, and replied to. |
| Session.Session.Refuse | components/udp-gateway/src/session.cpp:196-219 | An invalid one is counted, then reported under its first fifteen bytes. |
| Session.Session.Reply | components/udp-gateway/src/session.cpp:179-191 | The acknowledgment when asked for and enabled, then commands after a success; what was sent before a throw. |
| SessionTheorems.EndToEnd | components/udp-gateway/src/session.cpp:122-283 | From construction on, over every run of packets, start, stop and outside use of limiter, record and devices: no message handled twice, inbound queues exact, acknowledgments honest, received = processed + rejected. |
| SessionTheorems.AtMostOnce | components/udp-gateway/src/session.cpp:257-274 | Over every run no (device, sequence, messageId) reaches handleMessage twice, and every handled one is recorded. |
| SessionTheorems.RecordedIsFinal | components/udp-gateway/src/session.cpp:257-274 | A recorded message is never handled later, whether or not its handling succeeded or began. |
| SessionTheorems.PacketLostIff | components/udp-gateway/src/session.cpp:165-283 | A packet leaves a record without a handling exactly when it is recorded and then the status update or the count of valid packets throws. |
| SessionTheorems.PacketUnpublishedIff | components/udp-gateway/src/session.cpp:165-283 | A packet leaves a record without a publication exactly when it is recorded and one of these throws or the publisher does not take the message. |
| SessionTheorems.StepKeepsIff | components/udp-gateway/src/session.cpp:165-283 | The same of every event, for handling and for publication. |
| SessionTheorems.RunKeepsIff | components/udp-gateway/src/session.cpp:122-283 | Over every run: everything recorded has been handled, or published, exactly when no event of the run recorded a message that was not; a loss is never made good. |
| SessionTheorems.NothingLost | components/udp-gateway/src/session.cpp:257-280 | Over runs without such throws or outside records everything recorded was handled and, if the publisher takes all it is given, published. |
| SessionTheorems.HandledBound | components/udp-gateway/src/session.cpp:265-277 | After any run, the messages of a device handled in a window without reset or limit change cost less than burst + 4.1 + rate × length; those that cannot owe at most burst + rate × length. |
| SessionTheorems.RunPaid | components/udp-gateway/src/session.cpp:265-277 | What a run hands to the handler costs no more than the limiter charged the device. |
| SessionTheorems.WhatAPacketTouches | components/udp-gateway/src/session.cpp:222-283 | Which packets touch a bucket, are recorded, are handled — each exactly; unauthenticated, suspended and duplicate packets leave limiter and record alone, rate-limited ones the record. |
| SessionTheorems.OtherBucketsUntouched | components/udp-gateway/src/session.cpp:265-277 | A packet changes no bucket but its own device's. |
| SessionTheorems.InboundQueuesAreExact | components/udp-gateway/src/gateway.cpp:425-466 | Each inbound queue holds exactly the payloads of its own device's accepted messages, in the order handled. |
| SessionTheorems.ErrorsOffInbound | components/udp-gateway/src/gateway.cpp:475-487 | An error report never lands on an inbound queue, whatever bytes the device is blamed by. |
| SessionTheorems.NegativeAckOfPublishedIff | components/udp-gateway/src/gateway.cpp:425-466 | A handled message that wants one gets one acknowledgment; a positive one is never wrong, and a negative one answers a published message exactly when the publisher, the debug publication or the count of published messages throws after it was taken. |
| SessionTheorems.AcksAndCounters | components/udp-gateway/src/session.cpp:176-193 | Every acknowledgment answers a handled message that asked for it, a positive one was published, and the counters add up. |
| SessionLaws.VerdictLaw | components/udp-gateway/src/session.cpp:222-283 | The verdict on any packet is that of the first check, in order, that throws or turns it away. |
| SessionLaws.StatesLaw | components/udp-gateway/src/session.cpp:273-282 | A packet changes the state of no device but its sender, to connected, exactly when it is recorded and the status update does not throw. |
| SessionLaws.NeverSuspendedByPackets | components/udp-gateway/src/session.cpp:122-283 | Over every run a device that nobody suspends is never suspended. |
| SessionLaws.NextPacketReachesLimiter | components/udp-gateway/src/session.cpp:240-271 | So after such a run no packet of it is refused as suspended, and a new, authenticated, undisturbed one reaches the limiter. |
| SessionLaws.BlameLaw | components/udp-gateway/src/session.cpp:196-219 | Who an unusable packet is blamed on: its first fifteen bytes as characters, whatever they are, or "unknown" for a shorter one. |
| SessionLaws.PublicationLaw | components/udp-gateway/src/gateway.cpp:425-502 | What any packet publishes, discard reports included, on which queues and in which order. |
| SessionLaws.CountingLaw | components/udp-gateway/src/session.cpp:122-220 | Session counters, metrics, acknowledgments and escaping exceptions after any packet. |

## Left out

- Sockets, Boost.Asio, threads, condition variables, hiredis and librabbitmq: only their outcomes, as oracles.
- consumer.cpp, channel.cpp, connection.cpp, queue_manager.cpp: thread plumbing and stubs.
- JSON, logging, metrics export, configuration loading, enum-to-string tables, error texts.
- The rate limiter's second, separate set of buckets (rate_limiter.cpp:9-53, 65-110): no packet reaches it.
- Floating-point rounding and overflow of counters: `real` and unbounded integers instead.
- Concurrency inside one duplicate check: each check is one step with one clock reading.
- Latency, hit-rate and last-failure statistics.
- Redis across failover: master and standby are separate key spaces, and the theorems are about one instance.
- Changing the deduplication window or other configuration during a run, and clearing the history.
- Pool shutdown and its statistics reset; waiting for a connection is either a pop or a timeout.
- Publisher transactions, confirms, batches and asynchronous publishing, and moving a publisher.
- Delivery of pending commands: only whether it throws.
- Splitting with part size 0 when there is data: the source does not terminate.
- The parser's and publisher's helper classes (validator, command builder, stand-alone queue).
- Fragmentation.SplitMessage: requires that part numbers fit a 32-bit int, because the counter overflows otherwise; messages are values, since the source copies them.
- WireMessage.ToBinary: the order in which the hash map is walked is an argument, floating-point values are bit patterns, and messages are values rather than objects with setters.
- Session.Session.HandlePacket: the duplicate service is its interface, remembering every recorded message; the Redis-backed check has its own theorems.
- Session.Session.ParseAndValidate: the limiter is the one modelled here, whose calls do not throw.
- DeduplicatorTheorems.NoInventedDuplicates: does not cover a message with refused, lost or executed-and-thrown commands, because the claim is false for each of these outcomes, as OutcomeInventsIff shows.
