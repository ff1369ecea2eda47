/** Message identifiers of the deduplication component and the keys made from them. */
module MessageKeys {
  import opened Decimal

  datatype MessageId = MessageId(imei: string, sequenceNumber: nat)

  /** Key of a message in the local cache's index. */
  function CacheKey(m: MessageId): string {
    m.imei + ":" + Print(m.sequenceNumber)
  }

  /** Key of a message in Redis. */
  function RedisKey(prefix: string, m: MessageId): string {
    prefix + ":" + m.imei + ":" + Print(m.sequenceNumber)
  }

  lemma {:induction false} NoColon(n: nat)
    ensures ':' !in Print(n)
  {
    PrintRoundTrips(n);
  }

  /** Two messages share a cache key exactly when they are the same message. */
  lemma {:induction false} CacheKeyIdentifies(m: MessageId, n: MessageId)
    ensures CacheKey(m) == CacheKey(n) <==> m == n
  {
    if CacheKey(m) == CacheKey(n) {
      NoColon(m.sequenceNumber);
      NoColon(n.sequenceNumber);
      SplitAtLast(m.imei, Print(m.sequenceNumber), n.imei, Print(n.sequenceNumber), ':');
      PrintInjective(m.sequenceNumber, n.sequenceNumber);
    }
  }

  /** For a fixed prefix, two messages share a Redis key exactly when they are the same. */
  lemma {:induction false} RedisKeyIdentifies(prefix: string, m: MessageId, n: MessageId)
    ensures RedisKey(prefix, m) == RedisKey(prefix, n) <==> m == n
  {
    assert RedisKey(prefix, m) == (prefix + ":") + CacheKey(m);
    assert RedisKey(prefix, n) == (prefix + ":") + CacheKey(n);
    if RedisKey(prefix, m) == RedisKey(prefix, n) {
      assert CacheKey(m) == RedisKey(prefix, m)[|prefix| + 1..];
      assert CacheKey(n) == RedisKey(prefix, n)[|prefix| + 1..];
    }
    CacheKeyIdentifies(m, n);
  }
}
