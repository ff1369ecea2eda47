/** The per-device token bucket of the UDP gateway.

    Buckets are refilled lazily: every check or statistics read first adds the
    tokens earned since the last refill. Clock readings are parameters and
    `double` is modelled by `real`. */
module RateLimiter {

  type IMEI = string

  datatype Priority = Low | Normal | High | Critical

  datatype Config = Config(defaultRate: real, defaultBurst: nat, priorityBoost: bool)

  // ---------------------------------------------------------------- buckets

  /** The value of one device's bucket. */
  datatype Bucket = Bucket(
    rate: real, size: nat, tokens: real, lastUpdated: real, total: nat, limited: nat)
  {
    /** The invariant behind the admission bound. */
    ghost predicate Bounded() {
      -4.1 < tokens <= size as real
    }
  }

  function FreshBucket(rate: real, size: nat, now: real): Bucket {
    Bucket(rate, size, size as real, now, 0, 0)
  }

  function Min(x: real, y: real): real {
    if x < y then x else y
  }

  function PriorityMultiplier(boost: bool, p: Priority): (m: real)
    ensures m > 0.0
  {
    if !boost then 1.0
    else match p
      case Critical => 10.0
      case High => 5.0
      case Normal => 1.0
      case Low => 0.5
  }

  /** Tokens one message of priority `p` costs. */
  function Cost(boost: bool, p: Priority): real {
    1.0 / PriorityMultiplier(boost, p)
  }

  /** Whether messages of this priority may drive the bucket into debt. */
  predicate MayOwe(boost: bool, p: Priority) {
    PriorityMultiplier(boost, p) >= 10.0
  }

  function Refilled(b: Bucket, now: real): Bucket {
    var newTokens := (now - b.lastUpdated) * b.rate;
    if newTokens > 0.0
    then b.(tokens := Min(b.size as real, b.tokens + newTokens), lastUpdated := now)
    else b
  }

  function Admits(tokens: real, multiplier: real): bool
    requires multiplier > 0.0
  {
    tokens >= 1.0 / multiplier || (multiplier >= 10.0 && tokens > -4.0)
  }

  function Consumed(b: Bucket, multiplier: real, now: real): (r: (Bucket, bool))
    requires multiplier > 0.0
  {
    var c := Refilled(b, now);
    if Admits(c.tokens, multiplier)
    then (c.(tokens := c.tokens - 1.0 / multiplier, total := c.total + 1), true)
    else (c.(total := c.total + 1, limited := c.limited + 1), false)
  }

  /** A bucket as the C++ keeps it: a struct updated in place. */
  class DeviceBucket {
    var tokensPerSecond: real
    var bucketSize: nat
    var availableTokens: real
    var lastUpdated: real
    var totalMessages: nat
    var limitedMessages: nat

    ghost function Value(): Bucket
      reads this
    {
      Bucket(tokensPerSecond, bucketSize, availableTokens, lastUpdated, totalMessages, limitedMessages)
    }

    constructor (rate: real, size: nat, now: real)
      ensures Value() == FreshBucket(rate, size, now)
    {
      tokensPerSecond, bucketSize, availableTokens := rate, size, size as real;
      lastUpdated, totalMessages, limitedMessages := now, 0, 0;
    }

    method Refill(now: real)
      modifies this
      ensures Value() == Refilled(old(Value()), now)
    {
      var elapsed := now - lastUpdated;
      var newTokens := elapsed * tokensPerSecond;
      if newTokens > 0.0 {
        availableTokens := Min(bucketSize as real, availableTokens + newTokens);
        lastUpdated := now;
      }
    }

    method ConsumeToken(priorityMultiplier: real, now: real) returns (admitted: bool)
      requires priorityMultiplier > 0.0
      modifies this
      ensures (Value(), admitted) == Consumed(old(Value()), priorityMultiplier, now)
    {
      Refill(now);
      var tokensNeeded := 1.0 / priorityMultiplier;
      if priorityMultiplier >= 10.0 {
        if availableTokens >= tokensNeeded || availableTokens > -4.0 {
          availableTokens := availableTokens - tokensNeeded;
          totalMessages := totalMessages + 1;
          return true;
        }
      } else {
        if availableTokens >= tokensNeeded {
          availableTokens := availableTokens - tokensNeeded;
          totalMessages := totalMessages + 1;
          return true;
        }
      }
      totalMessages := totalMessages + 1;
      limitedMessages := limitedMessages + 1;
      return false;
    }
  }

  // ---------------------------------------------------------------- limiter

  datatype Limiter = Limiter(config: Config, buckets: map<IMEI, Bucket>) {
    /** Every bucket is bounded and was last refilled no later than `now`. */
    ghost predicate Inv(now: real) {
      forall d :: d in buckets ==> buckets[d].Bounded() && buckets[d].lastUpdated <= now
    }
  }

  /** What a statistics read reports. */
  datatype Statistics = Statistics(
    rate: real, size: nat, available: real, total: nat, limited: nat, limitedPercentage: real)

  datatype Op =
    | Check(device: IMEI, priority: Priority, now: real)
    | ReadStatistics(device: IMEI, now: real)
    | SetLimit(device: IMEI, rate: real, burst: nat, now: real)
    | Reset(device: IMEI, now: real)
    | SetDefault(rate: real, burst: nat)

  /** The bucket a check of `d` at `now` works on. */
  function BucketFor(l: Limiter, d: IMEI, now: real): Bucket {
    if d in l.buckets then l.buckets[d]
    else FreshBucket(l.config.defaultRate, l.config.defaultBurst, now)
  }

  function CheckedAt(l: Limiter, d: IMEI, p: Priority, now: real): (Limiter, bool) {
    var (b, ok) := Consumed(BucketFor(l, d, now), PriorityMultiplier(l.config.priorityBoost, p), now);
    (l.(buckets := l.buckets[d := b]), ok)
  }

  function ReadAt(l: Limiter, d: IMEI, now: real): Limiter {
    if d in l.buckets then l.(buckets := l.buckets[d := Refilled(l.buckets[d], now)]) else l
  }

  function StatisticsAt(l: Limiter, d: IMEI, now: real): Statistics {
    if d in l.buckets then
      var b := Refilled(l.buckets[d], now);
      Statistics(b.rate, b.size, b.tokens, b.total, b.limited,
                 if b.total > 0 then 100.0 * b.limited as real / b.total as real else 0.0)
    else
      Statistics(l.config.defaultRate, l.config.defaultBurst, l.config.defaultBurst as real, 0, 0, 0.0)
  }

  function LimitSet(l: Limiter, d: IMEI, rate: real, burst: nat, now: real): Limiter {
    var b :=
      if d in l.buckets
      then l.buckets[d].(rate := rate, size := burst, tokens := Min(l.buckets[d].tokens, burst as real))
      else FreshBucket(rate, burst, now);
    l.(buckets := l.buckets[d := b])
  }

  function ResetAt(l: Limiter, d: IMEI, now: real): Limiter {
    if d in l.buckets
    then l.(buckets := l.buckets[d := FreshBucket(l.buckets[d].rate, l.buckets[d].size, now)])
    else l
  }

  function DefaultSet(l: Limiter, rate: real, burst: nat): Limiter {
    l.(config := l.config.(defaultRate := rate, defaultBurst := burst))
  }

  function Step(l: Limiter, op: Op): Limiter {
    match op
    case Check(d, p, now) => CheckedAt(l, d, p, now).0
    case ReadStatistics(d, now) => ReadAt(l, d, now)
    case SetLimit(d, rate, burst, now) => LimitSet(l, d, rate, burst, now)
    case Reset(d, now) => ResetAt(l, d, now)
    case SetDefault(rate, burst) => DefaultSet(l, rate, burst)
  }

  function Run(l: Limiter, ops: seq<Op>): Limiter
    decreases |ops|
  {
    if ops == [] then l else Run(Step(l, ops[0]), ops[1..])
  }

  /** The limiter as the C++ keeps it: a map of buckets updated in place. */
  class TokenBucketRateLimiter {
    var config: Config
    var deviceBuckets: map<IMEI, DeviceBucket>

    /** No two devices share a bucket object. */
    ghost predicate Valid()
      reads this
    {
      forall d, e :: d in deviceBuckets && e in deviceBuckets && d != e ==> deviceBuckets[d] != deviceBuckets[e]
    }

    ghost function State(): Limiter
      reads this, deviceBuckets.Values
    {
      Limiter(config, map d | d in deviceBuckets :: deviceBuckets[d].Value())
    }

    constructor (config: Config)
      ensures Valid() && State() == Limiter(config, map[])
    {
      this.config := config;
      deviceBuckets := map[];
    }

    method CheckLimit(device: IMEI, priority: Priority, now: real) returns (admitted: bool)
      requires Valid()
      modifies this, deviceBuckets.Values
      ensures Valid() && fresh(deviceBuckets.Values - old(deviceBuckets.Values))
      ensures (State(), admitted) == CheckedAt(old(State()), device, priority, now)
    {
      hide Consumed, PriorityMultiplier;
      if device !in deviceBuckets {
        var b := new DeviceBucket(config.defaultRate, config.defaultBurst, now);
        deviceBuckets := deviceBuckets[device := b];
      }
      ghost var b0 := deviceBuckets[device].Value();
      var multiplier := PriorityMultiplier(config.priorityBoost, priority);
      admitted := deviceBuckets[device].ConsumeToken(multiplier, now);
      assert b0 == BucketFor(old(State()), device, now);
      assert State().buckets == old(State()).buckets[device := deviceBuckets[device].Value()];
    }

    method SetDeviceLimit(device: IMEI, messagesPerSecond: real, burstSize: nat, now: real)
      requires Valid()
      modifies this, deviceBuckets.Values
      ensures Valid() && fresh(deviceBuckets.Values - old(deviceBuckets.Values))
      ensures State() == LimitSet(old(State()), device, messagesPerSecond, burstSize, now)
    {
      if device !in deviceBuckets {
        var b := new DeviceBucket(messagesPerSecond, burstSize, now);
        deviceBuckets := deviceBuckets[device := b];
      } else {
        var b := deviceBuckets[device];
        b.tokensPerSecond := messagesPerSecond;
        b.bucketSize := burstSize;
        b.availableTokens := Min(b.availableTokens, burstSize as real);
      }
    }

    method SetDefaultLimit(messagesPerSecond: real, burstSize: nat)
      requires Valid()
      modifies this
      ensures Valid() && deviceBuckets == old(deviceBuckets)
      ensures State() == DefaultSet(old(State()), messagesPerSecond, burstSize)
    {
      config := config.(defaultRate := messagesPerSecond, defaultBurst := burstSize);
    }

    method ResetDevice(device: IMEI, now: real)
      requires Valid()
      modifies deviceBuckets.Values
      ensures Valid()
      ensures State() == ResetAt(old(State()), device, now)
    {
      if device in deviceBuckets {
        var b := deviceBuckets[device];
        b.availableTokens := b.bucketSize as real;
        b.lastUpdated := now;
        b.totalMessages := 0;
        b.limitedMessages := 0;
      }
    }

    method GetDeviceStatistics(device: IMEI, now: real) returns (stats: Statistics)
      requires Valid()
      modifies deviceBuckets.Values
      ensures Valid()
      ensures State() == ReadAt(old(State()), device, now)
      ensures stats == StatisticsAt(old(State()), device, now)
    {
      if device in deviceBuckets {
        var b := deviceBuckets[device];
        b.Refill(now);
        var percentage :=
          if b.totalMessages > 0 then 100.0 * b.limitedMessages as real / b.totalMessages as real else 0.0;
        stats := Statistics(b.tokensPerSecond, b.bucketSize, b.availableTokens, b.totalMessages,
                            b.limitedMessages, percentage);
      } else {
        stats := Statistics(config.defaultRate, config.defaultBurst, config.defaultBurst as real, 0, 0, 0.0);
      }
    }
  }
}
