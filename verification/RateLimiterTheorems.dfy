/** What the token bucket promises over whole runs. */
module RateLimiterTheorems {
  import opened RateLimiter

  // ------------------------------------------------------- clocked runs

  function Time(op: Op, before: real): real {
    match op
    case Check(_, _, now) => now
    case ReadStatistics(_, now) => now
    case SetLimit(_, _, _, now) => now
    case Reset(_, now) => now
    case SetDefault(_, _) => before
  }

  /** The clock readings of `ops` never go back and stay within [from, until]. */
  ghost predicate Ordered(ops: seq<Op>, from: real, until: real)
    decreases |ops|
  {
    if ops == [] then from <= until
    else from <= Time(ops[0], from) && Ordered(ops[1..], Time(ops[0], from), until)
  }

  /** The limiter right after construction: no device has a bucket yet. */
  function NewLimiter(config: Config): Limiter {
    Limiter(config, map[])
  }

  lemma {:induction false} RefillOnlyAdds(b: Bucket, now: real)
    requires b.Bounded() && b.lastUpdated <= now
    ensures var c := Refilled(b, now);
      c.Bounded() && c.lastUpdated <= now && b.tokens <= c.tokens
  {
  }

  lemma {:induction false} ConsumeKeepsBounded(b: Bucket, boost: bool, p: Priority, now: real)
    requires b.Bounded() && b.lastUpdated <= now
    ensures var c := Consumed(b, PriorityMultiplier(boost, p), now).0;
      c.Bounded() && c.lastUpdated <= now
  {
    RefillOnlyAdds(b, now);
    hide Refilled;
    assert Cost(boost, p) == 2.0 || Cost(boost, p) == 1.0 || Cost(boost, p) == 0.2 || Cost(boost, p) == 0.1;
  }

  lemma {:induction false} StepKeepsInv(l: Limiter, op: Op, from: real)
    requires l.Inv(from) && from <= Time(op, from)
    ensures Step(l, op).Inv(Time(op, from))
  {
    match op
    case Check(d, p, now) =>
      ConsumeKeepsBounded(BucketFor(l, d, now), l.config.priorityBoost, p, now);
    case ReadStatistics(d, now) =>
      if d in l.buckets { RefillOnlyAdds(l.buckets[d], now); }
    case _ =>
  }

  /** −4.1 < tokens ≤ bucket size for every bucket of every reachable state. */
  lemma {:induction false} RunKeepsInv(l: Limiter, ops: seq<Op>, from: real, until: real)
    requires l.Inv(from) && Ordered(ops, from, until)
    ensures from <= until && Run(l, ops).Inv(until)
    decreases |ops|
  {
    if ops != [] {
      StepKeepsInv(l, ops[0], from);
      RunKeepsInv(Step(l, ops[0]), ops[1..], Time(ops[0], from), until);
    }
  }

  // ------------------------------------------------------- refill

  lemma {:induction false} ProductGrows(r: real, x: real, y: real)
    requires r >= 0.0 && x <= y
    ensures r * x <= r * y && x * r <= y * r
  {
  }

  lemma {:induction false} Distribute(r: real, x: real, y: real, z: real)
    ensures (z - x) * r == (y - x) * r + (z - y) * r
    ensures r * (z - x) == r * (y - x) + r * (z - y)
  {
  }

  /** Refilling on the way to `u` leaves the same bucket as one refill at `u`. */
  lemma {:induction false} RefillPathIndependent(b: Bucket, t: real, u: real)
    requires b.Bounded() && b.lastUpdated <= t <= u
    ensures Refilled(Refilled(b, t), u) == Refilled(b, u)
  {
    Distribute(b.rate, b.lastUpdated, t, u);
    if b.rate > 0.0 {
      ProductGrows(b.rate, 0.0, t - b.lastUpdated);
      ProductGrows(b.rate, 0.0, u - t);
    } else {
      ProductGrows(-b.rate, 0.0, t - b.lastUpdated);
      ProductGrows(-b.rate, 0.0, u - b.lastUpdated);
    }
  }

  function Earned(rate: real, from: real, until: real): real {
    rate * (until - from)
  }

  lemma {:induction false} EarnedSign(rate: real, from: real, until: real)
    requires from <= until
    ensures from == until ==> Earned(rate, from, until) == 0.0
    ensures rate >= 0.0 ==> Earned(rate, from, until) >= 0.0
    ensures rate > 0.0 && from < until ==> Earned(rate, from, until) > 0.0
    ensures rate <= 0.0 ==> Earned(rate, from, until) <= 0.0
    ensures Earned(rate, from, until) == (until - from) * rate
  {
    ProductCommutes(rate, until - from);
    if rate >= 0.0 { ProductGrows(rate, 0.0, until - from); }
    if rate > 0.0 && from < until { PositiveProduct(rate, until - from); }
    if rate <= 0.0 { ProductGrows(-rate, 0.0, until - from); }
  }

  lemma {:induction false} EarnedSplits(rate: real, from: real, middle: real, until: real)
    ensures Earned(rate, from, until) == Earned(rate, from, middle) + Earned(rate, middle, until)
  {
    Distribute(rate, from, middle, until);
  }

  lemma {:induction false} PositiveProduct(x: real, y: real)
    requires x > 0.0 && y > 0.0
    ensures x * y > 0.0
  {
  }

  lemma {:induction false} ProductCommutes(x: real, y: real)
    ensures x * y == y * x
  {
  }

  /** A refill adds what was earned, if anything, up to the size. */
  lemma {:induction false} RefilledBy(b: Bucket, now: real)
    requires b.lastUpdated <= now
    ensures var earned := Earned(b.rate, b.lastUpdated, now);
      && (earned > 0.0 ==> Refilled(b, now) == b.(tokens := Min(b.size as real, b.tokens + earned), lastUpdated := now))
      && (earned <= 0.0 ==> Refilled(b, now) == b)
      && (b.rate > 0.0 ==> Refilled(b, now).lastUpdated == now)
  {
    hide Refilled, Earned, Min;
    EarnedSign(b.rate, b.lastUpdated, now);
    RefilledByProduct(b, now, Earned(b.rate, b.lastUpdated, now));
  }

  lemma {:induction false} RefilledByProduct(b: Bucket, now: real, newTokens: real)
    requires newTokens == (now - b.lastUpdated) * b.rate
    ensures Refilled(b, now) ==
      if newTokens > 0.0 then b.(tokens := Min(b.size as real, b.tokens + newTokens), lastUpdated := now) else b
  {
    hide Min;
  }

  /** A refill pays what a non-negative rate has earned, up to the size. */
  lemma {:induction false} RefilledTokens(b: Bucket, now: real)
    requires b.tokens <= b.size as real && b.lastUpdated <= now && b.rate >= 0.0
    ensures Refilled(b, now).tokens == Min(b.size as real, b.tokens + Earned(b.rate, b.lastUpdated, now))
  {
    hide Refilled, Earned;
    RefilledBy(b, now);
    EarnedSign(b.rate, b.lastUpdated, now);
  }

  /** The balance later, from the balance now. */
  lemma {:induction false} TokensLater(b: Bucket, t: real, u: real)
    requires b.Bounded() && b.lastUpdated <= t <= u && b.rate > 0.0
    ensures Refilled(b, u).tokens == Min(b.size as real, Refilled(b, t).tokens + Earned(b.rate, t, u))
  {
    hide Refilled, Earned;
    RefillPathIndependent(b, t, u);
    RefilledBy(b, t);
    RefillOnlyAdds(b, t);
    RefilledTokens(Refilled(b, t), u);
  }

  // ------------------------------------------------------- admission bound

  function Max(x: real, y: real): (m: real)
    ensures x <= m && y <= m && (m == x || m == y)
  {
    if x < y then y else x
  }

  function BurstOf(l: Limiter, d: IMEI): nat {
    if d in l.buckets then l.buckets[d].size else l.config.defaultBurst
  }

  /** The configured rate of `d`; a negative rate earns nothing. */
  function RateOf(l: Limiter, d: IMEI): (r: real)
    ensures r >= 0.0
  {
    Max(0.0, if d in l.buckets then l.buckets[d].rate else l.config.defaultRate)
  }

  /** Tokens `d` would have if it were refilled at `t`. */
  function Balance(l: Limiter, d: IMEI, t: real): real {
    Refilled(BucketFor(l, d, t), t).tokens
  }

  /** The operation neither changes the limit of `d` nor resets it. */
  predicate Quiet(l: Limiter, d: IMEI, op: Op) {
    match op
    case SetLimit(e, _, _, _) => e != d
    case Reset(e, _) => e != d
    case SetDefault(_, _) => d in l.buckets
    case _ => true
  }

  ghost predicate QuietRun(l: Limiter, d: IMEI, ops: seq<Op>)
    decreases |ops|
  {
    ops == [] || (Quiet(l, d, ops[0]) && QuietRun(Step(l, ops[0]), d, ops[1..]))
  }

  /** Which admitted messages a sum counts: all of them, or only those that cannot owe. */
  datatype Scope = All | NonCritical

  /** Token cost of the message `op` admits for `d`, if it admits one. */
  function SpentBy(l: Limiter, d: IMEI, op: Op, scope: Scope): real {
    match op
    case Check(e, p, now) =>
      if e == d && CheckedAt(l, e, p, now).1 && (scope.All? || !MayOwe(l.config.priorityBoost, p))
      then Cost(l.config.priorityBoost, p) else 0.0
    case _ => 0.0
  }

  /** Summed token cost of the messages of `d` that a run admits. */
  function Spent(l: Limiter, d: IMEI, ops: seq<Op>, scope: Scope): real
    decreases |ops|
  {
    if ops == [] then 0.0
    else SpentBy(l, d, ops[0], scope) + Spent(Step(l, ops[0]), d, ops[1..], scope)
  }

  lemma {:induction false} BalanceGrows(l: Limiter, d: IMEI, t: real, u: real)
    requires l.Inv(t) && t <= u
    ensures Balance(l, d, t) <= Balance(l, d, u) <= Balance(l, d, t) + Earned(RateOf(l, d), t, u)
    ensures Balance(l, d, u) <= BurstOf(l, d) as real
  {
    hide Refilled, Earned;
    EarnedSign(RateOf(l, d), t, u);
    RefilledBy(BucketFor(l, d, t), t);
    RefilledBy(BucketFor(l, d, u), u);
    if d in l.buckets {
      var b := l.buckets[d];
      RefillOnlyAdds(b, u);
      if b.rate > 0.0 {
        TokensLater(b, t, u);
        RefillOnlyAdds(b, t);
      } else {
        EarnedSign(b.rate, b.lastUpdated, t);
        EarnedSign(b.rate, b.lastUpdated, u);
      }
    }
  }

  /** One step pays for what it admits out of the balance. */
  lemma {:induction false} StepPays(l: Limiter, d: IMEI, op: Op, t: real)
    requires l.Inv(t) && t <= Time(op, t) && Quiet(l, d, op)
    ensures var l', u := Step(l, op), Time(op, t);
      && RateOf(l', d) == RateOf(l, d) && BurstOf(l', d) == BurstOf(l, d)
      && Balance(l', d, u) + SpentBy(l, d, op, All) <= Balance(l, d, u)
      && Max(0.0, Balance(l', d, u)) + SpentBy(l, d, op, NonCritical) <= Max(0.0, Balance(l, d, u))
  {
    var l', u := Step(l, op), Time(op, t);
    match op
    case Check(e, p, now) =>
      if e == d {
        var b := BucketFor(l, d, now);
        RefillPathIndependent(b, now, now);
        assert Balance(l', d, u) + SpentBy(l, d, op, All) == Refilled(b, now).tokens;
      }
    case ReadStatistics(e, now) =>
      if e == d && d in l.buckets { RefillPathIndependent(l.buckets[d], now, now); }
    case _ =>
  }

  /** One step of the window: what it spends is covered by the opening balance and what is earned. */
  lemma {:induction false} StepBudget(l: Limiter, d: IMEI, op: Op, t: real)
    requires l.Inv(t) && t <= Time(op, t) && Quiet(l, d, op)
    ensures var l', u := Step(l, op), Time(op, t);
      var earned := Earned(RateOf(l, d), t, u);
      && RateOf(l', d) == RateOf(l, d) && BurstOf(l', d) == BurstOf(l, d) && l'.Inv(u)
      && SpentBy(l, d, op, All) + Balance(l', d, u) <= Balance(l, d, t) + earned
      && SpentBy(l, d, op, NonCritical) + Max(0.0, Balance(l', d, u)) <= Max(0.0, Balance(l, d, t)) + earned
  {
    hide Balance, RateOf, BurstOf, Step, SpentBy, Earned;
    var u := Time(op, t);
    StepKeepsInv(l, op, t);
    BalanceGrows(l, d, t, u);
    StepPays(l, d, op, t);
    EarnedSign(RateOf(l, d), t, u);
  }

  /** The balance plus everything spent never exceeds the opening balance plus what is earned. */
  lemma {:induction false} WindowBudget(l: Limiter, d: IMEI, ops: seq<Op>, from: real, until: real)
    requires l.Inv(from) && Ordered(ops, from, until) && QuietRun(l, d, ops)
    ensures from <= until && Run(l, ops).Inv(until)
    ensures var end, earned := Balance(Run(l, ops), d, until), Earned(RateOf(l, d), from, until);
      && Spent(l, d, ops, All) + end <= Balance(l, d, from) + earned
      && Spent(l, d, ops, NonCritical) + Max(0.0, end) <= Max(0.0, Balance(l, d, from)) + earned
    decreases |ops|
  {
    hide Balance, RateOf, Step, SpentBy, Earned;
    RunKeepsInv(l, ops, from, until);
    EarnedSign(RateOf(l, d), from, until);
    if ops == [] {
      BalanceGrows(l, d, from, until);
    } else {
      var l', u := Step(l, ops[0]), Time(ops[0], from);
      StepBudget(l, d, ops[0], from);
      WindowBudget(l', d, ops[1..], u, until);
      EarnedSplits(RateOf(l, d), from, u, until);
    }
  }

  lemma {:induction false} BalanceAboveDebt(l: Limiter, d: IMEI, t: real)
    requires l.Inv(t)
    ensures -4.1 < Balance(l, d, t) <= BurstOf(l, d) as real
  {
    if d in l.buckets { RefillOnlyAdds(l.buckets[d], t); }
  }

  lemma {:induction false} WindowBound(l: Limiter, d: IMEI, window: seq<Op>, from: real, until: real)
    requires l.Inv(from) && Ordered(window, from, until) && QuietRun(l, d, window)
    ensures var earned := RateOf(l, d) * (until - from);
      && Spent(l, d, window, All) < BurstOf(l, d) as real + 4.1 + earned
      && Spent(l, d, window, NonCritical) <= BurstOf(l, d) as real + earned
  {
    assert Earned(RateOf(l, d), from, until) == RateOf(l, d) * (until - from);
    hide *;
    WindowBudget(l, d, window, from, until);
    BalanceAboveDebt(l, d, from);
    BalanceAboveDebt(Run(l, window), d, until);
  }

  lemma {:induction false} ReachableInv(config: Config, before: seq<Op>, start: real, from: real)
    requires Ordered(before, start, from)
    ensures Run(NewLimiter(config), before).Inv(from)
  {
    RunKeepsInv(NewLimiter(config), before, start, from);
  }

  /** Admission bound: after any run from an empty limiter, in any window without a
      reset or limit change of `d`, what `d` spends is bounded by burst and rate. */
  lemma {:induction false} AdmissionBound(config: Config, before: seq<Op>, window: seq<Op>, d: IMEI,
                       start: real, from: real, until: real)
    requires Ordered(before, start, from) && Ordered(window, from, until)
    requires QuietRun(Run(NewLimiter(config), before), d, window)
    ensures var l := Run(NewLimiter(config), before);
      var earned := RateOf(l, d) * (until - from);
      && Spent(l, d, window, All) < BurstOf(l, d) as real + 4.1 + earned
      && Spent(l, d, window, NonCritical) <= BurstOf(l, d) as real + earned
  {
    hide *;
    ReachableInv(config, before, start, from);
    WindowBound(Run(NewLimiter(config), before), d, window, from, until);
  }

  // ------------------------------------------------------- one operation, in full

  /** What one message costs, priority by priority. */
  function Price(boost: bool, p: Priority): real {
    if !boost then 1.0
    else if p == Low then 2.0
    else if p == Normal then 1.0
    else if p == High then 0.2
    else 0.1
  }

  /** A bucket's tokens when it is looked at: what was earned is added, up to the size. */
  function TokensAt(b: Bucket, now: real): real {
    var earned := (now - b.lastUpdated) * b.rate;
    if earned <= 0.0 then b.tokens
    else if b.tokens + earned < b.size as real then b.tokens + earned
    else b.size as real
  }

  /** A bucket after a check, and the decision, from the configured numbers: a message is admitted
      for its price or, CRITICAL with the boost, above a debt of four tokens. */
  function Expected(b: Bucket, boost: bool, p: Priority, now: real): (Bucket, bool) {
    var tokens := TokensAt(b, now);
    var admitted := tokens >= Price(boost, p) || (boost && p == Critical && tokens > -4.0);
    (Bucket(b.rate, b.size, if admitted then tokens - Price(boost, p) else tokens,
            if (now - b.lastUpdated) * b.rate > 0.0 then now else b.lastUpdated,
            b.total + 1, b.limited + if admitted then 0 else 1),
     admitted)
  }

  lemma {:induction false} RefilledAsExpected(b: Bucket, now: real)
    ensures Refilled(b, now) == Bucket(
      b.rate, b.size, TokensAt(b, now), if (now - b.lastUpdated) * b.rate > 0.0 then now else b.lastUpdated,
      b.total, b.limited)
  {
  }

  lemma {:induction false} AdmitsAsExpected(tokens: real, boost: bool, p: Priority)
    ensures Admits(tokens, PriorityMultiplier(boost, p))
      <==> tokens >= Price(boost, p) || (boost && p == Critical && tokens > -4.0)
  {
    PricesAreCosts(boost, p);
    hide PriorityMultiplier, Price;
  }

  lemma {:induction false} ConsumedAsExpected(b: Bucket, boost: bool, p: Priority, now: real)
    ensures Consumed(b, PriorityMultiplier(boost, p), now) == Expected(b, boost, p, now)
  {
    RefilledAsExpected(b, now);
    AdmitsAsExpected(TokensAt(b, now), boost, p);
    PricesAreCosts(boost, p);
    hide PriorityMultiplier, Price, Admits, Refilled, TokensAt;
  }

  /** The decision of a check and all it changes: the bucket of `d`, which starts full under the
      default limit, and nothing else. */
  lemma {:induction false} CheckLaw(l: Limiter, d: IMEI, p: Priority, now: real)
    ensures var (l', admitted) := CheckedAt(l, d, p, now);
      var before :=
        if d in l.buckets then l.buckets[d]
        else Bucket(l.config.defaultRate, l.config.defaultBurst, l.config.defaultBurst as real, now, 0, 0);
      && AgreeElsewhere(l', l, d) && l'.buckets.Keys == l.buckets.Keys + {d}
      && (l'.buckets[d], admitted) == Expected(before, l.config.priorityBoost, p, now)
  {
    ConsumedAsExpected(BucketFor(l, d, now), l.config.priorityBoost, p, now);
    hide PriorityMultiplier, Consumed, Expected;
  }

  lemma {:induction false} PricesAreCosts(boost: bool, p: Priority)
    ensures Price(boost, p) == 1.0 / PriorityMultiplier(boost, p)
    ensures PriorityMultiplier(boost, p) >= 10.0 <==> boost && p == Critical
  {
  }

  /** The administrative operations, field by field: a limit change adds nothing and takes what
      exceeds the new size; a reset is a new bucket under the old limit. */
  lemma {:induction false} LimitLaw(l: Limiter, d: IMEI, rate: real, burst: nat, now: real)
    ensures var b := LimitSet(l, d, rate, burst, now).buckets[d];
      b == if d !in l.buckets then Bucket(rate, burst, burst as real, now, 0, 0)
           else var was := l.buckets[d];
             Bucket(rate, burst, if was.tokens < burst as real then was.tokens else burst as real,
                    was.lastUpdated, was.total, was.limited)
    ensures d in l.buckets ==>
      var was := l.buckets[d];
      ResetAt(l, d, now).buckets[d] == Bucket(was.rate, was.size, was.size as real, now, 0, 0)
    ensures d !in l.buckets ==> ResetAt(l, d, now) == l
    ensures DefaultSet(l, rate, burst).buckets == l.buckets
    ensures DefaultSet(l, rate, burst).config == Config(rate, burst, l.config.priorityBoost)
    ensures AgreeElsewhere(LimitSet(l, d, rate, burst, now), l, d) && AgreeElsewhere(ResetAt(l, d, now), l, d)
  {
  }

  ghost predicate AgreeElsewhere(l: Limiter, m: Limiter, d: IMEI) {
    && l.config == m.config
    && forall e :: e in m.buckets && e != d ==> e in l.buckets && l.buckets[e] == m.buckets[e]
  }

  // ------------------------------------------------------- statistics tell the decisions

  function TotalOf(l: Limiter, d: IMEI): nat {
    if d in l.buckets then l.buckets[d].total else 0
  }

  function LimitedOf(l: Limiter, d: IMEI): nat {
    if d in l.buckets then l.buckets[d].limited else 0
  }

  /** How many checks of `d` a run makes. */
  function ChecksOf(d: IMEI, ops: seq<Op>): nat
    decreases |ops|
  {
    if ops == [] then 0 else (if ops[0].Check? && ops[0].device == d then 1 else 0) + ChecksOf(d, ops[1..])
  }

  /** How many of them it refuses. */
  function RefusalsOf(l: Limiter, d: IMEI, ops: seq<Op>): nat
    decreases |ops|
  {
    if ops == [] then 0
    else
      var op := ops[0];
      (if op.Check? && op.device == d && !CheckedAt(l, d, op.priority, op.now).1 then 1 else 0)
      + RefusalsOf(Step(l, op), d, ops[1..])
  }

  lemma {:induction false} StepCounts(l: Limiter, d: IMEI, op: Op)
    requires !(op.Reset? && op.device == d)
    ensures var check := op.Check? && op.device == d;
      && TotalOf(Step(l, op), d) == TotalOf(l, d) + (if check then 1 else 0)
      && LimitedOf(Step(l, op), d)
         == LimitedOf(l, d) + if check && !CheckedAt(l, d, op.priority, op.now).1 then 1 else 0
  {
    if op.Check? { CheckLaw(l, op.device, op.priority, op.now); }
    if op.SetLimit? { LimitLaw(l, op.device, op.rate, op.burst, op.now); }
    hide CheckedAt, LimitSet, Price, Refilled;
  }

  lemma {:induction false} RunCounts(l: Limiter, d: IMEI, ops: seq<Op>)
    requires forall op :: op in ops ==> !(op.Reset? && op.device == d)
    ensures TotalOf(Run(l, ops), d) == TotalOf(l, d) + ChecksOf(d, ops)
    ensures LimitedOf(Run(l, ops), d) == LimitedOf(l, d) + RefusalsOf(l, d, ops)
    decreases |ops|
  {
    hide Step, CheckedAt, TotalOf, LimitedOf;
    if ops != [] {
      assert ops[0] in ops;
      StepCounts(l, d, ops[0]);
      RunCounts(Step(l, ops[0]), d, ops[1..]);
    }
  }

  /** Statistics report the decisions of the run since the last reset, the limit in force, the
      tokens a check would find, and a percentage that is exact. */
  lemma {:induction false} StatisticsTell(config: Config, d: IMEI, ops: seq<Op>, now: real)
    requires forall op :: op in ops ==> !(op.Reset? && op.device == d)
    ensures var l := Run(NewLimiter(config), ops);
      var s := StatisticsAt(l, d, now);
      && s.total == ChecksOf(d, ops) && s.limited == RefusalsOf(NewLimiter(config), d, ops)
      && s.available == (if d in l.buckets then TokensAt(l.buckets[d], now) else l.config.defaultBurst as real)
      && s.size == BurstOf(l, d)
      && s.rate == (if d in l.buckets then l.buckets[d].rate else l.config.defaultRate)
      && s.limitedPercentage * s.total as real == 100.0 * s.limited as real
  {
    hide *;
    RunCounts(NewLimiter(config), d, ops);
    NothingCounted(config, d);
    RefusalsAreChecks(NewLimiter(config), d, ops);
    StatisticsFields(Run(NewLimiter(config), ops), d, now);
  }

  lemma {:induction false} NothingCounted(config: Config, d: IMEI)
    ensures TotalOf(NewLimiter(config), d) == LimitedOf(NewLimiter(config), d) == 0
  {
  }

  lemma {:induction false} StatisticsFields(l: Limiter, d: IMEI, now: real)
    requires LimitedOf(l, d) <= TotalOf(l, d)
    ensures var s := StatisticsAt(l, d, now);
      && s.total == TotalOf(l, d) && s.limited == LimitedOf(l, d) && s.size == BurstOf(l, d)
      && s.available == (if d in l.buckets then TokensAt(l.buckets[d], now) else l.config.defaultBurst as real)
      && s.rate == (if d in l.buckets then l.buckets[d].rate else l.config.defaultRate)
      && s.limitedPercentage * s.total as real == 100.0 * s.limited as real
  {
    if d in l.buckets {
      RefilledAsExpected(l.buckets[d], now);
      hide Refilled, TokensAt;
      var b := l.buckets[d];
      if b.total > 0 { Percentage(b.total as real, 100.0 * b.limited as real); }
    }
  }

  lemma {:induction false} Percentage(whole: real, part: real)
    requires whole > 0.0
    ensures part / whole * whole == part
  {
  }

  lemma {:induction false} RefusalsAreChecks(l: Limiter, d: IMEI, ops: seq<Op>)
    ensures RefusalsOf(l, d, ops) <= ChecksOf(d, ops)
    decreases |ops|
  {
    hide Step, CheckedAt;
    if ops != [] { RefusalsAreChecks(Step(l, ops[0]), d, ops[1..]); }
  }

  // ------------------------------------------------------- reads are invisible

  /** The answers a run gives to its checks, in order. */
  function Decisions(l: Limiter, ops: seq<Op>): seq<bool>
    decreases |ops|
  {
    if ops == [] then []
    else match ops[0]
      case Check(d, p, now) => [CheckedAt(l, d, p, now).1] + Decisions(Step(l, ops[0]), ops[1..])
      case _ => Decisions(Step(l, ops[0]), ops[1..])
  }

  function WithoutReads(ops: seq<Op>): seq<Op>
    decreases |ops|
  {
    if ops == [] then []
    else if ops[0].ReadStatistics? then WithoutReads(ops[1..])
    else [ops[0]] + WithoutReads(ops[1..])
  }

  /** No operation changes the limit of a device that already has a bucket. */
  ghost predicate KeepsLimits(l: Limiter, ops: seq<Op>)
    decreases |ops|
  {
    ops == [] ||
    ((ops[0].SetLimit? ==> ops[0].device !in l.buckets) && KeepsLimits(Step(l, ops[0]), ops[1..]))
  }

  /** Equal up to refills that are due by `t`. */
  ghost predicate SameUpToRefill(l: Limiter, m: Limiter, t: real) {
    && l.config == m.config && l.buckets.Keys == m.buckets.Keys
    && forall d :: d in l.buckets ==> Refilled(l.buckets[d], t) == Refilled(m.buckets[d], t)
  }

  lemma {:induction false} SameLater(l: Limiter, m: Limiter, t: real, u: real)
    requires l.Inv(t) && m.Inv(t) && t <= u && SameUpToRefill(l, m, t)
    ensures SameUpToRefill(l, m, u)
  {
    forall d | d in l.buckets
      ensures Refilled(l.buckets[d], u) == Refilled(m.buckets[d], u)
    {
      RefillPathIndependent(l.buckets[d], t, u);
      RefillPathIndependent(m.buckets[d], t, u);
    }
  }

  lemma {:induction false} InvLater(l: Limiter, t: real, u: real)
    requires l.Inv(t) && t <= u
    ensures l.Inv(u)
  {
  }

  lemma {:induction false} CheckKeepsSame(l: Limiter, m: Limiter, d: IMEI, p: Priority, now: real)
    requires SameUpToRefill(l, m, now)
    ensures SameUpToRefill(CheckedAt(l, d, p, now).0, CheckedAt(m, d, p, now).0, now)
    ensures CheckedAt(l, d, p, now).1 == CheckedAt(m, d, p, now).1
  {
    hide Refilled, PriorityMultiplier;
    var b, c := BucketFor(l, d, now), BucketFor(m, d, now);
    assert Refilled(b, now) == Refilled(c, now);
    var multiplier := PriorityMultiplier(l.config.priorityBoost, p);
    assert Consumed(b, multiplier, now) == Consumed(c, multiplier, now);
    hide Consumed;
  }

  lemma {:induction false} ReadKeepsSame(l: Limiter, m: Limiter, d: IMEI, now: real)
    requires l.Inv(now) && SameUpToRefill(l, m, now)
    ensures SameUpToRefill(ReadAt(l, d, now), m, now)
  {
    if d in l.buckets { RefillPathIndependent(l.buckets[d], now, now); }
    hide Refilled;
  }

  lemma {:induction false} ResetKeepsSame(l: Limiter, m: Limiter, d: IMEI, now: real)
    requires SameUpToRefill(l, m, now)
    ensures SameUpToRefill(ResetAt(l, d, now), ResetAt(m, d, now), now)
  {
  }

  lemma {:induction false} StepKeepsSame(l: Limiter, m: Limiter, op: Op, t: real)
    requires l.Inv(Time(op, t)) && SameUpToRefill(l, m, Time(op, t))
    requires op.SetLimit? ==> op.device !in l.buckets
    ensures SameUpToRefill(Step(l, op), if op.ReadStatistics? then m else Step(m, op), Time(op, t))
    ensures op.Check? ==>
      CheckedAt(l, op.device, op.priority, op.now).1 == CheckedAt(m, op.device, op.priority, op.now).1
  {
    match op
    case Check(d, p, now) =>
      hide SameUpToRefill, CheckedAt;
      CheckKeepsSame(l, m, d, p, now);
    case ReadStatistics(d, now) => ReadKeepsSame(l, m, d, now);
    case Reset(d, now) => ResetKeepsSame(l, m, d, now);
    case _ => hide Refilled;
  }

  /** Statistics reads (which refill) alter no admission decision. */
  lemma {:induction false} ReadsAreInvisible(l: Limiter, m: Limiter, ops: seq<Op>, from: real, until: real)
    requires l.Inv(from) && m.Inv(from) && SameUpToRefill(l, m, from)
    requires Ordered(ops, from, until) && KeepsLimits(l, ops)
    ensures Decisions(l, ops) == Decisions(m, WithoutReads(ops))
    decreases |ops|
  {
    if ops != [] {
      var op, u := ops[0], Time(ops[0], from);
      hide SameUpToRefill;
      SameLater(l, m, from, u);
      InvLater(l, from, u);
      StepKeepsSame(l, m, op, from);
      StepKeepsInv(l, op, from);
      if op.ReadStatistics? {
        ReadsAreInvisible(Step(l, op), m, ops[1..], u, until);
      } else {
        StepKeepsInv(m, op, from);
        ReadsAreInvisible(Step(l, op), Step(m, op), ops[1..], u, until);
        assert WithoutReads(ops)[1..] == WithoutReads(ops[1..]);
      }
    }
  }

  // ------------------------------------------------------- reads before a limit change

  // `setDeviceLimit` does not refill first, so a read just before it decides whether the old or
  // the new rate pays for the time already elapsed.

  function ChangedUnread(l: Limiter, d: IMEI, rate: real, burst: nat, now: real): Limiter {
    LimitSet(l, d, rate, burst, now)
  }

  function ChangedAfterRead(l: Limiter, d: IMEI, rate: real, burst: nat, now: real): Limiter {
    LimitSet(ReadAt(l, d, now), d, rate, burst, now)
  }

  /** The old rate earned nothing since the last refill, or old and new rate pay the same for
      that time once both caps are applied. */
  predicate PaysTheSame(b: Bucket, rate: real, burst: nat, now: real) {
    || Earned(b.rate, b.lastUpdated, now) <= 0.0
    || Min(burst as real, Min(b.size as real, b.tokens + Earned(b.rate, b.lastUpdated, now)))
       == Min(burst as real, b.tokens + Earned(rate, b.lastUpdated, now))
  }

  lemma {:induction false} ChangeKeepsInv(l: Limiter, d: IMEI, rate: real, burst: nat, now: real)
    requires l.Inv(now)
    ensures ChangedUnread(l, d, rate, burst, now).Inv(now) && ChangedAfterRead(l, d, rate, burst, now).Inv(now)
  {
    StepKeepsInv(l, ReadStatistics(d, now), now);
    StepKeepsInv(l, SetLimit(d, rate, burst, now), now);
    StepKeepsInv(ReadAt(l, d, now), SetLimit(d, rate, burst, now), now);
  }

  /** A bucket after its limit has been changed. */
  function Changed(b: Bucket, rate: real, burst: nat): Bucket {
    b.(rate := rate, size := burst, tokens := Min(b.tokens, burst as real))
  }

  lemma {:induction false} ChangedTokens(b: Bucket, rate: real, burst: nat, now: real)
    requires b.lastUpdated <= now && rate > 0.0
    ensures Refilled(Changed(b, rate, burst), now).tokens
      == Min(burst as real, b.tokens + Earned(rate, b.lastUpdated, now))
  {
    hide Refilled, Earned;
    EarnedSign(rate, b.lastUpdated, now);
    RefilledTokens(Changed(b, rate, burst), now);
  }

  lemma {:induction false} ReadThenChangedTokens(b: Bucket, rate: real, burst: nat, now: real)
    requires b.lastUpdated <= now && rate > 0.0 && Earned(b.rate, b.lastUpdated, now) > 0.0
    ensures Refilled(Changed(Refilled(b, now), rate, burst), now).tokens
      == Min(burst as real, Min(b.size as real, b.tokens + Earned(b.rate, b.lastUpdated, now)))
  {
    hide Refilled, Earned;
    RefilledBy(b, now);
    EarnedSign(rate, now, now);
    ChangedTokens(Refilled(b, now), rate, burst, now);
  }

  /** What the bucket holds at the change, unread and read first. */
  lemma {:induction false} TokensAfterChange(l: Limiter, d: IMEI, rate: real, burst: nat, now: real)
    requires l.Inv(now) && d in l.buckets && rate > 0.0
    ensures var b := l.buckets[d];
      && Refilled(ChangedUnread(l, d, rate, burst, now).buckets[d], now).tokens
         == Min(burst as real, b.tokens + Earned(rate, b.lastUpdated, now))
      && (Earned(b.rate, b.lastUpdated, now) > 0.0 ==>
            Refilled(ChangedAfterRead(l, d, rate, burst, now).buckets[d], now).tokens
            == Min(burst as real, Min(b.size as real, b.tokens + Earned(b.rate, b.lastUpdated, now))))
  {
    hide Refilled, Earned;
    var b := l.buckets[d];
    assert ChangedUnread(l, d, rate, burst, now).buckets[d] == Changed(b, rate, burst);
    assert ChangedAfterRead(l, d, rate, burst, now).buckets[d] == Changed(Refilled(b, now), rate, burst);
    hide ChangedUnread, ChangedAfterRead, Changed, Min;
    ChangedTokens(b, rate, burst, now);
    if Earned(b.rate, b.lastUpdated, now) > 0.0 { ReadThenChangedTokens(b, rate, burst, now); }
  }

  /** A read that earns nothing changes nothing. */
  lemma {:induction false} IdleRead(l: Limiter, d: IMEI, rate: real, burst: nat, now: real)
    requires l.Inv(now) && d in l.buckets && Earned(l.buckets[d].rate, l.buckets[d].lastUpdated, now) <= 0.0
    ensures ChangedAfterRead(l, d, rate, burst, now) == ChangedUnread(l, d, rate, burst, now)
  {
    hide Refilled, Earned;
    RefilledBy(l.buckets[d], now);
    assert l.buckets[d := l.buckets[d]] == l.buckets;
    assert ReadAt(l, d, now) == l;
    hide ReadAt, LimitSet;
  }

  lemma {:induction false} OnlyTokensDiffer(l: Limiter, d: IMEI, rate: real, burst: nat, now: real)
    requires l.Inv(now) && d in l.buckets && rate > 0.0
    ensures var b := Refilled(ChangedAfterRead(l, d, rate, burst, now).buckets[d], now);
      var c := Refilled(ChangedUnread(l, d, rate, burst, now).buckets[d], now);
      b == c <==> b.tokens == c.tokens
  {
    hide Refilled, Earned;
    ChangeKeepsInv(l, d, rate, burst, now);
    RefilledBy(l.buckets[d], now);
    RefilledBy(ChangedAfterRead(l, d, rate, burst, now).buckets[d], now);
    RefilledBy(ChangedUnread(l, d, rate, burst, now).buckets[d], now);
  }

  ghost predicate AgreeBut(l: Limiter, m: Limiter, d: IMEI) {
    && l.config == m.config && l.buckets.Keys == m.buckets.Keys && d in l.buckets
    && forall e :: e in l.buckets && e != d ==> l.buckets[e] == m.buckets[e]
  }

  lemma {:induction false} SameIffOneSame(l: Limiter, m: Limiter, d: IMEI, t: real)
    requires AgreeBut(l, m, d)
    ensures SameUpToRefill(l, m, t) <==> Refilled(l.buckets[d], t) == Refilled(m.buckets[d], t)
  {
    hide Refilled;
  }

  lemma {:induction false} ChangesAgreeBut(l: Limiter, d: IMEI, rate: real, burst: nat, now: real)
    requires d in l.buckets
    ensures AgreeBut(ChangedAfterRead(l, d, rate, burst, now), ChangedUnread(l, d, rate, burst, now), d)
  {
    hide Refilled;
  }

  lemma {:induction false} TokensSameIff(l: Limiter, d: IMEI, rate: real, burst: nat, now: real)
    requires l.Inv(now) && d in l.buckets && rate > 0.0
    ensures var with, without := ChangedAfterRead(l, d, rate, burst, now), ChangedUnread(l, d, rate, burst, now);
      Refilled(with.buckets[d], now).tokens == Refilled(without.buckets[d], now).tokens
      <==> PaysTheSame(l.buckets[d], rate, burst, now)
  {
    hide Refilled, ChangedAfterRead, ChangedUnread, Min, Earned;
    var b := l.buckets[d];
    if Earned(b.rate, b.lastUpdated, now) <= 0.0 {
      IdleRead(l, d, rate, burst, now);
    } else {
      TokensAfterChange(l, d, rate, burst, now);
    }
  }

  /** The two limiters are equal up to refills exactly when the rates pay the same, or, if the new
      rate will never bring a bucket's time up to now again, when the old rate earned nothing. */
  lemma {:induction false} SameAfterChangeIff(l: Limiter, d: IMEI, rate: real, burst: nat, now: real)
    requires l.Inv(now) && d in l.buckets
    ensures SameUpToRefill(ChangedAfterRead(l, d, rate, burst, now), ChangedUnread(l, d, rate, burst, now), now)
      <==> if rate > 0.0 then PaysTheSame(l.buckets[d], rate, burst, now)
           else Earned(l.buckets[d].rate, l.buckets[d].lastUpdated, now) <= 0.0
  {
    hide Refilled, SameUpToRefill, ChangedAfterRead, ChangedUnread, AgreeBut, PaysTheSame, Earned;
    ChangesAgreeBut(l, d, rate, burst, now);
    SameIffOneSame(ChangedAfterRead(l, d, rate, burst, now), ChangedUnread(l, d, rate, burst, now), d, now);
    if rate > 0.0 {
      TokensSameIff(l, d, rate, burst, now);
      OnlyTokensDiffer(l, d, rate, burst, now);
    } else {
      TimeDiffers(l, d, rate, burst, now);
    }
  }

  lemma {:induction false} TimeDiffers(l: Limiter, d: IMEI, rate: real, burst: nat, now: real)
    requires l.Inv(now) && d in l.buckets && rate <= 0.0
    ensures Refilled(ChangedAfterRead(l, d, rate, burst, now).buckets[d], now)
      == Refilled(ChangedUnread(l, d, rate, burst, now).buckets[d], now)
      <==> Earned(l.buckets[d].rate, l.buckets[d].lastUpdated, now) <= 0.0
  {
    hide Refilled, Earned;
    var b := l.buckets[d];
    ChangeKeepsInv(l, d, rate, burst, now);
    RefilledBy(b, now);
    EarnedSign(b.rate, b.lastUpdated, now);
    FrozenRefill(ChangedAfterRead(l, d, rate, burst, now).buckets[d], now);
    FrozenRefill(ChangedUnread(l, d, rate, burst, now).buckets[d], now);
  }

  /** A bucket whose rate is not positive never earns anything. */
  lemma {:induction false} FrozenRefill(b: Bucket, now: real)
    requires b.rate <= 0.0 && b.lastUpdated <= now
    ensures Refilled(b, now) == b
  {
    hide Refilled, Earned;
    RefilledBy(b, now);
    EarnedSign(b.rate, b.lastUpdated, now);
  }

  /** Some later run, itself without changes of existing limits, is decided differently. */
  ghost predicate Distinguishable(l: Limiter, m: Limiter, t: real) {
    exists ops, until :: Ordered(ops, t, until) && KeepsLimits(l, ops) && Decisions(l, ops) != Decisions(m, ops)
  }

  /** Limiters equal up to refills cannot be told apart, by any run with or without reads. */
  lemma {:induction false} SameIsIndistinguishable(l: Limiter, m: Limiter, t: real)
    requires l.Inv(t) && m.Inv(t) && SameUpToRefill(l, m, t)
    ensures !Distinguishable(l, m, t)
  {
    forall ops, until | Ordered(ops, t, until) && KeepsLimits(l, ops) ensures Decisions(l, ops) == Decisions(m, ops) {
      SameDecisions(l, m, ops, t, until);
    }
  }

  lemma {:induction false} SameDecisions(l: Limiter, m: Limiter, ops: seq<Op>, from: real, until: real)
    requires l.Inv(from) && m.Inv(from) && SameUpToRefill(l, m, from)
    requires Ordered(ops, from, until) && KeepsLimits(l, ops)
    ensures Decisions(l, ops) == Decisions(m, ops)
  {
    ReadsAreInvisible(l, m, ops, from, until);
    SameUpToRefillRefl(m, from);
    KeepsLimitsSame(l, m, ops);
    ReadsAreInvisible(m, m, ops, from, until);
  }

  lemma {:induction false} SameUpToRefillRefl(m: Limiter, t: real)
    ensures SameUpToRefill(m, m, t)
  {
  }

  /** Which devices have buckets does not depend on what is in them. */
  lemma {:induction false} KeepsLimitsSame(l: Limiter, m: Limiter, ops: seq<Op>)
    requires l.buckets.Keys == m.buckets.Keys && KeepsLimits(l, ops)
    ensures KeepsLimits(m, ops)
    decreases |ops|
  {
    hide Consumed, Refilled;
    if ops != [] { KeepsLimitsSame(Step(l, ops[0]), Step(m, ops[0]), ops[1..]); }
  }

  lemma {:induction false} DecisionsCons(l: Limiter, op: Op, ops: seq<Op>)
    requires op.Check?
    ensures Decisions(l, [op] + ops)
      == [CheckedAt(l, op.device, op.priority, op.now).1] + Decisions(Step(l, op), ops)
    ensures KeepsLimits(Step(l, op), ops) ==> KeepsLimits(l, [op] + ops)
  {
    hide CheckedAt, Step;
    assert ([op] + ops)[1..] == ops;
  }

  lemma {:induction false} DecisionsOne(l: Limiter, op: Op)
    requires op.Check?
    ensures Decisions(l, [op]) == [CheckedAt(l, op.device, op.priority, op.now).1] && KeepsLimits(l, [op])
  {
    DecisionsCons(l, op, []);
    assert [op] + [] == [op];
  }

  /** A check that leads to a difference, or is one, can come first. */
  lemma {:induction false} CheckFirst(l: Limiter, m: Limiter, op: Op, t: real)
    requires op.Check? && t <= op.now && Distinguishable(Step(l, op), Step(m, op), op.now)
    ensures Distinguishable(l, m, t)
  {
    hide Step, Decisions, KeepsLimits;
    var ops, until :| Ordered(ops, op.now, until) && KeepsLimits(Step(l, op), ops)
      && Decisions(Step(l, op), ops) != Decisions(Step(m, op), ops);
    DecisionsCons(l, op, ops);
    DecisionsCons(m, op, ops);
    assert ([op] + ops)[1..] == ops;
    assert Ordered([op] + ops, t, until);
    assert Decisions(l, [op] + ops)[1..] == Decisions(Step(l, op), ops);
    assert Decisions(m, [op] + ops)[1..] == Decisions(Step(m, op), ops);
  }

  /** The buckets of `d` are all that differs, they earn at the same positive rate, and the
      first is the poorer one. */
  ghost predicate Poorer(l: Limiter, m: Limiter, d: IMEI, t: real) {
    && AgreeBut(l, m, d) && l.Inv(t) && m.Inv(t)
    && l.buckets[d].rate == m.buckets[d].rate > 0.0 && l.buckets[d].size == m.buckets[d].size
    && Refilled(l.buckets[d], t).tokens < Refilled(m.buckets[d], t).tokens
  }

  lemma {:induction false} CriticalCheck(l: Limiter, d: IMEI, u: real)
    requires l.config.priorityBoost && d in l.buckets
    ensures CheckedAt(l, d, Critical, u).1 <==> Refilled(l.buckets[d], u).tokens > -4.0
  {
    hide Refilled;
  }

  lemma {:induction false} NormalCheck(l: Limiter, d: IMEI, u: real)
    requires !l.config.priorityBoost && d in l.buckets
    ensures CheckedAt(l, d, Normal, u).1 <==> Refilled(l.buckets[d], u).tokens >= 1.0
  {
    hide Refilled;
  }

  /** When a bucket gets to a level. */
  function TimeOf(b: Bucket, t: real, level: real): (u: real)
    requires b.rate > 0.0
    ensures Earned(b.rate, t, u) == level - Refilled(b, t).tokens
  {
    var missing := level - Refilled(b, t).tokens;
    var wait := missing / b.rate;
    assert b.rate * wait == missing;
    assert t + wait - t == wait;
    t + wait
  }

  lemma {:induction false} LevelReached(b: Bucket, t: real, level: real)
    requires b.Bounded() && b.lastUpdated <= t && b.rate > 0.0
    requires Refilled(b, t).tokens <= level <= b.size as real
    ensures var u := TimeOf(b, t, level);
      u >= t && Refilled(b, u).tokens == level
  {
    hide Refilled, Earned, TimeOf;
    var u := TimeOf(b, t, level);
    if u < t {
      BackwardsEarnsLess(b.rate, t, u);
    } else {
      TokensLater(b, t, u);
    }
  }

  lemma {:induction false} BackwardsEarnsLess(rate: real, t: real, u: real)
    requires rate > 0.0 && u < t
    ensures Earned(rate, t, u) < 0.0
  {
    PositiveProduct(rate, t - u);
    assert rate * (u - t) == -(rate * (t - u));
  }

  /** A richer bucket of the same rate and size is still ahead of one that is not full. */
  lemma {:induction false} AheadLater(b: Bucket, c: Bucket, t: real, u: real)
    requires b.Bounded() && c.Bounded() && b.lastUpdated <= t <= u && c.lastUpdated <= t
    requires b.rate == c.rate > 0.0 && b.size == c.size && Refilled(b, t).tokens < Refilled(c, t).tokens
    requires Refilled(b, u).tokens < b.size as real
    ensures Refilled(b, u).tokens < Refilled(c, u).tokens
  {
    hide Refilled, Earned;
    TokensLater(b, t, u);
    TokensLater(c, t, u);
  }

  /** A poorer one is still behind one that has lost nothing to its size. */
  lemma {:induction false} BehindLater(b: Bucket, c: Bucket, t: real, u: real)
    requires b.Bounded() && c.Bounded() && b.lastUpdated <= t <= u && c.lastUpdated <= t
    requires b.rate == c.rate > 0.0 && b.size == c.size && Refilled(b, t).tokens < Refilled(c, t).tokens
    requires Earned(c.rate, t, u) == Refilled(c, u).tokens - Refilled(c, t).tokens
    ensures Refilled(b, u).tokens < Refilled(c, u).tokens
  {
    hide Refilled, Earned;
    TokensLater(b, t, u);
  }

  /** At the edge of the debt one CRITICAL message tells the two apart. */
  lemma {:induction false} DebtEdgeShows(l: Limiter, m: Limiter, d: IMEI, t: real)
    requires l.config.priorityBoost && Poorer(l, m, d, t) && Refilled(l.buckets[d], t).tokens <= -4.0
    ensures Distinguishable(l, m, t)
  {
    hide Refilled, Distinguishable, TimeOf, CheckedAt, Earned;
    var b, c := l.buckets[d], m.buckets[d];
    LevelReached(b, t, -4.0);
    var u := TimeOf(b, t, -4.0);
    AheadLater(b, c, t, u);
    hide Poorer;
    CriticalCheck(l, d, u);
    CriticalCheck(m, d, u);
    OneCheckShows(l, m, Check(d, Critical, u), t);
  }

  /** Without priority boost a message tells the two apart when the richer one has earned the
      token it costs. */
  lemma {:induction false} TokenEdgeShows(l: Limiter, m: Limiter, d: IMEI, t: real)
    requires !l.config.priorityBoost && Poorer(l, m, d, t) && m.buckets[d].size >= 1
    requires Refilled(m.buckets[d], t).tokens <= 1.0
    ensures Distinguishable(l, m, t)
  {
    hide Refilled, Distinguishable, TimeOf, CheckedAt, Earned;
    var b, c := l.buckets[d], m.buckets[d];
    LevelReached(c, t, 1.0);
    var u := TimeOf(c, t, 1.0);
    BehindLater(b, c, t, u);
    hide Poorer;
    NormalCheck(l, d, u);
    NormalCheck(m, d, u);
    OneCheckShows(l, m, Check(d, Normal, u), t);
  }

  lemma {:induction false} OneCheckShows(l: Limiter, m: Limiter, op: Op, t: real)
    requires op.Check? && t <= op.now
    requires CheckedAt(l, op.device, op.priority, op.now).1 != CheckedAt(m, op.device, op.priority, op.now).1
    ensures Distinguishable(l, m, t)
  {
    hide CheckedAt;
    DecisionsOne(l, op);
    DecisionsOne(m, op);
    assert Ordered([op], t, op.now) by { assert [op][1..] == []; }
    hide Decisions, KeepsLimits;
    assert Decisions(l, [op])[0] != Decisions(m, [op])[0];
  }

  /** One message that both admit costs both the same. */
  lemma {:induction false} BothPay(l: Limiter, m: Limiter, d: IMEI, p: Priority, t: real)
    requires Poorer(l, m, d, t) && CheckedAt(l, d, p, t).1 && CheckedAt(m, d, p, t).1
    ensures var l', m' := Step(l, Check(d, p, t)), Step(m, Check(d, p, t));
      && Poorer(l', m', d, t)
      && Refilled(l'.buckets[d], t).tokens == Refilled(l.buckets[d], t).tokens - Cost(l.config.priorityBoost, p)
  {
    var op := Check(d, p, t);
    StepKeepsInv(l, op, t);
    StepKeepsInv(m, op, t);
    PaysItsCost(l, d, p, t);
    PaysItsCost(m, d, p, t);
    hide Refilled, PriorityMultiplier, Consumed, Cost;
  }

  lemma {:induction false} PaysItsCost(l: Limiter, d: IMEI, p: Priority, t: real)
    requires d in l.buckets && l.Inv(t) && l.buckets[d].rate > 0.0 && CheckedAt(l, d, p, t).1
    ensures var b := Step(l, Check(d, p, t)).buckets[d];
      && Refilled(b, t).tokens == Refilled(l.buckets[d], t).tokens - Cost(l.config.priorityBoost, p)
      && b.rate == l.buckets[d].rate && b.size == l.buckets[d].size
  {
    hide PriorityMultiplier, Refilled, Earned;
    RefilledBy(l.buckets[d], t);
    RefillOnlyAdds(l.buckets[d], t);
    RefilledBy(Step(l, Check(d, p, t)).buckets[d], t);
    EarnedSign(l.buckets[d].rate, t, t);
  }

  /** Enough CRITICAL messages bring the poorer bucket to the edge. */
  lemma {:induction false} PoorerShows(l: Limiter, m: Limiter, d: IMEI, t: real, n: nat)
    requires l.config.priorityBoost && Poorer(l, m, d, t)
    requires Refilled(l.buckets[d], t).tokens <= -4.0 + 0.1 * n as real
    ensures Distinguishable(l, m, t)
    decreases n
  {
    hide Distinguishable, Step;
    if Refilled(l.buckets[d], t).tokens <= -4.0 {
      DebtEdgeShows(l, m, d, t);
    } else {
      var op := Check(d, Critical, t);
      CriticalCheck(l, d, t);
      CriticalCheck(m, d, t);
      BothPay(l, m, d, Critical, t);
      StepKeepsBoost(l, op);
      assert Cost(true, Critical) == 0.1;
      hide Refilled, Poorer, CheckedAt, Cost;
      PoorerShows(Step(l, op), Step(m, op), d, t, n - 1);
      CheckFirst(l, m, op, t);
    }
  }

  lemma {:induction false} StepKeepsBoost(l: Limiter, op: Op)
    ensures Step(l, op).config.priorityBoost == l.config.priorityBoost
  {
    hide Consumed, Refilled;
  }

  /** Without priority boost, enough messages bring the richer bucket below a token. */
  lemma {:induction false} PlainPoorerShows(l: Limiter, m: Limiter, d: IMEI, t: real, n: nat)
    requires !l.config.priorityBoost && Poorer(l, m, d, t) && m.buckets[d].size >= 1
    requires Refilled(m.buckets[d], t).tokens <= 1.0 + n as real
    ensures Distinguishable(l, m, t)
    decreases n
  {
    hide Distinguishable, Step;
    var op := Check(d, Normal, t);
    NormalCheck(l, d, t);
    NormalCheck(m, d, t);
    hide CheckedAt;
    if Refilled(m.buckets[d], t).tokens <= 1.0 {
      TokenEdgeShows(l, m, d, t);
    } else if Refilled(l.buckets[d], t).tokens < 1.0 {
      OneCheckShows(l, m, op, t);
    } else {
      BothPay(l, m, d, Normal, t);
      PaysItsCost(m, d, Normal, t);
      StepKeepsBoost(l, op);
      assert Cost(false, Normal) == 1.0;
      hide Refilled, Poorer, Cost;
      PlainPoorerShows(Step(l, op), Step(m, op), d, t, n - 1);
      CheckFirst(l, m, op, t);
    }
  }

  /** Without priority boost a bucket of size zero never admits anything. */
  ghost predicate NeverAdmits(l: Limiter, d: IMEI, t: real) {
    !l.config.priorityBoost && d in l.buckets && l.buckets[d].size == 0 && l.Inv(t)
  }

  /** Equal but for one device that is never admitted: the same decisions, and equal in the same
      way afterwards. */
  lemma {:induction false} MuteStep(l: Limiter, m: Limiter, d: IMEI, op: Op, t: real)
    requires AgreeBut(l, m, d) && NeverAdmits(l, d, t) && NeverAdmits(m, d, t) && t <= Time(op, t)
    requires op.SetLimit? ==> op.device !in l.buckets
    ensures var u := Time(op, t);
      AgreeBut(Step(l, op), Step(m, op), d) && NeverAdmits(Step(l, op), d, u) && NeverAdmits(Step(m, op), d, u)
    ensures op.Check? ==>
      CheckedAt(l, op.device, op.priority, op.now).1 == CheckedAt(m, op.device, op.priority, op.now).1
  {
    StepKeepsInv(l, op, t);
    StepKeepsInv(m, op, t);
    if op.Check? && op.device == d {
      EmptyRefuses(l, d, op.priority, op.now);
      EmptyRefuses(m, d, op.priority, op.now);
    }
    hide Consumed, PriorityMultiplier;
    StepKeepsSize(l, d, op);
    StepKeepsSize(m, d, op);
    StepLocal(l, m, d, op);
    hide Step, AgreeBut;
    StepKeepsBoost(l, op);
    StepKeepsBoost(m, op);
  }

  lemma {:induction false} EmptyRefuses(l: Limiter, d: IMEI, p: Priority, now: real)
    requires !l.config.priorityBoost && d in l.buckets && l.buckets[d].size == 0
    requires l.buckets[d].Bounded() && l.buckets[d].lastUpdated <= now
    ensures !CheckedAt(l, d, p, now).1
  {
    RefillOnlyAdds(l.buckets[d], now);
    assert Refilled(l.buckets[d], now).size == 0;
    hide Refilled;
  }

  lemma {:induction false} StepKeepsSize(l: Limiter, d: IMEI, op: Op)
    requires d in l.buckets && (op.SetLimit? ==> op.device !in l.buckets)
    ensures d in Step(l, op).buckets && Step(l, op).buckets[d].size == l.buckets[d].size
  {
    hide PriorityMultiplier;
  }

  /** What a step does to one device does not depend on the others. */
  lemma {:induction false} StepLocal(l: Limiter, m: Limiter, d: IMEI, op: Op)
    requires AgreeBut(l, m, d)
    ensures AgreeBut(Step(l, op), Step(m, op), d)
    ensures op.Check? && op.device != d ==>
      CheckedAt(l, op.device, op.priority, op.now).1 == CheckedAt(m, op.device, op.priority, op.now).1
  {
    hide Consumed, PriorityMultiplier, Refilled;
  }

  lemma {:induction false} MuteDecisions(l: Limiter, m: Limiter, d: IMEI, ops: seq<Op>, from: real, until: real)
    requires AgreeBut(l, m, d) && NeverAdmits(l, d, from) && NeverAdmits(m, d, from)
    requires Ordered(ops, from, until) && KeepsLimits(l, ops)
    ensures Decisions(l, ops) == Decisions(m, ops)
    decreases |ops|
  {
    hide AgreeBut, NeverAdmits, Step, CheckedAt;
    if ops != [] {
      var op, u := ops[0], Time(ops[0], from);
      MuteStep(l, m, d, op, from);
      MuteDecisions(Step(l, op), Step(m, op), d, ops[1..], u, until);
    }
  }

  lemma {:induction false} MuteIsIndistinguishable(l: Limiter, m: Limiter, d: IMEI, t: real)
    requires AgreeBut(l, m, d) && NeverAdmits(l, d, t) && NeverAdmits(m, d, t)
    ensures !Distinguishable(l, m, t)
  {
    forall ops, until | Ordered(ops, t, until) && KeepsLimits(l, ops) ensures Decisions(l, ops) == Decisions(m, ops) {
      MuteDecisions(l, m, d, ops, t, until);
    }
  }

  lemma {:induction false} DistinguishableSymmetric(l: Limiter, m: Limiter, t: real)
    requires l.buckets.Keys == m.buckets.Keys && Distinguishable(l, m, t)
    ensures Distinguishable(m, l, t)
  {
    var ops, until :| Ordered(ops, t, until) && KeepsLimits(l, ops) && Decisions(l, ops) != Decisions(m, ops);
    KeepsLimitsSame(l, m, ops);
    hide Decisions, KeepsLimits;
  }

  lemma {:induction false} DifferenceShows(l: Limiter, m: Limiter, d: IMEI, t: real)
    requires Poorer(l, m, d, t) && (l.config.priorityBoost || m.buckets[d].size >= 1)
    ensures Distinguishable(l, m, t)
  {
    var poor, rich := Refilled(l.buckets[d], t).tokens, Refilled(m.buckets[d], t).tokens;
    hide Poorer, Distinguishable, Refilled;
    if l.config.priorityBoost {
      PoorerShows(l, m, d, t, if poor <= -4.0 then 0 else ((poor + 4.0) * 10.0).Floor + 1);
    } else {
      PlainPoorerShows(l, m, d, t, if rich <= 1.0 then 0 else rich.Floor + 1);
    }
  }

  lemma {:induction false} ChangedBuckets(l: Limiter, d: IMEI, rate: real, burst: nat, now: real)
    requires d in l.buckets
    ensures var with, without := ChangedAfterRead(l, d, rate, burst, now), ChangedUnread(l, d, rate, burst, now);
      && with.config == without.config == l.config && with.buckets.Keys == without.buckets.Keys == l.buckets.Keys
      && with.buckets[d].rate == without.buckets[d].rate == rate
      && with.buckets[d].size == without.buckets[d].size == burst
  {
    hide Refilled;
  }

  // -- a new rate that never pays

  /** The token levels that decide are multiples of the smallest cost. */
  function Level(boost: bool, i: int): real {
    if boost then 0.1 * i as real else i as real
  }

  /** A bucket with `y` tokens can be spent down to where it admits a message that one with `x`,
      spent as far, refuses. With the boost, CRITICAL messages need more than -4 tokens and
      others all they cost; without it every message needs its token. */
  predicate SeparatedAt(boost: bool, x: real, y: real, i: int) {
    if boost then
      (i >= -40 && x <= Level(boost, i) < y) || (i >= 2 && x < Level(boost, i) <= y)
    else
      i >= 1 && x < Level(boost, i) <= y
  }

  ghost predicate Separated(boost: bool, x: real, y: real) {
    exists i: int :: SeparatedAt(boost, x, y, i)
  }

  /** Only the bucket of `d` differs; it never refills, and the first has no more tokens. */
  ghost predicate Frozen(l: Limiter, m: Limiter, d: IMEI, t: real) {
    && AgreeBut(l, m, d) && l.Inv(t) && m.Inv(t)
    && l.buckets[d].rate == m.buckets[d].rate <= 0.0 && l.buckets[d].size == m.buckets[d].size
    && l.buckets[d].tokens <= m.buckets[d].tokens
  }

  function Units(boost: bool, p: Priority): nat {
    if !boost then 1 else match p
      case Critical => 1
      case High => 2
      case Normal => 10
      case Low => 20
  }

  lemma {:induction false} CostInUnits(boost: bool, p: Priority)
    ensures Cost(boost, p) == Level(boost, Units(boost, p))
  {
  }

  /** A check of a bucket that never refills. */
  lemma {:induction false} FrozenCheck(l: Limiter, d: IMEI, p: Priority, t: real)
    requires d in l.buckets && l.Inv(t) && l.buckets[d].rate <= 0.0
    ensures var b, c, boost := l.buckets[d], Step(l, Check(d, p, t)).buckets[d], l.config.priorityBoost;
      var ok := CheckedAt(l, d, p, t).1;
      && (ok <==> Admits(b.tokens, PriorityMultiplier(boost, p)))
      && c.tokens == b.tokens - (if ok then Cost(boost, p) else 0.0) && c.rate == b.rate && c.size == b.size
  {
    hide Refilled, PriorityMultiplier;
    FrozenRefill(l.buckets[d], t);
  }

  /** Tokens that no level separates are admitted alike. */
  lemma {:induction false} AlikeAdmitted(boost: bool, x: real, y: real, p: Priority)
    requires x <= y && !Separated(boost, x, y)
    ensures Admits(x, PriorityMultiplier(boost, p)) == Admits(y, PriorityMultiplier(boost, p))
  {
    assert !SeparatedAt(boost, x, y, -40);
    assert !SeparatedAt(boost, x, y, Units(boost, p));
    CostInUnits(boost, p);
  }

  /** A level that separates what is left after a message was a multiple of its cost higher before. */
  lemma {:induction false} SeparatedBefore(boost: bool, x: real, y: real, p: Priority, x': real, y': real)
    requires x' == x - Cost(boost, p) && y' == y - Cost(boost, p) && Separated(boost, x', y')
    ensures Separated(boost, x, y)
  {
    var i: int :| SeparatedAt(boost, x', y', i);
    CostInUnits(boost, p);
    var n := Units(boost, p);
    hide Cost;
    assert Level(boost, i + n) == Level(boost, i) + Level(boost, n);
    assert SeparatedAt(boost, x, y, i + n);
  }

  /** What a step without a limit change can do to a frozen bucket. */
  lemma {:induction false} FrozenStep(l: Limiter, d: IMEI, op: Op, t: real)
    requires d in l.buckets && l.Inv(t) && t <= Time(op, t) && l.buckets[d].rate <= 0.0
    requires op.SetLimit? ==> op.device !in l.buckets
    ensures d in Step(l, op).buckets
    ensures var b, c := l.buckets[d], Step(l, op).buckets[d];
      && c.rate == b.rate && c.size == b.size
      && (op.Reset? && op.device == d ==> c.tokens == b.size as real)
      && (!(op.Reset? && op.device == d) && !(op.Check? && op.device == d) ==> c.tokens == b.tokens)
  {
    hide Refilled, Consumed, PriorityMultiplier;
    if op.ReadStatistics? { FrozenRefill(l.buckets[d], op.now); }
    if op.Check? && op.device == d { StepKeepsRate(l, d, op); }
  }

  lemma {:induction false} StepKeepsRate(l: Limiter, d: IMEI, op: Op)
    requires d in l.buckets && op.Check? && op.device == d
    ensures Step(l, op).buckets[d].rate == l.buckets[d].rate && Step(l, op).buckets[d].size == l.buckets[d].size
  {
    hide PriorityMultiplier;
  }

  /** A check of frozen buckets that no level separates: the same decision, and the same afterwards. */
  lemma {:induction false} FrozenCheckedAlike(l: Limiter, m: Limiter, d: IMEI, p: Priority, t: real)
    requires Frozen(l, m, d, t)
    requires !Separated(l.config.priorityBoost, l.buckets[d].tokens, m.buckets[d].tokens)
    ensures CheckedAt(l, d, p, t).1 == CheckedAt(m, d, p, t).1
    ensures var l', m' := Step(l, Check(d, p, t)), Step(m, Check(d, p, t));
      && Frozen(l', m', d, t) && l'.config.priorityBoost == l.config.priorityBoost
      && !Separated(l.config.priorityBoost, l'.buckets[d].tokens, m'.buckets[d].tokens)
  {
    var boost, x, y := l.config.priorityBoost, l.buckets[d].tokens, m.buckets[d].tokens;
    hide Step, CheckedAt, Cost, Admits, PriorityMultiplier, Separated;
    FrozenCheck(l, d, p, t);
    FrozenCheck(m, d, p, t);
    AlikeAdmitted(boost, x, y, p);
    FrozenAfterCheck(l, m, d, p, t);
    var cost := Cost(boost, p);
    if Separated(boost, x - cost, y - cost) { SeparatedBefore(boost, x, y, p, x - cost, y - cost); }
  }

  /** Any other step. */
  lemma {:induction false} FrozenOtherStep(l: Limiter, m: Limiter, d: IMEI, op: Op, t: real)
    requires Frozen(l, m, d, t) && t <= Time(op, t) && (op.SetLimit? ==> op.device !in l.buckets)
    requires !(op.Check? && op.device == d)
    ensures var l', m' := Step(l, op), Step(m, op);
      && Frozen(l', m', d, Time(op, t)) && l'.config.priorityBoost == l.config.priorityBoost
      && (l'.buckets[d].tokens == m'.buckets[d].tokens
          || (l'.buckets[d].tokens == l.buckets[d].tokens && m'.buckets[d].tokens == m.buckets[d].tokens))
  {
    StepKeepsInv(l, op, t);
    StepKeepsInv(m, op, t);
    StepLocal(l, m, d, op);
    StepKeepsBoost(l, op);
    FrozenStep(l, d, op, t);
    FrozenStep(m, d, op, t);
    hide Step, AgreeBut;
  }

  /** Frozen buckets that no level separates: the same decision, and the same afterwards. */
  lemma {:induction false} FrozenStaysAlike(l: Limiter, m: Limiter, d: IMEI, op: Op, t: real)
    requires Frozen(l, m, d, t) && t <= Time(op, t) && (op.SetLimit? ==> op.device !in l.buckets)
    requires !Separated(l.config.priorityBoost, l.buckets[d].tokens, m.buckets[d].tokens)
    ensures var l', m' := Step(l, op), Step(m, op);
      && Frozen(l', m', d, Time(op, t)) && l'.config.priorityBoost == l.config.priorityBoost
      && !Separated(l.config.priorityBoost, l'.buckets[d].tokens, m'.buckets[d].tokens)
    ensures op.Check? ==>
      CheckedAt(l, op.device, op.priority, op.now).1 == CheckedAt(m, op.device, op.priority, op.now).1
  {
    if op.Check? && op.device == d {
      InvLater(l, t, op.now);
      InvLater(m, t, op.now);
      hide Step, AgreeBut, CheckedAt, Separated;
      FrozenCheckedAlike(l, m, d, op.priority, op.now);
    } else {
      StepLocal(l, m, d, op);
      FrozenOtherStep(l, m, d, op, t);
      hide Step, AgreeBut, CheckedAt;
    }
  }

  lemma {:induction false} FrozenDecisions(l: Limiter, m: Limiter, d: IMEI, ops: seq<Op>, from: real, until: real)
    requires Frozen(l, m, d, from) && Ordered(ops, from, until) && KeepsLimits(l, ops)
    requires !Separated(l.config.priorityBoost, l.buckets[d].tokens, m.buckets[d].tokens)
    ensures Decisions(l, ops) == Decisions(m, ops)
    decreases |ops|
  {
    hide Step, CheckedAt, Separated;
    if ops != [] {
      FrozenStaysAlike(l, m, d, ops[0], from);
      FrozenDecisions(Step(l, ops[0]), Step(m, ops[0]), d, ops[1..], Time(ops[0], from), until);
    }
  }

  /** A level that separates two frozen buckets shows after enough messages. */
  lemma {:induction false} SeparationShows(l: Limiter, m: Limiter, d: IMEI, t: real, i: int)
    requires Frozen(l, m, d, t)
    requires SeparatedAt(l.config.priorityBoost, l.buckets[d].tokens, m.buckets[d].tokens, i)
    ensures Distinguishable(l, m, t)
    decreases i + 40
  {
    var boost, x, y := l.config.priorityBoost, l.buckets[d].tokens, m.buckets[d].tokens;
    var upper := boost && i >= 2 && x < Level(boost, i) <= y;
    var p := if !boost then Normal else if upper && i == 2 then High else Critical;
    var op := Check(d, p, t);
    hide Step, CheckedAt, Cost, PriorityMultiplier, Level;
    FrozenCheck(l, d, p, t);
    FrozenCheck(m, d, p, t);
    if CheckedAt(l, d, p, t).1 != CheckedAt(m, d, p, t).1 {
      hide *;
      OneCheckShows(l, m, op, t);
    } else {
      FrozenAfterCheck(l, m, d, p, t);
      CloserByOne(boost, x, y, i, p);
      hide *;
      SeparationShows(Step(l, op), Step(m, op), d, t, i - 1);
      CheckFirst(l, m, op, t);
    }
  }

  /** If the probe does not tell the two apart, both admit it, and a level one lower separates
      what is left. */
  lemma {:induction false} CloserByOne(boost: bool, x: real, y: real, i: int, p: Priority)
    requires SeparatedAt(boost, x, y, i) && x <= y
    requires var upper := boost && i >= 2 && x < Level(boost, i) <= y;
      p == if !boost then Normal else if upper && i == 2 then High else Critical
    requires Admits(x, PriorityMultiplier(boost, p)) == Admits(y, PriorityMultiplier(boost, p))
    ensures Admits(x, PriorityMultiplier(boost, p)) && p != High
    ensures SeparatedAt(boost, x - Cost(boost, p), y - Cost(boost, p), i - 1) && i - 1 + 40 >= 0
  {
    CostInUnits(boost, p);
  }

  lemma {:induction false} FrozenAfterCheck(l: Limiter, m: Limiter, d: IMEI, p: Priority, t: real)
    requires Frozen(l, m, d, t) && CheckedAt(l, d, p, t).1 == CheckedAt(m, d, p, t).1
    ensures var l', m' := Step(l, Check(d, p, t)), Step(m, Check(d, p, t));
      Frozen(l', m', d, t) && l'.config.priorityBoost == l.config.priorityBoost
  {
    var op := Check(d, p, t);
    StepKeepsInv(l, op, t);
    StepKeepsInv(m, op, t);
    StepLocal(l, m, d, op);
    StepKeepsBoost(l, op);
    FrozenCheck(l, d, p, t);
    FrozenCheck(m, d, p, t);
    hide Step, AgreeBut, CheckedAt, Cost, Admits, PriorityMultiplier;
  }

  /** Frozen buckets can be told apart exactly when some level separates them. */
  lemma {:induction false} FrozenShowsIff(l: Limiter, m: Limiter, d: IMEI, t: real)
    requires Frozen(l, m, d, t)
    ensures Distinguishable(l, m, t) <==> Separated(l.config.priorityBoost, l.buckets[d].tokens, m.buckets[d].tokens)
  {
    var boost, x, y := l.config.priorityBoost, l.buckets[d].tokens, m.buckets[d].tokens;
    if Separated(boost, x, y) {
      var i :| SeparatedAt(boost, x, y, i);
      SeparationShows(l, m, d, t, i);
    } else {
      hide Frozen, Separated;
      forall ops, until | Ordered(ops, t, until) && KeepsLimits(l, ops) ensures Decisions(l, ops) == Decisions(m, ops) {
        FrozenDecisions(l, m, d, ops, t, until);
      }
    }
  }

  lemma {:induction false} ChangeFreezes(l: Limiter, d: IMEI, rate: real, burst: nat, now: real)
    requires l.Inv(now) && d in l.buckets && rate <= 0.0
    ensures var with, without := ChangedAfterRead(l, d, rate, burst, now), ChangedUnread(l, d, rate, burst, now);
      && Frozen(without, with, d, now) && without.config == l.config
      && without.buckets[d].tokens == Min(l.buckets[d].tokens, burst as real)
      && with.buckets[d].tokens == Min(Refilled(l.buckets[d], now).tokens, burst as real)
  {
    hide Refilled;
    ChangeKeepsInv(l, d, rate, burst, now);
    ChangesAgreeBut(l, d, rate, burst, now);
    AgreeButSymmetric(ChangedAfterRead(l, d, rate, burst, now), ChangedUnread(l, d, rate, burst, now), d);
    RefillOnlyAdds(l.buckets[d], now);
    hide AgreeBut;
  }

  /** With a positive new rate, old and new rate pay differently for the time since the last
      refill, and the new limit ever admits anything. Otherwise the tokens left for good are
      separated by a level that decides. */
  ghost predicate ReadMatters(boost: bool, b: Bucket, rate: real, burst: nat, now: real) {
    if rate > 0.0 then !PaysTheSame(b, rate, burst, now) && (boost || burst >= 1)
    else Separated(boost, Min(b.tokens, burst as real), Min(Refilled(b, now).tokens, burst as real))
  }

  /** When a read just before a limit change matters, for any old and new limit: some later run is
      decided differently exactly under that condition. */
  lemma {:induction false} ReadBeforeLimitChangeMattersIff(l: Limiter, d: IMEI, rate: real, burst: nat, now: real)
    requires l.Inv(now) && d in l.buckets
    ensures Distinguishable(ChangedAfterRead(l, d, rate, burst, now), ChangedUnread(l, d, rate, burst, now), now)
      <==> ReadMatters(l.config.priorityBoost, l.buckets[d], rate, burst, now)
  {
    hide Separated, PaysTheSame, Refilled, Distinguishable, ChangedAfterRead, ChangedUnread, Min;
    if rate > 0.0 {
      PayingReadMattersIff(l, d, rate, burst, now);
    } else {
      var with, without := ChangedAfterRead(l, d, rate, burst, now), ChangedUnread(l, d, rate, burst, now);
      ChangeFreezes(l, d, rate, burst, now);
      FrozenShowsIff(without, with, d, now);
      if Distinguishable(without, with, now) { DistinguishableSymmetric(without, with, now); }
      if Distinguishable(with, without, now) { DistinguishableSymmetric(with, without, now); }
    }
  }

  lemma {:induction false} PayingReadMattersIff(l: Limiter, d: IMEI, rate: real, burst: nat, now: real)
    requires l.Inv(now) && d in l.buckets && rate > 0.0
    ensures Distinguishable(ChangedAfterRead(l, d, rate, burst, now), ChangedUnread(l, d, rate, burst, now), now)
      <==> !PaysTheSame(l.buckets[d], rate, burst, now) && (l.config.priorityBoost || burst >= 1)
  {
    var with, without := ChangedAfterRead(l, d, rate, burst, now), ChangedUnread(l, d, rate, burst, now);
    ChangeKeepsInv(l, d, rate, burst, now);
    SameAfterChangeIff(l, d, rate, burst, now);
    TokensSameIff(l, d, rate, burst, now);
    ChangesAgreeBut(l, d, rate, burst, now);
    ChangedBuckets(l, d, rate, burst, now);
    hide Refilled, SameUpToRefill, ChangedAfterRead, ChangedUnread, AgreeBut, PaysTheSame, Distinguishable;
    if PaysTheSame(l.buckets[d], rate, burst, now) {
      SameIsIndistinguishable(with, without, now);
    } else if !l.config.priorityBoost && burst == 0 {
      MuteIsIndistinguishable(with, without, d, now);
    } else if Refilled(with.buckets[d], now).tokens < Refilled(without.buckets[d], now).tokens {
      DifferenceShows(with, without, d, now);
    } else {
      AgreeButSymmetric(with, without, d);
      DifferenceShows(without, with, d, now);
      DistinguishableSymmetric(without, with, now);
    }
  }

  lemma {:induction false} AgreeButSymmetric(l: Limiter, m: Limiter, d: IMEI)
    requires AgreeBut(l, m, d)
    ensures AgreeBut(m, l, d)
  {
  }

  /** With a rate of zero the read decides at once: the old rate's tokens are there or not. */
  lemma {:induction false} ReadBeforeLimitChangeMatters()
    ensures var l := Limiter(Config(1.0, 10, true), map["d" := Bucket(1.0, 10, 0.0, 0.0, 0, 0)]);
      var change := [SetLimit("d", 0.0, 10, 5.0), Check("d", Normal, 5.0)];
      && Decisions(l, change) == [false]
      && Decisions(l, [ReadStatistics("d", 5.0)] + change) == [true]
  {
    var l := Limiter(Config(1.0, 10, true), map["d" := Bucket(1.0, 10, 0.0, 0.0, 0, 0)]);
    var check := Check("d", Normal, 5.0);
    var change := [SetLimit("d", 0.0, 10, 5.0), check];
    assert change[1..] == [check];
    DecisionsOne(Step(l, change[0]), check);
    var withRead := [ReadStatistics("d", 5.0)] + change;
    assert withRead[1..] == change;
    DecisionsOne(Step(Step(l, withRead[0]), change[0]), check);
  }

  // ------------------------------------------------------- wider limits

  datatype Request = Request(priority: Priority, time: real)

  /** How many of the requests a bucket admits. */
  function Admitted(b: Bucket, boost: bool, trace: seq<Request>): nat
    decreases |trace|
  {
    if trace == [] then 0
    else
      var (c, ok) := Consumed(b, PriorityMultiplier(boost, trace[0].priority), trace[0].time);
      (if ok then 1 else 0) + Admitted(c, boost, trace[1..])
  }

  ghost predicate Ascending(trace: seq<Request>, from: real)
    decreases |trace|
  {
    trace == [] || (from <= trace[0].time && Ascending(trace[1..], trace[0].time))
  }

  function Owed(lead: nat, cost: real): real {
    lead as real * cost
  }

  /** `wide` has at least the limits of `narrow`, and at least its tokens once the `lead`
      messages it has admitted beyond `narrow` are paid back. */
  ghost predicate Wider(narrow: Bucket, wide: Bucket, lead: nat, cost: real, now: real) {
    && narrow.Bounded() && wide.Bounded()
    && narrow.lastUpdated <= now && wide.lastUpdated <= now
    && narrow.rate <= wide.rate && narrow.size <= wide.size
    && (narrow.rate > 0.0 ==> wide.lastUpdated <= narrow.lastUpdated)
    && narrow.tokens <= wide.tokens + Owed(lead, cost)
  }

  lemma {:induction false} RefillKeepsWider(
      narrow: Bucket, wide: Bucket, lead: nat, cost: real, from: real, now: real)
    requires Wider(narrow, wide, lead, cost, from) && from <= now && cost >= 0.0
    ensures Wider(Refilled(narrow, now), Refilled(wide, now), lead, cost, now)
  {
    hide Refilled, Earned;
    RefillOnlyAdds(narrow, now);
    RefillOnlyAdds(wide, now);
    RefilledBy(narrow, now);
    RefilledBy(wide, now);
    OwedIsNonNegative(lead, cost);
    hide Owed;
    if narrow.rate > 0.0 {
      RefillCompares(narrow, wide, now);
    } else {
      EarnedSign(narrow.rate, narrow.lastUpdated, now);
    }
  }

  lemma {:induction false} OwedIsNonNegative(lead: nat, cost: real)
    requires cost >= 0.0
    ensures Owed(lead, cost) >= 0.0
  {
    ProductGrows(cost, 0.0, lead as real);
  }

  lemma {:induction false} EarnedGrows(rate: real, more: real, earlier: real, from: real, until: real)
    requires rate <= more && 0.0 <= more && earlier <= from <= until
    ensures Earned(rate, from, until) <= Earned(more, earlier, until)
  {
    ProductGrows(until - from, rate, more);
    ProductGrows(more, until - from, until - earlier);
  }

  lemma {:induction false} RefillCompares(narrow: Bucket, wide: Bucket, now: real)
    requires narrow.Bounded() && wide.Bounded() && narrow.size <= wide.size && 0.0 < narrow.rate <= wide.rate
    requires wide.lastUpdated <= narrow.lastUpdated <= now
    ensures var n, w := Refilled(narrow, now), Refilled(wide, now);
      && n.lastUpdated == w.lastUpdated
      && (n.tokens <= w.tokens || n.tokens - w.tokens <= narrow.tokens - wide.tokens)
  {
    hide Refilled, Earned;
    EarnedGrows(narrow.rate, wide.rate, wide.lastUpdated, narrow.lastUpdated, now);
    RefilledBy(narrow, now);
    RefilledBy(wide, now);
    RefilledTokens(narrow, now);
    RefilledTokens(wide, now);
  }

  function NextLead(lead: int, narrowAdmits: bool, wideAdmits: bool): int {
    lead + (if wideAdmits then 1 else 0) - (if narrowAdmits then 1 else 0)
  }

  lemma {:induction false} MessageKeepsWider(
      narrow: Bucket, wide: Bucket, boost: bool, p: Priority, lead: nat, from: real, now: real)
    requires Wider(narrow, wide, lead, Cost(boost, p), from) && from <= now
    ensures var m := PriorityMultiplier(boost, p);
      var (n', nok) := Consumed(narrow, m, now);
      var (w', wok) := Consumed(wide, m, now);
      NextLead(lead, nok, wok) >= 0 && Wider(n', w', NextLead(lead, nok, wok), Cost(boost, p), now)
  {
    hide Refilled, Owed, PriorityMultiplier;
    var m, cost := PriorityMultiplier(boost, p), Cost(boost, p);
    RefillKeepsWider(narrow, wide, lead, cost, from, now);
    var n, w := Refilled(narrow, now), Refilled(wide, now);
    var nok, wok := Consumed(narrow, m, now).1, Consumed(wide, m, now).1;
    NothingOwed(cost);
    CostsAreKnown(boost, p);
    assert lead == 0 && nok ==> wok;
    LeadCosts(lead, nok, wok, cost);
    RefillOnlyAdds(narrow, now);
    ConsumeKeepsBounded(narrow, boost, p, now);
    ConsumeKeepsBounded(wide, boost, p, now);
    assert Consumed(narrow, m, now).0.tokens == n.tokens - if nok then cost else 0.0;
    assert Consumed(wide, m, now).0.tokens == w.tokens - if wok then cost else 0.0;
  }

  lemma {:induction false} CostsAreKnown(boost: bool, p: Priority)
    ensures Cost(boost, p) > 0.0
    ensures PriorityMultiplier(boost, p) >= 10.0 ==> Cost(boost, p) <= 0.1
  {
  }

  lemma {:induction false} NothingOwed(cost: real)
    ensures Owed(0, cost) == 0.0
  {
  }

  lemma {:induction false} LeadCosts(lead: nat, narrowAdmits: bool, wideAdmits: bool, cost: real)
    requires NextLead(lead, narrowAdmits, wideAdmits) >= 0
    ensures Owed(NextLead(lead, narrowAdmits, wideAdmits), cost)
      == Owed(lead, cost) + (if wideAdmits then cost else 0.0) - (if narrowAdmits then cost else 0.0)
  {
  }

  /** Wider limits never admit less of messages that cost the same, debt included; `lead` is what
      the wider bucket is already ahead. The trace is arbitrary, so this holds at each of its points. */
  lemma {:induction false} WiderAdmitsNoLess(
      narrow: Bucket, wide: Bucket, boost: bool, trace: seq<Request>, cost: real, from: real, lead: nat)
    requires Wider(narrow, wide, lead, cost, from) && Ascending(trace, from)
    requires forall r :: r in trace ==> Cost(boost, r.priority) == cost
    ensures Admitted(narrow, boost, trace) <= Admitted(wide, boost, trace) + lead
    decreases |trace|
  {
    hide Wider, Consumed, Cost;
    if trace != [] {
      var p, now := trace[0].priority, trace[0].time;
      assert trace[0] in trace;
      MessageKeepsWider(narrow, wide, boost, p, lead, from, now);
      var m := PriorityMultiplier(boost, p);
      var (n', nok) := Consumed(narrow, m, now);
      var (w', wok) := Consumed(wide, m, now);
      WiderAdmitsNoLess(n', w', boost, trace[1..], cost, now, NextLead(lead, nok, wok));
    }
  }

  // -- mixed priorities

  ghost predicate DrawnFrom(trace: seq<Request>, ps: set<Priority>) {
    forall r :: r in trace ==> r.priority in ps
  }

  ghost predicate NeverBehind(narrow: Bucket, wide: Bucket, boost: bool, ps: set<Priority>, from: real) {
    forall trace :: Ascending(trace, from) && DrawnFrom(trace, ps)
      ==> Admitted(narrow, boost, trace) <= Admitted(wide, boost, trace)
  }

  ghost predicate StartsWider(narrow: Bucket, wide: Bucket, from: real) {
    Wider(narrow, wide, 0, 0.0, from)
  }

  /** Wider limits never admit less of the priorities `ps`, in any mix. */
  ghost predicate Monotone(boost: bool, ps: set<Priority>) {
    forall narrow, wide, from :: StartsWider(narrow, wide, from) ==> NeverBehind(narrow, wide, boost, ps, from)
  }

  ghost predicate SameCosts(boost: bool, ps: set<Priority>) {
    forall p, q :: p in ps && q in ps ==> Cost(boost, p) == Cost(boost, q)
  }

  lemma {:induction false} AdmittedCons(b: Bucket, boost: bool, r: Request, rest: seq<Request>)
    ensures var (c, ok) := Consumed(b, PriorityMultiplier(boost, r.priority), r.time);
      Admitted(b, boost, [r] + rest) == (if ok then 1 else 0) + Admitted(c, boost, rest)
  {
    hide Consumed;
    assert ([r] + rest)[1..] == rest;
  }

  lemma {:induction false} AdmittedThree(b: Bucket, boost: bool, x: Request, y: Request, z: Request)
    ensures var (c, xok) := Consumed(b, PriorityMultiplier(boost, x.priority), x.time);
      var (d, yok) := Consumed(c, PriorityMultiplier(boost, y.priority), y.time);
      var (_, zok) := Consumed(d, PriorityMultiplier(boost, z.priority), z.time);
      Admitted(b, boost, [x, y, z]) == (if xok then 1 else 0) + (if yok then 1 else 0) + (if zok then 1 else 0)
  {
    hide Consumed;
    var c := Consumed(b, PriorityMultiplier(boost, x.priority), x.time).0;
    var d := Consumed(c, PriorityMultiplier(boost, y.priority), y.time).0;
    assert [x, y, z] == [x] + [y, z] && [y, z] == [y] + [z] && [z] == [z] + [];
    AdmittedCons(b, boost, x, [y, z]);
    AdmittedCons(c, boost, y, [z]);
    AdmittedCons(d, boost, z, []);
  }

  /** A bucket that does not refill. */
  function Still(tokens: real): Bucket {
    Bucket(0.0, 2, tokens, 0.0, 0, 0)
  }

  lemma {:induction false} StillConsumes(b: Bucket, p: Priority)
    requires b.rate == 0.0
    ensures var (c, ok) := Consumed(b, PriorityMultiplier(true, p), 0.0);
      && c.rate == 0.0
      && (ok <==> b.tokens >= Cost(true, p) || (p == Critical && b.tokens > -4.0))
      && c.tokens == b.tokens - if ok then Cost(true, p) else 0.0
  {
    assert Refilled(b, 0.0) == b;
    assert MayOwe(true, p) <==> p == Critical;
    hide Refilled;
  }

  /** HIGH messages share what one dearer message takes. */
  lemma {:induction false} HighSuffers(p: Priority)
    requires p == Low || p == Normal
    ensures var x, y := Request(p, 0.0), Request(High, 0.0);
      Admitted(Still(Cost(true, p) - 0.1), true, [x, y, y]) > Admitted(Still(Cost(true, p)), true, [x, y, y])
  {
    var cost := Cost(true, p);
    var x, y := Request(p, 0.0), Request(High, 0.0);
    assert cost >= 1.0 && Cost(true, High) == 0.2;
    var mp, mh := PriorityMultiplier(true, p), PriorityMultiplier(true, High);
    var n, w := Still(cost - 0.1), Still(cost);
    hide Consumed, Cost, PriorityMultiplier;
    AdmittedThree(n, true, x, y, y);
    AdmittedThree(w, true, x, y, y);
    StillConsumes(n, p);
    StillConsumes(w, p);
    StillConsumes(Consumed(n, mp, 0.0).0, High);
    StillConsumes(Consumed(w, mp, 0.0).0, High);
    StillConsumes(Consumed(Consumed(n, mp, 0.0).0, mh, 0.0).0, High);
    StillConsumes(Consumed(Consumed(w, mp, 0.0).0, mh, 0.0).0, High);
  }

  /** A LOW message takes what two NORMAL ones would have got, the second with a little waiting. */
  lemma {:induction false} NormalSuffers()
    ensures var n, w := Bucket(1.0, 2, 1.5, 0.0, 0, 0), Bucket(1.0, 2, 2.0, 0.0, 0, 0);
      var x, y, z := Request(Low, 0.0), Request(Normal, 0.0), Request(Normal, 0.5);
      Admitted(n, true, [x, y, z]) > Admitted(w, true, [x, y, z])
  {
    var n, w := Bucket(1.0, 2, 1.5, 0.0, 0, 0), Bucket(1.0, 2, 2.0, 0.0, 0, 0);
    var x, y, z := Request(Low, 0.0), Request(Normal, 0.0), Request(Normal, 0.5);
    AdmittedThree(n, true, x, y, z);
    AdmittedThree(w, true, x, y, z);
    hide Admitted;
  }

  function Repeated(r: Request, n: nat): seq<Request> {
    seq(n, _ => r)
  }

  lemma {:induction false} RepeatedCons(r: Request, n: nat)
    requires n > 0
    ensures Repeated(r, n) == [r] + Repeated(r, n - 1)
  {
  }

  /** CRITICAL messages are admitted down to the debt. */
  lemma {:induction false} CriticalsAdmitted(b: Bucket, n: nat)
    requires b.rate == 0.0 && b.tokens > -4.0 + 0.1 * (n - 1) as real
    ensures Admitted(b, true, Repeated(Request(Critical, 0.0), n)) == n
    decreases n
  {
    if n > 0 {
      FirstCritical(b, n);
      CriticalsAdmitted(Consumed(b, PriorityMultiplier(true, Critical), 0.0).0, n - 1);
    }
  }

  /** ... and no further. */
  lemma {:induction false} CriticalsAtMost(b: Bucket, n: nat, k: nat)
    requires b.rate == 0.0 && b.tokens <= -4.0 + 0.1 * k as real
    ensures Admitted(b, true, Repeated(Request(Critical, 0.0), n)) <= k
    decreases n
  {
    if n > 0 {
      var (c, ok) := Consumed(b, PriorityMultiplier(true, Critical), 0.0);
      FirstCritical(b, n);
      CriticalsAtMost(c, n - 1, if ok then k - 1 else k);
    }
  }

  lemma {:induction false} FirstCritical(b: Bucket, n: nat)
    requires b.rate == 0.0 && n > 0
    ensures var (c, ok) := Consumed(b, PriorityMultiplier(true, Critical), 0.0);
      && c.rate == 0.0 && (ok <==> b.tokens > -4.0) && c.tokens == b.tokens - (if ok then 0.1 else 0.0)
      && Admitted(b, true, Repeated(Request(Critical, 0.0), n))
         == (if ok then 1 else 0) + Admitted(c, true, Repeated(Request(Critical, 0.0), n - 1))
  {
    assert Cost(true, Critical) == 0.1;
    hide Consumed, Cost, PriorityMultiplier;
    StillConsumes(b, Critical);
    RepeatedCons(Request(Critical, 0.0), n);
    AdmittedCons(b, true, Request(Critical, 0.0), Repeated(Request(Critical, 0.0), n - 1));
    hide Admitted, Repeated;
  }

  /** CRITICAL messages share what one dearer message takes, down to the debt. */
  lemma {:induction false} CriticalSuffers(p: Priority)
    requires p != Critical
    ensures var trace := [Request(p, 0.0)] + Repeated(Request(Critical, 0.0), 42);
      Admitted(Still(Cost(true, p) - 0.01), true, trace) > Admitted(Still(Cost(true, p)), true, trace)
  {
    var cost, rest := Cost(true, p), Repeated(Request(Critical, 0.0), 42);
    assert cost >= 0.2;
    var n, w := Still(cost - 0.01), Still(cost);
    hide Consumed, Cost, PriorityMultiplier, Repeated;
    AdmittedCons(n, true, Request(p, 0.0), rest);
    AdmittedCons(w, true, Request(p, 0.0), rest);
    StillConsumes(n, p);
    StillConsumes(w, p);
    CriticalsAdmitted(Consumed(n, PriorityMultiplier(true, p), 0.0).0, 42);
    CriticalsAtMost(Consumed(w, PriorityMultiplier(true, p), 0.0).0, 42, 40);
  }

  /** Of two costs, the dearer one makes the cheaper one suffer. */
  lemma {:induction false} DearerAndCheaper(p: Priority, q: Priority)
      returns (narrow: Bucket, wide: Bucket, trace: seq<Request>)
    requires Cost(true, p) > Cost(true, q)
    ensures StartsWider(narrow, wide, 0.0) && Ascending(trace, 0.0) && DrawnFrom(trace, {p, q})
    ensures Admitted(narrow, true, trace) > Admitted(wide, true, trace)
  {
    var cost, x, y := Cost(true, p), Request(p, 0.0), Request(q, 0.0);
    hide Admitted;
    NothingOwed(0.0);
    if q == Critical {
      narrow, wide, trace := Still(cost - 0.01), Still(cost), [x] + Repeated(y, 42);
      CriticalSuffers(p);
      RepeatedAscend(y, 42);
      assert trace[1..] == Repeated(y, 42) && trace[0] == x;
    } else if q == High {
      narrow, wide, trace := Still(cost - 0.1), Still(cost), [x, y, y];
      HighSuffers(p);
      ThreeAscend(x, y, y);
    } else {
      var z := Request(Normal, 0.5);
      narrow, wide := Bucket(1.0, 2, 1.5, 0.0, 0, 0), Bucket(1.0, 2, 2.0, 0.0, 0, 0);
      trace := [Request(Low, 0.0), Request(Normal, 0.0), z];
      NormalSuffers();
      ThreeAscend(trace[0], trace[1], z);
    }
  }

  lemma {:induction false} ThreeAscend(x: Request, y: Request, z: Request)
    requires x.time <= y.time <= z.time
    ensures Ascending([x, y, z], x.time)
  {
    assert [x, y, z][1..] == [y, z] && [y, z][1..] == [z] && [z][1..] == [];
    assert Ascending([z], y.time);
    assert Ascending([y, z], x.time);
  }

  lemma {:induction false} RepeatedAscend(r: Request, n: nat)
    ensures Ascending(Repeated(r, n), r.time)
    decreases n
  {
    if n > 0 {
      RepeatedCons(r, n);
      RepeatedAscend(r, n - 1);
      assert Repeated(r, n)[1..] == Repeated(r, n - 1);
    }
  }

  lemma {:induction false} OneCostWithoutBoost(p: Priority)
    ensures Cost(false, p) == 1.0
  {
  }

  lemma {:induction false} SameCostsAreMonotone(boost: bool, ps: set<Priority>)
    requires SameCosts(boost, ps)
    ensures Monotone(boost, ps)
  {
    forall narrow, wide, from | StartsWider(narrow, wide, from) ensures NeverBehind(narrow, wide, boost, ps, from) {
      forall trace | Ascending(trace, from) && DrawnFrom(trace, ps)
        ensures Admitted(narrow, boost, trace) <= Admitted(wide, boost, trace)
      {
        SameCostTrace(narrow, wide, boost, ps, trace, from);
      }
    }
  }

  lemma {:induction false} SameCostTrace(
      narrow: Bucket, wide: Bucket, boost: bool, ps: set<Priority>, trace: seq<Request>, from: real)
    requires SameCosts(boost, ps)
    requires StartsWider(narrow, wide, from) && Ascending(trace, from) && DrawnFrom(trace, ps)
    ensures Admitted(narrow, boost, trace) <= Admitted(wide, boost, trace)
  {
    if trace != [] {
      var cost := Cost(boost, trace[0].priority);
      assert trace[0] in trace;
      NothingOwed(cost);
      NothingOwed(0.0);
      assert Wider(narrow, wide, 0, cost, from);
      hide Cost, Admitted, Ascending, Wider;
      WiderAdmitsNoLess(narrow, wide, boost, trace, cost, from, 0);
    }
  }

  /** Wider limits never admit less exactly when all messages cost the same: always without
      priority boost, and with it only for messages of a single priority. */
  lemma {:induction false} MonotoneIff(boost: bool, ps: set<Priority>)
    ensures Monotone(boost, ps) <==> SameCosts(boost, ps)
    ensures SameCosts(boost, ps) <==> !boost || forall p, q :: p in ps && q in ps ==> p == q
  {
    if SameCosts(boost, ps) {
      SameCostsAreMonotone(boost, ps);
    } else {
      var p, q :| p in ps && q in ps && Cost(boost, p) != Cost(boost, q);
      OneCostWithoutBoost(p);
      OneCostWithoutBoost(q);
      NotMonotone(ps, p, q);
    }
    CostsDiffer();
    hide Monotone, Cost;
  }

  lemma {:induction false} NotMonotone(ps: set<Priority>, p: Priority, q: Priority)
    requires p in ps && q in ps && Cost(true, p) != Cost(true, q)
    ensures !Monotone(true, ps)
  {
    hide Cost, Admitted, Ascending, Wider;
    var dear, cheap := if Cost(true, p) > Cost(true, q) then p else q, if Cost(true, p) > Cost(true, q) then q else p;
    var narrow, wide, trace := DearerAndCheaper(dear, cheap);
    assert DrawnFrom(trace, ps);
    assert StartsWider(narrow, wide, 0.0) && !NeverBehind(narrow, wide, true, ps, 0.0);
  }

  lemma {:induction false} CostsDiffer()
    ensures forall p, q :: Cost(true, p) == Cost(true, q) <==> p == q
    ensures forall p, q :: Cost(false, p) == Cost(false, q)
  {
  }

  /** The same from construction on: the larger burst lets a LOW message through whose two tokens
      HIGH messages would have shared. */
  lemma {:induction false} MixedPrioritiesCanAdmitLess()
    ensures var ops := [Check("d", Low, 0.0), Check("d", High, 0.0), Check("d", High, 0.0)];
      && Decisions(NewLimiter(Config(0.0, 1, true)), ops) == [false, true, true]
      && Decisions(NewLimiter(Config(0.0, 2, true)), ops) == [true, false, false]
  {
    MixedDecisions(1);
    MixedDecisions(2);
  }

  lemma {:induction false} MixedDecisions(burst: nat)
    requires burst == 1 || burst == 2
    ensures Decisions(NewLimiter(Config(0.0, burst, true)),
                      [Check("d", Low, 0.0), Check("d", High, 0.0), Check("d", High, 0.0)])
            == if burst == 1 then [false, true, true] else [true, false, false]
  {
    var ops := [Check("d", Low, 0.0), Check("d", High, 0.0), Check("d", High, 0.0)];
    var l0 := NewLimiter(Config(0.0, burst, true));
    var l1 := Step(l0, ops[0]);
    var left := if burst == 1 then 1.0 else 0.0;
    assert l1.buckets["d"].tokens == left;
    assert CheckedAt(l0, "d", Low, 0.0).1 == (burst == 2);
    var l2 := Step(l1, ops[1]);
    assert CheckedAt(l1, "d", High, 0.0).1 == (burst == 1);
    assert l2.buckets["d"].tokens == if burst == 1 then 0.8 else 0.0;
    assert CheckedAt(l2, "d", High, 0.0).1 == (burst == 1);
    var l3 := Step(l2, ops[2]);
    hide Step, CheckedAt;
    assert ops[1..][1..] == ops[2..] && ops[2..][1..] == [];
    assert Decisions(l2, ops[2..]) == [CheckedAt(l2, "d", High, 0.0).1] + Decisions(l3, []);
    assert Decisions(l1, ops[1..]) == [CheckedAt(l1, "d", High, 0.0).1] + Decisions(l2, ops[2..]);
    assert Decisions(l0, ops) == [CheckedAt(l0, "d", Low, 0.0).1] + Decisions(l1, ops[1..]);
  }
}
