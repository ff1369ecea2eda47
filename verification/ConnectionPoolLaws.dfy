/** What each step of the pool does, and where connections found unhealthy end. */
module ConnectionPoolLaws {
  import opened Decimal
  import opened ConnectionPool
  import opened ConnectionPoolTheorems

  // ------------------------------------------------------- connecting

  /** How many of the connects succeed. */
  function Successes(ups: seq<bool>): nat
    decreases |ups|
  {
    if ups == [] then 0 else Successes(ups[..|ups| - 1]) + if ups[|ups| - 1] then 1 else 0
  }

  /** The next `n` connections made, all to one instance. */
  function Fresh(created: nat, n: nat, useStandby: bool): seq<Conn> {
    seq(n, k requires 0 <= k < n => Conn(created + k, useStandby))
  }

  lemma {:induction false} FreshSnoc(created: nat, n: nat, useStandby: bool)
    ensures Fresh(created, n + 1, useStandby) == Fresh(created, n, useStandby) + [Conn(created + n, useStandby)]
  {
  }

  /** Each successful connect makes one new connection, in order, and nothing else changes. */
  lemma {:induction false} CreatedManyLaw(p: Pool, useStandby: bool, ups: seq<bool>)
    ensures CreatedMany(p, useStandby, ups)
      == (p.(created := p.created + Successes(ups)), Fresh(p.created, Successes(ups), useStandby))
    decreases |ups|
  {
    if ups == [] {
      assert Fresh(p.created, 0, useStandby) == [];
    } else {
      var n := |ups| - 1;
      CreatedManyLaw(p, useStandby, ups[..n]);
      FreshSnoc(p.created, Successes(ups[..n]), useStandby);
      var made := Fresh(p.created, Successes(ups[..n]), useStandby);
      assert made + [] == made;
    }
  }

  /** Initialization fills the available queue with master connections and the other one, if there
      is a standby, with standby connections; the total counts the available ones. */
  lemma {:induction false} InitializeLaw(poolSize: int, hasStandby: bool, ups: seq<bool>, standbyUps: seq<bool>)
    ensures var p, n := Initialized(NewPool(poolSize, hasStandby), ups, standbyUps), Successes(ups);
      && p.available == Fresh(0, n, false)
      && p.standby == (if hasStandby then Fresh(n, Successes(standbyUps), true) else [])
      && p.total == n && p.active == 0 && p.failed == 0 && p.reconnects == 0 && !p.usingStandby
  {
    var p := NewPool(poolSize, hasStandby);
    CreatedManyLaw(p, false, ups);
    CreatedManyLaw(MasterFilled(p, ups), true, standbyUps);
    FreshSize(0, Successes(ups));
    hide CreatedMany, Successes, Fresh;
    assert [] + Fresh(0, Successes(ups), false) == Fresh(0, Successes(ups), false);
    var made := Fresh(Successes(ups), Successes(standbyUps), true);
    assert [] + made == made;
  }

  /** A refill tries to make what is missing to the pool size, adds what it makes at the end, and
      recomputes the total; a full queue is left alone. */
  lemma {:induction false} RefillLaw(p: Pool, ups: seq<bool>)
    requires |ups| == if p.poolSize > |p.available| then p.poolSize - |p.available| else 0
    ensures var q, n := Refilled(p, ups), Successes(ups);
      && q.available == p.available + Fresh(p.created, n, p.usingStandby)
      && q.reconnects == p.reconnects + n && q.active == p.active && q.failed == p.failed
      && (ups != [] ==> q.total == |q.available| + q.active) && (ups == [] ==> q == p)
      && q.standby == p.standby && q.usingStandby == p.usingStandby
  {
    CreatedManyLaw(p, p.usingStandby, ups);
    hide CreatedMany;
    if ups == [] {
      FreshNone(p.created, p.usingStandby);
      assert p.available + [] == p.available;
    }
    hide Fresh;
  }

  lemma {:induction false} FreshNone(created: nat, useStandby: bool)
    ensures Fresh(created, 0, useStandby) == []
  {
  }

  /** The locked part of a failback: with a healthy probe and at least one connect it serves new
      master connections alone; otherwise the queues stay as they are. The probe uses up a number. */
  lemma {:induction false} FailbackLaw(p: Pool, probeUp: bool, probeHealthy: bool, ups: seq<bool>)
    ensures var (q, ok) := FailbackCompleted(p, probeUp, probeHealthy, ups);
      var switched := probeUp && probeHealthy && Successes(ups) > 0;
      && (ok <==> probeUp && probeHealthy)
      && q.available == (if switched then Fresh(p.created + 1, Successes(ups), false) else p.available)
      && (q.usingStandby <==> p.usingStandby && !switched)
      && q.standby == p.standby && q.active == p.active && q.total == p.total && q.failed == p.failed
  {
    var q := Created(p, false, probeUp).0;
    CreatedManyLaw(q, false, ups);
    FreshSize(q.created, Successes(ups));
    hide CreatedMany, Fresh, Successes;
  }

  lemma {:induction false} FreshSize(created: nat, n: nat)
    ensures |Fresh(created, n, false)| == n
  {
  }

  /** What the unlocked look decides, and what follows when nobody interrupts: a failover goes on
      exactly when there is a standby not yet in use, and has then exchanged the queues; it reports
      failure at once exactly without a standby. A failback goes on exactly from the standby. */
  lemma {:induction false} AskLaw(m: Machine, t: nat)
    requires t !in m.switching
    ensures var p, onward := m.pool, m.pool.hasStandby && !m.pool.usingStandby;
      && (FailoverAsked(p) == Proceed <==> onward)
      && (FailoverAsked(p) == Answered(false) <==> !p.hasStandby)
      && (FailbackAsked(p) == if p.usingStandby then Proceed else Answered(true))
      && FailedOver(p).available == (if onward then p.standby else p.available)
      && FailedOver(p).standby == (if onward then p.available else p.standby)
      && (FailedOver(p).usingStandby <==> p.usingStandby || p.hasStandby)
      && Step(m, AskFailover(t)) == (if onward then m.(switching := m.switching[t := ToStandby]) else m)
      && Step(m, AskFailback(t)) == (if p.usingStandby then m.(switching := m.switching[t := ToMaster]) else m)
  {
  }

  // ------------------------------------------------------- checking out

  /** The health found decides what the second part of an acquisition leases: the connection taken
      if it is healthy; if not, a new one to the instance in use when a connect succeeds, and
      nothing otherwise. A failure is counted exactly for an unhealthy one. */
  lemma {:induction false} CheckOutLaw(m: Machine, t: nat, h: nat, healthy: bool, up: bool)
    requires Inv(m) && Enabled(m, Finish(t, h, healthy, up))
    ensures var n, taken := Step(m, Finish(t, h, healthy, up)), m.inFlight[t];
      var v := n.handles[h];
      && (v.Live() && v.client == Some(taken) <==> healthy)
      && (!healthy && up ==> v.Live() && v.client == Some(Conn(m.pool.created, m.pool.usingStandby)))
      && (!healthy && !up ==> !v.Live() && v.client == None)
      && n.pool.failed == m.pool.failed + (if healthy then 0 else 1)
      && n.pool.total == m.pool.total + (if !healthy && up then 1 else 0)
      && n.pool.active == m.pool.active - (if !healthy && !up then 1 else 0)
      && n.pool.available == m.pool.available && t !in n.inFlight
  {
    Placed(m);
    hide Inv;
  }

  // ------------------------------------------------------- places

  /** The connection is queued, or held by a thread or a live handle. */
  ghost predicate Somewhere(m: Machine, c: Conn) {
    || c in m.pool.available || c in m.pool.standby
    || (exists t :: t in m.inFlight && m.inFlight[t] == c)
    || (exists h :: h in m.handles && m.handles[h].Live() && m.handles[h].client.value == c)
  }

  /** No connection in two places, place by place. */
  ghost predicate OnePlaceEach(m: Machine) {
    && Distinct(m.pool.available) && (forall c :: c in m.pool.available ==> c !in m.pool.standby)
    && (forall t :: t in m.inFlight ==> Unqueued(m, m.inFlight[t]))
    && (forall h :: h in m.handles && m.handles[h].Live() ==> Unqueued(m, m.handles[h].client.value))
    && (forall t, u :: t in m.inFlight && u in m.inFlight && t != u ==> m.inFlight[t] != m.inFlight[u])
    && (forall t, h :: t in m.inFlight && h in m.handles && m.handles[h].Live()
          ==> m.inFlight[t] != m.handles[h].client.value)
    && (forall g, h :: g in m.handles && h in m.handles && m.handles[g].Live() && m.handles[h].Live() && g != h
          ==> m.handles[g].client.value != m.handles[h].client.value)
  }

  ghost predicate Unqueued(m: Machine, c: Conn) {
    c !in m.pool.available && c !in m.pool.standby && c.id < m.pool.created
  }

  lemma {:induction false} HolderIs(m: Machine, k: Holder)
    requires Inv(m)
    ensures var held := Held(m);
      && (k in held <==> if k.InThread? then k.t in m.inFlight else k.h in m.handles && m.handles[k.h].Live())
      && (k in held ==>
            && held[k] == (if k.InThread? then m.inFlight[k.t] else m.handles[k.h].client.value)
            && Unqueued(m, held[k]))
  {
    HeldAt(m.inFlight, m.handles, k);
    hide HeldBy, LeasesBalance;
    var held := Held(m);
    if k in held {
      assert held[k] !in m.pool.available + m.pool.standby;
    }
  }

  lemma {:induction false} TwoHolders(m: Machine, k: Holder, l: Holder)
    requires Inv(m) && k in Held(m) && l in Held(m) && k != l
    ensures Held(m)[k] != Held(m)[l]
  {
    hide HeldBy, LeasesBalance;
  }

  lemma {:induction false} Placed(m: Machine)
    requires Inv(m)
    ensures OnePlaceEach(m)
  {
    DistinctParts(m.pool.available, m.pool.standby);
    hide Inv, Held, Distinct, Unqueued;
    forall t | t in m.inFlight ensures Unqueued(m, m.inFlight[t]) { HolderIs(m, InThread(t)); }
    forall h | h in m.handles && m.handles[h].Live() ensures Unqueued(m, m.handles[h].client.value) {
      HolderIs(m, InHandle(h));
    }
    forall t, u | t in m.inFlight && u in m.inFlight && t != u ensures m.inFlight[t] != m.inFlight[u] {
      HolderIs(m, InThread(t));
      HolderIs(m, InThread(u));
      TwoHolders(m, InThread(t), InThread(u));
    }
    forall t, h | t in m.inFlight && h in m.handles && m.handles[h].Live()
      ensures m.inFlight[t] != m.handles[h].client.value
    {
      HolderIs(m, InThread(t));
      HolderIs(m, InHandle(h));
      TwoHolders(m, InThread(t), InHandle(h));
    }
    forall g, h | g in m.handles && h in m.handles && m.handles[g].Live() && m.handles[h].Live() && g != h
      ensures m.handles[g].client.value != m.handles[h].client.value
    {
      HolderIs(m, InHandle(g));
      HolderIs(m, InHandle(h));
      TwoHolders(m, InHandle(g), InHandle(h));
    }
  }

  // ------------------------------------------------------- found unhealthy, gone for good

  /** The connections a step finds unhealthy. */
  ghost predicate FoundUnhealthy(m: Machine, op: Op, c: Conn)
    requires Enabled(m, op)
  {
    match op
    case Finish(t, _, healthy, _) => !healthy && m.inFlight[t] == c
    case Release(h, healthy) => !healthy && m.handles[h].Live() && m.handles[h].client.value == c
    case Destroy(h, healthy) => !healthy && m.handles[h].Live() && m.handles[h].client.value == c
    case MoveAssign(s, t, healthy) =>
      s != t && !healthy && m.handles[t].Live() && m.handles[t].client.value == c
    case Test(results) => exists i :: 0 <= i < |results| && !results[i] && m.pool.available[i] == c
    case _ => false
  }

  /** The connection was made before and is nowhere any more. */
  ghost predicate Gone(m: Machine, c: Conn) {
    c.id < m.pool.created && !Somewhere(m, c)
  }

  /** A test keeps a connection exactly when it was found healthy, and keeps the order. */
  lemma {:induction false} TestLaw(conns: seq<Conn>, healthy: seq<bool>, c: Conn, ok: bool)
    requires |conns| == |healthy|
    ensures Healthy(conns + [c], healthy + [ok]) == Healthy(conns, healthy) + if ok then [c] else []
  {
    assert (conns + [c])[..|conns|] == conns && (healthy + [ok])[..|healthy|] == healthy;
  }

  lemma {:induction false} KeptWasHealthy(conns: seq<Conn>, healthy: seq<bool>, c: Conn)
    requires |conns| == |healthy|
    ensures c in Healthy(conns, healthy) <==> FoundHealthy(conns, healthy, c)
    decreases |conns|
  {
    if conns != [] {
      var n := |conns| - 1;
      KeptWasHealthy(conns[..n], healthy[..n], c);
      assert conns == conns[..n] + [conns[n]] && healthy == healthy[..n] + [healthy[n]];
      TestLaw(conns[..n], healthy[..n], conns[n], healthy[n]);
      hide Healthy;
      LastOrBefore(conns, healthy, c);
    }
  }

  ghost predicate FoundHealthy(conns: seq<Conn>, healthy: seq<bool>, c: Conn)
    requires |conns| == |healthy|
  {
    exists i :: 0 <= i < |conns| && conns[i] == c && healthy[i]
  }

  lemma {:induction false} LastOrBefore(conns: seq<Conn>, healthy: seq<bool>, c: Conn)
    requires |conns| == |healthy| > 0
    ensures var n := |conns| - 1;
      FoundHealthy(conns, healthy, c) <==>
        FoundHealthy(conns[..n], healthy[..n], c) || (conns[n] == c && healthy[n])
  {
    var n := |conns| - 1;
    if FoundHealthy(conns, healthy, c) {
      var i :| 0 <= i < |conns| && conns[i] == c && healthy[i];
      if i < n { assert conns[..n][i] == c && healthy[..n][i]; }
    }
    if FoundHealthy(conns[..n], healthy[..n], c) {
      var i :| 0 <= i < n && conns[..n][i] == c && healthy[..n][i];
      assert conns[i] == c && healthy[i];
    }
  }

  /** A step puts no connection anywhere that is not new or was somewhere already, and none that it
      found unhealthy. */
  lemma {:induction false} StepPlaces(m: Machine, op: Op, c: Conn)
    requires OnePlaceEach(m) && Enabled(m, op) && c.id < m.pool.created && Somewhere(Step(m, op), c)
    ensures Somewhere(m, c) && !FoundUnhealthy(m, op, c)
  {
    match op
    case Take(t) => TakePlaces(m, t, c);
    case Finish(t, h, healthy, up) => FinishPlaces(m, t, h, healthy, up, c);
    case MoveConstruct(s, t) => MovePlaces(m, s, t, c);
    case MoveAssign(s, t, healthy) =>
      if s != t {
        MovePlaces(ReleasedIn(m, t, healthy), s, t, c);
        ReleasePlaces(m, t, healthy, c);
      }
    case Release(h, healthy) => ReleasePlaces(m, h, healthy, c);
    case Destroy(h, healthy) =>
      DestroyPlaces(ReleasedIn(m, h, healthy), h, c);
      ReleasePlaces(m, h, healthy, c);
    case Test(results) => TestPlaces(m, results, c);
    case Refill(ups) => RefillPlaces(m, ups, c);
    case CompleteFailback(t, probeUp, probeHealthy, ups) => FailbackPlaces(m, op, c);
    case _ =>
  }

  lemma {:induction false} TakePlaces(m: Machine, t: nat, c: Conn)
    requires Enabled(m, Take(t)) && Somewhere(Step(m, Take(t)), c)
    ensures Somewhere(m, c)
  {
    var n := Step(m, Take(t));
    assert m.pool.available[0] in m.pool.available;
    assert forall u :: u in n.inFlight && u != t ==> u in m.inFlight && m.inFlight[u] == n.inFlight[u];
  }

  lemma {:induction false} FinishPlaces(m: Machine, t: nat, h: nat, healthy: bool, up: bool, c: Conn)
    requires OnePlaceEach(m) && Enabled(m, Finish(t, h, healthy, up)) && c.id < m.pool.created
    requires Somewhere(Step(m, Finish(t, h, healthy, up)), c)
    ensures Somewhere(m, c) && !FoundUnhealthy(m, Finish(t, h, healthy, up), c)
  {
    hide Distinct, CheckedOut;
    CheckOutParts(m.pool, m.inFlight[t], healthy, up);
    var n := Step(m, Finish(t, h, healthy, up));
    assert forall u :: u in n.inFlight ==> u != t && u in m.inFlight && m.inFlight[u] == n.inFlight[u];
    assert forall g :: g in n.handles && g != h ==> g in m.handles && m.handles[g] == n.handles[g];
  }

  lemma {:induction false} CheckOutParts(p: Pool, conn: Conn, healthy: bool, up: bool)
    ensures var (q, lease) := CheckedOut(p, conn, healthy, up);
      && q.available == p.available && q.standby == p.standby
      && (lease.Some? ==> if healthy then lease.value == conn else lease.value.id == p.created)
  {
  }

  lemma {:induction false} MovePlaces(m: Machine, s: nat, t: nat, c: Conn)
    requires s in m.handles && s != t
    requires Somewhere(m.(handles := m.handles[t := m.handles[s]][s := MOVED_FROM]), c)
    ensures Somewhere(m, c)
  {
    var after := m.handles[t := m.handles[s]][s := MOVED_FROM];
    assert forall g :: g in after && after[g].Live() ==>
      g != s && if g == t then after[g] == m.handles[s] else g in m.handles && after[g] == m.handles[g];
  }

  lemma {:induction false} ReleasePlaces(m: Machine, h: nat, healthy: bool, c: Conn)
    requires OnePlaceEach(m) && h in m.handles && Somewhere(ReleasedIn(m, h, healthy), c)
    ensures Somewhere(m, c)
    ensures !(!healthy && m.handles[h].Live() && m.handles[h].client.value == c)
  {
    hide Distinct;
    var n := ReleasedIn(m, h, healthy);
    assert forall g :: g in n.handles && g != h ==> g in m.handles && m.handles[g] == n.handles[g];
  }

  lemma {:induction false} DestroyPlaces(m: Machine, h: nat, c: Conn)
    requires h in m.handles && Somewhere(m.(handles := m.handles - {h}), c)
    ensures Somewhere(m, c)
  {
  }

  lemma {:induction false} TestPlaces(m: Machine, results: seq<bool>, c: Conn)
    requires OnePlaceEach(m) && |results| == |m.pool.available| && Somewhere(Step(m, Test(results)), c)
    ensures Somewhere(m, c) && !FoundUnhealthy(m, Test(results), c)
  {
    KeptWasHealthy(m.pool.available, results, c);
  }

  lemma {:induction false} RefillPlaces(m: Machine, ups: seq<bool>, c: Conn)
    requires |ups| == Needed(m.pool) && c.id < m.pool.created && Somewhere(Step(m, Refill(ups)), c)
    ensures Somewhere(m, c)
  {
    RefillLaw(m.pool, ups);
    hide Refilled, Needed, Successes;
  }

  lemma {:induction false} FailbackPlaces(m: Machine, op: Op, c: Conn)
    requires op.CompleteFailback? && Enabled(m, op) && c.id < m.pool.created && Somewhere(Step(m, op), c)
    ensures Somewhere(m, c)
  {
    FailbackLaw(m.pool, op.probeUp, op.probeHealthy, op.ups);
    hide FailbackCompleted, Successes;
  }

  lemma {:induction false} StepCreates(m: Machine, op: Op)
    requires Enabled(m, op)
    ensures m.pool.created <= Step(m, op).pool.created
  {
    match op
    case Refill(ups) => CreateManyFresh(m.pool, m.pool.usingStandby, ups);
    case CompleteFailback(_, probeUp, _, ups) => CreateManyFresh(Created(m.pool, false, probeUp).0, false, ups);
    case _ =>
  }

  lemma {:induction false} StepStaysGone(m: Machine, op: Op, c: Conn)
    requires Inv(m) && Enabled(m, op) && c.id < m.pool.created
    requires Gone(m, c) || FoundUnhealthy(m, op, c)
    ensures Gone(Step(m, op), c)
  {
    Placed(m);
    StepCreates(m, op);
    hide Inv, OnePlaceEach, FoundUnhealthy, Somewhere, Step;
    if Somewhere(Step(m, op), c) { StepPlaces(m, op, c); }
  }

  lemma {:induction false} StaysGone(m: Machine, ops: seq<Op>, c: Conn)
    requires Inv(m) && EnabledRun(m, ops) && Gone(m, c)
    ensures Gone(Run(m, ops), c)
    decreases |ops|
  {
    hide Inv, Gone, Step, Enabled, FoundUnhealthy;
    if ops != [] {
      StepKeepsInv(m, ops[0]);
      GoneIsOld(m, c);
      StepStaysGone(m, ops[0], c);
      StaysGone(Step(m, ops[0]), ops[1..], c);
    }
  }

  lemma {:induction false} GoneIsOld(m: Machine, c: Conn)
    requires Gone(m, c)
    ensures c.id < m.pool.created
  {
  }

  lemma {:induction false} FoundIsOld(m: Machine, op: Op, c: Conn)
    requires OnePlaceEach(m) && Enabled(m, op) && FoundUnhealthy(m, op, c)
    requires forall x :: x in m.pool.available ==> x.id < m.pool.created
    ensures c.id < m.pool.created
  {
  }

  /** A connection found unhealthy, at checkout, on its return or in a test, is in no queue and held
      by no one from then on, in every continuation. */
  lemma {:induction false} UnhealthyNeverReturns(m: Machine, op: Op, ops: seq<Op>, c: Conn)
    requires Inv(m) && Enabled(m, op) && FoundUnhealthy(m, op, c) && EnabledRun(Step(m, op), ops)
    ensures Gone(Run(Step(m, op), ops), c)
  {
    Placed(m);
    QueuedIsOld(m);
    FoundIsOld(m, op, c);
    hide Inv, Gone, Step, Enabled, FoundUnhealthy, OnePlaceEach, Run, EnabledRun;
    StepKeepsInv(m, op);
    StepStaysGone(m, op, c);
    StaysGone(Step(m, op), ops, c);
  }

  lemma {:induction false} QueuedIsOld(m: Machine)
    requires Inv(m)
    ensures forall x :: x in m.pool.available ==> x.id < m.pool.created
  {
    forall x | x in m.pool.available ensures x.id < m.pool.created {
      assert x in m.pool.available + m.pool.standby;
    }
  }

  /** How many connections a step finds unhealthy. */
  function Failures(m: Machine, op: Op): nat
    requires Enabled(m, op)
  {
    match op
    case Finish(_, _, healthy, _) => if healthy then 0 else 1
    case Release(h, healthy) => if !healthy && m.handles[h].Live() then 1 else 0
    case Destroy(h, healthy) => if !healthy && m.handles[h].Live() then 1 else 0
    case MoveAssign(s, t, healthy) => if s != t && !healthy && m.handles[t].Live() then 1 else 0
    case Test(results) => SuccessesAtMost(results); |results| - Successes(results)
    case _ => 0
  }

  lemma {:induction false} KeptCount(conns: seq<Conn>, healthy: seq<bool>)
    requires |conns| == |healthy|
    ensures |Healthy(conns, healthy)| == Successes(healthy)
    decreases |conns|
  {
    if conns != [] { KeptCount(conns[..|conns| - 1], healthy[..|conns| - 1]); }
  }

  /** The failure counter counts the connections found unhealthy, and nothing else. */
  lemma {:induction false} StepCountsFailures(m: Machine, op: Op)
    requires Enabled(m, op)
    ensures Step(m, op).pool.failed == m.pool.failed + Failures(m, op)
  {
    match op
    case Test(results) => KeptCount(m.pool.available, results);
    case Refill(ups) => RefillLaw(m.pool, ups);
    case CompleteFailback(_, probeUp, probeHealthy, ups) => FailbackLaw(m.pool, probeUp, probeHealthy, ups);
    case _ =>
  }

  function FailuresIn(m: Machine, ops: seq<Op>): nat
    requires EnabledRun(m, ops)
    decreases |ops|
  {
    if ops == [] then 0 else Failures(m, ops[0]) + FailuresIn(Step(m, ops[0]), ops[1..])
  }

  lemma {:induction false} FailuresCounted(m: Machine, ops: seq<Op>)
    requires EnabledRun(m, ops)
    ensures Run(m, ops).pool.failed == m.pool.failed + FailuresIn(m, ops)
    decreases |ops|
  {
    hide Step, Failures, Enabled;
    if ops != [] {
      StepCountsFailures(m, ops[0]);
      FailuresCounted(Step(m, ops[0]), ops[1..]);
    }
  }

  // ------------------------------------------------------- first in, first out

  /** What a step adds at the end of the queue. */
  function Entering(m: Machine, op: Op): seq<Conn>
    requires Enabled(m, op)
  {
    match op
    case Refill(ups) => Fresh(m.pool.created, Successes(ups), m.pool.usingStandby)
    case _ => if GivenBack(m, op).Some? then [GivenBack(m, op).value] else []
  }

  /** What it takes from the front. */
  function Leaving(m: Machine, op: Op): seq<Conn>
    requires Enabled(m, op)
  {
    if op.Take? then [m.pool.available[0]] else []
  }

  /** Steps that neither test nor exchange the queue. */
  predicate Orderly(op: Op) {
    !op.Test? && !op.CompleteFailover? && !op.CompleteFailback?
  }

  /** The queue gives up what leaves and takes what enters. */
  ghost predicate Queues(m: Machine, op: Op)
    requires Enabled(m, op)
  {
    m.pool.available + Entering(m, op) == Leaving(m, op) + Step(m, op).pool.available
  }

  lemma {:induction false} StepQueues(m: Machine, op: Op)
    requires Enabled(m, op) && Orderly(op)
    ensures Queues(m, op)
    ensures op.Take? ==> Step(m, op).inFlight == m.inFlight[op.thread := m.pool.available[0]]
  {
    hide Queues, Refilled, ReleasedIn, CheckedOut;
    match op
    case Take(t) => TakeQueues(m, t);
    case Refill(ups) => RefillQueues(m, ups);
    case Release(h, healthy) => GivingQueues(m, op, h, healthy);
    case Destroy(h, healthy) => GivingQueues(m, op, h, healthy);
    case MoveAssign(s, t, healthy) => if s == t { IdleQueues(m, op); } else { GivingQueues(m, op, t, healthy); }
    case Finish(t, _, healthy, up) =>
      CheckOutQueues(m.pool, m.inFlight[t], healthy, up);
      IdleQueues(m, op);
    case _ => IdleQueues(m, op);
  }

  lemma {:induction false} TakeQueues(m: Machine, t: nat)
    requires Enabled(m, Take(t))
    ensures Queues(m, Take(t))
  {
  }

  lemma {:induction false} RefillQueues(m: Machine, ups: seq<bool>)
    requires Enabled(m, Refill(ups))
    ensures Queues(m, Refill(ups))
  {
    RefillLaw(m.pool, ups);
    hide Refilled, Fresh, Successes;
  }

  lemma {:induction false} IdleQueues(m: Machine, op: Op)
    requires Enabled(m, op) && Step(m, op).pool.available == m.pool.available
    requires Entering(m, op) == [] == Leaving(m, op)
    ensures Queues(m, op)
  {
    hide Step, Entering, Leaving;
  }

  lemma {:induction false} GivingQueues(m: Machine, op: Op, h: nat, healthy: bool)
    requires Enabled(m, op) && h in m.handles && Leaving(m, op) == []
    requires Step(m, op).pool.available == ReleasedIn(m, h, healthy).pool.available
    requires Entering(m, op) == if healthy && m.handles[h].Live() then [m.handles[h].client.value] else []
    ensures Queues(m, op)
  {
    ReleaseQueues(m, h, healthy);
    hide Step, Entering, Leaving, ReleasedIn;
  }

  lemma {:induction false} ReleaseQueues(m: Machine, h: nat, healthy: bool)
    requires h in m.handles
    ensures ReleasedIn(m, h, healthy).pool.available
      == m.pool.available + if healthy && m.handles[h].Live() then [m.handles[h].client.value] else []
  {
  }

  lemma {:induction false} CheckOutQueues(p: Pool, conn: Conn, healthy: bool, up: bool)
    ensures CheckedOut(p, conn, healthy, up).0.available == p.available
  {
  }

  function EnteringIn(m: Machine, ops: seq<Op>): seq<Conn>
    requires EnabledRun(m, ops)
    decreases |ops|
  {
    if ops == [] then [] else Entering(m, ops[0]) + EnteringIn(Step(m, ops[0]), ops[1..])
  }

  function LeavingIn(m: Machine, ops: seq<Op>): seq<Conn>
    requires EnabledRun(m, ops)
    decreases |ops|
  {
    if ops == [] then [] else Leaving(m, ops[0]) + LeavingIn(Step(m, ops[0]), ops[1..])
  }

  /** Over every run without tests and switches, connections are taken in the order in which they
      were queued, given back and made. */
  lemma {:induction false} FirstInFirstOut(m: Machine, ops: seq<Op>)
    requires EnabledRun(m, ops) && forall op :: op in ops ==> Orderly(op)
    ensures m.pool.available + EnteringIn(m, ops) == LeavingIn(m, ops) + Run(m, ops).pool.available
    decreases |ops|
  {
    hide Step, Entering, Leaving, Enabled, Orderly;
    if ops != [] {
      var op, n := ops[0], Step(m, ops[0]);
      assert op in ops;
      StepQueues(m, op);
      FirstInFirstOut(n, ops[1..]);
      var e, f, x, y := Entering(m, op), EnteringIn(n, ops[1..]), Leaving(m, op), LeavingIn(n, ops[1..]);
      assert m.pool.available + (e + f) == (m.pool.available + e) + f == (x + n.pool.available) + f
        == x + (n.pool.available + f) == x + (y + Run(n, ops[1..]).pool.available);
    }
  }

  lemma {:induction false} SuccessesAtMost(results: seq<bool>)
    ensures Successes(results) <= |results|
    decreases |results|
  {
    if results != [] { SuccessesAtMost(results[..|results| - 1]); }
  }
}
