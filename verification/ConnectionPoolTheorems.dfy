/** Who owns which connection, over every interleaving of pool users. */
module ConnectionPoolTheorems {
  import opened Decimal
  import opened ConnectionPool

  datatype Direction = ToStandby | ToMaster

  /** The pool, the threads between the two parts of `getConnection`, the handles that exist,
      how often each connection was leased and given back so far, and the threads between the
      two parts of a failover or failback. */
  datatype Machine = Machine(
    pool: Pool, inFlight: map<nat, Conn>, handles: map<nat, Handle>,
    issued: multiset<Conn>, returned: multiset<Conn>, switching: map<nat, Direction>)

  /** One atomic step of some thread. Threads and handles are numbered. */
  datatype Op =
    | Take(thread: nat)
    | Finish(thread: nat, handle: nat, healthy: bool, up: bool)
    | MoveConstruct(source: nat, target: nat)
    | MoveAssign(source: nat, target: nat, healthy: bool)
    | Release(handle: nat, healthy: bool)
    | Destroy(handle: nat, healthy: bool)
    | Test(results: seq<bool>)
    | Refill(ups: seq<bool>)
    | AskFailover(thread: nat)
    | CompleteFailover(thread: nat)
    | AskFailback(thread: nat)
    | CompleteFailback(thread: nat, probeUp: bool, probeHealthy: bool, ups: seq<bool>)

  /** The step can be taken: it names existing handles, new ones where one is constructed, and
      a thread takes one connection and makes one switch at a time. */
  predicate Enabled(m: Machine, op: Op) {
    match op
    case Take(t) => t !in m.inFlight && m.pool.available != []
    case Finish(t, h, _, _) => t in m.inFlight && h !in m.handles
    case MoveConstruct(s, t) => s in m.handles && t !in m.handles
    case MoveAssign(s, t, _) => s in m.handles && t in m.handles
    case Release(h, _) => h in m.handles
    case Destroy(h, _) => h in m.handles
    case Test(results) => |results| == |m.pool.available|
    case Refill(ups) => |ups| == Needed(m.pool)
    case AskFailover(t) => t !in m.switching
    case CompleteFailover(t) => t in m.switching && m.switching[t] == ToStandby
    case AskFailback(t) => t !in m.switching
    case CompleteFailback(t, _, _, _) => t in m.switching && m.switching[t] == ToMaster
  }

  function Bag(conn: Option<Conn>): multiset<Conn> {
    if conn.Some? then multiset{conn.value} else multiset{}
  }

  function ReleasedIn(m: Machine, h: nat, healthy: bool): Machine
    requires h in m.handles
  {
    var (p, v) := Released(m.pool, m.handles[h], healthy);
    m.(pool := p, handles := m.handles[h := v],
       returned := m.returned + if m.handles[h].Live() then Bag(m.handles[h].client) else multiset{})
  }

  function Step(m: Machine, op: Op): Machine
    requires Enabled(m, op)
  {
    match op
    case Take(t) => m.(pool := Popped(m.pool), inFlight := m.inFlight[t := m.pool.available[0]])
    case Finish(t, h, healthy, up) =>
      var (p, lease) := CheckedOut(m.pool, m.inFlight[t], healthy, up);
      Machine(p, m.inFlight - {t}, m.handles[h := Leased(lease)], m.issued + Bag(lease), m.returned, m.switching)
    case MoveConstruct(s, t) => m.(handles := m.handles[t := m.handles[s]][s := MOVED_FROM])
    case MoveAssign(s, t, healthy) =>
      if s == t then m
      else
        var n := ReleasedIn(m, t, healthy);
        n.(handles := n.handles[t := n.handles[s]][s := MOVED_FROM])
    case Release(h, healthy) => ReleasedIn(m, h, healthy)
    case Destroy(h, healthy) =>
      var n := ReleasedIn(m, h, healthy);
      n.(handles := n.handles - {h})
    case Test(results) => m.(pool := Tested(m.pool, results))
    case Refill(ups) => m.(pool := Refilled(m.pool, ups))
    case AskFailover(t) =>
      if FailoverAsked(m.pool).Proceed? then m.(switching := m.switching[t := ToStandby]) else m
    case CompleteFailover(t) => m.(pool := SwitchedToStandby(m.pool), switching := m.switching - {t})
    case AskFailback(t) =>
      if FailbackAsked(m.pool).Proceed? then m.(switching := m.switching[t := ToMaster]) else m
    case CompleteFailback(t, probeUp, probeHealthy, ups) =>
      m.(pool := FailbackCompleted(m.pool, probeUp, probeHealthy, ups).0, switching := m.switching - {t})
  }

  ghost predicate EnabledRun(m: Machine, ops: seq<Op>)
    decreases |ops|
  {
    ops == [] || (Enabled(m, ops[0]) && EnabledRun(Step(m, ops[0]), ops[1..]))
  }

  function Run(m: Machine, ops: seq<Op>): Machine
    requires EnabledRun(m, ops)
    decreases |ops|
  {
    if ops == [] then m else Run(Step(m, ops[0]), ops[1..])
  }

  // ---------------------------------------------------------------- ownership

  /** Who keeps a connection out of the queues. */
  datatype Holder = InThread(t: nat) | InHandle(h: nat)

  /** The connections out of the queues, each under its holder. */
  ghost function HeldBy(inFlight: map<nat, Conn>, handles: map<nat, Handle>): map<Holder, Conn> {
    map k: Holder |
      k in (set t | t in inFlight :: InThread(t)) + (set h | h in handles && handles[h].Live() :: InHandle(h))
      :: if k.InThread? then inFlight[k.t] else handles[k.h].client.value
  }

  ghost function Held(m: Machine): map<Holder, Conn> {
    HeldBy(m.inFlight, m.handles)
  }

  ghost predicate Distinct(s: seq<Conn>) {
    forall i, j :: 0 <= i < j < |s| ==> s[i] != s[j]
  }

  /** No connection is in two places, none is older than its number says, and the counter of
      active connections is the number held. */
  ghost predicate Exclusive(p: Pool, held: map<Holder, Conn>) {
    && Distinct(p.available + p.standby)
    && (forall c :: c in p.available + p.standby ==> c.id < p.created)
    && (forall k :: k in held ==> held[k].id < p.created && held[k] !in p.available + p.standby)
    && (forall k, l :: k in held && l in held && k != l ==> held[k] != held[l])
    && p.active == |held|
  }

  ghost predicate IsLeased(held: map<Holder, Conn>, c: Conn) {
    exists h :: InHandle(h) in held && held[InHandle(h)] == c
  }

  /** Every lease is given back at most once: what was leased is what was given back plus what
      some handle still has to give back. */
  ghost predicate LeasesBalance(held: map<Holder, Conn>, issued: multiset<Conn>, returned: multiset<Conn>) {
    forall c :: issued[c] == returned[c] + if IsLeased(held, c) then 1 else 0
  }

  ghost predicate Inv(m: Machine) {
    Exclusive(m.pool, Held(m)) && LeasesBalance(Held(m), m.issued, m.returned)
  }

  // -- moves on a pool and its held connections

  lemma {:induction false} TakeExclusive(p: Pool, held: map<Holder, Conn>, k: Holder)
    requires Exclusive(p, held) && p.available != [] && k !in held
    ensures Exclusive(Popped(p), held[k := p.available[0]])
  {
    var all := p.available + p.standby;
    var q := Popped(p);
    assert all[0] == p.available[0] && q.available + q.standby == all[1..];
    assert held[k := p.available[0]].Keys == held.Keys + {k};
  }

  /** Letting go of a connection. */
  lemma {:induction false} DropExclusive(p: Pool, held: map<Holder, Conn>, k: Holder)
    requires Exclusive(p, held) && k in held
    ensures Exclusive(p.(active := p.active - 1), held - {k})
    ensures held[k].id < p.created && held[k] !in p.available + p.standby
    ensures forall l :: l in held - {k} ==> (held - {k})[l] != held[k]
  {
    assert (held - {k}).Keys == held.Keys - {k};
  }

  lemma {:induction false} EnqueueExclusive(p: Pool, held: map<Holder, Conn>, c: Conn)
    requires Exclusive(p, held) && c.id < p.created && c !in p.available + p.standby
    requires forall k :: k in held ==> held[k] != c
    ensures Exclusive(p.(available := p.available + [c]), held)
  {
    var all := p.available + p.standby;
    var q := p.available + [c] + p.standby;
    forall i, j | 0 <= i < j < |q| ensures q[i] != q[j] {
      var n := |p.available|;
      var i', j' := if i < n then i else i - 1, if j < n then j else j - 1;
      assert i == n || q[i] == all[i'];
      assert j == n || q[j] == all[j'];
    }
    forall x | x in q ensures x == c || x in all { }
  }

  /** Handing a fresh or dropped connection to a holder. */
  lemma {:induction false} HoldExclusive(p: Pool, held: map<Holder, Conn>, k: Holder, c: Conn)
    requires Exclusive(p, held) && k !in held && c.id < p.created && c !in p.available + p.standby
    requires forall l :: l in held ==> held[l] != c
    ensures Exclusive(p.(active := p.active + 1), held[k := c])
  {
    assert held[k := c].Keys == held.Keys + {k};
  }

  lemma {:induction false} RenameExclusive(p: Pool, held: map<Holder, Conn>, k: Holder, l: Holder)
    requires Exclusive(p, held) && k in held && l !in held
    ensures Exclusive(p, (held - {k})[l := held[k]])
  {
    DropExclusive(p, held, k);
    HoldExclusive(p.(active := p.active - 1), held - {k}, l, held[k]);
  }

  /** A new connection is in no place yet. */
  lemma {:induction false} CreateExclusive(p: Pool, held: map<Holder, Conn>, useStandby: bool, up: bool)
    requires Exclusive(p, held)
    ensures var (q, conn) := Created(p, useStandby, up);
      && Exclusive(q, held)
      && (conn.Some? ==>
            && conn.value.id < q.created && conn.value !in q.available + q.standby
            && forall k :: k in held ==> held[k] != conn.value)
  {
  }

  /** Connections made in one go are new and all different. */
  lemma {:induction false} CreateManyFresh(p: Pool, useStandby: bool, ups: seq<bool>)
    ensures var (q, made) := CreatedMany(p, useStandby, ups);
      && p.created <= q.created && q == p.(created := q.created) && Distinct(made)
      && forall i :: 0 <= i < |made| ==> p.created <= made[i].id < q.created
    decreases |ups|
  {
    if ups != [] { CreateManyFresh(p, useStandby, ups[..|ups| - 1]); }
  }

  lemma {:induction false} AppendFreshExclusive(p: Pool, held: map<Holder, Conn>, made: seq<Conn>, created: nat)
    requires Exclusive(p, held) && p.created <= created && Distinct(made)
    requires forall i :: 0 <= i < |made| ==> p.created <= made[i].id < created
    ensures Exclusive(p.(available := p.available + made, created := created), held)
    decreases |made|
  {
    if made == [] {
      assert p.available + made == p.available;
    } else {
      var n := |made| - 1;
      AppendFreshExclusive(p, held, made[..n], created);
      var q := p.(available := p.available + made[..n], created := created);
      forall x | x in q.available + q.standby ensures x != made[n] {
        if x in made[..n] {
          var i :| 0 <= i < n && made[i] == x;
        } else {
          assert x in p.available + p.standby;
        }
      }
      EnqueueExclusive(q, held, made[n]);
      assert q.available + [made[n]] == p.available + made;
    }
  }

  /** Emptying the available queue. */
  lemma {:induction false} EmptiedExclusive(p: Pool, held: map<Holder, Conn>)
    requires Exclusive(p, held)
    ensures Exclusive(p.(available := []), held)
  {
    DistinctParts(p.available, p.standby);
    assert [] + p.standby == p.standby;
    FewerExclusive(p, held, []);
  }

  lemma {:induction false} ReplaceFreshExclusive(p: Pool, held: map<Holder, Conn>, made: seq<Conn>, created: nat)
    requires Exclusive(p, held) && p.created <= created && Distinct(made)
    requires forall i :: 0 <= i < |made| ==> p.created <= made[i].id < created
    ensures Exclusive(p.(available := made, created := created), held)
  {
    EmptiedExclusive(p, held);
    hide Exclusive;
    AppendFreshExclusive(p.(available := []), held, made, created);
    assert [] + made == made;
  }

  lemma {:induction false} HealthyKeepsOrder(conns: seq<Conn>, healthy: seq<bool>)
    requires |conns| == |healthy| && Distinct(conns)
    ensures Distinct(Healthy(conns, healthy))
    ensures forall c :: c in Healthy(conns, healthy) ==> c in conns
    decreases |conns|
  {
    if conns != [] {
      var n := |conns| - 1;
      HealthyKeepsOrder(conns[..n], healthy[..n]);
      var kept := Healthy(conns[..n], healthy[..n]);
      forall i | 0 <= i < |kept| ensures kept[i] != conns[n] && kept[i] in conns {
        assert kept[i] in kept;
        var j :| 0 <= j < n && conns[..n][j] == kept[i];
        assert conns[j] == kept[i];
      }
    }
  }

  lemma {:induction false} DistinctParts(a: seq<Conn>, b: seq<Conn>)
    requires Distinct(a + b)
    ensures Distinct(a) && Distinct(b) && forall x :: x in a ==> x !in b
  {
    var all := a + b;
    assert all[..|a|] == a && all[|a|..] == b;
    forall i, j | 0 <= i < |a| && 0 <= j < |b| ensures a[i] != b[j] {
      assert all[i] == a[i] && all[|a| + j] == b[j];
    }
    forall i, j | 0 <= i < j < |b| ensures b[i] != b[j] {
      assert all[|a| + i] == b[i] && all[|a| + j] == b[j];
    }
  }

  lemma {:induction false} DistinctWhole(a: seq<Conn>, b: seq<Conn>)
    requires Distinct(a) && Distinct(b) && forall x :: x in a ==> x !in b
    ensures Distinct(a + b)
  {
    var all := a + b;
    forall i, j | 0 <= i < j < |all| ensures all[i] != all[j] {
      assert all[i] == if i < |a| then a[i] else b[i - |a|];
      assert all[j] == if j < |a| then a[j] else b[j - |a|];
      assert i < |a| <= j ==> a[i] in a && b[j - |a|] in b;
    }
  }

  /** Fewer connections in the queues. */
  lemma {:induction false} FewerExclusive(p: Pool, held: map<Holder, Conn>, kept: seq<Conn>)
    requires Exclusive(p, held) && Distinct(kept + p.standby)
    requires forall c :: c in kept ==> c in p.available
    ensures Exclusive(p.(available := kept), held)
  {
    forall x | x in kept + p.standby ensures x in p.available + p.standby {
      assert x in kept || x in p.standby;
    }
  }

  lemma {:induction false} TestExclusive(p: Pool, held: map<Holder, Conn>, healthy: seq<bool>)
    requires Exclusive(p, held) && |healthy| == |p.available|
    ensures Exclusive(Tested(p, healthy), held)
  {
    var kept := Healthy(p.available, healthy);
    DistinctParts(p.available, p.standby);
    HealthyKeepsOrder(p.available, healthy);
    DistinctWhole(kept, p.standby);
    FewerExclusive(p, held, kept);
    FailedCounterIsFree(p.(available := kept), held, p.failed + |p.available| - |kept|);
    hide Exclusive;
  }

  lemma {:induction false} SwapExclusive(p: Pool, held: map<Holder, Conn>)
    requires Exclusive(p, held)
    ensures Exclusive(SwitchedToStandby(p), held)
  {
    DistinctParts(p.available, p.standby);
    DistinctWhole(p.standby, p.available);
    hide Distinct;
    forall x | x in p.standby + p.available ensures x in p.available + p.standby {
      assert x in p.standby || x in p.available;
    }
  }

  // -- moves on the leases

  /** Threads hold no leases. */
  lemma {:induction false} ThreadsHoldNoLease(held: map<Holder, Conn>, t: nat, c: Conn, x: Conn)
    ensures IsLeased(held[InThread(t) := c], x) == IsLeased(held, x)
    ensures IsLeased(held - {InThread(t)}, x) == IsLeased(held, x)
  {
    forall h: nat ensures InHandle(h) != InThread(t) { }
    if IsLeased(held, x) {
      var h :| InHandle(h) in held && held[InHandle(h)] == x;
      assert InHandle(h) in held[InThread(t) := c] && InHandle(h) in held - {InThread(t)};
    }
  }

  lemma {:induction false} LeaseBalances(
      held: map<Holder, Conn>, issued: multiset<Conn>, returned: multiset<Conn>, h: nat, c: Conn)
    requires LeasesBalance(held, issued, returned)
    requires InHandle(h) !in held && forall k :: k in held ==> held[k] != c
    ensures LeasesBalance(held[InHandle(h) := c], issued + multiset{c}, returned)
  {
    var after := held[InHandle(h) := c];
    assert after[InHandle(h)] == c;
    forall x | x != c ensures IsLeased(after, x) == IsLeased(held, x) {
      if IsLeased(held, x) {
        var g :| InHandle(g) in held && held[InHandle(g)] == x;
        assert after[InHandle(g)] == x;
      }
    }
  }

  lemma {:induction false} RenameBalances(
      held: map<Holder, Conn>, issued: multiset<Conn>, returned: multiset<Conn>, g: nat, h: nat)
    requires LeasesBalance(held, issued, returned)
    requires InHandle(g) in held && InHandle(h) !in held
    ensures LeasesBalance((held - {InHandle(g)})[InHandle(h) := held[InHandle(g)]], issued, returned)
  {
    var after := (held - {InHandle(g)})[InHandle(h) := held[InHandle(g)]];
    forall x ensures IsLeased(after, x) == IsLeased(held, x) {
      if IsLeased(held, x) {
        var k :| InHandle(k) in held && held[InHandle(k)] == x;
        assert after[InHandle(if k == g then h else k)] == x;
      }
      if IsLeased(after, x) {
        var k :| InHandle(k) in after && after[InHandle(k)] == x;
        assert held[InHandle(if k == h then g else k)] == x;
      }
    }
  }

  lemma {:induction false} ReturnBalances(
      p: Pool, held: map<Holder, Conn>, issued: multiset<Conn>, returned: multiset<Conn>, h: nat)
    requires Exclusive(p, held) && LeasesBalance(held, issued, returned) && InHandle(h) in held
    ensures LeasesBalance(held - {InHandle(h)}, issued, returned + multiset{held[InHandle(h)]})
  {
    var after := held - {InHandle(h)};
    forall x ensures IsLeased(after, x) == (IsLeased(held, x) && x != held[InHandle(h)]) {
      if IsLeased(held, x) && x != held[InHandle(h)] {
        var k :| InHandle(k) in held && held[InHandle(k)] == x;
        assert after[InHandle(k)] == x;
      }
    }
  }

  // -- what is held after a step

  lemma {:induction false} HeldAfterTake(inFlight: map<nat, Conn>, handles: map<nat, Handle>, t: nat, c: Conn)
    requires t !in inFlight
    ensures HeldBy(inFlight[t := c], handles) == HeldBy(inFlight, handles)[InThread(t) := c]
  {
  }

  lemma {:induction false} HeldAfterLanding(inFlight: map<nat, Conn>, handles: map<nat, Handle>, t: nat)
    requires t in inFlight
    ensures HeldBy(inFlight - {t}, handles) == HeldBy(inFlight, handles) - {InThread(t)}
    ensures InThread(t) in HeldBy(inFlight, handles) && HeldBy(inFlight, handles)[InThread(t)] == inFlight[t]
  {
  }

  /** Who holds what, holder by holder. */
  lemma {:induction false} HeldAt(inFlight: map<nat, Conn>, handles: map<nat, Handle>, k: Holder)
    ensures var held := HeldBy(inFlight, handles);
      && (k in held <==> if k.InThread? then k.t in inFlight else k.h in handles && handles[k.h].Live())
      && (k in held ==> held[k] == if k.InThread? then inFlight[k.t] else handles[k.h].client.value)
  {
  }

  lemma {:induction false} HeldAfterGain(inFlight: map<nat, Conn>, handles: map<nat, Handle>, h: nat, v: Handle)
    requires v.Live()
    ensures HeldBy(inFlight, handles[h := v]) == HeldBy(inFlight, handles)[InHandle(h) := v.client.value]
  {
    hide HeldBy;
    var before, after := HeldBy(inFlight, handles)[InHandle(h) := v.client.value], HeldBy(inFlight, handles[h := v]);
    forall k ensures (k in after <==> k in before) && (k in after ==> after[k] == before[k]) {
      HeldAt(inFlight, handles, k);
      HeldAt(inFlight, handles[h := v], k);
    }
  }

  lemma {:induction false} HeldAfterLoss(inFlight: map<nat, Conn>, handles: map<nat, Handle>, h: nat, v: Handle)
    requires !v.Live()
    ensures HeldBy(inFlight, handles[h := v]) == HeldBy(inFlight, handles) - {InHandle(h)}
  {
    hide HeldBy;
    var before, after := HeldBy(inFlight, handles) - {InHandle(h)}, HeldBy(inFlight, handles[h := v]);
    forall k ensures (k in after <==> k in before) && (k in after ==> after[k] == before[k]) {
      HeldAt(inFlight, handles, k);
      HeldAt(inFlight, handles[h := v], k);
    }
  }

  lemma {:induction false} HeldAfterSet(inFlight: map<nat, Conn>, handles: map<nat, Handle>, h: nat, v: Handle)
    ensures HeldBy(inFlight, handles[h := v]) ==
      if v.Live() then HeldBy(inFlight, handles)[InHandle(h) := v.client.value]
      else HeldBy(inFlight, handles) - {InHandle(h)}
  {
    hide HeldBy;
    if v.Live() { HeldAfterGain(inFlight, handles, h, v); } else { HeldAfterLoss(inFlight, handles, h, v); }
  }

  lemma {:induction false} HeldByHandle(inFlight: map<nat, Conn>, handles: map<nat, Handle>, h: nat)
    ensures var held := HeldBy(inFlight, handles);
      && (InHandle(h) in held <==> h in handles && handles[h].Live())
      && (InHandle(h) in held ==> held[InHandle(h)] == handles[h].client.value)
  {
  }

  lemma {:induction false} HeldAfterMove(inFlight: map<nat, Conn>, handles: map<nat, Handle>, s: nat, t: nat)
    requires s in handles && s != t && (t in handles ==> !handles[t].Live())
    ensures var held := HeldBy(inFlight, handles);
      && InHandle(t) !in held && (InHandle(s) in held <==> handles[s].Live())
      && HeldBy(inFlight, handles[t := handles[s]][s := MOVED_FROM])
         == if handles[s].Live() then (held - {InHandle(s)})[InHandle(t) := held[InHandle(s)]] else held
  {
    hide HeldBy;
    HeldByHandle(inFlight, handles, s);
    HeldByHandle(inFlight, handles, t);
    var held, moved := HeldBy(inFlight, handles), handles[t := handles[s]];
    HeldAfterSet(inFlight, handles, t, handles[s]);
    HeldAfterLoss(inFlight, moved, s, MOVED_FROM);
    if handles[s].Live() {
      MoveKey(held, InHandle(s), InHandle(t), held[InHandle(s)]);
    } else {
      assert held - {InHandle(t)} - {InHandle(s)} == held;
    }
  }

  lemma {:induction false} MoveKey(held: map<Holder, Conn>, s: Holder, t: Holder, c: Conn)
    requires s != t
    ensures held[t := c] - {s} == (held - {s})[t := c]
  {
  }

  lemma {:induction false} HeldAfterRemoval(inFlight: map<nat, Conn>, handles: map<nat, Handle>, h: nat)
    requires h in handles && !handles[h].Live()
    ensures HeldBy(inFlight, handles - {h}) == HeldBy(inFlight, handles)
  {
  }

  // -- the steps

  lemma {:induction false} TakeKeepsInv(m: Machine, t: nat)
    requires Inv(m) && Enabled(m, Take(t))
    ensures Inv(Step(m, Take(t)))
  {
    var c, k := m.pool.available[0], InThread(t);
    HeldAfterTake(m.inFlight, m.handles, t, c);
    TakeExclusive(m.pool, Held(m), k);
    forall x ensures IsLeased(Held(m)[k := c], x) == IsLeased(Held(m), x) {
      ThreadsHoldNoLease(Held(m), t, c, x);
    }
  }

  /** A thread gives up its connection, which then is in no place. */
  lemma {:induction false} ThreadDrops(
      p: Pool, held: map<Holder, Conn>, issued: multiset<Conn>, returned: multiset<Conn>, t: nat)
    requires Exclusive(p, held) && LeasesBalance(held, issued, returned) && InThread(t) in held
    ensures Exclusive(p.(active := p.active - 1), held - {InThread(t)})
    ensures LeasesBalance(held - {InThread(t)}, issued, returned)
    ensures held[InThread(t)].id < p.created && held[InThread(t)] !in p.available + p.standby
    ensures forall k :: k in held - {InThread(t)} ==> held[k] != held[InThread(t)]
  {
    DropExclusive(p, held, InThread(t));
    forall x ensures IsLeased(held - {InThread(t)}, x) == IsLeased(held, x) {
      ThreadsHoldNoLease(held, t, held[InThread(t)], x);
    }
  }

  lemma {:induction false} FailedCounterIsFree(p: Pool, held: map<Holder, Conn>, failed: nat)
    requires Exclusive(p, held)
    ensures Exclusive(p.(failed := failed), held)
  {
  }

  lemma {:induction false} TotalCounterIsFree(p: Pool, held: map<Holder, Conn>, total: int)
    requires Exclusive(p, held)
    ensures Exclusive(p.(total := total), held)
  {
  }

  /** An empty handle does not change what is held. */
  lemma {:induction false} HeldAfterFinish(m: Machine, t: nat, h: nat, lease: Option<Conn>)
    requires t in m.inFlight && h !in m.handles
    ensures InThread(t) in Held(m) && Held(m)[InThread(t)] == m.inFlight[t] && InHandle(h) !in Held(m)
      && HeldBy(m.inFlight - {t}, m.handles[h := Leased(lease)]) == AfterCheckOut(Held(m), t, h, lease)
  {
    HeldAfterLanding(m.inFlight, m.handles, t);
    HeldByHandle(m.inFlight, m.handles, h);
    HeldAfterSet(m.inFlight - {t}, m.handles, h, Leased(lease));
    hide HeldBy;
  }

  /** What is held once the thread has its answer. */
  ghost function AfterCheckOut(held: map<Holder, Conn>, t: nat, h: nat, lease: Option<Conn>): map<Holder, Conn> {
    if lease.Some? then (held - {InThread(t)})[InHandle(h) := lease.value] else held - {InThread(t)}
  }

  lemma {:induction false} CheckOutHealthy(
      p: Pool, held: map<Holder, Conn>, issued: multiset<Conn>, returned: multiset<Conn>, t: nat, h: nat)
    requires Exclusive(p, held) && LeasesBalance(held, issued, returned)
    requires InThread(t) in held && InHandle(h) !in held
    ensures var c := held[InThread(t)];
      && Exclusive(p, AfterCheckOut(held, t, h, Some(c)))
      && LeasesBalance(AfterCheckOut(held, t, h, Some(c)), issued + multiset{c}, returned)
  {
    hide Exclusive, LeasesBalance;
    var c, dropped := held[InThread(t)], p.(active := p.active - 1);
    ThreadDrops(p, held, issued, returned, t);
    HoldExclusive(dropped, held - {InThread(t)}, InHandle(h), c);
    LeaseBalances(held - {InThread(t)}, issued, returned, h, c);
    assert dropped.(active := dropped.active + 1) == p;
  }

  lemma {:induction false} CheckOutUnhealthy(
      p: Pool, held: map<Holder, Conn>, issued: multiset<Conn>, returned: multiset<Conn>, t: nat, h: nat, up: bool)
    requires Exclusive(p, held) && LeasesBalance(held, issued, returned)
    requires InThread(t) in held && InHandle(h) !in held
    ensures var (q, lease) := CheckedOut(p, held[InThread(t)], false, up);
      && Exclusive(q, AfterCheckOut(held, t, h, lease))
      && LeasesBalance(AfterCheckOut(held, t, h, lease), issued + Bag(lease), returned)
  {
    hide Exclusive, LeasesBalance;
    var rest, dropped := held - {InThread(t)}, p.(active := p.active - 1);
    var failed := dropped.(failed := dropped.failed + 1);
    ThreadDrops(p, held, issued, returned, t);
    FailedCounterIsFree(dropped, rest, failed.failed);
    CreateExclusive(failed, rest, p.usingStandby, up);
    var (q, made) := Created(failed, p.usingStandby, up);
    if up {
      HoldExclusive(q, rest, InHandle(h), made.value);
      LeaseBalances(rest, issued, returned, h, made.value);
      TotalCounterIsFree(q.(active := q.active + 1), rest[InHandle(h) := made.value], q.total + 1);
    } else {
      assert issued + multiset{} == issued;
    }
  }

  lemma {:induction false} FinishKeepsInv(m: Machine, t: nat, h: nat, healthy: bool, up: bool)
    requires Inv(m) && Enabled(m, Finish(t, h, healthy, up))
    ensures Inv(Step(m, Finish(t, h, healthy, up)))
  {
    hide Exclusive, LeasesBalance, HeldBy, CheckedOut, ReleasedIn;
    HeldAfterFinish(m, t, h, CheckedOut(m.pool, m.inFlight[t], healthy, up).1);
    if healthy {
      CheckedOutAsIs(m.pool, m.inFlight[t], up);
      CheckOutHealthy(m.pool, Held(m), m.issued, m.returned, t, h);
    } else {
      CheckOutUnhealthy(m.pool, Held(m), m.issued, m.returned, t, h, up);
    }
  }

  lemma {:induction false} CheckedOutAsIs(p: Pool, c: Conn, up: bool)
    ensures CheckedOut(p, c, true, up) == (p, Some(c))
  {
  }

  lemma {:induction false} ReleaseKeepsInv(m: Machine, h: nat, healthy: bool)
    requires Inv(m) && h in m.handles
    ensures Inv(ReleasedIn(m, h, healthy)) && !ReleasedIn(m, h, healthy).handles[h].Live()
    ensures ReleasedIn(m, h, healthy).handles.Keys == m.handles.Keys
  {
    hide Exclusive, LeasesBalance, HeldBy;
    var held := Held(m);
    HeldByHandle(m.inFlight, m.handles, h);
    if m.handles[h].Live() {
      var rest, c := held - {InHandle(h)}, held[InHandle(h)];
      HeldAfterSet(m.inFlight, m.handles, h, m.handles[h].(released := true));
      DropExclusive(m.pool, held, InHandle(h));
      ReturnBalances(m.pool, held, m.issued, m.returned, h);
      var dropped := m.pool.(active := m.pool.active - 1);
      if healthy { EnqueueExclusive(dropped, rest, c); }
      else { FailedCounterIsFree(dropped, rest, dropped.failed + 1); }
    } else {
      assert m.handles[h := m.handles[h]] == m.handles;
      assert m.returned + multiset{} == m.returned;
    }
  }

  /** Moving a handle onto one that holds nothing. */
  lemma {:induction false} MoveKeepsInv(m: Machine, s: nat, t: nat)
    requires Inv(m) && s in m.handles && s != t && (t in m.handles ==> !m.handles[t].Live())
    ensures Inv(m.(handles := m.handles[t := m.handles[s]][s := MOVED_FROM]))
  {
    var held := Held(m);
    HeldAfterMove(m.inFlight, m.handles, s, t);
    hide Exclusive, LeasesBalance, HeldBy;
    if m.handles[s].Live() {
      RenameExclusive(m.pool, held, InHandle(s), InHandle(t));
      RenameBalances(held, m.issued, m.returned, s, t);
    }
  }

  lemma {:induction false} StepKeepsInv(m: Machine, op: Op)
    requires Inv(m) && Enabled(m, op)
    ensures Inv(Step(m, op))
  {
    hide Inv, ReleasedIn, Held;
    match op
    case Take(t) => TakeKeepsInv(m, t);
    case Finish(t, h, healthy, up) =>
      FinishKeepsInv(m, t, h, healthy, up);
    case MoveConstruct(s, t) => MoveKeepsInv(m, s, t);
    case MoveAssign(s, t, healthy) =>
      if s != t {
        ReleaseKeepsInv(m, t, healthy);
        MoveKeepsInv(ReleasedIn(m, t, healthy), s, t);
      }
    case Release(h, healthy) => ReleaseKeepsInv(m, h, healthy);
    case Destroy(h, healthy) => DestroyKeepsInv(m, h, healthy);
    case _ =>
      PoolStepKeepsInv(m, op);
  }

  lemma {:induction false} DestroyKeepsInv(m: Machine, h: nat, healthy: bool)
    requires Inv(m) && h in m.handles
    ensures Inv(Step(m, Destroy(h, healthy)))
  {
    hide Exclusive, LeasesBalance, HeldBy, ReleasedIn;
    ReleaseKeepsInv(m, h, healthy);
    var n := ReleasedIn(m, h, healthy);
    HeldAfterRemoval(n.inFlight, n.handles, h);
  }

  lemma {:induction false} PoolStepKeepsInv(m: Machine, op: Op)
    requires Inv(m) && Enabled(m, op)
    requires op.Test? || op.Refill?
      || op.AskFailover? || op.CompleteFailover? || op.AskFailback? || op.CompleteFailback?
    ensures Inv(Step(m, op))
  {
    hide Exclusive, LeasesBalance, HeldBy;
    var p, held := m.pool, Held(m);
    match op
    case Test(results) => TestExclusive(p, held, results);
    case Refill(ups) => RefillExclusive(p, held, ups);
    case CompleteFailover(_) => SwapExclusive(p, held);
    case CompleteFailback(_, probeUp, probeHealthy, ups) => FailbackExclusive(p, held, probeUp, probeHealthy, ups);
    case _ =>
  }

  lemma {:induction false} RefillExclusive(p: Pool, held: map<Holder, Conn>, ups: seq<bool>)
    requires Exclusive(p, held) && |ups| == Needed(p)
    ensures Exclusive(Refilled(p, ups), held)
  {
    CreateManyFresh(p, p.usingStandby, ups);
    var (q, made) := CreatedMany(p, p.usingStandby, ups);
    AppendFreshExclusive(p, held, made, q.created);
    hide CreatedMany, Needed;
  }

  lemma {:induction false} FailbackExclusive(
      p: Pool, held: map<Holder, Conn>, probeUp: bool, probeHealthy: bool, ups: seq<bool>)
    requires Exclusive(p, held)
    ensures Exclusive(FailbackCompleted(p, probeUp, probeHealthy, ups).0, held)
  {
    CreateExclusive(p, held, false, probeUp);
    var probed := Created(p, false, probeUp).0;
    SwitchExclusive(probed, held, ups);
    hide Exclusive, Created, SwitchedToMaster;
  }

  lemma {:induction false} SwitchExclusive(p: Pool, held: map<Holder, Conn>, ups: seq<bool>)
    requires Exclusive(p, held)
    ensures Exclusive(SwitchedToMaster(p, ups), held)
  {
    CreateManyFresh(p, false, ups);
    var (q, made) := CreatedMany(p, false, ups);
    ReplaceFreshExclusive(p, held, made, q.created);
    assert Exclusive(p.(created := q.created), held);
    hide Exclusive, CreatedMany;
  }

  /** Exclusive leases: in every interleaving no connection is in two places and the active
      counter is the number of connections out. */
  lemma {:induction false} RunKeepsInv(m: Machine, ops: seq<Op>)
    requires Inv(m) && EnabledRun(m, ops)
    ensures Inv(Run(m, ops))
    decreases |ops|
  {
    if ops != [] {
      StepKeepsInv(m, ops[0]);
      RunKeepsInv(Step(m, ops[0]), ops[1..]);
    }
  }

  /** What the invariant means, for every interleaving from a fresh pool: no connection is in
      two places, the counters add up, and no lease is given back twice. */
  lemma {:induction false} ExclusiveLeases(
      poolSize: int, hasStandby: bool, ups: seq<bool>, standbyUps: seq<bool>, ops: seq<Op>)
    requires EnabledRun(Started(poolSize, hasStandby, ups, standbyUps), ops)
    ensures var m := Run(Started(poolSize, hasStandby, ups, standbyUps), ops);
      && Exclusive(m.pool, Held(m))
      && m.pool.active == |m.inFlight| + |LiveHandles(m)|
      && m.returned <= m.issued
      && forall c :: m.issued[c] <= m.returned[c] + 1
  {
    hide Exclusive, Run, EnabledRun, Step, Started;
    var m0 := Started(poolSize, hasStandby, ups, standbyUps);
    StartKeepsInv(poolSize, hasStandby, ups, standbyUps);
    RunKeepsInv(m0, ops);
    HeldCount(Run(m0, ops));
    ActiveIsHeld(Run(m0, ops).pool, Held(Run(m0, ops)));
  }

  lemma {:induction false} ActiveIsHeld(p: Pool, held: map<Holder, Conn>)
    requires Exclusive(p, held)
    ensures p.active == |held|
  {
  }

  /** The machine right after `initialize`: nobody has taken anything yet. */
  function Started(poolSize: int, hasStandby: bool, ups: seq<bool>, standbyUps: seq<bool>): Machine {
    Machine(Initialized(NewPool(poolSize, hasStandby), ups, standbyUps), map[], map[], multiset{}, multiset{}, map[])
  }

  function LiveHandles(m: Machine): set<nat> {
    set h | h in m.handles && m.handles[h].Live()
  }

  lemma {:induction false} StartKeepsInv(poolSize: int, hasStandby: bool, ups: seq<bool>, standbyUps: seq<bool>)
    ensures Inv(Started(poolSize, hasStandby, ups, standbyUps))
  {
    hide Exclusive, MasterFilled, StandbyFilled, HeldBy, LeasesBalance;
    NothingHeld();
    MasterQueueExclusive(poolSize, hasStandby, ups);
    var r := MasterFilled(NewPool(poolSize, hasStandby), ups);
    if hasStandby { StandbyQueueExclusive(r, standbyUps); }
  }

  lemma {:induction false} NothingHeld()
    ensures HeldBy(map[], map[]) == map[] && LeasesBalance(map[], multiset{}, multiset{})
  {
  }

  lemma {:induction false} MasterQueueExclusive(poolSize: int, hasStandby: bool, ups: seq<bool>)
    ensures var r := MasterFilled(NewPool(poolSize, hasStandby), ups);
      Exclusive(r, map[]) && r.standby == []
  {
    var p := NewPool(poolSize, hasStandby);
    CreateManyFresh(p, false, ups);
    var (q, masters) := CreatedMany(p, false, ups);
    AppendFreshExclusive(p, map[], masters, q.created);
    hide Exclusive;
    TotalCounterIsFree(p.(available := p.available + masters, created := q.created), map[], |masters|);
  }

  lemma {:induction false} StandbyQueueExclusive(p: Pool, ups: seq<bool>)
    requires Exclusive(p, map[]) && p.standby == []
    ensures Exclusive(StandbyFilled(p, ups), map[])
  {
    CreateManyFresh(p, true, ups);
    var (q, made) := CreatedMany(p, true, ups);
    AppendFreshExclusive(p, map[], made, q.created);
    assert p.available + made + p.standby == p.available + (p.standby + made);
  }

  lemma {:induction false} HeldCount(m: Machine)
    requires Inv(m)
    ensures |Held(m)| == |m.inFlight| + |LiveHandles(m)|
    ensures m.returned <= m.issued && forall c :: m.issued[c] <= m.returned[c] + 1
  {
    var threads := set t | t in m.inFlight.Keys :: InThread(t);
    var handles := set h | h in LiveHandles(m) :: InHandle(h);
    ThreadCount(m.inFlight.Keys);
    HandleCount(LiveHandles(m));
    HeldKeys(m);
    hide Exclusive, Held;
    assert threads !! handles;
    assert |Held(m)| == |Held(m).Keys|;
  }

  lemma {:induction false} HeldKeys(m: Machine)
    ensures Held(m).Keys == (set t | t in m.inFlight.Keys :: InThread(t)) + (set h | h in LiveHandles(m) :: InHandle(h))
  {
  }

  lemma {:induction false} ThreadCount(ts: set<nat>)
    ensures |set t | t in ts :: InThread(t)| == |ts|
    decreases |ts|
  {
    if ts != {} {
      var x :| x in ts;
      ThreadCount(ts - {x});
      assert (set t | t in ts :: InThread(t)) == (set t | t in ts - {x} :: InThread(t)) + {InThread(x)};
    }
  }

  lemma {:induction false} HandleCount(hs: set<nat>)
    ensures |set h | h in hs :: InHandle(h)| == |hs|
    decreases |hs|
  {
    if hs != {} {
      var x :| x in hs;
      HandleCount(hs - {x});
      assert (set h | h in hs :: InHandle(h)) == (set h | h in hs - {x} :: InHandle(h)) + {InHandle(x)};
    }
  }

  // ---------------------------------------------------------------- which instance is served

  /** Every available connection leads to the instance the pool says it is using. */
  ghost predicate ServesOneInstance(p: Pool) {
    forall i :: 0 <= i < |p.available| ==> p.available[i].standby == p.usingStandby
  }

  /** A connection taken before a failover and returned after it joins the other instance's
      queue: a return keeps the queue pure exactly when the connection is discarded or belongs
      to the instance in use. */
  lemma {:induction false} ReturnKeepsInstanceIff(p: Pool, c: Conn, healthy: bool)
    requires ServesOneInstance(p)
    ensures ServesOneInstance(Returned(p, c, healthy)) <==> !healthy || c.standby == p.usingStandby
  {
    var q := Returned(p, c, healthy);
    if healthy {
      assert q.available[|p.available|] == c;
    }
  }

  /** The locked part of a failover, whatever was decided before, keeps the queue pure exactly
      when there is no standby or every parked connection leads to it. */
  lemma {:induction false} FailoverKeepsInstanceIff(p: Pool)
    requires ServesOneInstance(p)
    ensures ServesOneInstance(SwitchedToStandby(p)) <==>
      (!p.hasStandby || forall i :: 0 <= i < |p.standby| ==> p.standby[i].standby)
  {
  }

  // -- the same for every step and run

  /** The connection a step gives back to the queue, if it gives one back. */
  function GivenBack(m: Machine, op: Op): Option<Conn>
    requires Enabled(m, op)
  {
    match op
    case Release(h, healthy) => if healthy && m.handles[h].Live() then m.handles[h].client else None
    case Destroy(h, healthy) => if healthy && m.handles[h].Live() then m.handles[h].client else None
    case MoveAssign(s, t, healthy) => if s != t && healthy && m.handles[t].Live() then m.handles[t].client else None
    case _ => None
  }

  /** What it gives back belongs to the instance in use, and a switch to the standby finds only
      standby connections parked. */
  predicate KeepsInstance(m: Machine, op: Op)
    requires Enabled(m, op)
  {
    && (GivenBack(m, op).Some? ==> GivenBack(m, op).value.standby == m.pool.usingStandby)
    && (op.CompleteFailover? && m.pool.hasStandby ==>
          forall i :: 0 <= i < |m.pool.standby| ==> m.pool.standby[i].standby)
  }

  ghost predicate ServesThroughout(m: Machine, ops: seq<Op>)
    requires EnabledRun(m, ops)
    decreases |ops|
  {
    ServesOneInstance(m.pool) && (ops == [] || ServesThroughout(Step(m, ops[0]), ops[1..]))
  }

  ghost predicate KeepsThroughout(m: Machine, ops: seq<Op>)
    requires EnabledRun(m, ops)
    decreases |ops|
  {
    ops == [] || (KeepsInstance(m, ops[0]) && KeepsThroughout(Step(m, ops[0]), ops[1..]))
  }

  /** New connections lead where they were asked to; some are made exactly when some connect
      succeeds. */
  lemma {:induction false} CreatedManyLead(p: Pool, useStandby: bool, ups: seq<bool>)
    ensures var made := CreatedMany(p, useStandby, ups).1;
      && (forall i :: 0 <= i < |made| ==> made[i].standby == useStandby)
      && (made != [] <==> true in ups)
    decreases |ups|
  {
    if ups != [] {
      var n := |ups| - 1;
      CreatedManyLead(p, useStandby, ups[..n]);
      assert ups == ups[..n] + [ups[n]];
    }
  }

  lemma {:induction false} RefillServes(p: Pool, ups: seq<bool>)
    requires ServesOneInstance(p) && |ups| == Needed(p)
    ensures ServesOneInstance(Refilled(p, ups))
  {
    CreatedManyLead(p, p.usingStandby, ups);
    CreateManyFresh(p, p.usingStandby, ups);
    hide CreatedMany, Needed;
  }

  lemma {:induction false} TestServes(p: Pool, healthy: seq<bool>)
    requires ServesOneInstance(p) && |healthy| == |p.available|
    ensures ServesOneInstance(Tested(p, healthy))
  {
    var kept := Healthy(p.available, healthy);
    HealthyAreOld(p.available, healthy);
    forall i | 0 <= i < |kept| ensures kept[i].standby == p.usingStandby {
      assert kept[i] in kept;
    }
  }

  lemma {:induction false} HealthyAreOld(conns: seq<Conn>, healthy: seq<bool>)
    requires |conns| == |healthy|
    ensures forall c :: c in Healthy(conns, healthy) ==> c in conns
    decreases |conns|
  {
    if conns != [] { HealthyAreOld(conns[..|conns| - 1], healthy[..|conns| - 1]); }
  }

  lemma {:induction false} FailbackServes(p: Pool, probeUp: bool, probeHealthy: bool, ups: seq<bool>)
    requires ServesOneInstance(p)
    ensures ServesOneInstance(FailbackCompleted(p, probeUp, probeHealthy, ups).0)
  {
    var q := Created(p, false, probeUp).0;
    CreatedManyLead(q, false, ups);
    CreateManyFresh(q, false, ups);
    hide CreatedMany;
  }

  /** Exactly when a step keeps the queue on one instance: taking, checking out, moving, testing,
      refilling and failing back always do. */
  lemma {:induction false} StepServesIff(m: Machine, op: Op)
    requires ServesOneInstance(m.pool) && Enabled(m, op)
    ensures ServesOneInstance(Step(m, op).pool) <==> KeepsInstance(m, op)
  {
    hide ReleasedIn, Tested, Refilled, Needed, FailbackCompleted, CheckedOut, SwitchedToStandby;
    match op
    case Finish(t, _, healthy, up) => CheckedOutServes(m.pool, m.inFlight[t], healthy, up);
    case Release(h, healthy) => ReleaseServesIff(m, h, healthy);
    case Destroy(h, healthy) => ReleaseServesIff(m, h, healthy);
    case MoveAssign(s, t, healthy) =>
      if s != t { ReleaseServesIff(m, t, healthy); }
    case Test(results) => TestServes(m.pool, results);
    case Refill(ups) => RefillServes(m.pool, ups);
    case CompleteFailover(_) => FailoverKeepsInstanceIff(m.pool);
    case CompleteFailback(_, probeUp, probeHealthy, ups) => FailbackServes(m.pool, probeUp, probeHealthy, ups);
    case _ =>
  }

  lemma {:induction false} CheckedOutServes(p: Pool, conn: Conn, healthy: bool, up: bool)
    requires ServesOneInstance(p)
    ensures ServesOneInstance(CheckedOut(p, conn, healthy, up).0)
  {
  }

  lemma {:induction false} ReleaseServesIff(m: Machine, h: nat, healthy: bool)
    requires ServesOneInstance(m.pool) && h in m.handles
    ensures ServesOneInstance(ReleasedIn(m, h, healthy).pool) <==>
      (healthy && m.handles[h].Live() ==> m.handles[h].client.value.standby == m.pool.usingStandby)
  {
    if m.handles[h].Live() { ReturnKeepsInstanceIff(m.pool, m.handles[h].client.value, healthy); }
  }

  /** A run serves one instance throughout exactly when it starts so and every step keeps it. */
  lemma {:induction false} RunServesIff(m: Machine, ops: seq<Op>)
    requires EnabledRun(m, ops)
    ensures ServesThroughout(m, ops) <==> ServesOneInstance(m.pool) && KeepsThroughout(m, ops)
    decreases |ops|
  {
    hide ServesOneInstance, KeepsInstance, Step, Enabled;
    if ops != [] {
      RunServesIff(Step(m, ops[0]), ops[1..]);
      if ServesOneInstance(m.pool) { StepServesIff(m, ops[0]); }
      ServesAtStart(Step(m, ops[0]), ops[1..]);
    }
  }

  lemma {:induction false} ServesAtStart(m: Machine, ops: seq<Op>)
    requires EnabledRun(m, ops)
    ensures ServesThroughout(m, ops) ==> ServesOneInstance(m.pool)
  {
  }

  /** After initialization the queue serves the master. */
  lemma {:induction false} StartServes(poolSize: int, hasStandby: bool, ups: seq<bool>, standbyUps: seq<bool>)
    ensures var p := Started(poolSize, hasStandby, ups, standbyUps).pool;
      ServesOneInstance(p) && !p.usingStandby && forall i :: 0 <= i < |p.standby| ==> p.standby[i].standby
  {
    var p := NewPool(poolSize, hasStandby);
    CreatedManyLead(p, false, ups);
    CreateManyFresh(p, false, ups);
    var q := MasterFilled(p, ups);
    CreatedManyLead(q, true, standbyUps);
    CreateManyFresh(q, true, standbyUps);
    hide CreatedMany;
  }

  /** A failback that reports success leaves the standby exactly when it was not in use, or some
      master connection could be made. */
  lemma {:induction false} FailbackLeavesStandbyIff(p: Pool, probeUp: bool, probeHealthy: bool, ups: seq<bool>)
    ensures var (q, ok) := FailedBack(p, probeUp, probeHealthy, ups);
      && (ok <==> !p.usingStandby || (probeUp && probeHealthy))
      && (ok ==> (!q.usingStandby <==> !p.usingStandby || true in ups))
      && (q.usingStandby ==> q.available == p.available)
  {
    var q := Created(p, false, probeUp).0;
    CreatedManyLead(q, false, ups);
    CreateManyFresh(q, false, ups);
    hide CreatedMany;
  }

  function Race(t: nat, u: nat): seq<Op> {
    [AskFailover(t), AskFailover(u), CompleteFailover(t), CompleteFailover(u)]
  }

  lemma {:induction false} FourSteps(m: Machine, a: Op, b: Op, c: Op, d: Op)
    requires Enabled(m, a) && Enabled(Step(m, a), b) && Enabled(Step(Step(m, a), b), c)
    requires Enabled(Step(Step(Step(m, a), b), c), d)
    ensures EnabledRun(m, [a, b, c, d]) && Run(m, [a, b, c, d]) == Step(Step(Step(Step(m, a), b), c), d)
  {
    hide Step, Enabled;
    assert [a, b, c, d][1..] == [b, c, d] && [b, c, d][1..] == [c, d] && [c, d][1..] == [d] && [d][1..] == [];
    var n := Step(Step(m, a), b);
    assert EnabledRun(Step(Step(n, c), d), []) && Run(Step(Step(n, c), d), []) == Step(Step(n, c), d);
    assert EnabledRun(Step(n, c), [d]) && Run(Step(n, c), [d]) == Step(Step(n, c), d);
    assert EnabledRun(n, [c, d]) && Run(n, [c, d]) == Step(Step(n, c), d);
    assert EnabledRun(Step(m, a), [b, c, d]) && Run(Step(m, a), [b, c, d]) == Step(Step(n, c), d);
  }

  /** Two failovers that both look before either switches swap the queues twice: the pool then
      says it uses the standby and serves the master connections, unless it has none. */
  lemma {:induction false} RacingFailoversSwapBack(m: Machine, t: nat, u: nat)
    requires m.pool.hasStandby && !m.pool.usingStandby && ServesOneInstance(m.pool)
    requires t != u && t !in m.switching && u !in m.switching
    ensures EnabledRun(m, Race(t, u))
    ensures var p := Run(m, Race(t, u)).pool;
      && p.usingStandby && p.available == m.pool.available && p.standby == m.pool.standby
      && (ServesOneInstance(p) <==> m.pool.available == [])
  {
    FourSteps(m, AskFailover(t), AskFailover(u), CompleteFailover(t), CompleteFailover(u));
    hide Run, EnabledRun;
    if m.pool.available != [] { assert !m.pool.available[0].standby; }
  }

  /** The standby queue is not refilled by a failback, so a second failover serves the master
      connections the first one parked. */
  lemma {:induction false} SecondFailoverServesParkedConnections(p: Pool, ups: seq<bool>)
    requires p.hasStandby && !p.usingStandby
    requires FailedBack(FailedOver(p), true, true, ups).0.usingStandby == false
    ensures var q := FailedOver(FailedBack(FailedOver(p), true, true, ups).0);
      q.usingStandby && q.available == p.available
  {
    var f := FailedOver(p);
    CreateManyFresh(Created(f, false, true).0, false, ups);
  }
}
