/** The Redis connection pool between initialization and shutdown.

    A connection is a value with an identity: each successful connect makes a new one. Whether
    a connect succeeds and whether a connection is healthy are oracles. `getConnection` takes
    a connection under the lock, checks its health with the lock released, and takes the lock
    again to replace it, so it is two steps here. So are failover and failback, which look at
    `usingStandby_` before they take the lock. */
module ConnectionPool {
  import opened Decimal

  /** A Redis client object, connected to the master or to the standby. */
  datatype Conn = Conn(id: nat, standby: bool)

  datatype Pool = Pool(
    poolSize: int, hasStandby: bool,
    available: seq<Conn>, standby: seq<Conn>, usingStandby: bool,
    active: int, total: int, failed: nat, reconnects: nat,
    created: nat)

  function NewPool(poolSize: int, hasStandby: bool): Pool {
    Pool(poolSize, hasStandby, [], [], false, 0, 0, 0, 0, 0)
  }

  // ---------------------------------------------------------------- pool operations

  function Created(p: Pool, useStandby: bool, up: bool): (Pool, Option<Conn>) {
    if up then (p.(created := p.created + 1), Some(Conn(p.created, useStandby))) else (p, None)
  }

  /** One connect per oracle bit; the successes, in order. */
  function CreatedMany(p: Pool, useStandby: bool, ups: seq<bool>): (Pool, seq<Conn>)
    decreases |ups|
  {
    if ups == [] then (p, [])
    else
      var (q, made) := CreatedMany(p, useStandby, ups[..|ups| - 1]);
      var (r, conn) := Created(q, useStandby, ups[|ups| - 1]);
      (r, made + if conn.Some? then [conn.value] else [])
  }

  function MasterFilled(p: Pool, ups: seq<bool>): Pool {
    var (q, masters) := CreatedMany(p, false, ups);
    q.(available := q.available + masters, total := q.total + |masters|)
  }

  function StandbyFilled(p: Pool, ups: seq<bool>): Pool {
    var (q, standbys) := CreatedMany(p, true, ups);
    q.(standby := q.standby + standbys)
  }

  function Initialized(p: Pool, ups: seq<bool>, standbyUps: seq<bool>): Pool {
    var q := MasterFilled(p, ups);
    if p.hasStandby then StandbyFilled(q, standbyUps) else q
  }

  /** The locked first part of `getConnection`. */
  function Popped(p: Pool): Pool
    requires p.available != []
  {
    p.(available := p.available[1..], active := p.active + 1)
  }

  /** The rest of `getConnection`, once the health of the popped connection is known. */
  function CheckedOut(p: Pool, conn: Conn, healthy: bool, up: bool): (Pool, Option<Conn>) {
    if healthy then (p, Some(conn))
    else
      var dropped := p.(active := p.active - 1, failed := p.failed + 1);
      var (q, replacement) := Created(dropped, p.usingStandby, up);
      if replacement.Some?
      then (q.(total := q.total + 1, active := q.active + 1), replacement)
      else (q, None)
  }

  function Returned(p: Pool, conn: Conn, healthy: bool): Pool {
    var q := p.(active := p.active - 1);
    if healthy then q.(available := q.available + [conn]) else q.(failed := q.failed + 1)
  }

  function Healthy(conns: seq<Conn>, healthy: seq<bool>): (r: seq<Conn>)
    requires |conns| == |healthy|
    ensures |r| <= |conns|
    decreases |conns|
  {
    if conns == [] then []
    else
      var n := |conns| - 1;
      Healthy(conns[..n], healthy[..n]) + if healthy[n] then [conns[n]] else []
  }

  function Tested(p: Pool, healthy: seq<bool>): Pool
    requires |p.available| == |healthy|
  {
    var kept := Healthy(p.available, healthy);
    p.(available := kept, failed := p.failed + |p.available| - |kept|)
  }

  /** How many connections a refill tries to make. */
  function Needed(p: Pool): nat {
    if p.poolSize > |p.available| then p.poolSize - |p.available| else 0
  }

  /** The loop of a refill, which leaves the total to its end. */
  function ToppedUp(p: Pool, ups: seq<bool>): Pool {
    var (q, made) := CreatedMany(p, p.usingStandby, ups);
    q.(available := q.available + made, reconnects := q.reconnects + |made|)
  }

  function Refilled(p: Pool, ups: seq<bool>): Pool
    requires |ups| == Needed(p)
  {
    if Needed(p) == 0 then p
    else
      var r := ToppedUp(p, ups);
      r.(total := |r.available| + r.active)
  }

  function SwitchedToStandby(p: Pool): Pool {
    if !p.hasStandby then p
    else p.(available := p.standby, standby := p.available, usingStandby := true)
  }

  /** What a failover or failback finds before it takes the lock: its answer, or that it has
      something to do. */
  datatype Decision = Answered(ok: bool) | Proceed

  function FailoverAsked(p: Pool): Decision {
    if !p.hasStandby then Answered(false) else if p.usingStandby then Answered(true) else Proceed
  }

  /** A failover that no other thread interrupts. */
  function FailedOver(p: Pool): Pool {
    if FailoverAsked(p).Proceed? then SwitchedToStandby(p) else p
  }

  function SwitchedToMaster(p: Pool, ups: seq<bool>): Pool {
    var (q, made) := CreatedMany(p, false, ups);
    if made != [] then q.(available := made, usingStandby := false) else q
  }

  function FailbackAsked(p: Pool): Decision {
    if !p.usingStandby then Answered(true) else Proceed
  }

  /** The locked part of failback opens a probe connection first; it is never put into a queue. */
  function FailbackCompleted(p: Pool, probeUp: bool, probeHealthy: bool, ups: seq<bool>): (Pool, bool) {
    var (q, probe) := Created(p, false, probeUp);
    if probe.None? || !probeHealthy then (q, false) else (SwitchedToMaster(q, ups), true)
  }

  /** A failback that no other thread interrupts. */
  function FailedBack(p: Pool, probeUp: bool, probeHealthy: bool, ups: seq<bool>): (Pool, bool) {
    match FailbackAsked(p)
    case Answered(ok) => (p, ok)
    case Proceed => FailbackCompleted(p, probeUp, probeHealthy, ups)
  }

  // ---------------------------------------------------------------- handles

  /** The value of a `PooledConnection`: its client, whether it knows how to give it back,
      and whether it already did. */
  datatype Handle = Handle(client: Option<Conn>, canReturn: bool, released: bool) {
    /** The handle holds a lease it still has to return. */
    predicate Live() {
      !released && client.Some? && canReturn
    }
  }

  const EMPTY_HANDLE := Handle(None, false, false)
  const MOVED_FROM := Handle(None, false, true)

  function Leased(conn: Option<Conn>): Handle {
    if conn.Some? then Handle(conn, true, false) else EMPTY_HANDLE
  }

  function Released(p: Pool, h: Handle, healthy: bool): (Pool, Handle) {
    if h.Live() then (Returned(p, h.client.value, healthy), h.(released := true)) else (p, h)
  }

  // ---------------------------------------------------------------- the classes

  class ConnectionPool {
    const poolSize: int
    const hasStandby: bool
    var availableConnections: seq<Conn>
    var standbyConnections: seq<Conn>
    var usingStandby: bool
    var activeConnections: int
    var totalConnections: int
    var failedConnections: nat
    var reconnectAttempts: nat
    var created: nat

    ghost function State(): Pool
      reads this
    {
      Pool(poolSize, hasStandby, availableConnections, standbyConnections, usingStandby,
           activeConnections, totalConnections, failedConnections, reconnectAttempts, created)
    }

    constructor (poolSize: int, hasStandby: bool)
      ensures State() == NewPool(poolSize, hasStandby)
    {
      this.poolSize, this.hasStandby := poolSize, hasStandby;
      availableConnections, standbyConnections, usingStandby := [], [], false;
      activeConnections, totalConnections := 0, 0;
      failedConnections, reconnectAttempts, created := 0, 0, 0;
    }

    method CreateConnection(useStandby: bool, up: bool) returns (conn: Option<Conn>)
      modifies this`created
      ensures (State(), conn) == Created(old(State()), useStandby, up)
    {
      if up {
        conn := Some(Conn(created, useStandby));
        created := created + 1;
      } else {
        conn := None;
      }
    }

    /** Fills both queues; false when no master connection could be made. */
    method Initialize(ups: seq<bool>, standbyUps: seq<bool>) returns (ok: bool)
      requires |ups| == |standbyUps| == if poolSize > 0 then poolSize else 0
      modifies this
      ensures State() == Initialized(old(State()), ups, standbyUps)
      ensures ok == (availableConnections != [])
    {
      hide MasterFilled, StandbyFilled;
      FillMaster(ups);
      if hasStandby {
        FillStandby(standbyUps);
      }
      ok := availableConnections != [];
    }

    method FillMaster(ups: seq<bool>)
      modifies this
      ensures State() == MasterFilled(old(State()), ups)
    {
      ghost var p0 := State();
      assert MasterFilled(p0, ups[..0]) == p0;
      hide MasterFilled;
      for i := 0 to |ups|
        invariant State() == MasterFilled(p0, ups[..i])
      {
        MasterFilledNext(p0, ups, i);
        var conn := CreateConnection(false, ups[i]);
        if conn.Some? {
          availableConnections := availableConnections + [conn.value];
          totalConnections := totalConnections + 1;
        }
      }
      assert ups[..|ups|] == ups;
    }

    method FillStandby(ups: seq<bool>)
      modifies this
      ensures State() == StandbyFilled(old(State()), ups)
    {
      ghost var p0 := State();
      assert StandbyFilled(p0, ups[..0]) == p0;
      hide StandbyFilled;
      for i := 0 to |ups|
        invariant State() == StandbyFilled(p0, ups[..i])
      {
        StandbyFilledNext(p0, ups, i);
        var conn := CreateConnection(true, ups[i]);
        if conn.Some? {
          standbyConnections := standbyConnections + [conn.value];
        }
      }
      assert ups[..|ups|] == ups;
    }

    /** First part of `getConnection`; None is the wait that timed out. */
    method TakeConnection() returns (conn: Option<Conn>)
      modifies this`availableConnections, this`activeConnections
      ensures old(availableConnections) == [] ==> conn == None && State() == old(State())
      ensures old(availableConnections) != [] ==>
        conn == Some(old(availableConnections)[0]) && State() == Popped(old(State()))
    {
      if availableConnections == [] {
        return None;
      }
      conn := Some(availableConnections[0]);
      availableConnections := availableConnections[1..];
      activeConnections := activeConnections + 1;
    }

    /** Second part of `getConnection`: `healthy` was found out with the lock released. */
    method CheckOut(conn: Conn, healthy: bool, up: bool) returns (lease: Option<Conn>)
      modifies this
      ensures (State(), lease) == CheckedOut(old(State()), conn, healthy, up)
    {
      if !healthy {
        activeConnections := activeConnections - 1;
        failedConnections := failedConnections + 1;
        lease := CreateConnection(usingStandby, up);
        if lease.Some? {
          totalConnections := totalConnections + 1;
          activeConnections := activeConnections + 1;
        }
        return;
      }
      return Some(conn);
    }

    method ReturnConnection(client: Conn, healthy: bool)
      modifies this
      ensures State() == Returned(old(State()), client, healthy)
    {
      activeConnections := activeConnections - 1;
      if healthy {
        availableConnections := availableConnections + [client];
      } else {
        failedConnections := failedConnections + 1;
      }
    }

    method TestConnections(healthy: seq<bool>) returns (healthyCount: nat)
      requires |healthy| == |availableConnections|
      modifies this`availableConnections, this`failedConnections
      ensures State() == Tested(old(State()), healthy) && healthyCount == |availableConnections|
    {
      healthyCount := 0;
      var tempQueue: seq<Conn> := [];
      var i := 0;
      ghost var all := availableConnections;
      while availableConnections != []
        invariant 0 <= i <= |all| && availableConnections == all[i..]
        invariant tempQueue == Healthy(all[..i], healthy[..i]) && healthyCount == |tempQueue|
        invariant failedConnections == old(failedConnections) + i - |tempQueue|
        decreases |availableConnections|
      {
        var connection := availableConnections[0];
        availableConnections := availableConnections[1..];
        assert all[..i + 1][..i] == all[..i] && healthy[..i + 1][..i] == healthy[..i];
        if healthy[i] {
          tempQueue := tempQueue + [connection];
          healthyCount := healthyCount + 1;
        } else {
          failedConnections := failedConnections + 1;
        }
        i := i + 1;
      }
      assert all[..i] == all && healthy[..i] == healthy;
      availableConnections := tempQueue;
    }

    method ReplaceFailedConnections(ups: seq<bool>) returns (replaced: nat)
      requires |ups| == Needed(State())
      modifies this
      ensures State() == Refilled(old(State()), ups)
      ensures replaced == |availableConnections| - |old(availableConnections)|
    {
      hide ToppedUp;
      var needed := poolSize - |availableConnections|;
      if needed <= 0 {
        return 0;
      }
      replaced := RefillAvailable(ups);
      totalConnections := |availableConnections| + activeConnections;
    }

    method RefillAvailable(ups: seq<bool>) returns (replaced: nat)
      modifies this
      ensures State() == ToppedUp(old(State()), ups) && activeConnections == old(activeConnections)
      ensures replaced == |availableConnections| - |old(availableConnections)|
    {
      replaced := 0;
      ghost var p0 := State();
      assert ToppedUp(p0, ups[..0]) == p0;
      hide ToppedUp;
      for i := 0 to |ups|
        invariant State() == ToppedUp(p0, ups[..i])
        invariant replaced == |availableConnections| - |p0.available|
        invariant usingStandby == p0.usingStandby && activeConnections == p0.active
      {
        ToppedUpNext(p0, ups, i);
        var connection := CreateConnection(usingStandby, ups[i]);
        if connection.Some? {
          availableConnections := availableConnections + [connection.value];
          replaced := replaced + 1;
          reconnectAttempts := reconnectAttempts + 1;
        }
      }
      assert ups[..|ups|] == ups;
    }

    method SwitchToStandby()
      modifies this
      ensures State() == SwitchedToStandby(old(State()))
    {
      if !hasStandby {
        return;
      }
      var oldConnections := availableConnections;
      availableConnections := standbyConnections;
      usingStandby := true;
      standbyConnections := oldConnections;
    }

    /** The part of a failover before the lock. */
    method AskFailover() returns (d: Decision)
      ensures d == FailoverAsked(State())
    {
      if !hasStandby {
        return Answered(false);
      }
      if usingStandby {
        return Answered(true);
      }
      return Proceed;
    }

    /** The part of a failover under the lock; `usingStandby` may have changed since. */
    method CompleteFailover() returns (ok: bool)
      modifies this
      ensures State() == SwitchedToStandby(old(State()))
      ensures ok == (availableConnections != [])
    {
      SwitchToStandby();
      ok := availableConnections != [];
    }

    method FailoverToStandby() returns (ok: bool)
      modifies this
      ensures State() == FailedOver(old(State()))
      ensures ok == (hasStandby && (old(usingStandby) || availableConnections != []))
    {
      var d := AskFailover();
      match d {
        case Answered(answer) => return answer;
        case Proceed => ok := CompleteFailover();
      }
    }

    method SwitchToMaster(ups: seq<bool>)
      requires |ups| == if poolSize > 0 then poolSize else 0
      modifies this
      ensures State() == SwitchedToMaster(old(State()), ups)
    {
      var newMasterConnections: seq<Conn> := [];
      ghost var p0 := State();
      for i := 0 to |ups|
        invariant (State(), newMasterConnections) == CreatedMany(p0, false, ups[..i])
      {
        CreatedOneMore(p0, false, ups, i);
        var connection := CreateConnection(false, ups[i]);
        if connection.Some? {
          newMasterConnections := newMasterConnections + [connection.value];
        }
      }
      assert ups[..|ups|] == ups;
      if newMasterConnections != [] {
        availableConnections := newMasterConnections;
        usingStandby := false;
      }
    }

    /** The part of a failback before the lock. */
    method AskFailback() returns (d: Decision)
      ensures d == FailbackAsked(State())
    {
      if !usingStandby {
        return Answered(true);
      }
      return Proceed;
    }

    /** The part of a failback under the lock. */
    method CompleteFailback(probeUp: bool, probeHealthy: bool, ups: seq<bool>) returns (ok: bool)
      requires |ups| == if poolSize > 0 then poolSize else 0
      modifies this
      ensures (State(), ok) == FailbackCompleted(old(State()), probeUp, probeHealthy, ups)
    {
      hide SwitchedToMaster;
      var testConnection := CreateConnection(false, probeUp);
      if testConnection.None? || !probeHealthy {
        return false;
      }
      SwitchToMaster(ups);
      return true;
    }

    method FailbackToMaster(probeUp: bool, probeHealthy: bool, ups: seq<bool>) returns (ok: bool)
      requires |ups| == if poolSize > 0 then poolSize else 0
      modifies this
      ensures (State(), ok) == FailedBack(old(State()), probeUp, probeHealthy, ups)
    {
      hide FailbackCompleted;
      var d := AskFailback();
      match d {
        case Answered(answer) => return answer;
        case Proceed => ok := CompleteFailback(probeUp, probeHealthy, ups);
      }
    }
  }

  /** Making connections changes nothing but the number made. */
  lemma {:induction false} CreatedKeepsFields(p: Pool, useStandby: bool, ups: seq<bool>)
    ensures var q := CreatedMany(p, useStandby, ups).0;
      q == p.(created := q.created)
    decreases |ups|
  {
    if ups != [] { CreatedKeepsFields(p, useStandby, ups[..|ups| - 1]); }
  }

  lemma {:induction false} CreatedOneMore(p: Pool, useStandby: bool, ups: seq<bool>, i: nat)
    requires i < |ups|
    ensures var (q, made) := CreatedMany(p, useStandby, ups[..i]);
      && q == p.(created := q.created)
      && CreatedMany(p, useStandby, ups[..i + 1]) ==
           if ups[i] then (p.(created := q.created + 1), made + [Conn(q.created, useStandby)]) else (q, made)
  {
    assert ups[..i + 1][..i] == ups[..i];
    CreatedKeepsFields(p, useStandby, ups[..i]);
    var made := CreatedMany(p, useStandby, ups[..i]).1;
    assert made + [] == made;
  }

  lemma {:induction false} MasterFilledNext(p: Pool, ups: seq<bool>, i: nat)
    requires i < |ups|
    ensures var q := MasterFilled(p, ups[..i]);
      MasterFilled(p, ups[..i + 1]) == if !ups[i] then q else q.(
        created := q.created + 1, available := q.available + [Conn(q.created, false)], total := q.total + 1)
  {
    CreatedOneMore(p, false, ups, i);
    hide CreatedMany;
  }

  lemma {:induction false} StandbyFilledNext(p: Pool, ups: seq<bool>, i: nat)
    requires i < |ups|
    ensures var q := StandbyFilled(p, ups[..i]);
      StandbyFilled(p, ups[..i + 1]) == if !ups[i] then q else q.(
        created := q.created + 1, standby := q.standby + [Conn(q.created, true)])
  {
    CreatedOneMore(p, true, ups, i);
    hide CreatedMany;
  }

  lemma {:induction false} ToppedUpNext(p: Pool, ups: seq<bool>, i: nat)
    requires i < |ups|
    ensures var q := ToppedUp(p, ups[..i]);
      ToppedUp(p, ups[..i + 1]) == if !ups[i] then q else q.(
        created := q.created + 1, available := q.available + [Conn(q.created, p.usingStandby)],
        reconnects := q.reconnects + 1)
  {
    CreatedOneMore(p, p.usingStandby, ups, i);
    hide CreatedMany;
  }

  /** The move-only holder that gives its connection back. `pool` stands for the return
      function: null when there is none. */
  class PooledConnection {
    var client: Option<Conn>
    var pool: ConnectionPool?
    var released: bool

    ghost function Value(): Handle
      reads this
    {
      Handle(client, pool != null, released)
    }

    constructor Empty()
      ensures Value() == EMPTY_HANDLE
    {
      client, pool, released := None, null, false;
    }

    constructor (client: Conn, pool: ConnectionPool)
      ensures Value() == Leased(Some(client)) && this.pool == pool
    {
      this.client, this.pool, released := Some(client), pool, false;
    }

    constructor Move(other: PooledConnection)
      modifies other
      ensures Value() == old(other.Value()) && pool == old(other.pool)
      ensures other.Value() == MOVED_FROM
    {
      client, pool, released := other.client, other.pool, other.released;
      new;
      other.client, other.pool, other.released := None, null, true;
    }

    method Release(healthy: bool)
      modifies this, pool
      ensures pool == old(pool)
      ensures pool == null ==> Value() == old(Value())
      ensures pool != null ==> (pool.State(), Value()) == Released(old(pool.State()), old(Value()), healthy)
    {
      if !released && client.Some? && pool != null {
        pool.ReturnConnection(client.value, healthy);
        released := true;
      }
    }

    /** Move assignment: gives back what this handle holds, then takes over the other's. */
    method MoveAssign(other: PooledConnection, healthy: bool)
      modifies this, other, pool
      ensures this == other ==> Value() == old(Value()) && pool == old(pool)
      ensures this == other && pool != null ==> pool.State() == old(pool.State())
      ensures this != other ==>
        && Value() == old(other.Value()) && pool == old(other.pool) && other.Value() == MOVED_FROM
        && (old(pool) != null ==> old(pool).State() == Released(old(pool.State()), old(Value()), healthy).0)
    {
      if this != other {
        Release(healthy);
        client, pool, released := other.client, other.pool, other.released;
        other.client, other.pool, other.released := None, null, true;
      }
    }
  }
}
