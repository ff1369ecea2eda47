/** Offline publishing over whole runs: nothing is lost, nothing is duplicated. */
module PublisherTheorems {
  import opened Fragmentation
  import opened Publisher

  datatype Op =
    | Publish(o: Outgoing, send: Send)
    | Pause
    | Resume(attempts: seq<Attempt>)
    | SetConnected(connected: bool, attempts: seq<Attempt>)
    | EnableQueue(enable: bool)
    | ClearQueue

  /** A publisher, what it has accepted, and what was cleared from its queue. */
  datatype World = World(s: State, accepted: seq<Outgoing>, cleared: seq<Outgoing>)

  predicate Enabled(s: State, op: Op) {
    (op.Resume? || op.SetConnected?) ==> |op.attempts| >= |s.queue|
  }

  function Step(w: World, op: Op): World
    requires Enabled(w.s, op)
  {
    match op
    case Publish(o, send) =>
      var (t, outcome) := Published(w.s, o, send);
      World(t, w.accepted + if outcome.Taken? then [o] else [], w.cleared)
    case Pause => w.(s := w.s.(paused := true))
    case Resume(attempts) => w.(s := Resumed(w.s, attempts).0)
    case SetConnected(connected, attempts) => w.(s := ConnectionChanged(w.s, connected, attempts).0)
    case EnableQueue(enable) => w.(s := w.s.(queueEnabled := enable))
    case ClearQueue =>
      var (t, returned) := Cleared(w.s);
      World(t, w.accepted, w.cleared + if returned then w.s.queue else [])
  }

  ghost predicate EnabledRun(w: World, ops: seq<Op>)
    decreases |ops|
  {
    ops == [] || (Enabled(w.s, ops[0]) && EnabledRun(Step(w, ops[0]), ops[1..]))
  }

  function Run(w: World, ops: seq<Op>): World
    requires EnabledRun(w, ops)
    decreases |ops|
  {
    if ops == [] then w else Run(Step(w, ops[0]), ops[1..])
  }

  // ---------------------------------------------------------------- conservation

  /** Every accepted message is in one place: sent, queued, held by a drain, or cleared. */
  ghost predicate Balanced(
    accepted: seq<Outgoing>, broker: seq<Outgoing>, queue: seq<Outgoing>, held: seq<Outgoing>, cleared: seq<Outgoing>)
  {
    multiset(accepted) == multiset(broker) + multiset(queue) + multiset(held) + multiset(cleared)
  }

  /** Nothing is lost or duplicated; counters and bound agree. */
  ghost predicate Conserves(w: World) {
    && Balanced(w.accepted, w.s.broker, w.s.queue, w.s.held, w.cleared)
    && w.s.queueSize == |w.s.queue| <= w.s.limit
    && w.s.published == |w.accepted|
  }

  lemma {:induction false} BagSnoc<T>(s: seq<T>, x: T)
    ensures multiset(s + [x]) == multiset(s) + multiset{x}
  {
  }

  lemma {:induction false} SentStaysBalanced(
      a: seq<Outgoing>, b: seq<Outgoing>, q: seq<Outgoing>, h: seq<Outgoing>, c: seq<Outgoing>, o: Outgoing)
    requires Balanced(a, b, q, h, c)
    ensures Balanced(a + [o], b + [o], q, h, c)
  {
    BagSnoc(a, o);
    BagSnoc(b, o);
  }

  lemma {:induction false} QueuedStaysBalanced(
      a: seq<Outgoing>, b: seq<Outgoing>, q: seq<Outgoing>, h: seq<Outgoing>, c: seq<Outgoing>, o: Outgoing)
    requires Balanced(a, b, q, h, c)
    ensures Balanced(a + [o], b, q + [o], h, c)
  {
    BagSnoc(a, o);
    BagSnoc(q, o);
  }

  lemma {:induction false} ClearedStaysBalanced(
      a: seq<Outgoing>, b: seq<Outgoing>, q: seq<Outgoing>, h: seq<Outgoing>, c: seq<Outgoing>)
    requires Balanced(a, b, q, h, c)
    ensures Balanced(a, b, [], h, c + q)
  {
    assert multiset(c + q) == multiset(c) + multiset(q);
  }

  lemma {:induction false} DrainConserves(queue: seq<Outgoing>, broker: seq<Outgoing>, attempts: seq<Attempt>)
    requires |attempts| >= |queue|
    ensures var (q, b, h) := Drained(queue, broker, attempts);
      && multiset(b) + multiset(q) + multiset(h) == multiset(broker) + multiset(queue)
      && |q| <= |queue|
    decreases |queue|
  {
    if queue != [] {
      assert queue == [queue[0]] + queue[1..];
      if attempts[0].Sent? { DrainConserves(queue[1..], broker + [queue[0]], attempts[1..]); }
    }
  }

  lemma {:induction false} DrainedStaysBalanced(
      a: seq<Outgoing>, b: seq<Outgoing>, q: seq<Outgoing>, c: seq<Outgoing>, attempts: seq<Attempt>)
    requires |attempts| >= |q| && Balanced(a, b, q, [], c)
    ensures var (q', b', h') := Drained(q, b, attempts);
      Balanced(a, b', q', h', c)
  {
    DrainConserves(q, b, attempts);
    hide Drained;
  }

  lemma {:induction false} PublishConserves(w: World, o: Outgoing, send: Send)
    requires Conserves(w)
    ensures Conserves(Step(w, Publish(o, send)))
  {
    hide IsValidMessage, Balanced;
    assert w.accepted + [] == w.accepted;
    var s := w.s;
    SentStaysBalanced(w.accepted, s.broker, s.queue, s.held, w.cleared, o);
    QueuedStaysBalanced(w.accepted, s.broker, s.queue, s.held, w.cleared, o);
  }

  lemma {:induction false} ProcessConserves(w: World, s: State, attempts: seq<Attempt>)
    requires Conserves(w.(s := s)) && |attempts| >= |s.queue|
    ensures Conserves(w.(s := Processed(s, attempts).0))
  {
    DrainConserves(s.queue, s.broker, attempts);
    hide Drained, Balanced;
    if s.held == [] { DrainedStaysBalanced(w.accepted, s.broker, s.queue, w.cleared, attempts); }
  }

  lemma {:induction false} ClearConserves(w: World)
    requires Conserves(w)
    ensures Conserves(Step(w, ClearQueue))
  {
    hide Balanced;
    ClearedStaysBalanced(w.accepted, w.s.broker, w.s.queue, w.s.held, w.cleared);
    assert w.cleared + [] == w.cleared;
  }

  lemma {:induction false} StepConserves(w: World, op: Op)
    requires Conserves(w) && Enabled(w.s, op)
    ensures Conserves(Step(w, op))
  {
    hide Published, Processed, Cleared, Balanced;
    match op
    case Publish(o, send) => PublishConserves(w, o, send);
    case Resume(attempts) => ProcessConserves(w, w.s.(paused := false), attempts);
    case SetConnected(connected, attempts) => ProcessConserves(w, w.s.(connected := connected), attempts);
    case ClearQueue => ClearConserves(w);
    case _ =>
  }

  lemma {:induction false} RunConserves(w: World, ops: seq<Op>)
    requires Conserves(w) && EnabledRun(w, ops)
    ensures Conserves(Run(w, ops))
    decreases |ops|
  {
    hide Conserves;
    if ops != [] {
      StepConserves(w, ops[0]);
      RunConserves(Step(w, ops[0]), ops[1..]);
    }
  }

  function Start(limit: nat): World {
    World(NewPublisher(limit), [], [])
  }

  /** Nothing lost, nothing duplicated: over every run of a new publisher. */
  lemma {:induction false} NothingLostOrDuplicated(limit: nat, ops: seq<Op>)
    requires EnabledRun(Start(limit), ops)
    ensures var w := Run(Start(limit), ops);
      && multiset(w.accepted)
         == multiset(w.s.broker) + multiset(w.s.queue) + multiset(w.s.held) + multiset(w.cleared)
      && w.s.queueSize == |w.s.queue| <= limit
      && w.s.published == |w.accepted|
  {
    RunConserves(Start(limit), ops);
    LimitKept(Start(limit), ops);
  }

  lemma {:induction false} LimitKept(w: World, ops: seq<Op>)
    requires EnabledRun(w, ops)
    ensures Run(w, ops).s.limit == w.s.limit
    decreases |ops|
  {
    if ops != [] { LimitKept(Step(w, ops[0]), ops[1..]); }
  }

  // ---------------------------------------------------------------- order

  ghost predicate AllSent(attempts: seq<Attempt>) {
    forall i :: 0 <= i < |attempts| ==> attempts[i].Sent?
  }

  /** Sends succeed while connected, and the queue is neither cleared nor switched off. */
  ghost predicate Smooth(op: Op) {
    match op
    case Publish(_, send) => send.Accepted?
    case Resume(attempts) => AllSent(attempts)
    case SetConnected(_, attempts) => AllSent(attempts)
    case EnableQueue(enable) => enable
    case ClearQueue => false
    case Pause => true
  }

  ghost predicate InOrder(w: World) {
    && w.accepted == w.s.broker + w.s.queue
    && w.s.queueEnabled && (w.s.connected ==> w.s.queue == []) && !w.s.Locked()
  }

  /** How many messages a drain sends: those before the first that fails. */
  function SentCount(attempts: seq<Attempt>, size: nat): (k: nat)
    requires |attempts| >= size
    ensures k <= size && (k < size ==> !attempts[k].Sent?)
    ensures forall i :: 0 <= i < k ==> attempts[i].Sent?
    decreases size
  {
    if size == 0 || !attempts[0].Sent? then 0
    else
      var rest := SentCount(attempts[1..], size - 1);
      assert forall i :: 0 < i < rest + 1 ==> attempts[i] == attempts[1..][i - 1];
      rest + 1
  }

  /** What a drain does, in one formula: a prefix is sent, and the message after it, if any, goes
      behind the others or is held. */
  lemma {:induction false} DrainShape(queue: seq<Outgoing>, broker: seq<Outgoing>, attempts: seq<Attempt>)
    requires |attempts| >= |queue|
    ensures var (q, b, h) := Drained(queue, broker, attempts);
      var k := SentCount(attempts, |queue|);
      && b == broker + queue[..k]
      && (k == |queue| ==> q == [] && h == [])
      && (k < |queue| && attempts[k].FailedQueueOff? ==> q == queue[k + 1..] + [queue[k]] && h == [])
      && (k < |queue| && attempts[k].FailedQueueOn? ==> q == queue[k + 1..] && h == [queue[k]])
    decreases |queue|
  {
    if queue == [] || !attempts[0].Sent? {
      assert broker + queue[..0] == broker;
    } else {
      var k := SentCount(attempts[1..], |queue| - 1);
      DrainShape(queue[1..], broker + [queue[0]], attempts[1..]);
      assert broker + [queue[0]] + queue[1..][..k] == broker + queue[..k + 1];
      assert queue[1..][k..] == queue[k + 1..];
      if k < |queue| - 1 {
        assert queue[1..][k] == queue[k + 1] && queue[1..][k + 1..] == queue[k + 2..];
      }
    }
  }

  lemma {:induction false} DrainEmpties(queue: seq<Outgoing>, broker: seq<Outgoing>, attempts: seq<Attempt>)
    requires |attempts| >= |queue| && AllSent(attempts)
    ensures Drained(queue, broker, attempts) == ([], broker + queue, [])
  {
    DrainShape(queue, broker, attempts);
    assert SentCount(attempts, |queue|) == |queue| && queue[..|queue|] == queue;
  }

  /** While sends succeed, messages leave in the order they were accepted, across any number of
      pauses and reconnects. */
  lemma {:induction false} DeliveredInOrder(w: World, ops: seq<Op>)
    requires InOrder(w) && EnabledRun(w, ops) && forall op :: op in ops ==> Smooth(op)
    ensures InOrder(Run(w, ops))
    decreases |ops|
  {
    if ops != [] {
      assert Smooth(ops[0]);
      StepInOrder(w, ops[0]);
      DeliveredInOrder(Step(w, ops[0]), ops[1..]);
    }
  }

  lemma {:induction false} StepInOrder(w: World, op: Op)
    requires InOrder(w) && Enabled(w.s, op) && Smooth(op)
    ensures InOrder(Step(w, op))
  {
    hide IsValidMessage;
    if op.Resume? || op.SetConnected? { DrainEmpties(w.s.queue, w.s.broker, op.attempts); }
  }

  ghost predicate AllEqual(s: seq<Outgoing>) {
    forall i, j :: 0 <= i < |s| && 0 <= j < |s| ==> s[i] == s[j]
  }

  lemma {:induction false} RotationFixed(s: seq<Outgoing>, i: nat)
    requires s != [] && s[1..] + [s[0]] == s && i < |s|
    ensures s[i] == s[0]
  {
    if i > 0 {
      RotationFixed(s, i - 1);
      assert (s[1..] + [s[0]])[i - 1] == s[i];
    }
  }

  lemma {:induction false} RotationKeepsIff(s: seq<Outgoing>)
    requires s != []
    ensures s[1..] + [s[0]] == s <==> AllEqual(s)
  {
    var rotated := s[1..] + [s[0]];
    if rotated == s {
      forall i | 0 <= i < |s| ensures s[i] == s[0] { RotationFixed(s, i); }
    }
    if AllEqual(s) {
      assert |rotated| == |s| && forall i :: 0 <= i < |s| ==> rotated[i] == s[i];
    }
  }

  /** A drain that returns keeps the order of what was sent and what is still queued exactly when
      the messages from the first failing one on are all the same. */
  lemma {:induction false} PutBackKeepsOrderIff(queue: seq<Outgoing>, broker: seq<Outgoing>, attempts: seq<Attempt>)
    requires |attempts| >= |queue|
    requires var k := SentCount(attempts, |queue|); k < |queue| ==> attempts[k].FailedQueueOff?
    ensures var (q, b, _) := Drained(queue, broker, attempts);
      b + q == broker + queue <==> AllEqual(queue[SentCount(attempts, |queue|)..])
  {
    DrainShape(queue, broker, attempts);
    hide Drained, SentCount;
    var k := SentCount(attempts, |queue|);
    var (q, b, _) := Drained(queue, broker, attempts);
    var rest := queue[k..];
    assert broker + queue == b + rest;
    if k < |queue| {
      assert rest[0] == queue[k] && rest[1..] == queue[k + 1..];
      RotationKeepsIff(rest);
      assert q == (b + q)[|b|..] && rest == (b + rest)[|b|..];
    } else {
      assert rest == [] && b + [] == b;
    }
  }

  // ---------------------------------------------------------------- the lock

  /** A drain waits for its own lock exactly when, connected and with the queue on, its first
      failing send finds the queue still on; it then holds that message. */
  lemma {:induction false} DrainHangsIff(s: State, attempts: seq<Attempt>)
    requires |attempts| >= |s.queue| && !s.Locked()
    ensures var (t, returned) := Processed(s, attempts);
      var k := SentCount(attempts, |s.queue|);
      && (!returned <==> s.connected && s.queueEnabled && k < |s.queue| && attempts[k].FailedQueueOn?)
      && (!returned ==> t.held == [s.queue[k]] && t.queue == s.queue[k + 1..] && t.broker == s.broker + s.queue[..k])
      && (t.Locked() <==> !returned)
  {
    DrainShape(s.queue, s.broker, attempts);
    hide Drained, SentCount;
  }

  /** From then on, over every run, the held message and everything still queued stay where they
      are: nothing is sent from the queue, added to it or cleared. */
  lemma {:induction false} LockedForGood(w: World, ops: seq<Op>)
    requires w.s.Locked() && EnabledRun(w, ops)
    ensures var u := Run(w, ops);
      u.s.held == w.s.held && u.s.queue == w.s.queue && u.cleared == w.cleared
    decreases |ops|
  {
    if ops != [] {
      LockedStep(w, ops[0]);
      LockedForGood(Step(w, ops[0]), ops[1..]);
    }
  }

  lemma {:induction false} LockedStep(w: World, op: Op)
    requires w.s.Locked() && Enabled(w.s, op)
    ensures var u := Step(w, op);
      u.s.held == w.s.held && u.s.queue == w.s.queue && u.cleared == w.cleared
  {
    hide IsValidMessage, Drained;
    assert w.cleared + [] == w.cleared;
  }

  // ---------------------------------------------------------------- pausing

  /** Pausing does not hold back the queue: a reconnect during a pause sends exactly when the
      queue is enabled and not locked, something is queued and its first send succeeds. */
  lemma {:induction false} PausedReconnectSendsIff(s: State, attempts: seq<Attempt>)
    requires s.paused && |attempts| >= |s.queue|
    ensures ConnectionChanged(s, true, attempts).0.broker != s.broker
      <==> s.queueEnabled && !s.Locked() && s.queue != [] && attempts[0].Sent?
  {
    DrainShape(s.queue, s.broker, attempts);
    hide Drained;
    var k := SentCount(attempts, |s.queue|);
    assert k == 0 ==> s.broker + s.queue[..k] == s.broker;
  }

  // ---------------------------------------------------------------- one publication, in full

  /** When a message is accepted and where it goes. While not paused, a message with data and an id
      is sent if that succeeds; otherwise it goes to the end of the queue, if the queue is on, not
      locked and not full. Under the lock the call waits; in every other case it is refused. The
      counters follow the outcome, and nothing else changes. */
  lemma {:induction false} AcceptanceLaw(s: State, o: Outgoing, send: Send)
    ensures var (t, outcome) := Published(s, o, send);
      var open := !s.paused && o.message.data != [] && o.message.properties.messageId != "";
      var sends, waits := s.connected && send.Accepted?, s.queueEnabled && s.held != [];
      var queues := s.queueEnabled && s.held == [] && |s.queue| < s.limit;
      && (outcome.Taken? <==> open && (sends || queues))
      && (outcome.Waiting? <==> open && !sends && waits)
      && t == s.(
           broker := s.broker + (if open && sends then [o] else []),
           queue := s.queue + (if open && !sends && queues then [o] else []),
           queueSize := s.queueSize + (if open && !sends && queues then 1 else 0),
           published := s.published + (if outcome.Taken? then 1 else 0),
           bytesPublished := s.bytesPublished + (if outcome.Taken? then |o.message.data| else 0),
           failed := s.failed + (if open && outcome.Refused? then 1 else 0))
  {
    assert s.broker + [] == s.broker && s.queue + [] == s.queue;
    assert o.message.data == [] ==> !IsValidMessage(o.message);
  }

  function TotalBytes(os: seq<Outgoing>): nat
    decreases |os|
  {
    if os == [] then 0 else TotalBytes(os[..|os| - 1]) + |os[|os| - 1].message.data|
  }

  /** Pause, connection and queue switch are as last set, and the byte counter is the size of what
      was accepted. */
  lemma {:induction false} StepLaw(w: World, op: Op)
    requires Enabled(w.s, op)
    ensures var u := Step(w, op);
      && u.s.paused == (op.Pause? || (w.s.paused && !op.Resume?))
      && u.s.connected == (if op.SetConnected? then op.connected else w.s.connected)
      && u.s.queueEnabled == (if op.EnableQueue? then op.enable else w.s.queueEnabled)
      && u.s.bytesPublished + TotalBytes(w.accepted) == w.s.bytesPublished + TotalBytes(u.accepted)
  {
    hide Published, Processed, Cleared, TotalBytes;
    assert w.accepted + [] == w.accepted;
    match op
    case Publish(o, send) => PublishLaw(w, o, send);
    case Resume(attempts) => ProcessedFrame(w.s.(paused := false), attempts);
    case SetConnected(connected, attempts) => ProcessedFrame(w.s.(connected := connected), attempts);
    case ClearQueue => ClearedFrame(w.s);
    case _ =>
  }

  lemma {:induction false} PublishLaw(w: World, o: Outgoing, send: Send)
    ensures var t, outcome := Published(w.s, o, send).0, Published(w.s, o, send).1;
      && t.paused == w.s.paused && t.connected == w.s.connected && t.queueEnabled == w.s.queueEnabled
      && t.bytesPublished + TotalBytes(w.accepted)
         == w.s.bytesPublished + TotalBytes(w.accepted + if outcome.Taken? then [o] else [])
  {
    AcceptanceLaw(w.s, o, send);
    hide Published;
    assert w.accepted + [] == w.accepted && (w.accepted + [o])[..|w.accepted|] == w.accepted;
  }

  lemma {:induction false} ProcessedFrame(s: State, attempts: seq<Attempt>)
    requires |attempts| >= |s.queue|
    ensures var t := Processed(s, attempts).0;
      t.paused == s.paused && t.connected == s.connected && t.queueEnabled == s.queueEnabled
      && t.bytesPublished == s.bytesPublished
  {
    hide Drained;
  }

  lemma {:induction false} ClearedFrame(s: State)
    ensures var t := Cleared(s).0;
      t.paused == s.paused && t.connected == s.connected && t.queueEnabled == s.queueEnabled
      && t.bytesPublished == s.bytesPublished
  {
  }

  lemma {:induction false} BytesAreCounted(w: World, ops: seq<Op>)
    requires EnabledRun(w, ops)
    ensures var u := Run(w, ops);
      u.s.bytesPublished + TotalBytes(w.accepted) == w.s.bytesPublished + TotalBytes(u.accepted)
    decreases |ops|
  {
    hide Step, TotalBytes, Enabled;
    if ops != [] {
      StepLaw(w, ops[0]);
      BytesAreCounted(Step(w, ops[0]), ops[1..]);
    }
  }
}
