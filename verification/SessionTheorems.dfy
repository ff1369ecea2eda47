/** End-to-end guarantees of the packet pipeline, over every run of events. */
module SessionTheorems {
  import opened Bytes
  import opened RateLimiter
  import RateLimiterTheorems
  import opened QueueNames
  import Gateway
  import opened Session

  // ------------------------------------------------------- runs

  /** What can happen around a session. The limiter, the duplicate service and the device
      records are shared, so others may use them between packets. */
  datatype Event =
    | Arrival(packet: Packet, receipt: Receipt)
    | Started
    | Stopped
    | LimiterUsed(op: RateLimiter.Op)
    | RecordedElsewhere(triple: Triple)
    | DevicesChanged(authenticated: set<IMEI>, states: map<IMEI, DeviceState>)

  function Next(s: State, e: Event): State {
    match e
    case Arrival(p, receipt) => PacketHandled(s, p, receipt).0
    case Started => s.(active := true)
    case Stopped => s.(active := false)
    case LimiterUsed(op) => s.(limiter := RateLimiter.Step(s.limiter, op))
    case RecordedElsewhere(t) => s.(recorded := s.recorded + {t})
    case DevicesChanged(authenticated, states) => s.(authenticated := authenticated, deviceStates := states)
  }

  function RunOf(s: State, es: seq<Event>): State
    decreases |es|
  {
    if es == [] then s else RunOf(Next(s, es[0]), es[1..])
  }

  /** A session right after construction. */
  predicate Fresh(s: State) {
    && s.handled == [] && s.acks == [] && s.gateway.published == []
    && s.received == s.processed == s.rejected == 0
    && s.limiter.buckets == map[]
  }

  // ------------------------------------------------------- one packet

  /** The packet passes every check before the limiter. */
  predicate ReachesLimiter(s: State, p: Packet) {
    && s.active && p.raw != [] && p.parse.Understood?
    && Authenticating !in p.throws && ReadingDeviceState !in p.throws && CheckingDuplicate !in p.throws
    && p.parse.message.deviceId in s.authenticated
    && StateOf(s.deviceStates, p.parse.message.deviceId) != Suspended
    && TripleOf(p.parse.message) !in s.recorded
  }

  predicate Admitted(s: State, p: Packet)
    requires p.parse.Understood?
  {
    CheckedAt(s.limiter, p.parse.message.deviceId, p.parse.message.priority, p.now).1
  }

  /** The packet is recorded. */
  predicate GetsRecorded(s: State, p: Packet) {
    ReachesLimiter(s, p) && Admitted(s, p) && Recording !in p.throws
  }

  /** A recorded packet gets to the handler: neither the status update nor the metrics collector,
      which counts the message before it is handled, throws. */
  predicate GetsThrough(p: Packet) {
    UpdatingStatus !in p.throws && CountingValid !in p.throws
  }

  /** The same of validation alone. */
  lemma {:induction false} WhatValidationTouches(s: State, p: Packet)
    requires s.active && p.raw != []
    ensures var (v, verdict) := Validated(s, p);
      && v.handled == s.handled
      && (!ReachesLimiter(s, p) ==> v.limiter == s.limiter && v.recorded == s.recorded)
      && (ReachesLimiter(s, p) ==>
            var m := p.parse.message;
            v.limiter == CheckedAt(s.limiter, m.deviceId, m.priority, p.now).0)
      && v.recorded == s.recorded + (if GetsRecorded(s, p) then {TripleOf(p.parse.message)} else {})
      && (verdict.Valid? <==> GetsRecorded(s, p) && UpdatingStatus !in p.throws)
      && (verdict.Valid? ==> verdict.message == p.parse.message.(region := s.regionCode))
  {
    hide CheckedAt, StateOf;
  }

  /** What a packet does to limiter, record and handler: only an authenticated, active, new
      message touches a bucket, and only an admitted one is recorded or handled. */
  lemma {:induction false} WhatAPacketTouches(s: State, p: Packet)
    ensures var t := PacketHandled(s, p, Received).0;
      && (!ReachesLimiter(s, p) ==> t.limiter == s.limiter && t.recorded == s.recorded && t.handled == s.handled)
      && (ReachesLimiter(s, p) ==>
            var m := p.parse.message;
            t.limiter == CheckedAt(s.limiter, m.deviceId, m.priority, p.now).0)
      && t.recorded == s.recorded + (if GetsRecorded(s, p) then {TripleOf(p.parse.message)} else {})
      && (t.handled != s.handled <==> GetsRecorded(s, p) && GetsThrough(p))
      && (t.handled != s.handled ==>
            && |t.handled| == |s.handled| + 1 && t.handled[..|s.handled|] == s.handled
            && var h := t.handled[|s.handled|];
               h.message == p.parse.message.(region := s.regionCode) && h.now == p.now && h.reply == p.reply)
  {
    hide CheckedAt, Gateway.Handled, Gateway.ErrorHandled, BlamedDevice, Validated;
    if s.active && p.raw != [] {
      var r := s.(received := s.received + 1, bytes := s.bytes + |p.raw|);
      WhatValidationTouches(r, p);
      assert ReachesLimiter(r, p) == ReachesLimiter(s, p) && GetsRecorded(r, p) == GetsRecorded(s, p);
      hide ReachesLimiter, GetsRecorded;
    }
  }

  /** An authenticated device's bucket is the only one its packet can change. */
  lemma {:induction false} OtherBucketsUntouched(s: State, p: Packet, d: IMEI)
    requires p.parse.Understood? ==> d != p.parse.message.deviceId
    ensures var t := PacketHandled(s, p, Received).0.limiter;
      && t.config == s.limiter.config
      && (d in t.buckets <==> d in s.limiter.buckets)
      && (d in t.buckets ==> t.buckets[d] == s.limiter.buckets[d])
  {
    hide PacketHandled, GetsRecorded, StateOf;
    WhatAPacketTouches(s, p);
  }

  // ------------------------------------------------------- at most once

  /** Every handled triple is recorded, and none is handled twice. */
  ghost predicate HandledOnce(s: State) {
    && (forall i :: 0 <= i < |s.handled| ==> TripleOf(s.handled[i].message) in s.recorded)
    && (forall i, j :: 0 <= i < j < |s.handled| ==> TripleOf(s.handled[i].message) != TripleOf(s.handled[j].message))
  }

  /** The record only grows, the history only grows at its end, and what is added was not recorded before. */
  lemma {:induction false} StepHistory(s: State, e: Event)
    ensures var t := Next(s, e);
      && s.recorded <= t.recorded
      && (t.handled == s.handled || (
            && |t.handled| == |s.handled| + 1 && t.handled[..|s.handled|] == s.handled
            && TripleOf(t.handled[|s.handled|].message) in t.recorded - s.recorded))
  {
    if e.Arrival? && e.receipt.Received? {
      WhatAPacketTouches(s, e.packet);
      hide PacketHandled, ReachesLimiter, Admitted;
      assert Next(s, e) == PacketHandled(s, e.packet, Received).0;
    }
  }

  lemma {:induction false} StepHandledOnce(s: State, e: Event)
    requires HandledOnce(s)
    ensures HandledOnce(Next(s, e))
  {
    StepHistory(s, e);
    hide Next;
    var t := Next(s, e);
    forall i | 0 <= i < |s.handled| ensures t.handled[i] == s.handled[i] {
      assert t.handled[..|s.handled|][i] == s.handled[i];
    }
  }

  /** At most once: over every run no (device, sequence, messageId) reaches the handler twice. */
  lemma {:induction false} AtMostOnce(s: State, es: seq<Event>)
    requires HandledOnce(s)
    ensures HandledOnce(RunOf(s, es))
    decreases |es|
  {
    if es != [] {
      StepHandledOnce(s, es[0]);
      AtMostOnce(Next(s, es[0]), es[1..]);
    }
  }

  lemma {:induction false} RunExtendsHistory(s: State, es: seq<Event>)
    ensures var t := RunOf(s, es);
      s.recorded <= t.recorded && |s.handled| <= |t.handled| && t.handled[..|s.handled|] == s.handled
    decreases |es|
  {
    hide Next;
    if es != [] {
      var m := Next(s, es[0]);
      StepHistory(s, es[0]);
      RunExtendsHistory(m, es[1..]);
      var t := RunOf(m, es[1..]);
      assert t.handled[..|s.handled|] == t.handled[..|m.handled|][..|s.handled|];
    }
  }

  /** Recording is final: a recorded triple is never handled later, whether or not its own
      handling succeeded or even started. */
  lemma {:induction false} RecordedIsFinal(s: State, es: seq<Event>, k: nat)
    requires |s.handled| <= k < |RunOf(s, es).handled|
    ensures TripleOf(RunOf(s, es).handled[k].message) !in s.recorded
    decreases |es|
  {
    hide Next;
    if es != [] {
      var m := Next(s, es[0]);
      StepHistory(s, es[0]);
      if k < |m.handled| {
        RunExtendsHistory(m, es[1..]);
        assert RunOf(m, es[1..]).handled[..|m.handled|][k] == m.handled[k];
      } else {
        RecordedIsFinal(m, es[1..], k);
      }
    }
  }

  // ------------------------------------------------------- what becomes of a recorded message

  /** What a recorded message is owed: a call of the handler, or also that the publisher took it. */
  datatype Duty = ToHandle | ToPublish {
    predicate DoneBy(h: Handling) {
      ToHandle? || h.reply.Taken()
    }
  }

  ghost predicate IsDone(s: State, t: Triple, duty: Duty) {
    exists i :: 0 <= i < |s.handled| && TripleOf(s.handled[i].message) == t && duty.DoneBy(s.handled[i])
  }

  /** Everything recorded has had its due. Where this fails a message is lost, because its retry
      is a duplicate. */
  ghost predicate NothingOwed(s: State, duty: Duty) {
    forall t :: t in s.recorded ==> IsDone(s, t, duty)
  }

  /** A packet that gets recorded also gets its due: nothing throws between the record and the
      handler, and, to be published, the publisher takes it. */
  predicate Fulfils(p: Packet, duty: Duty) {
    GetsThrough(p) && (duty.ToPublish? ==> p.reply.Taken())
  }

  /** The event records nothing that does not get its due. */
  predicate Keeps(s: State, e: Event, duty: Duty) {
    match e
    case Arrival(p, receipt) => receipt.Received? && GetsRecorded(s, p) ==> Fulfils(p, duty)
    case RecordedElsewhere(t) => t in s.recorded
    case _ => true
  }

  ghost predicate AllKeep(s: State, es: seq<Event>, duty: Duty)
    decreases |es|
  {
    es == [] || (Keeps(s, es[0], duty) && AllKeep(Next(s, es[0]), es[1..], duty))
  }

  lemma {:induction false} NeverRecorded(s: State, t: Triple, duty: Duty)
    requires HandledOnce(s) && t !in s.recorded
    ensures !IsDone(s, t, duty)
  {
  }

  /** What was done before is still done in a longer history. */
  lemma {:induction false} StaysDone(s: State, u: State, t: Triple, duty: Duty)
    requires IsDone(s, t, duty) && |s.handled| <= |u.handled| && u.handled[..|s.handled|] == s.handled
    ensures IsDone(u, t, duty)
  {
    var i :| 0 <= i < |s.handled| && TripleOf(s.handled[i].message) == t && duty.DoneBy(s.handled[i]);
    assert u.handled[..|s.handled|][i] == u.handled[i];
  }

  /** One more handling does what it does for its own message, and nothing for any other. */
  lemma {:induction false} DoneByOneMore(s: State, u: State, h: Handling, t: Triple, duty: Duty)
    requires u.handled == s.handled + [h]
    ensures IsDone(u, t, duty) <==> IsDone(s, t, duty) || (TripleOf(h.message) == t && duty.DoneBy(h))
  {
    if IsDone(s, t, duty) { StaysDone(s, u, t, duty); }
    assert u.handled[|s.handled|] == h;
  }

  /** What one packet does for a message. */
  lemma {:induction false} PacketDoes(s: State, p: Packet, t: Triple, duty: Duty)
    ensures IsDone(PacketHandled(s, p, Received).0, t, duty) <==>
      IsDone(s, t, duty)
      || (GetsRecorded(s, p) && Fulfils(p, duty) && TripleOf(p.parse.message) == t)
  {
    WhatAPacketTouches(s, p);
    hide PacketHandled, Admitted, ReachesLimiter, IsDone;
    var u := PacketHandled(s, p, Received).0;
    if u.handled == s.handled {
      SameHistory(s, u, t, duty);
    } else {
      var h := u.handled[|s.handled|];
      assert u.handled == s.handled + [h];
      DoneByOneMore(s, u, h, t, duty);
    }
  }

  lemma {:induction false} SameHistory(s: State, u: State, t: Triple, duty: Duty)
    requires s.handled == u.handled
    ensures IsDone(u, t, duty) <==> IsDone(s, t, duty)
  {
  }

  /** A packet leaves something owed exactly when it is recorded and does not get its due. */
  lemma {:induction false} PacketKeepsIff(s: State, p: Packet, duty: Duty)
    requires NothingOwed(s, duty) && HandledOnce(s)
    ensures NothingOwed(PacketHandled(s, p, Received).0, duty) <==> (GetsRecorded(s, p) ==> Fulfils(p, duty))
  {
    WhatAPacketTouches(s, p);
    hide PacketHandled, Admitted, HandledOnce, IsDone, Fulfils;
    var u := PacketHandled(s, p, Received).0;
    forall t ensures IsDone(u, t, duty) <==>
      IsDone(s, t, duty) || (GetsRecorded(s, p) && Fulfils(p, duty) && TripleOf(p.parse.message) == t)
    {
      PacketDoes(s, p, t, duty);
    }
    if GetsRecorded(s, p) {
      var t := TripleOf(p.parse.message);
      assert t in u.recorded;
      NeverRecorded(s, t, duty);
    }
  }

  /** The same of every event. */
  lemma {:induction false} StepKeepsIff(s: State, e: Event, duty: Duty)
    requires NothingOwed(s, duty) && HandledOnce(s)
    ensures NothingOwed(Next(s, e), duty) <==> Keeps(s, e, duty)
  {
    hide PacketHandled, GetsRecorded, IsDone, HandledOnce, Fulfils;
    var u := Next(s, e);
    if e.Arrival? && e.receipt.Received? {
      PacketKeepsIff(s, e.packet, duty);
    } else {
      IdleHistory(s, e);
      forall t ensures IsDone(u, t, duty) <==> IsDone(s, t, duty) { SameHistory(s, u, t, duty); }
      if e.RecordedElsewhere? && e.triple !in s.recorded { NeverRecorded(s, e.triple, duty); }
    }
  }

  lemma {:induction false} IdleHistory(s: State, e: Event)
    requires e.Arrival? ==> !e.receipt.Received?
    ensures Next(s, e).handled == s.handled
    ensures Next(s, e).recorded == s.recorded + if e.RecordedElsewhere? then {e.triple} else {}
  {
  }

  /** What is owed once is owed for good: a recorded message is never handled later. */
  lemma {:induction false} StaysOwed(s: State, e: Event, duty: Duty)
    requires HandledOnce(s) && !NothingOwed(s, duty)
    ensures !NothingOwed(Next(s, e), duty)
  {
    var t :| t in s.recorded && !IsDone(s, t, duty);
    StepHistory(s, e);
    hide PacketHandled, GetsRecorded, IsDone, HandledOnce, Fulfils, Next;
    var u := Next(s, e);
    if u.handled == s.handled {
      SameHistory(s, u, t, duty);
    } else {
      var h := u.handled[|s.handled|];
      assert u.handled == s.handled + [h];
      DoneByOneMore(s, u, h, t, duty);
    }
  }

  /** A run leaves something owed exactly when one of its events records a message that does not
      get its due. */
  lemma {:induction false} RunKeepsIff(s: State, es: seq<Event>, duty: Duty)
    requires NothingOwed(s, duty) && HandledOnce(s)
    ensures NothingOwed(RunOf(s, es), duty) <==> AllKeep(s, es, duty)
    decreases |es|
  {
    hide Next, HandledOnce, NothingOwed, Keeps;
    if es != [] {
      var m := Next(s, es[0]);
      StepKeepsIff(s, es[0], duty);
      StepHandledOnce(s, es[0]);
      if NothingOwed(m, duty) { RunKeepsIff(m, es[1..], duty); } else { RunStaysOwed(m, es[1..], duty); }
    }
  }

  lemma {:induction false} RunStaysOwed(s: State, es: seq<Event>, duty: Duty)
    requires HandledOnce(s) && !NothingOwed(s, duty)
    ensures !NothingOwed(RunOf(s, es), duty)
    decreases |es|
  {
    hide Next, HandledOnce, NothingOwed;
    if es != [] {
      StaysOwed(s, es[0], duty);
      StepHandledOnce(s, es[0]);
      RunStaysOwed(Next(s, es[0]), es[1..], duty);
    }
  }

  ghost predicate RecordedWasHandled(s: State) {
    NothingOwed(s, ToHandle)
  }

  ghost predicate RecordedWasPublished(s: State) {
    NothingOwed(s, ToPublish)
  }

  /** A packet is recorded and not handled exactly when the status update or the count of valid
      packets throws after the record. */
  lemma {:induction false} PacketLostIff(s: State, p: Packet)
    requires RecordedWasHandled(s) && HandledOnce(s)
    ensures RecordedWasHandled(PacketHandled(s, p, Received).0) <==> !GetsRecorded(s, p) || GetsThrough(p)
  {
    PacketKeepsIff(s, p, ToHandle);
    hide PacketHandled, GetsRecorded, NothingOwed;
  }

  /** A packet is recorded and not published exactly when it is recorded and one of these throws,
      or the publisher does not take it. */
  lemma {:induction false} PacketUnpublishedIff(s: State, p: Packet)
    requires RecordedWasPublished(s) && HandledOnce(s)
    ensures RecordedWasPublished(PacketHandled(s, p, Received).0)
      <==> !GetsRecorded(s, p) || (GetsThrough(p) && p.reply.Taken())
  {
    PacketKeepsIff(s, p, ToPublish);
    hide PacketHandled, GetsRecorded, NothingOwed;
  }

  /** No one else records, and nothing throws between recording and handling. */
  predicate Undisturbed(e: Event) {
    !e.RecordedElsewhere? && (e.Arrival? ==> GetsThrough(e.packet))
  }

  /** Over undisturbed runs a message is refused as a duplicate only if it was really handled, and,
      if the publisher takes all it is given, published. */
  lemma {:induction false} NothingLost(s: State, es: seq<Event>)
    requires HandledOnce(s) && forall e :: e in es ==> Undisturbed(e)
    ensures RecordedWasHandled(s) ==> RecordedWasHandled(RunOf(s, es))
    ensures RecordedWasPublished(s) && (forall e :: e in es && e.Arrival? ==> e.packet.reply.Taken())
      ==> RecordedWasPublished(RunOf(s, es))
  {
    if RecordedWasHandled(s) {
      UndisturbedKeep(s, es, ToHandle);
      RunKeepsIff(s, es, ToHandle);
    }
    if RecordedWasPublished(s) && forall e :: e in es && e.Arrival? ==> e.packet.reply.Taken() {
      UndisturbedKeep(s, es, ToPublish);
      RunKeepsIff(s, es, ToPublish);
    }
    hide HandledOnce, NothingOwed, RunOf, AllKeep, Undisturbed;
  }

  lemma {:induction false} UndisturbedKeep(s: State, es: seq<Event>, duty: Duty)
    requires forall e :: e in es ==> Undisturbed(e)
    requires duty.ToPublish? ==> forall e :: e in es && e.Arrival? ==> e.packet.reply.Taken()
    ensures AllKeep(s, es, duty)
    decreases |es|
  {
    hide Next, GetsRecorded, GetsThrough;
    if es != [] {
      assert es[0] in es;
      UndisturbedKeep(Next(s, es[0]), es[1..], duty);
    }
  }

  // ------------------------------------------------------- the rate bound end to end

  /** The limiter operations an event causes. */
  function OpsOf(s: State, e: Event): seq<RateLimiter.Op> {
    match e
    case Arrival(p, receipt) =>
      if receipt.Received? && ReachesLimiter(s, p)
      then [Check(p.parse.message.deviceId, p.parse.message.priority, p.now)] else []
    case LimiterUsed(op) => [op]
    case _ => []
  }

  function LimiterOps(s: State, es: seq<Event>): seq<RateLimiter.Op>
    decreases |es|
  {
    if es == [] then [] else OpsOf(s, es[0]) + LimiterOps(Next(s, es[0]), es[1..])
  }

  function EventTime(e: Event, before: real): real {
    match e
    case Arrival(p, _) => p.now
    case LimiterUsed(op) => RateLimiterTheorems.Time(op, before)
    case _ => before
  }

  /** The clock readings of the run never go back and stay within [from, until]. */
  ghost predicate InOrder(es: seq<Event>, from: real, until: real)
    decreases |es|
  {
    if es == [] then from <= until
    else from <= EventTime(es[0], from) && InOrder(es[1..], EventTime(es[0], from), until)
  }

  /** Token cost of one handled message, if it is from `d` and in scope. */
  function Price(h: Handling, boost: bool, d: IMEI, scope: RateLimiterTheorems.Scope): (r: real)
    ensures r >= 0.0
  {
    if h.message.deviceId == d && (scope.All? || !MayOwe(boost, h.message.priority))
    then Cost(boost, h.message.priority) else 0.0
  }

  function TotalPrice(hs: seq<Handling>, boost: bool, d: IMEI, scope: RateLimiterTheorems.Scope): real
    decreases |hs|
  {
    if hs == [] then 0.0 else Price(hs[0], boost, d, scope) + TotalPrice(hs[1..], boost, d, scope)
  }

  /** The messages handled during the events `es`. */
  function HandledDuring(s: State, es: seq<Event>): seq<Handling> {
    RunExtendsHistory(s, es);
    RunOf(s, es).handled[|s.handled|..]
  }

  lemma {:induction false} StepLimiter(s: State, e: Event)
    ensures Next(s, e).limiter == RateLimiter.Run(s.limiter, OpsOf(s, e))
    ensures Next(s, e).limiter.config.priorityBoost == s.limiter.config.priorityBoost
  {
    if e.Arrival? && e.receipt.Received? {
      WhatAPacketTouches(s, e.packet);
      hide PacketHandled, ReachesLimiter, GetsRecorded;
      assert Next(s, e) == PacketHandled(s, e.packet, Received).0;
    }
  }

  /** What one event hands to the handler was paid for in the limiter. */
  lemma {:induction false} StepPaid(s: State, e: Event, d: IMEI, scope: RateLimiterTheorems.Scope)
    ensures var t, boost := Next(s, e), s.limiter.config.priorityBoost;
      && |s.handled| <= |t.handled|
      && TotalPrice(t.handled[|s.handled|..], boost, d, scope)
         <= RateLimiterTheorems.Spent(s.limiter, d, OpsOf(s, e), scope)
  {
    var t, boost := Next(s, e), s.limiter.config.priorityBoost;
    StepHistory(s, e);
    if t.handled == s.handled {
      SpentIsNonNegative(s.limiter, d, OpsOf(s, e), scope);
    } else {
      var p := e.packet;
      WhatAPacketTouches(s, p);
      hide PacketHandled, ReachesLimiter, CheckedAt, Price, TotalPrice, RateLimiterTheorems.Spent;
      assert t == PacketHandled(s, p, Received).0;
      var h, m := t.handled[|s.handled|], p.parse.message;
      assert t.handled[|s.handled|..] == [h];
      OnePaid(s.limiter, h, d, scope);
      assert OpsOf(s, e) == [Check(m.deviceId, m.priority, p.now)];
    }
  }

  /** One admitted message costs what its check spends. */
  lemma {:induction false} OnePaid(l: Limiter, h: Handling, d: IMEI, scope: RateLimiterTheorems.Scope)
    requires CheckedAt(l, h.message.deviceId, h.message.priority, h.now).1
    ensures TotalPrice([h], l.config.priorityBoost, d, scope)
      == RateLimiterTheorems.Spent(l, d, [Check(h.message.deviceId, h.message.priority, h.now)], scope)
  {
    hide CheckedAt;
    var op := Check(h.message.deviceId, h.message.priority, h.now);
    assert [h][1..] == [] && [op][1..] == [];
    assert TotalPrice([h], l.config.priorityBoost, d, scope) == Price(h, l.config.priorityBoost, d, scope);
    assert RateLimiterTheorems.Spent(l, d, [op], scope) == RateLimiterTheorems.SpentBy(l, d, op, scope);
  }

  lemma {:induction false} SpentIsNonNegative(
      l: Limiter, d: IMEI, ops: seq<RateLimiter.Op>, scope: RateLimiterTheorems.Scope)
    ensures RateLimiterTheorems.Spent(l, d, ops, scope) >= 0.0
    decreases |ops|
  {
    if ops != [] { SpentIsNonNegative(RateLimiter.Step(l, ops[0]), d, ops[1..], scope); }
  }

  lemma {:induction false} TotalPriceAdds(
      hs: seq<Handling>, more: seq<Handling>, boost: bool, d: IMEI, scope: RateLimiterTheorems.Scope)
    ensures TotalPrice(hs + more, boost, d, scope)
      == TotalPrice(hs, boost, d, scope) + TotalPrice(more, boost, d, scope)
    decreases |hs|
  {
    if hs == [] {
      assert hs + more == more;
    } else {
      assert (hs + more)[1..] == hs[1..] + more;
      TotalPriceAdds(hs[1..], more, boost, d, scope);
    }
  }

  /** At most one limiter operation in front of others. */
  lemma {:induction false} SpentAdds(
      l: Limiter, first: seq<RateLimiter.Op>, rest: seq<RateLimiter.Op>, d: IMEI, scope: RateLimiterTheorems.Scope)
    requires |first| <= 1
    ensures var m := RateLimiter.Run(l, first);
      && RateLimiter.Run(l, first + rest) == RateLimiter.Run(m, rest)
      && RateLimiterTheorems.Spent(l, d, first + rest, scope)
         == RateLimiterTheorems.Spent(l, d, first, scope) + RateLimiterTheorems.Spent(m, d, rest, scope)
  {
    hide RateLimiter.Step, RateLimiterTheorems.SpentBy;
    if first == [] {
      assert first + rest == rest;
    } else {
      assert (first + rest)[1..] == rest && first[1..] == [];
    }
  }

  lemma {:induction false} RunLimiter(s: State, es: seq<Event>)
    ensures RunOf(s, es).limiter == RateLimiter.Run(s.limiter, LimiterOps(s, es))
    ensures RunOf(s, es).limiter.config.priorityBoost == s.limiter.config.priorityBoost
    decreases |es|
  {
    hide Next, OpsOf, RateLimiter.Step, RateLimiterTheorems.SpentBy;
    if es != [] {
      var m := Next(s, es[0]);
      StepLimiter(s, es[0]);
      RunLimiter(m, es[1..]);
      AtMostOneOp(s, es[0]);
      SpentAdds(s.limiter, OpsOf(s, es[0]), LimiterOps(m, es[1..]), "", RateLimiterTheorems.All);
    }
  }

  lemma {:induction false} AtMostOneOp(s: State, e: Event)
    ensures |OpsOf(s, e)| <= 1
  {
    hide ReachesLimiter;
  }

  /** The messages of `d` handled in a run cost no more than the limiter charged `d`. */
  lemma {:induction false} RunPaid(s: State, es: seq<Event>, d: IMEI, scope: RateLimiterTheorems.Scope)
    ensures TotalPrice(HandledDuring(s, es), s.limiter.config.priorityBoost, d, scope)
      <= RateLimiterTheorems.Spent(s.limiter, d, LimiterOps(s, es), scope)
    decreases |es|
  {
    hide Next, OpsOf, RateLimiter.Step, RateLimiter.Run, RateLimiterTheorems.SpentBy, Price;
    if es != [] {
      var m := Next(s, es[0]);
      StepPaid(s, es[0], d, scope);
      StepLimiter(s, es[0]);
      RunPaid(m, es[1..], d, scope);
      AtMostOneOp(s, es[0]);
      SpentAdds(s.limiter, OpsOf(s, es[0]), LimiterOps(m, es[1..]), d, scope);
      HandledInTwo(s, es);
      TotalPriceAdds(m.handled[|s.handled|..], HandledDuring(m, es[1..]), s.limiter.config.priorityBoost, d, scope);
    }
  }

  lemma {:induction false} HandledInTwo(s: State, es: seq<Event>)
    requires es != []
    ensures var m := Next(s, es[0]);
      && |s.handled| <= |m.handled|
      && HandledDuring(s, es) == m.handled[|s.handled|..] + HandledDuring(m, es[1..])
  {
    hide Next;
    var m := Next(s, es[0]);
    StepHistory(s, es[0]);
    RunExtendsHistory(m, es[1..]);
    var t := RunOf(m, es[1..]);
    assert t.handled == m.handled + HandledDuring(m, es[1..]);
  }

  /** Clocked events give a clocked sequence of limiter operations. */
  lemma {:induction false} OpsInOrder(s: State, es: seq<Event>, from: real, until: real)
    requires InOrder(es, from, until)
    ensures RateLimiterTheorems.Ordered(LimiterOps(s, es), from, until)
    decreases |es|
  {
    hide Next, ReachesLimiter;
    if es != [] {
      var u := EventTime(es[0], from);
      var rest := LimiterOps(Next(s, es[0]), es[1..]);
      OpsInOrder(Next(s, es[0]), es[1..], u, until);
      if OpsOf(s, es[0]) == [] {
        assert LimiterOps(s, es) == rest;
        OrderedEarlier(rest, from, u, until);
      } else {
        assert LimiterOps(s, es)[1..] == rest;
      }
    }
  }

  lemma {:induction false} OrderedEarlier(ops: seq<RateLimiter.Op>, from: real, later: real, until: real)
    requires from <= later && RateLimiterTheorems.Ordered(ops, later, until)
    ensures RateLimiterTheorems.Ordered(ops, from, until)
    decreases |ops|
  {
    if ops != [] && ops[0].SetDefault? {
      OrderedEarlier(ops[1..], from, later, until);
    }
  }

  lemma {:induction false} ReachedLimiterInv(s: State, before: seq<Event>, start: real, from: real)
    requires Fresh(s) && InOrder(before, start, from)
    ensures RunOf(s, before).limiter.Inv(from)
    ensures RunOf(s, before).limiter.config.priorityBoost == s.limiter.config.priorityBoost
  {
    RunLimiter(s, before);
    OpsInOrder(s, before, start, from);
    RateLimiterTheorems.ReachableInv(s.limiter.config, LimiterOps(s, before), start, from);
    assert s.limiter == RateLimiterTheorems.NewLimiter(s.limiter.config);
    hide *;
  }

  /** The bound for one window, from any state whose limiter keeps its invariant. */
  lemma {:induction false} WindowHandledBound(t: State, window: seq<Event>, d: IMEI, from: real, until: real)
    requires t.limiter.Inv(from) && InOrder(window, from, until)
    requires RateLimiterTheorems.QuietRun(t.limiter, d, LimiterOps(t, window))
    ensures var earned := RateLimiterTheorems.RateOf(t.limiter, d) * (until - from);
      && TotalPrice(HandledDuring(t, window), t.limiter.config.priorityBoost, d, RateLimiterTheorems.All)
         < RateLimiterTheorems.BurstOf(t.limiter, d) as real + 4.1 + earned
      && TotalPrice(HandledDuring(t, window), t.limiter.config.priorityBoost, d, RateLimiterTheorems.NonCritical)
         <= RateLimiterTheorems.BurstOf(t.limiter, d) as real + earned
  {
    hide *;
    OpsInOrder(t, window, from, until);
    RateLimiterTheorems.WindowBound(t.limiter, d, LimiterOps(t, window), from, until);
    RunPaid(t, window, d, RateLimiterTheorems.All);
    RunPaid(t, window, d, RateLimiterTheorems.NonCritical);
  }

  /** End-to-end rate bound: after any run of a fresh session, the messages of `d` handled in
      any window without a reset or limit change of `d` obey the token-bucket bound. */
  lemma {:induction false} HandledBound(
      s: State, before: seq<Event>, window: seq<Event>, d: IMEI, start: real, from: real, until: real)
    requires Fresh(s) && InOrder(before, start, from) && InOrder(window, from, until)
    requires RateLimiterTheorems.QuietRun(RunOf(s, before).limiter, d, LimiterOps(RunOf(s, before), window))
    ensures var t := RunOf(s, before);
      var earned := RateLimiterTheorems.RateOf(t.limiter, d) * (until - from);
      && TotalPrice(HandledDuring(t, window), s.limiter.config.priorityBoost, d, RateLimiterTheorems.All)
         < RateLimiterTheorems.BurstOf(t.limiter, d) as real + 4.1 + earned
      && TotalPrice(HandledDuring(t, window), s.limiter.config.priorityBoost, d, RateLimiterTheorems.NonCritical)
         <= RateLimiterTheorems.BurstOf(t.limiter, d) as real + earned
  {
    hide *;
    ReachedLimiterInv(s, before, start, from);
    WindowHandledBound(RunOf(s, before), window, d, from, until);
  }

  // ------------------------------------------------------- what the queues hold

  /** The bodies on one queue, oldest first. */
  function OnQueue(ps: seq<Gateway.Publication>, queue: string): seq<Gateway.Body>
    decreases |ps|
  {
    if ps == [] then []
    else
      var last := ps[|ps| - 1];
      OnQueue(ps[..|ps| - 1], queue) + if last.queue == queue then [last.body] else []
  }

  /** The payloads of the handled messages of `d` that the publisher took, oldest first. */
  function AcceptedFrom(hs: seq<Handling>, d: IMEI): seq<Gateway.Body>
    decreases |hs|
  {
    if hs == [] then []
    else
      var last := hs[|hs| - 1];
      AcceptedFrom(hs[..|hs| - 1], d)
        + if last.message.deviceId == d && last.reply.Taken() then [Gateway.Original(last.message.payload)] else []
  }

  function InboundOf(s: State, d: IMEI): string {
    Gateway.QueueFor(s.gateway, d, Inbound)
  }

  /** The inbound queue of `d` holds exactly the accepted messages of `d`, in order. */
  ghost predicate InboundExact(s: State, d: IMEI) {
    OnQueue(s.gateway.published, InboundOf(s, d)) == AcceptedFrom(s.handled, d)
  }

  lemma {:induction false} QueueAppend(ps: seq<Gateway.Publication>, p: Gateway.Publication, queue: string)
    ensures OnQueue(ps + [p], queue) == OnQueue(ps, queue) + if p.queue == queue then [p.body] else []
  {
    assert (ps + [p])[..|ps + [p]| - 1] == ps;
  }

  /** A message puts its payload on its own inbound queue and nothing else on any inbound queue. */
  lemma {:induction false} HandledOnQueue(
      g: Gateway.State, m: DeviceMessage, reply: Gateway.Reply, debugReply: Gateway.Reply, countThrows: bool, d: IMEI)
    ensures var h := Gateway.Handled(g, m, reply, debugReply, countThrows).0;
      var queue := Gateway.QueueFor(g, d, Inbound);
      && Gateway.QueueFor(h, d, Inbound) == queue
      && OnQueue(h.published, queue) == OnQueue(g.published, queue)
           + if m.deviceId == d && reply.Taken() then [Gateway.Original(m.payload)] else []
  {
    var inbound := Gateway.Publication(Gateway.QueueFor(g, m.deviceId, Inbound), Gateway.Original(m.payload));
    var debug := Gateway.Publication(Gateway.QueueFor(g, m.deviceId, QueueType.Debug), Gateway.Original(m.payload));
    var queue := Gateway.QueueFor(g, d, Inbound);
    NameIdentifiesWithinRegion(g.prefix, g.region, m.deviceId, Inbound, d, Inbound);
    NameIdentifiesWithinRegion(g.prefix, g.region, m.deviceId, QueueType.Debug, d, Inbound);
    QueueAppend(g.published, inbound, queue);
    QueueAppend(g.published + [inbound], debug, queue);
    hide OnQueue, GatewayQueueName;
  }

  /** An error report never lands on an inbound queue, whatever bytes the device is blamed by. */
  lemma {:induction false} ErrorsOffInbound(
      g: Gateway.State, device: IMEI, code: ErrorCode, reply: Gateway.Reply, countThrows: bool, d: IMEI)
    ensures var h := Gateway.ErrorHandled(g, device, code, reply, countThrows);
      var queue := Gateway.QueueFor(g, d, Inbound);
      Gateway.QueueFor(h, d, Inbound) == queue && OnQueue(h.published, queue) == OnQueue(g.published, queue)
  {
    var report := Gateway.Publication(Gateway.QueueFor(g, device, Discard), Gateway.Report(code));
    NameIdentifiesWithinRegion(g.prefix, g.region, device, Discard, d, Inbound);
    QueueAppend(g.published, report, Gateway.QueueFor(g, d, Inbound));
    hide OnQueue, GatewayQueueName;
  }

  lemma {:induction false} AcceptedAppend(hs: seq<Handling>, h: Handling, d: IMEI)
    ensures AcceptedFrom(hs + [h], d) == AcceptedFrom(hs, d)
      + if h.message.deviceId == d && h.reply.Taken() then [Gateway.Original(h.message.payload)] else []
  {
    assert (hs + [h])[..|hs + [h]| - 1] == hs;
  }

  /** What a message that passed every check does to gateway and history. */
  lemma {:induction false} ValidatedKeeps(s: State, p: Packet)
    ensures var v := Validated(s, p).0;
      && v.gateway == s.gateway && v.handled == s.handled && v.acks == s.acks && v.acksEnabled == s.acksEnabled
      && v.received == s.received && v.processed == s.processed && v.rejected == s.rejected
  {
    hide CheckedAt;
  }

  lemma {:induction false} PacketKeepsInbound(s: State, p: Packet, d: IMEI)
    requires InboundExact(s, d)
    ensures InboundExact(ProcessedPacket(s, p).0, d)
  {
    hide Validated, Gateway.Handled, Gateway.ErrorHandled, BlamedDevice, OnQueue, AcceptedFrom, Gateway.QueueFor;
    ValidatedKeeps(s, p);
    match Validated(s, p).1
    case Thrown =>
    case Valid(m) =>
      var counting := CountingPublished in p.throws;
      HandledOnQueue(s.gateway, m, p.reply, p.debugReply, counting, d);
      var code := Gateway.Handled(s.gateway, m, p.reply, p.debugReply, counting).1;
      AcceptedAppend(s.handled, Handling(m, p.now, p.reply, code), d);
    case Invalid(code) =>
      ErrorsOffInbound(s.gateway, BlamedDevice(p.raw), code, p.errorReply, CountingError in p.throws, d);
  }

  lemma {:induction false} StepKeepsInbound(s: State, e: Event, d: IMEI)
    requires InboundExact(s, d)
    ensures InboundExact(Next(s, e), d)
  {
    hide ProcessedPacket, OnQueue, AcceptedFrom, Gateway.QueueFor;
    if e.Arrival? && s.active && e.receipt.Received? && e.packet.raw != [] {
      PacketKeepsInbound(s.(received := s.received + 1, bytes := s.bytes + |e.packet.raw|), e.packet, d);
    }
  }

  /** In every reachable state each inbound queue holds exactly the payloads of its own
      device's accepted messages, in the order they were handled. */
  lemma {:induction false} InboundQueuesAreExact(s: State, es: seq<Event>, d: IMEI)
    requires InboundExact(s, d)
    ensures InboundExact(RunOf(s, es), d)
    decreases |es|
  {
    hide Next, InboundExact;
    if es != [] {
      StepKeepsInbound(s, es[0], d);
      InboundQueuesAreExact(Next(s, es[0]), es[1..], d);
    }
  }

  // ------------------------------------------------------- acknowledgments and counters

  /** Every acknowledgment answers a handled message, and a success was published. */
  ghost predicate AcksHonest(s: State) {
    forall a :: a in s.acks ==> exists h :: h in s.handled && Answers(a, h)
  }

  predicate Answers(a: Ack, h: Handling) {
    && a.device == h.message.deviceId && a.messageId == h.message.messageId
    && a.success == h.code.Success? && (a.success ==> h.reply.Accepted?)
    && h.message.requiresAcknowledgment
  }

  ghost predicate CountersAddUp(s: State) {
    s.received == s.processed + s.rejected
  }

  lemma {:induction false} PacketKeepsAcks(s: State, p: Packet)
    requires AcksHonest(s)
    ensures var t := ProcessedPacket(s, p).0;
      AcksHonest(t) && t.received == s.received && t.processed == s.processed && t.rejected == s.rejected
  {
    hide Validated, Gateway.ErrorHandled, BlamedDevice, Gateway.QueueFor, AcksHonest;
    ValidatedKeeps(s, p);
    var v, t := Validated(s, p).0, ProcessedPacket(s, p).0;
    match Validated(s, p).1
    case Thrown => SameAcks(s, t);
    case Valid(m) =>
      if CountingValid in p.throws { SameAcks(s, t); return; }
      var code := Gateway.Handled(v.gateway, m, p.reply, p.debugReply, CountingPublished in p.throws).1;
      assert code.Success? ==> p.reply.Accepted?;
      MoreAcks(s, t, Handling(m, p.now, p.reply, code));
    case Invalid(code) => SameAcks(s, t);
  }

  lemma {:induction false} SameAcks(s: State, t: State)
    requires AcksHonest(s) && t.acks == s.acks && t.handled == s.handled
    ensures AcksHonest(t)
  {
  }

  lemma {:induction false} MoreAcks(s: State, t: State, h: Handling)
    requires AcksHonest(s) && t.handled == s.handled + [h]
    requires t.acks == s.acks || exists a :: t.acks == s.acks + [a] && Answers(a, h)
    ensures AcksHonest(t)
  {
    forall a | a in t.acks ensures exists g :: g in t.handled && Answers(a, g) {
      if a in s.acks {
        var g :| g in s.handled && Answers(a, g);
        assert g in t.handled;
      } else {
        assert h in t.handled && Answers(a, h);
      }
    }
  }

  lemma {:induction false} StepKeepsAcks(s: State, e: Event)
    requires AcksHonest(s) && CountersAddUp(s)
    ensures AcksHonest(Next(s, e)) && CountersAddUp(Next(s, e))
  {
    hide ProcessedPacket, Answers;
    if e.Arrival? && s.active && e.receipt.Received? && e.packet.raw != [] {
      PacketKeepsAcks(s.(received := s.received + 1, bytes := s.bytes + |e.packet.raw|), e.packet);
    }
  }

  /** In every reachable state acknowledgments are honest and received = processed + rejected. */
  lemma {:induction false} AcksAndCounters(s: State, es: seq<Event>)
    requires AcksHonest(s) && CountersAddUp(s)
    ensures AcksHonest(RunOf(s, es)) && CountersAddUp(RunOf(s, es))
    decreases |es|
  {
    hide Next, AcksHonest, CountersAddUp;
    if es != [] {
      StepKeepsAcks(s, es[0]);
      AcksAndCounters(Next(s, es[0]), es[1..]);
    }
  }

  // ------------------------------------------------------- acknowledgments that mislead

  /** Something throws after the publisher took the message: the publisher itself, the debug
      publication, or the count of published messages. */
  predicate FailsAfterPublishing(g: Gateway.State, p: Packet) {
    || p.reply == Gateway.Threw(true)
    || (p.reply.Accepted? && ((g.debugging && p.debugReply.Threw?) || (g.collecting && CountingPublished in p.throws)))
  }

  lemma {:induction false} CodeMisleadsIff(g: Gateway.State, m: DeviceMessage, p: Packet)
    ensures var code := Gateway.Handled(g, m, p.reply, p.debugReply, CountingPublished in p.throws).1;
      && (code.Success? ==> p.reply.Taken())
      && (p.reply.Taken() && !code.Success? <==> FailsAfterPublishing(g, p))
  {
    hide Gateway.QueueFor, Gateway.Put;
  }

  /** A handled message that wants one gets one acknowledgment. A positive one is never wrong; a
      negative one answers a published message exactly when something throws after publishing. */
  lemma {:induction false} NegativeAckOfPublishedIff(s: State, p: Packet)
    requires GetsRecorded(s, p) && GetsThrough(p) && Acknowledging !in p.throws
    requires p.parse.message.requiresAcknowledgment && s.acksEnabled
    ensures var acks := PacketHandled(s, p, Received).0.acks;
      && |acks| == |s.acks| + 1 && acks[..|s.acks|] == s.acks
      && var a := acks[|s.acks|];
         && a.device == p.parse.message.deviceId && a.messageId == p.parse.message.messageId
         && (a.success ==> p.reply.Taken())
         && (!a.success && p.reply.Taken() <==> FailsAfterPublishing(s.gateway, p))
  {
    var r := s.(received := s.received + 1, bytes := s.bytes + |p.raw|);
    WhatValidationTouches(r, p);
    assert GetsRecorded(r, p);
    ValidatedKeeps(r, p);
    hide Validated, GetsRecorded, Gateway.Handled, FailsAfterPublishing;
    CodeMisleadsIff(s.gateway, p.parse.message.(region := s.regionCode), p);
  }

  // ------------------------------------------------------- from a fresh session

  /** Everything above, from construction on: no message is handled twice, each inbound queue
      is exactly its device's accepted messages, acknowledgments are honest, counters add up. */
  lemma {:induction false} EndToEnd(s: State, es: seq<Event>, d: IMEI)
    requires Fresh(s)
    ensures var t := RunOf(s, es);
      HandledOnce(t) && InboundExact(t, d) && AcksHonest(t) && CountersAddUp(t)
  {
    assert HandledOnce(s) && InboundExact(s, d) && AcksHonest(s) && CountersAddUp(s);
    hide *;
    AtMostOnce(s, es);
    InboundQueuesAreExact(s, es, d);
    AcksAndCounters(s, es);
  }
}
