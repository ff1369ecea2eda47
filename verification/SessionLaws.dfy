/** What one packet does, in full, and what that means for the device's next ones. */
module SessionLaws {
  import opened Bytes
  import opened RateLimiter
  import Gateway
  import opened QueueNames
  import opened Session
  import opened SessionTheorems

  // ------------------------------------------------------- the verdict

  datatype Fate = Broken | Turned(code: ErrorCode) | Passed

  /** The checks in order, each with the error it gives; a call that throws on the way breaks off. */
  function FateOf(s: State, p: Packet): Fate {
    if p.parse.ParserThrew? then Broken
    else if p.parse.NotUnderstood? then Turned(Gateway.InvalidMessage)
    else
      var d := p.parse.message.deviceId;
      if Authenticating in p.throws then Broken
      else if d !in s.authenticated then Turned(Gateway.AuthenticationFailure)
      else if ReadingDeviceState in p.throws then Broken
      else if d in s.deviceStates && s.deviceStates[d] == Suspended then Turned(Gateway.DeviceSuspended)
      else if CheckingDuplicate in p.throws then Broken
      else if TripleOf(p.parse.message) in s.recorded then Turned(Gateway.DuplicateMessage)
      else if !CheckedAt(s.limiter, d, p.parse.message.priority, p.now).1 then Turned(Gateway.RateLimited)
      else if Recording in p.throws || UpdatingStatus in p.throws then Broken
      else Passed
  }

  lemma {:induction false} VerdictLaw(s: State, p: Packet)
    ensures FateOf(s, p).Passed? ==> p.parse.Understood?
    ensures FateOf(s, p).Broken? <==> Validated(s, p).1 == Thrown
    ensures FateOf(s, p).Turned? ==> Validated(s, p).1 == Invalid(FateOf(s, p).code)
    ensures FateOf(s, p).Passed? ==> Validated(s, p).1 == Valid(p.parse.message.(region := s.regionCode))
  {
    hide CheckedAt;
  }

  /** Of a packet, validation leaves behind a bucket, a record and a device state, and nothing else. */
  lemma {:induction false} ValidationFrame(s: State, p: Packet)
    ensures var v := Validated(s, p).0;
      v == s.(limiter := v.limiter, recorded := v.recorded, deviceStates := v.deviceStates)
  {
    hide CheckedAt;
  }

  // ------------------------------------------------------- device states

  lemma {:induction false} ValidationStates(s: State, p: Packet)
    requires s.active && p.raw != []
    ensures Validated(s, p).0.deviceStates ==
      if GetsRecorded(s, p) && UpdatingStatus !in p.throws
      then s.deviceStates[p.parse.message.deviceId := Connected] else s.deviceStates
  {
    hide CheckedAt;
  }

  /** A packet changes the state of no device but its sender, and that only to connected, exactly
      when it is recorded and the status update does not throw. */
  lemma {:induction false} StatesLaw(s: State, p: Packet, receipt: Receipt)
    ensures PacketHandled(s, p, receipt).0.deviceStates ==
      if receipt.Received? && GetsRecorded(s, p) && UpdatingStatus !in p.throws
      then s.deviceStates[p.parse.message.deviceId := Connected] else s.deviceStates
    ensures PacketHandled(s, p, receipt).0.authenticated == s.authenticated
  {
    if s.active && receipt.Received? && p.raw != [] {
      var r := Counting(s, p);
      ValidationStates(r, p);
      ValidationFrame(r, p);
      SameGates(s, r, p);
      ProcessingFrame(r, p);
      hide ProcessedPacket, Validated, GetsRecorded;
    } else {
      hide ProcessedPacket;
    }
  }

  /** The session when a packet has been counted and is about to be processed. */
  function Counting(s: State, p: Packet): State {
    s.(received := s.received + 1, bytes := s.bytes + |p.raw|)
  }

  /** After validation only gateway, history and acknowledgments change. */
  lemma {:induction false} ProcessingFrame(s: State, p: Packet)
    ensures var v, t := Validated(s, p).0, ProcessedPacket(s, p).0;
      t == v.(gateway := t.gateway, handled := t.handled, acks := t.acks)
  {
    hide Validated, Gateway.Handled, Gateway.ErrorHandled, BlamedDevice;
  }

  lemma {:induction false} SameGates(s: State, r: State, p: Packet)
    requires r == s.(received := r.received, bytes := r.bytes)
    ensures GetsRecorded(r, p) == GetsRecorded(s, p) && FateOf(r, p) == FateOf(s, p)
  {
    hide CheckedAt;
  }

  /** Nobody suspends the device during the run. */
  predicate LeavesAlone(e: Event, d: IMEI) {
    e.DevicesChanged? ==> StateOf(e.states, d) != Suspended
  }

  lemma {:induction false} StepKeepsUnsuspended(s: State, e: Event, d: IMEI)
    requires StateOf(s.deviceStates, d) != Suspended && LeavesAlone(e, d)
    ensures StateOf(Next(s, e).deviceStates, d) != Suspended
  {
    if e.Arrival? { StatesLaw(s, e.packet, e.receipt); }
    hide PacketHandled, GetsRecorded;
  }

  /** Over every run a device that nobody suspends is not suspended: handling its packets never
      suspends it. */
  lemma {:induction false} NeverSuspendedByPackets(s: State, es: seq<Event>, d: IMEI)
    requires StateOf(s.deviceStates, d) != Suspended && forall e :: e in es ==> LeavesAlone(e, d)
    ensures StateOf(RunOf(s, es).deviceStates, d) != Suspended
    decreases |es|
  {
    hide Next, StateOf;
    if es != [] {
      assert es[0] in es;
      StepKeepsUnsuspended(s, es[0], d);
      NeverSuspendedByPackets(Next(s, es[0]), es[1..], d);
    }
  }

  predicate IsNewFrom(s: State, m: DeviceMessage) {
    m.deviceId in s.authenticated && TripleOf(m) !in s.recorded
  }

  /** So after such a run an undisturbed packet of the device, authenticated and new, gets to the
      limiter, and is never turned away as suspended whatever it is. */
  lemma {:induction false} NextPacketReachesLimiter(s: State, es: seq<Event>, p: Packet)
    requires p.parse.Understood? && p.raw != []
    requires var d := p.parse.message.deviceId;
      StateOf(s.deviceStates, d) != Suspended && forall e :: e in es ==> LeavesAlone(e, d)
    ensures var t := RunOf(s, es);
      && FateOf(t, p) != Turned(Gateway.DeviceSuspended)
      && (t.active && p.throws == {} && IsNewFrom(t, p.parse.message) ==> ReachesLimiter(t, p))
  {
    NeverSuspendedByPackets(s, es, p.parse.message.deviceId);
    hide RunOf, CheckedAt;
  }

  // ------------------------------------------------------- publications

  /** Queue names, written out. */
  function NameOf(g: Gateway.State, device: string, suffix: string): string {
    (if g.prefix == "" then "" else g.prefix + ".") + g.region + "." + device + "_" + suffix
  }

  /** Who an unusable packet is blamed on: its first fifteen bytes, whatever they are. */
  lemma {:induction false} BlameLaw(raw: seq<Byte>)
    ensures |raw| < 15 ==> BlamedDevice(raw) == "unknown"
    ensures |raw| >= 15 ==>
      |BlamedDevice(raw)| == 15 && forall i :: 0 <= i < 15 ==> BlamedDevice(raw)[i] == raw[i] as char
  {
  }

  /** What a packet puts on the queues: the payload on the device's inbound queue if the publisher
      takes it, a copy on its debug queue when debugging, or, for a message that is not understood
      or not authenticated, a report on the discard queue of the device blamed. */
  function PublicationsOf(s: State, p: Packet): seq<Gateway.Publication> {
    match FateOf(s, p)
    case Broken => []
    case Turned(code) =>
      if CountingInvalid !in p.throws && (code.InvalidMessage? || code.AuthenticationFailure?) && p.errorReply.Taken()
      then [Gateway.Publication(NameOf(s.gateway, BlamedDevice(p.raw), "discard"), Gateway.Report(code))] else []
    case Passed =>
      var d, payload := p.parse.message.deviceId, Gateway.Original(p.parse.message.payload);
      if CountingValid in p.throws then []
      else
        (if p.reply.Taken() then [Gateway.Publication(NameOf(s.gateway, d, "inbound"), payload)] else [])
        + (if p.reply.Accepted? && s.gateway.debugging && p.debugReply.Taken()
           then [Gateway.Publication(NameOf(s.gateway, d, "debug"), payload)] else [])
  }

  lemma {:induction false} NamesAsWritten(g: Gateway.State, d: IMEI)
    ensures Gateway.QueueFor(g, d, Inbound) == NameOf(g, d, "inbound")
    ensures Gateway.QueueFor(g, d, QueueType.Debug) == NameOf(g, d, "debug")
    ensures Gateway.QueueFor(g, d, Discard) == NameOf(g, d, "discard")
  {
  }

  lemma {:induction false} HandledPublishes(g: Gateway.State, m: DeviceMessage, p: Packet)
    ensures var h := Gateway.Handled(g, m, p.reply, p.debugReply, CountingPublished in p.throws).0;
      h.published == g.published
        + ((if p.reply.Taken()
            then [Gateway.Publication(NameOf(g, m.deviceId, "inbound"), Gateway.Original(m.payload))] else [])
           + (if p.reply.Accepted? && g.debugging && p.debugReply.Taken()
              then [Gateway.Publication(NameOf(g, m.deviceId, "debug"), Gateway.Original(m.payload))] else []))
  {
    NamesAsWritten(g, m.deviceId);
    hide Gateway.QueueFor, NameOf;
  }

  lemma {:induction false} ErrorPublishes(g: Gateway.State, device: IMEI, code: ErrorCode, p: Packet)
    ensures var h := Gateway.ErrorHandled(g, device, code, p.errorReply, CountingError in p.throws);
      h.published == g.published
        + if (code.InvalidMessage? || code.AuthenticationFailure?) && p.errorReply.Taken()
          then [Gateway.Publication(NameOf(g, device, "discard"), Gateway.Report(code))] else []
  {
    NamesAsWritten(g, device);
    hide Gateway.QueueFor, NameOf;
  }

  /** What any packet publishes, where and in which order: exactly that. */
  lemma {:induction false} PublicationLaw(s: State, p: Packet, receipt: Receipt)
    ensures PacketHandled(s, p, receipt).0.gateway.published == s.gateway.published
      + if s.active && receipt.Received? && p.raw != [] then PublicationsOf(s, p) else []
  {
    assert s.gateway.published + [] == s.gateway.published;
    if s.active && receipt.Received? && p.raw != [] {
      ProcessingPublishes(Counting(s, p), p);
      SameGates(s, Counting(s, p), p);
    }
    hide ProcessedPacket, FateOf, NameOf, BlamedDevice;
  }

  lemma {:induction false} ProcessingPublishes(s: State, p: Packet)
    ensures ProcessedPacket(s, p).0.gateway.published == s.gateway.published + PublicationsOf(s, p)
  {
    VerdictLaw(s, p);
    ValidationFrame(s, p);
    hide Validated, FateOf, NameOf, BlamedDevice, Gateway.Handled, Gateway.ErrorHandled;
    assert s.gateway.published + [] == s.gateway.published;
    match FateOf(s, p)
    case Passed => HandledPublishes(s.gateway, p.parse.message.(region := s.regionCode), p);
    case Turned(code) => ErrorPublishes(s.gateway, BlamedDevice(p.raw), code, p);
    case Broken =>
  }

  // ------------------------------------------------------- counters and acknowledgments

  /** The handler succeeds: the message is taken, and nothing throws after that. */
  predicate Succeeds(g: Gateway.State, p: Packet) {
    && p.reply.Accepted?
    && !(g.debugging && p.debugReply.Threw?)
    && !(g.collecting && CountingPublished in p.throws)
  }

  predicate WantsAck(s: State, p: Packet) {
    s.acksEnabled && p.parse.Understood? && p.parse.message.requiresAcknowledgment
  }

  /** Processing ends with an exception. */
  predicate Throws(s: State, p: Packet) {
    match FateOf(s, p)
    case Broken => true
    case Turned(_) => CountingInvalid in p.throws
    case Passed =>
      || CountingValid in p.throws
      || (WantsAck(s, p) && (Acknowledging in p.throws || CountingAcknowledgment in p.throws))
      || (Succeeds(s.gateway, p) && SendingCommands in p.throws)
  }

  function AcksOf(s: State, p: Packet): seq<Ack> {
    if FateOf(s, p).Passed? && CountingValid !in p.throws && WantsAck(s, p) && Acknowledging !in p.throws
    then [Ack(p.parse.message.deviceId, p.parse.message.messageId, Succeeds(s.gateway, p))]
    else []
  }

  function OneMore<K>(counts: map<K, nat>, key: K): map<K, nat> {
    counts[key := if key in counts then counts[key] + 1 else 1]
  }

  /** The gateway's metrics after a packet: a success is counted under the session's region, a
      refusal under its error, and only if the metrics collector is there and nothing throws before. */
  function MetricsAfter(s: State, p: Packet): Gateway.Metrics {
    var was := s.gateway.metrics;
    match FateOf(s, p)
    case Broken => was
    case Turned(code) =>
      if !s.gateway.collecting || CountingInvalid in p.throws || CountingError in p.throws
         || ((code.InvalidMessage? || code.AuthenticationFailure?) && p.errorReply.Threw?)
      then was
      else was.(rejected := was.rejected + 1, perError := OneMore(was.perError, code))
    case Passed =>
      if !s.gateway.collecting || CountingValid in p.throws || !Succeeds(s.gateway, p) then was
      else was.(processed := was.processed + 1, perRegion := OneMore(was.perRegion, s.regionCode))
  }

  lemma {:induction false} HandledCode(g: Gateway.State, m: DeviceMessage, p: Packet)
    ensures var (h, code) := Gateway.Handled(g, m, p.reply, p.debugReply, CountingPublished in p.throws);
      && (code.Success? <==> Succeeds(g, p))
      && h == g.(published := h.published, metrics :=
           if Succeeds(g, p) && g.collecting
           then g.metrics.(processed := g.metrics.processed + 1, perRegion := OneMore(g.metrics.perRegion, m.region))
           else g.metrics)
  {
    hide Gateway.QueueFor;
  }

  lemma {:induction false} ErrorMetrics(g: Gateway.State, device: IMEI, code: ErrorCode, p: Packet)
    ensures var h := Gateway.ErrorHandled(g, device, code, p.errorReply, CountingError in p.throws);
      h == g.(published := h.published, metrics :=
        if !g.collecting || CountingError in p.throws
           || ((code.InvalidMessage? || code.AuthenticationFailure?) && p.errorReply.Threw?)
        then g.metrics
        else g.metrics.(rejected := g.metrics.rejected + 1, perError := OneMore(g.metrics.perError, code)))
  {
    hide Gateway.QueueFor;
  }

  lemma {:induction false} ProcessingCounts(s: State, p: Packet)
    ensures var (t, threw) := ProcessedPacket(s, p);
      && (threw <==> Throws(s, p)) && t.acks == s.acks + AcksOf(s, p) && t.gateway.metrics == MetricsAfter(s, p)
  {
    VerdictLaw(s, p);
    ValidationFrame(s, p);
    hide Validated, FateOf, BlamedDevice, Gateway.Handled, Gateway.ErrorHandled, Succeeds, OneMore;
    assert s.acks + [] == s.acks;
    match FateOf(s, p)
    case Passed => HandledCode(s.gateway, p.parse.message.(region := s.regionCode), p);
    case Turned(code) => ErrorMetrics(s.gateway, BlamedDevice(p.raw), code, p);
    case Broken =>
  }

  /** Counters, metrics and acknowledgments after any packet. Only packets of an active session that
      arrive with bytes in them count; those that end with an exception are rejected. */
  lemma {:induction false} CountingLaw(s: State, p: Packet, receipt: Receipt)
    ensures var (t, escaped) := PacketHandled(s, p, receipt);
      var counts := s.active && receipt.Received? && p.raw != [];
      && t.received == s.received + (if counts then 1 else 0)
      && t.bytes == s.bytes + (if counts then |p.raw| else 0)
      && t.rejected == s.rejected + (if counts && Throws(s, p) then 1 else 0)
      && t.processed == s.processed + (if counts && !Throws(s, p) then 1 else 0)
      && t.acks == s.acks + (if counts then AcksOf(s, p) else [])
      && t.gateway.metrics == (if counts then MetricsAfter(s, p) else s.gateway.metrics)
      && (escaped <==>
            (counts && Throws(s, p) && CountingRejected in p.throws)
            || (s.active && receipt.Failed? && CountingSocketError in p.throws))
      && t.active == s.active
  {
    assert s.acks + [] == s.acks;
    var r := Counting(s, p);
    if s.active && receipt.Received? && p.raw != [] {
      ProcessingCounts(r, p);
      ProcessingFrame(r, p);
      ValidationFrame(r, p);
      SameGates(s, r, p);
    }
    hide ProcessedPacket, Validated, FateOf, Succeeds, OneMore;
  }
}
