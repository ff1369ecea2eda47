/** The packet pipeline: parse, authenticate, deduplicate, limit, record, handle.

    The parser's answer, the clock, the publisher's answers and the point at which a
    collaborator throws come with each packet. The duplicate service remembers everything
    recorded. */
module Session {
  import opened Bytes
  import opened RateLimiter
  import Gateway

  type DeviceMessage = Gateway.DeviceMessage
  type ErrorCode = Gateway.ErrorCode

  datatype DeviceState = Unknown | Connected | Disconnected | Suspended

  /** What identifies a message to the duplicate service. */
  datatype Triple = Triple(device: IMEI, sequenceNumber: nat, messageId: string)

  function TripleOf(m: DeviceMessage): Triple {
    Triple(m.deviceId, m.sequenceNumber, m.messageId)
  }

  datatype ParseOutcome = Understood(message: DeviceMessage) | NotUnderstood | ParserThrew

  /** Where a collaborator can throw, in the order the pipeline comes to them. `Counting…` are
      calls to the metrics collector. A collaborator that throws after doing its work throws,
      for the pipeline, at the next point. */
  datatype Point =
    | Authenticating | ReadingDeviceState | CheckingDuplicate | Recording | UpdatingStatus
    | CountingValid | CountingPublished | Acknowledging | CountingAcknowledgment | SendingCommands
    | CountingInvalid | CountingError | CountingRejected | CountingSocketError

  datatype Packet = Packet(
    raw: seq<Byte>, parse: ParseOutcome, now: real, throws: set<Point>,
    reply: Gateway.Reply, debugReply: Gateway.Reply, errorReply: Gateway.Reply)

  /** How a receive ends. */
  datatype Receipt = Received | Aborted | Failed

  /** One call of `handleMessage`, and what came of it. */
  datatype Handling = Handling(message: DeviceMessage, now: real, reply: Gateway.Reply, code: ErrorCode)

  datatype Ack = Ack(device: IMEI, messageId: string, success: bool)

  datatype State = State(
    regionCode: string, acksEnabled: bool, active: bool,
    received: nat, processed: nat, rejected: nat, bytes: nat,
    limiter: Limiter, recorded: set<Triple>,
    authenticated: set<IMEI>, deviceStates: map<IMEI, DeviceState>,
    gateway: Gateway.State, handled: seq<Handling>, acks: seq<Ack>)

  datatype Verdict = Valid(message: DeviceMessage) | Invalid(code: ErrorCode) | Thrown

  // ---------------------------------------------------------------- specification

  function StateOf(states: map<IMEI, DeviceState>, d: IMEI): DeviceState {
    if d in states then states[d] else Unknown
  }

  /** The steps after a message has been admitted. */
  function RecordedAndConnected(s: State, m: DeviceMessage, throws: set<Point>): (State, Verdict) {
    if Recording in throws then (s, Thrown)
    else
      var r := s.(recorded := s.recorded + {TripleOf(m)});
      if UpdatingStatus in throws then (r, Thrown)
      else (r.(deviceStates := r.deviceStates[m.deviceId := Connected]), Valid(m))
  }

  function Validated(s: State, p: Packet): (State, Verdict) {
    match p.parse
    case ParserThrew => (s, Thrown)
    case NotUnderstood => (s, Invalid(Gateway.InvalidMessage))
    case Understood(parsed) =>
      var m := parsed.(region := s.regionCode);
      if Authenticating in p.throws then (s, Thrown)
      else if m.deviceId !in s.authenticated then (s, Invalid(Gateway.AuthenticationFailure))
      else if ReadingDeviceState in p.throws then (s, Thrown)
      else if StateOf(s.deviceStates, m.deviceId) == Suspended then (s, Invalid(Gateway.DeviceSuspended))
      else if CheckingDuplicate in p.throws then (s, Thrown)
      else if TripleOf(m) in s.recorded then (s, Invalid(Gateway.DuplicateMessage))
      else
        var (limiter, admitted) := CheckedAt(s.limiter, m.deviceId, m.priority, p.now);
        var t := s.(limiter := limiter);
        if !admitted then (t, Invalid(Gateway.RateLimited))
        else RecordedAndConnected(t, m, p.throws)
  }

  /** Who an unusable packet is blamed on: its first fifteen bytes, if it has them. */
  function BlamedDevice(raw: seq<Byte>): IMEI {
    if |raw| >= 15 then seq(15, i requires 0 <= i < 15 => raw[i] as char) else "unknown"
  }

  /** The acknowledgment and, after a success, the delivery of pending commands. */
  function Replied(s: State, m: DeviceMessage, code: ErrorCode, throws: set<Point>): (State, bool) {
    var wanted := m.requiresAcknowledgment && s.acksEnabled;
    if wanted && Acknowledging in throws then (s, true)
    else
      var r := if wanted then s.(acks := s.acks + [Ack(m.deviceId, m.messageId, code.Success?)]) else s;
      (r, (wanted && CountingAcknowledgment in throws) || (code.Success? && SendingCommands in throws))
  }

  /** What follows a valid verdict: the message is counted before it is handled. */
  function Delivered(s: State, m: DeviceMessage, p: Packet): (State, bool) {
    if CountingValid in p.throws then (s, true)
    else
      var (g, code) := Gateway.Handled(s.gateway, m, p.reply, p.debugReply, CountingPublished in p.throws);
      Replied(s.(gateway := g, handled := s.handled + [Handling(m, p.now, p.reply, code)]), m, code, p.throws)
  }

  /** What follows an invalid verdict: the error is counted before it is handled. */
  function Refused(s: State, code: ErrorCode, p: Packet): (State, bool) {
    if CountingInvalid in p.throws then (s, true)
    else
      var g := Gateway.ErrorHandled(s.gateway, BlamedDevice(p.raw), code, p.errorReply, CountingError in p.throws);
      (s.(gateway := g), false)
  }

  /** The new state, and whether processing threw. */
  function ProcessedPacket(s: State, p: Packet): (State, bool) {
    var (v, verdict) := Validated(s, p);
    match verdict
    case Thrown => (v, true)
    case Valid(m) => Delivered(v, m, p)
    case Invalid(code) => Refused(v, code, p)
  }

  function Counted(s: State, threw: bool): State {
    if threw then s.(rejected := s.rejected + 1) else s.(processed := s.processed + 1)
  }

  /** The new state, and whether an exception leaves the handler, so that it receives no more. */
  function PacketHandled(s: State, p: Packet, receipt: Receipt): (State, bool) {
    if !s.active then (s, false)
    else if receipt.Received? && p.raw != [] then
      var (t, threw) := ProcessedPacket(s.(received := s.received + 1, bytes := s.bytes + |p.raw|), p);
      (Counted(t, threw), threw && CountingRejected in p.throws)
    else (s, receipt.Failed? && CountingSocketError in p.throws)
  }

  // ---------------------------------------------------------------- the classes

  class DeduplicationService {
    var recorded: set<Triple>

    constructor ()
      ensures recorded == {}
    {
      recorded := {};
    }

    method IsDuplicate(t: Triple) returns (duplicate: bool)
      ensures duplicate == (t in recorded)
    {
      duplicate := t in recorded;
    }

    method RecordMessage(t: Triple)
      modifies this
      ensures recorded == old(recorded) + {t}
    {
      recorded := recorded + {t};
    }
  }

  class DeviceManager {
    var authenticated: set<IMEI>
    var states: map<IMEI, DeviceState>

    method UpdateDeviceStatus(d: IMEI, state: DeviceState)
      modifies this`states
      ensures states == old(states)[d := state]
    {
      states := states[d := state];
    }
  }

  class Session {
    const regionCode: string
    const acksEnabled: bool
    const limiter: TokenBucketRateLimiter
    const duplicates: DeduplicationService
    const devices: DeviceManager
    const handler: Gateway.Gateway
    var active: bool
    var packetsReceived: nat
    var packetsProcessed: nat
    var packetsRejected: nat
    var bytesReceived: nat
    var acks: seq<Ack>
    ghost var handled: seq<Handling>

    ghost predicate Consistent()
      reads limiter
    {
      limiter.Valid()
    }

    ghost function Value(): State
      reads this, limiter, limiter.deviceBuckets.Values, duplicates, devices, handler
    {
      State(regionCode, acksEnabled, active, packetsReceived, packetsProcessed, packetsRejected, bytesReceived,
            limiter.State(), duplicates.recorded, devices.authenticated, devices.states,
            handler.Value(), handled, acks)
    }

    constructor (regionCode: string, acksEnabled: bool, limiter: TokenBucketRateLimiter,
                 duplicates: DeduplicationService, devices: DeviceManager, handler: Gateway.Gateway)
      requires limiter.Valid()
      ensures Consistent()
      ensures this.limiter == limiter && this.duplicates == duplicates
      ensures this.devices == devices && this.handler == handler
      ensures Value() == State(regionCode, acksEnabled, false, 0, 0, 0, 0, limiter.State(), duplicates.recorded,
                               devices.authenticated, devices.states, handler.Value(), [], [])
    {
      this.regionCode, this.acksEnabled, this.limiter := regionCode, acksEnabled, limiter;
      this.duplicates, this.devices, this.handler := duplicates, devices, handler;
      active, acks, handled := false, [], [];
      packetsReceived, packetsProcessed, packetsRejected, bytesReceived := 0, 0, 0, 0;
    }

    method Start()
      requires Consistent()
      modifies this`active
      ensures Consistent() && Value() == old(Value()).(active := true)
    {
      active := true;
    }

    method Stop()
      requires Consistent()
      modifies this`active
      ensures Consistent() && Value() == old(Value()).(active := false)
    {
      active := false;
    }

    method ParseAndValidate(p: Packet) returns (verdict: Verdict)
      requires Consistent()
      modifies limiter, limiter.deviceBuckets.Values, duplicates, devices
      ensures Consistent() && fresh(limiter.deviceBuckets.Values - old(limiter.deviceBuckets.Values))
      ensures (Value(), verdict) == Validated(old(Value()), p)
    {
      hide CheckedAt;
      if p.parse.ParserThrew? {
        return Thrown;
      }
      if p.parse.NotUnderstood? {
        return Invalid(Gateway.InvalidMessage);
      }
      var m := p.parse.message.(region := regionCode);
      if Authenticating in p.throws {
        return Thrown;
      }
      if m.deviceId !in devices.authenticated {
        return Invalid(Gateway.AuthenticationFailure);
      }
      if ReadingDeviceState in p.throws {
        return Thrown;
      }
      if StateOf(devices.states, m.deviceId) == Suspended {
        return Invalid(Gateway.DeviceSuspended);
      }
      if CheckingDuplicate in p.throws {
        return Thrown;
      }
      var duplicate := duplicates.IsDuplicate(TripleOf(m));
      if duplicate {
        return Invalid(Gateway.DuplicateMessage);
      }
      var admitted := limiter.CheckLimit(m.deviceId, m.priority, p.now);
      if !admitted {
        return Invalid(Gateway.RateLimited);
      }
      verdict := RecordAndConnect(m, p.throws);
    }

    method RecordAndConnect(m: DeviceMessage, throws: set<Point>) returns (verdict: Verdict)
      requires Consistent()
      modifies duplicates, devices
      ensures Consistent() && (Value(), verdict) == RecordedAndConnected(old(Value()), m, throws)
    {
      if Recording in throws {
        return Thrown;
      }
      duplicates.RecordMessage(TripleOf(m));
      if UpdatingStatus in throws {
        return Thrown;
      }
      devices.UpdateDeviceStatus(m.deviceId, Connected);
      return Valid(m);
    }

    method Reply(m: DeviceMessage, code: ErrorCode, throws: set<Point>) returns (threw: bool)
      requires Consistent()
      modifies this`acks
      ensures Consistent() && (Value(), threw) == Replied(old(Value()), m, code, throws)
    {
      if m.requiresAcknowledgment && acksEnabled {
        if Acknowledging in throws {
          return true;
        }
        acks := acks + [Ack(m.deviceId, m.messageId, code == Gateway.Success)];
        if CountingAcknowledgment in throws {
          return true;
        }
      }
      return code == Gateway.Success && SendingCommands in throws;
    }

    method Deliver(m: DeviceMessage, p: Packet) returns (threw: bool)
      requires Consistent()
      modifies this`acks, this`handled, handler
      ensures Consistent() && (Value(), threw) == Delivered(old(Value()), m, p)
    {
      hide Replied, Gateway.Handled, TokenBucketRateLimiter.State;
      if CountingValid in p.throws {
        return true;
      }
      var code := handler.HandleMessage(m, p.reply, p.debugReply, CountingPublished in p.throws);
      handled := handled + [Handling(m, p.now, p.reply, code)];
      threw := Reply(m, code, p.throws);
    }

    method Refuse(code: ErrorCode, p: Packet) returns (threw: bool)
      requires Consistent()
      modifies handler
      ensures Consistent() && (Value(), threw) == Refused(old(Value()), code, p)
    {
      hide Gateway.ErrorHandled, TokenBucketRateLimiter.State;
      if CountingInvalid in p.throws {
        return true;
      }
      handler.HandleError(BlamedDevice(p.raw), code, p.errorReply, CountingError in p.throws);
      return false;
    }

    method ProcessPacket(p: Packet) returns (threw: bool)
      requires Consistent()
      modifies this`acks, this`handled, limiter, limiter.deviceBuckets.Values, duplicates, devices, handler
      ensures Consistent() && fresh(limiter.deviceBuckets.Values - old(limiter.deviceBuckets.Values))
      ensures (Value(), threw) == ProcessedPacket(old(Value()), p)
    {
      hide Validated, Delivered, Refused, TokenBucketRateLimiter.State, Value;
      var verdict := ParseAndValidate(p);
      match verdict {
        case Thrown => return true;
        case Valid(m) =>
          threw := Deliver(m, p);
        case Invalid(code) =>
          threw := Refuse(code, p);
      }
    }

    method CountReceived(size: nat)
      requires Consistent()
      modifies this`packetsReceived, this`bytesReceived
      ensures Consistent()
      ensures Value() == old(Value()).(received := old(Value().received) + 1, bytes := old(Value().bytes) + size)
    {
      hide TokenBucketRateLimiter.State;
      packetsReceived := packetsReceived + 1;
      bytesReceived := bytesReceived + size;
    }

    method CountOutcome(threw: bool)
      requires Consistent()
      modifies this`packetsProcessed, this`packetsRejected
      ensures Consistent() && Value() == Counted(old(Value()), threw)
    {
      hide TokenBucketRateLimiter.State;
      if threw {
        packetsRejected := packetsRejected + 1;
      } else {
        packetsProcessed := packetsProcessed + 1;
      }
    }

    method HandlePacket(p: Packet, receipt: Receipt) returns (escaped: bool)
      requires Consistent()
      modifies this, limiter, limiter.deviceBuckets.Values, duplicates, devices, handler
      ensures Consistent() && fresh(limiter.deviceBuckets.Values - old(limiter.deviceBuckets.Values))
      ensures (Value(), escaped) == PacketHandled(old(Value()), p, receipt)
    {
      hide ProcessedPacket, TokenBucketRateLimiter.State, Counted;
      if !active {
        return false;
      }
      if receipt == Received && |p.raw| > 0 {
        hide Value;
        CountReceived(|p.raw|);
        var threw := ProcessPacket(p);
        CountOutcome(threw);
        return threw && CountingRejected in p.throws;
      }
      return receipt == Failed && CountingSocketError in p.throws;
    }
  }
}
