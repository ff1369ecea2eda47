/** What the gateway does with a validated message and with an error. */
module Gateway {
  import opened Bytes
  import opened QueueNames
  import opened RateLimiter

  datatype DeviceMessage = DeviceMessage(
    deviceId: IMEI, region: string, payload: seq<Byte>, sequenceNumber: nat, messageId: string,
    priority: Priority, requiresAcknowledgment: bool)

  datatype ErrorCode =
    | Success | InvalidMessage | AuthenticationFailure | RateLimited | DuplicateMessage
    | DeviceSuspended | InternalError | DependencyFailure | InvalidConfiguration

  /** What lands on a queue: a device's payload, or the report of an error. */
  datatype Body = Original(payload: seq<Byte>) | Report(code: ErrorCode)

  datatype Publication = Publication(queue: string, body: Body)

  /** What the message publisher does with one message; one that throws may have taken it. */
  datatype Reply = Accepted | Refused | Threw(taken: bool) {
    predicate Taken() {
      Accepted? || (Threw? && taken)
    }
  }

  datatype Metrics = Metrics(
    processed: nat, rejected: nat, perRegion: map<string, nat>, perError: map<ErrorCode, nat>)

  datatype State = State(
    prefix: string, region: string, debugging: bool, collecting: bool,
    published: seq<Publication>, metrics: Metrics)

  function Bump<K>(counts: map<K, nat>, key: K): map<K, nat> {
    counts[key := (if key in counts then counts[key] else 0) + 1]
  }

  function QueueFor(g: State, device: IMEI, t: QueueType): string {
    GatewayQueueName(g.prefix, g.region, device, t)
  }

  function Put(g: State, queue: string, body: Body, reply: Reply): State {
    if reply.Taken() then g.(published := g.published + [Publication(queue, body)]) else g
  }

  /** `countThrows`: the metrics collector throws on the published message. Like a throwing
      debug publication it turns the result into an error after the message has been published. */
  function Handled(g: State, m: DeviceMessage, reply: Reply, debugReply: Reply, countThrows: bool): (State, ErrorCode) {
    var h := Put(g, QueueFor(g, m.deviceId, Inbound), Original(m.payload), reply);
    if reply.Threw? then (h, InternalError)
    else if reply.Refused? then (h, DependencyFailure)
    else
      var d :=
        if g.debugging then Put(h, QueueFor(g, m.deviceId, QueueType.Debug), Original(m.payload), debugReply) else h;
      if (g.debugging && debugReply.Threw?) || (g.collecting && countThrows) then (d, InternalError)
      else if g.collecting then
        (d.(metrics := d.metrics.(processed := d.metrics.processed + 1,
                                  perRegion := Bump(d.metrics.perRegion, m.region))), Success)
      else (d, Success)
  }

  function ErrorHandled(g: State, device: IMEI, code: ErrorCode, reply: Reply, countThrows: bool): State {
    var discards := code.InvalidMessage? || code.AuthenticationFailure?;
    var d := if discards then Put(g, QueueFor(g, device, Discard), Report(code), reply) else g;
    if (discards && reply.Threw?) || countThrows || !g.collecting then d
    else d.(metrics := d.metrics.(rejected := d.metrics.rejected + 1, perError := Bump(d.metrics.perError, code)))
  }

  class Gateway {
    const prefix: string
    const region: string
    const debugging: bool
    const collecting: bool
    var published: seq<Publication>
    var processed: nat
    var rejected: nat
    var perRegion: map<string, nat>
    var perError: map<ErrorCode, nat>

    ghost function Value(): State
      reads this
    {
      State(prefix, region, debugging, collecting, published, Metrics(processed, rejected, perRegion, perError))
    }

    constructor (prefix: string, region: string, debugging: bool, collecting: bool)
      ensures Value() == State(prefix, region, debugging, collecting, [], Metrics(0, 0, map[], map[]))
    {
      this.prefix, this.region, this.debugging, this.collecting := prefix, region, debugging, collecting;
      published, processed, rejected, perRegion, perError := [], 0, 0, map[], map[];
    }

    method CreateQueueName(imei: IMEI, queueType: QueueType) returns (name: string)
      ensures name == QueueFor(Value(), imei, queueType)
    {
      name := "";
      if prefix != "" {
        name := name + prefix + ".";
      }
      name := name + region + ".";
      name := name + imei + "_";
      name := name + Suffix(queueType);
    }

    /** The publisher takes the message or not; the answer is what the caller sees of it. */
    method PublishMessage(queue: string, body: Body, reply: Reply)
      modifies this`published
      ensures published == if reply.Taken() then old(published) + [Publication(queue, body)] else old(published)
    {
      if reply.Taken() {
        published := published + [Publication(queue, body)];
      }
    }

    method HandleMessage(m: DeviceMessage, reply: Reply, debugReply: Reply, countThrows: bool) returns (code: ErrorCode)
      modifies this
      ensures (Value(), code) == Handled(old(Value()), m, reply, debugReply, countThrows)
    {
      hide GatewayQueueName;
      var queueName := CreateQueueName(m.deviceId, Inbound);
      PublishMessage(queueName, Original(m.payload), reply);
      match reply {
        case Threw(_) => return InternalError;
        case Refused => return DependencyFailure;
        case Accepted =>
      }
      if debugging {
        var debugQueueName := CreateQueueName(m.deviceId, QueueType.Debug);
        PublishMessage(debugQueueName, Original(m.payload), debugReply);
        if debugReply.Threw? {
          return InternalError;
        }
      }
      if collecting {
        if countThrows {
          return InternalError;
        }
        processed := processed + 1;
        perRegion := Bump(perRegion, m.region);
      }
      return Success;
    }

    method HandleError(device: IMEI, code: ErrorCode, reply: Reply, countThrows: bool)
      modifies this
      ensures Value() == ErrorHandled(old(Value()), device, code, reply, countThrows)
    {
      hide GatewayQueueName;
      if code == InvalidMessage || code == AuthenticationFailure {
        var discardQueueName := CreateQueueName(device, Discard);
        PublishMessage(discardQueueName, Report(code), reply);
        if reply.Threw? {
          return;
        }
      }
      if collecting {
        if countThrows {
          return;
        }
        rejected := rejected + 1;
        perError := Bump(perError, code);
      }
    }
  }
}
