/** Publishing with an offline queue.

    The broker is what has been handed to it so far. Whether a send succeeds is an oracle. */
module Publisher {
  import opened Fragmentation

  datatype Outgoing = Outgoing(exchange: string, routingKey: string, message: Message)

  /** A send while connected goes through, or throws. */
  datatype Send = Accepted | Threw

  /** What becomes of one message of a drain: it is sent, or the send fails after another
      thread has switched the queue off, or it fails with the queue on. In the last case
      `publishInternal` asks for the lock that the drain holds. */
  datatype Attempt = Sent | FailedQueueOff | FailedQueueOn

  /** How a publication ends; `Waiting` stands for a call that never returns. */
  datatype Outcome = Taken | Refused | Waiting

  /** `held` is the message of a drain that waits for its own lock, if there is one. */
  datatype State = State(
    limit: nat, connected: bool, paused: bool, queueEnabled: bool,
    queue: seq<Outgoing>, queueSize: int, held: seq<Outgoing>, broker: seq<Outgoing>,
    published: nat, failed: nat, bytesPublished: nat)
  {
    /** The queue's lock is never given back. */
    predicate Locked() {
      held != []
    }
  }

  function NewPublisher(limit: nat): State {
    State(limit, false, false, true, [], 0, [], [], 0, 0, 0)
  }

  predicate IsValidMessage(m: Message) {
    m.data != [] && m.properties.messageId != ""
  }

  // ---------------------------------------------------------------- specification

  function Queued(s: State, o: Outgoing): (State, Outcome) {
    if s.Locked() then (s, Waiting)
    else if |s.queue| >= s.limit then (s, Refused)
    else (s.(queue := s.queue + [o], queueSize := s.queueSize + 1), Taken)
  }

  function SentOrQueued(s: State, o: Outgoing, send: Send): (State, Outcome) {
    if s.connected && send.Accepted? then (s.(broker := s.broker + [o]), Taken)
    else if s.queueEnabled then Queued(s, o)
    else (s, Refused)
  }

  function Published(s: State, o: Outgoing, send: Send): (State, Outcome) {
    if s.paused || !IsValidMessage(o.message) then (s, Refused)
    else
      var (t, outcome) := SentOrQueued(s, o, send);
      match outcome
      case Taken =>
        (t.(published := t.published + 1, bytesPublished := t.bytesPublished + |o.message.data|), outcome)
      case Refused => (t.(failed := t.failed + 1), outcome)
      case Waiting => (t, outcome)
  }

  /** Queue, broker and held message after draining. A message whose send fails goes back to the
      end of a queue that is off; with the queue on, the drain never gets past it. */
  function Drained(queue: seq<Outgoing>, broker: seq<Outgoing>, attempts: seq<Attempt>)
      : (seq<Outgoing>, seq<Outgoing>, seq<Outgoing>)
    requires |attempts| >= |queue|
    decreases |queue|
  {
    if queue == [] then (queue, broker, [])
    else match attempts[0]
      case Sent => Drained(queue[1..], broker + [queue[0]], attempts[1..])
      case FailedQueueOff => (queue[1..] + [queue[0]], broker, [])
      case FailedQueueOn => (queue[1..], broker, [queue[0]])
  }

  /** The new state, and whether the call returns. */
  function Processed(s: State, attempts: seq<Attempt>): (State, bool)
    requires |attempts| >= |s.queue|
  {
    if !s.connected || !s.queueEnabled then (s, true)
    else if s.Locked() then (s, false)
    else
      var (queue, broker, held) := Drained(s.queue, s.broker, attempts);
      (s.(queue := queue, broker := broker, held := held, queueSize := s.queueSize - |s.queue| + |queue|), held == [])
  }

  function Resumed(s: State, attempts: seq<Attempt>): (State, bool)
    requires |attempts| >= |s.queue|
  {
    Processed(s.(paused := false), attempts)
  }

  function ConnectionChanged(s: State, connected: bool, attempts: seq<Attempt>): (State, bool)
    requires |attempts| >= |s.queue|
  {
    Processed(s.(connected := connected), attempts)
  }

  function Cleared(s: State): (State, bool) {
    if s.Locked() then (s, false) else (s.(queue := [], queueSize := 0), true)
  }

  // ---------------------------------------------------------------- the class

  class Publisher {
    const localQueueLimit: nat
    var connected: bool
    var publishingPaused: bool
    var localQueueEnabled: bool
    var localQueue: seq<Outgoing>
    var localQueueSize: int
    var held: seq<Outgoing>
    var broker: seq<Outgoing>
    var messagesPublished: nat
    var messagesFailed: nat
    var bytesPublished: nat

    ghost predicate Valid()
      reads this
    {
      localQueueSize == |localQueue| <= localQueueLimit
    }

    ghost function Value(): State
      reads this
    {
      State(localQueueLimit, connected, publishingPaused, localQueueEnabled, localQueue, localQueueSize,
            held, broker, messagesPublished, messagesFailed, bytesPublished)
    }

    constructor (limit: nat)
      ensures Valid() && Value() == NewPublisher(limit)
    {
      localQueueLimit := limit;
      connected, publishingPaused, localQueueEnabled := false, false, true;
      localQueue, localQueueSize, held, broker := [], 0, [], [];
      messagesPublished, messagesFailed, bytesPublished := 0, 0, 0;
    }

    method PublishToLocal(o: Outgoing) returns (outcome: Outcome)
      requires Valid()
      modifies this`localQueue, this`localQueueSize
      ensures Valid() && (Value(), outcome) == Queued(old(Value()), o)
    {
      if held != [] {
        return Waiting;
      }
      if |localQueue| >= localQueueLimit {
        return Refused;
      }
      localQueue := localQueue + [o];
      localQueueSize := localQueueSize + 1;
      return Taken;
    }

    method PublishInternal(o: Outgoing, send: Send) returns (outcome: Outcome)
      requires Valid()
      modifies this`localQueue, this`localQueueSize, this`broker
      ensures Valid() && (Value(), outcome) == SentOrQueued(old(Value()), o, send)
    {
      if !connected {
        if localQueueEnabled {
          outcome := PublishToLocal(o);
          return;
        } else {
          return Refused;
        }
      }
      match send {
        case Accepted =>
          broker := broker + [o];
          return Taken;
        case Threw =>
          if localQueueEnabled {
            outcome := PublishToLocal(o);
            return;
          }
          return Refused;
      }
    }

    method Publish(o: Outgoing, send: Send) returns (outcome: Outcome)
      requires Valid()
      modifies this
      ensures Valid() && (Value(), outcome) == Published(old(Value()), o, send)
    {
      hide IsValidMessage;
      if publishingPaused {
        return Refused;
      }
      if !IsValidMessage(o.message) {
        return Refused;
      }
      outcome := PublishInternal(o, send);
      match outcome {
        case Taken =>
          messagesPublished := messagesPublished + 1;
          bytesPublished := bytesPublished + |o.message.data|;
        case Refused =>
          messagesFailed := messagesFailed + 1;
        case Waiting =>
      }
    }

    /** `attempts` says of each queued message what becomes of it. */
    method ProcessLocalQueue(attempts: seq<Attempt>) returns (returned: bool)
      requires Valid() && |attempts| >= |localQueue|
      modifies this`localQueue, this`localQueueSize, this`held, this`broker
      ensures Valid() && (Value(), returned) == Processed(old(Value()), attempts)
    {
      if !connected || !localQueueEnabled {
        return true;
      }
      if held != [] {
        return false;
      }
      var i := 0;
      while localQueue != []
        invariant Valid() && held == [] && 0 <= i <= |attempts| && |attempts| - i >= |localQueue|
        invariant Drained(localQueue, broker, attempts[i..]) == Drained(old(localQueue), old(broker), attempts)
        decreases |localQueue|
      {
        var front := localQueue[0];
        localQueue := localQueue[1..];
        localQueueSize := localQueueSize - 1;
        match attempts[i] {
          case Sent =>
            broker := broker + [front];
          case FailedQueueOff =>
            localQueue := localQueue + [front];
            localQueueSize := localQueueSize + 1;
            return true;
          case FailedQueueOn =>
            held := [front];
            return false;
        }
        i := i + 1;
      }
      return true;
    }

    method PausePublishing()
      requires Valid()
      modifies this`publishingPaused
      ensures Valid() && Value() == old(Value()).(paused := true)
    {
      publishingPaused := true;
    }

    method ResumePublishing(attempts: seq<Attempt>) returns (returned: bool)
      requires Valid() && |attempts| >= |localQueue|
      modifies this
      ensures Valid() && (Value(), returned) == Resumed(old(Value()), attempts)
    {
      publishingPaused := false;
      returned := ProcessLocalQueue(attempts);
    }

    method OnConnectionStateChanged(nowConnected: bool, attempts: seq<Attempt>) returns (returned: bool)
      requires Valid() && |attempts| >= |localQueue|
      modifies this
      ensures Valid() && (Value(), returned) == ConnectionChanged(old(Value()), nowConnected, attempts)
    {
      connected := nowConnected;
      returned := true;
      if connected {
        returned := ProcessLocalQueue(attempts);
      }
    }

    method EnableLocalQueue(enable: bool)
      requires Valid()
      modifies this`localQueueEnabled
      ensures Valid() && Value() == old(Value()).(queueEnabled := enable)
    {
      localQueueEnabled := enable;
    }

    method ClearLocalQueue() returns (returned: bool)
      requires Valid()
      modifies this`localQueue, this`localQueueSize
      ensures Valid() && (Value(), returned) == Cleared(old(Value()))
    {
      if held != [] {
        return false;
      }
      while localQueue != []
        invariant |localQueue| <= localQueueLimit
        decreases |localQueue|
      {
        localQueue := localQueue[1..];
      }
      localQueueSize := 0;
      return true;
    }
  }
}
