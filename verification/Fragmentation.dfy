/** Splitting a RabbitMQ message into parts and combining them again.

    Messages are values: the C++ copies them into and out of vectors. */
module Fragmentation {
  import opened Bytes
  import opened Decimal

  datatype DeliveryMode = NonPersistent | Persistent
  datatype Priority = Low | Normal | High | Urgent

  datatype Properties = Properties(
    contentType: string, contentEncoding: string, messageId: string, correlationId: string,
    replyTo: string, expiration: string, userId: string, appId: string, messageType: string,
    deliveryMode: DeliveryMode, priority: Priority, priorityValue: Byte, timestamp: int,
    headers: map<string, string>)

  datatype Message = Message(data: seq<Byte>, properties: Properties) {
    function SetHeader(name: string, value: string): Message {
      Message(data, properties.(headers := properties.headers[name := value]))
    }

    function RemoveHeader(name: string): Message {
      Message(data, properties.(headers := properties.headers - {name}))
    }

    /** The empty string when there is no such header. */
    function GetHeader(name: string): string {
      if name in properties.headers then properties.headers[name] else ""
    }
  }

  const SPLIT_HEADERS := {"splitMessage", "partNumber", "totalParts"}

  /** How many parts of at most `maxSize` bytes `size` bytes take. */
  function PartCount(size: nat, maxSize: nat): nat
    requires maxSize > 0
  {
    (size + maxSize - 1) / maxSize
  }

  function Min(x: nat, y: nat): nat {
    if x < y then x else y
  }

  /** Part number `k`, which starts at byte `k * maxSize`. */
  function Part(m: Message, maxSize: nat, k: nat): Message
    requires maxSize > 0 && k * maxSize <= |m.data|
  {
    var chunk := m.data[k * maxSize..Min((k + 1) * maxSize, |m.data|)];
    Message(chunk, m.properties.(correlationId := m.properties.messageId))
      .SetHeader("splitMessage", "true")
      .SetHeader("partNumber", Print(k))
      .SetHeader("totalParts", Print(PartCount(|m.data|, maxSize)))
  }

  lemma {:induction false} PartStarts(size: nat, maxSize: nat, k: nat)
    requires maxSize > 0
    ensures k < PartCount(size, maxSize) <==> k * maxSize < size
  {
    var n := PartCount(size, maxSize);
    PartCountBounds(size, maxSize);
    MultiplesGrow(k, n, maxSize);
    MultiplesGrow(n, k, maxSize);
    if k < n { MultiplesGrow(k, n - 1, maxSize); }
  }

  lemma {:induction false} PartCountBounds(size: nat, maxSize: nat)
    requires maxSize > 0
    ensures size <= PartCount(size, maxSize) * maxSize < size + maxSize
    ensures PartCount(size, maxSize) > 0 ==> (PartCount(size, maxSize) - 1) * maxSize < size
  {
    var n := PartCount(size, maxSize);
    assert size + maxSize - 1 == n * maxSize + (size + maxSize - 1) % maxSize;
    assert n > 0 ==> (n - 1) * maxSize == n * maxSize - maxSize;
  }

  lemma {:induction false} MultiplesGrow(x: nat, y: nat, maxSize: nat)
    ensures x <= y ==> x * maxSize <= y * maxSize
  {
    if x <= y { assert y * maxSize == x * maxSize + (y - x) * maxSize; }
  }

  lemma {:induction false} PartEnds(size: nat, maxSize: nat, k: nat)
    requires maxSize > 0 && k < PartCount(size, maxSize)
    ensures k * maxSize < size
    ensures Min((k + 1) * maxSize, size) == k * maxSize + Min(maxSize, size - k * maxSize)
  {
    PartStarts(size, maxSize, k);
    assert (k + 1) * maxSize == k * maxSize + maxSize;
  }

  /** Offsets stay within the data, and reach its end exactly after the last part. */
  lemma {:induction false} NextOffset(size: nat, maxSize: nat, k: nat)
    requires maxSize > 0 && k < PartCount(size, maxSize)
    ensures Min(k * maxSize, size) == k * maxSize
    ensures 0 < Min(maxSize, size - k * maxSize) <= size - k * maxSize
    ensures k + 1 < PartCount(size, maxSize) <==> Min((k + 1) * maxSize, size) < size
  {
    PartStarts(size, maxSize, k);
    PartStarts(size, maxSize, k + 1);
    assert (k + 1) * maxSize == k * maxSize + maxSize;
  }

  /** The parts of a message too large for one. */
  function Parts(m: Message, maxSize: nat): (parts: seq<Message>)
    requires maxSize > 0
    ensures |parts| == PartCount(|m.data|, maxSize)
  {
    seq(PartCount(|m.data|, maxSize), k requires 0 <= k < PartCount(|m.data|, maxSize) =>
      PartStarts(|m.data|, maxSize, k); Part(m, maxSize, k))
  }

  function Split(m: Message, maxSize: nat): seq<Message>
    requires maxSize > 0 || m.data == []
  {
    if |m.data| <= maxSize then [m] else Parts(m, maxSize)
  }

  /** Part numbers are 32-bit ints in the C++; beyond that it does not work. */
  predicate PartNumbersFit(m: Message, maxSize: nat)
    requires maxSize > 0 || m.data == []
  {
    |m.data| <= maxSize || PartCount(|m.data|, maxSize) <= INT_MAX
  }

  method SplitMessage(message: Message, maxSize: nat) returns (parts: seq<Message>)
    requires maxSize > 0 || message.data == []
    requires PartNumbersFit(message, maxSize)
    ensures parts == Split(message, maxSize)
  {
    parts := [];
    var data := message.data;
    if |data| <= maxSize {
      parts := parts + [message];
      return;
    }
    var offset := 0;
    var partNumber := 0;
    FirstPart(|data|, maxSize);
    hide Parts, Part, PartCount, Start, Min;
    while offset < |data|
      invariant 0 <= partNumber <= PartCount(|data|, maxSize)
      invariant offset == Start(|data|, maxSize, partNumber)
      invariant partNumber < PartCount(|data|, maxSize) <==> offset < |data|
      invariant parts == Parts(message, maxSize)[..partNumber]
      decreases |data| - offset
    {
      NextPart(|data|, maxSize, partNumber);
      var chunkSize := Min(maxSize, |data| - offset);
      var part := MakePart(message, maxSize, offset, chunkSize, partNumber);
      partNumber := partNumber + 1;
      parts := parts + [part];
      offset := offset + chunkSize;
    }
  }

  /** Where part `k` starts, or would start. */
  function Start(size: nat, maxSize: nat, k: nat): nat {
    Min(k * maxSize, size)
  }

  lemma {:induction false} FirstPart(size: nat, maxSize: nat)
    requires maxSize > 0
    ensures Start(size, maxSize, 0) == 0 && (0 < PartCount(size, maxSize) <==> 0 < size)
  {
    PartStarts(size, maxSize, 0);
  }

  lemma {:induction false} NextPart(size: nat, maxSize: nat, k: nat)
    requires maxSize > 0 && k < PartCount(size, maxSize)
    ensures var offset := Start(size, maxSize, k);
      && offset < size && 0 < Min(maxSize, size - offset) <= size - offset
      && offset + Min(maxSize, size - offset) == Start(size, maxSize, k + 1)
      && (k + 1 < PartCount(size, maxSize) <==> Start(size, maxSize, k + 1) < size)
  {
    PartEnds(size, maxSize, k);
    PartStarts(size, maxSize, k + 1);
    NextOffset(size, maxSize, k);
    hide PartCount, Min;
  }

  method MakePart(message: Message, maxSize: nat, offset: nat, chunkSize: nat, partNumber: nat) returns (part: Message)
    requires maxSize > 0 && partNumber < PartCount(|message.data|, maxSize)
    requires offset == Start(|message.data|, maxSize, partNumber) && offset + chunkSize <= |message.data|
    requires chunkSize == Min(maxSize, |message.data| - offset)
    ensures part == Parts(message, maxSize)[partNumber]
  {
    hide Print, PartCount, Min;
    PartEnds(|message.data|, maxSize, partNumber);
    NextOffset(|message.data|, maxSize, partNumber);
    var chunk := message.data[offset..offset + chunkSize];
    part := Message(chunk, message.properties);
    part := part.SetHeader("splitMessage", "true");
    part := part.SetHeader("partNumber", Print(partNumber));
    part := part.SetHeader("totalParts", Print(PartCount(|message.data|, maxSize)));
    part := Message(part.data, part.properties.(correlationId := message.properties.messageId));
    assert part == Part(message, maxSize, partNumber);
  }

  // ---------------------------------------------------------------- combining

  function PartNumber(m: Message): Option<int> {
    ReadInt(m.GetHeader("partNumber"))
  }

  ghost predicate Numbered(ms: seq<Message>) {
    forall i :: 0 <= i < |ms| ==> PartNumber(ms[i]).Some?
  }

  ghost predicate SortedByPart(ms: seq<Message>) {
    Numbered(ms) && forall i, j :: 0 <= i < j < |ms| ==> PartNumber(ms[i]).value <= PartNumber(ms[j]).value
  }

  /** `sorted` is one of the orders a sort may leave `ms` in. */
  ghost predicate SortOf(sorted: seq<Message>, ms: seq<Message>) {
    multiset(sorted) == multiset(ms) && (|ms| >= 2 ==> SortedByPart(sorted))
  }

  function Concat(ms: seq<Message>): seq<Byte>
    decreases |ms|
  {
    if ms == [] then [] else Concat(ms[..|ms| - 1]) + ms[|ms| - 1].data
  }

  /** The message put together from parts in order. */
  function Joined(ms: seq<Message>): Message
    requires ms != []
  {
    Message(Concat(ms), ms[0].properties.(headers := ms[0].properties.headers - SPLIT_HEADERS))
  }

  /** Where a message goes: behind those with the same number. */
  method InsertionPoint(sorted: seq<Message>, m: Message) returns (i: nat)
    requires Numbered(sorted) && PartNumber(m).Some?
    ensures i <= |sorted|
    ensures i > 0 ==> PartNumber(sorted[i - 1]).value <= PartNumber(m).value
    ensures i < |sorted| ==> PartNumber(m).value <= PartNumber(sorted[i]).value
  {
    hide PartNumber;
    i := |sorted|;
    while i > 0 && PartNumber(m).value < PartNumber(sorted[i - 1]).value
      invariant 0 <= i <= |sorted|
      invariant i < |sorted| ==> PartNumber(m).value <= PartNumber(sorted[i]).value
    {
      i := i - 1;
    }
  }

  method InsertByPart(sorted: seq<Message>, m: Message) returns (r: seq<Message>)
    requires SortedByPart(sorted) && PartNumber(m).Some?
    ensures SortedByPart(r) && multiset(r) == multiset(sorted) + multiset{m}
  {
    var i := InsertionPoint(sorted, m);
    InsertedSorted(sorted, m, i);
    InsertedBag(sorted, m, i);
    hide SortedByPart, PartNumber;
    r := sorted[..i] + [m] + sorted[i..];
  }

  lemma {:induction false} InsertedBag<T>(s: seq<T>, x: T, i: nat)
    requires i <= |s|
    ensures multiset(s[..i] + [x] + s[i..]) == multiset(s) + multiset{x}
  {
    assert s == s[..i] + s[i..];
  }

  lemma {:induction false} TakeBag<T>(s: seq<T>, i: nat)
    requires i < |s|
    ensures multiset(s[..i + 1]) == multiset(s[..i]) + multiset{s[i]}
  {
    assert s[..i + 1] == s[..i] + [s[i]];
  }

  lemma {:induction false} NumberedSnoc(ms: seq<Message>, i: nat)
    requires i < |ms| && Numbered(ms[..i])
    ensures Numbered(ms[..i + 1]) <==> PartNumber(ms[i]).Some?
    ensures PartNumber(ms[i]).None? ==> !Numbered(ms)
  {
    hide PartNumber;
    assert ms[..i + 1] == ms[..i] + [ms[i]];
    assert ms[..i + 1][i] == ms[i];
  }

  lemma {:induction false} InsertedSorted(sorted: seq<Message>, m: Message, i: nat)
    requires SortedByPart(sorted) && PartNumber(m).Some? && i <= |sorted|
    requires i > 0 ==> PartNumber(sorted[i - 1]).value <= PartNumber(m).value
    requires i < |sorted| ==> PartNumber(m).value <= PartNumber(sorted[i]).value
    ensures SortedByPart(sorted[..i] + [m] + sorted[i..])
  {
    hide PartNumber;
    var r := sorted[..i] + [m] + sorted[i..];
    forall k | 0 <= k < |r| ensures r[k] == if k < i then sorted[k] else if k == i then m else sorted[k - 1] { }
    forall k | 0 <= k < |sorted|
      ensures if k < i then PartNumber(sorted[k]).value <= PartNumber(m).value
              else PartNumber(m).value <= PartNumber(sorted[k]).value
    {
    }
  }

  /** An insertion sort; None at the first number that cannot be read. */
  method InsertAll(ms: seq<Message>) returns (r: Option<seq<Message>>)
    ensures r.None? <==> !Numbered(ms)
    ensures r.Some? ==> SortedByPart(r.value) && multiset(r.value) == multiset(ms)
  {
    var sorted: seq<Message> := [];
    assert SortedByPart(sorted) && ms[..0] == sorted && Numbered(ms[..0]);
    hide SortedByPart, PartNumber, Numbered;
    for i := 0 to |ms|
      invariant SortedByPart(sorted) && multiset(sorted) == multiset(ms[..i])
      invariant Numbered(ms[..i])
    {
      NumberedSnoc(ms, i);
      if PartNumber(ms[i]).None? {
        return None;
      }
      TakeBag(ms, i);
      sorted := InsertByPart(sorted, ms[i]);
    }
    assert ms[..|ms|] == ms;
    return Some(sorted);
  }

  /** A sort by part number; None when a number cannot be read, which makes the comparison
      throw. One message is never compared. */
  method SortByPart(ms: seq<Message>) returns (r: Option<seq<Message>>)
    ensures r.None? <==> |ms| >= 2 && !Numbered(ms)
    ensures r.Some? ==> SortOf(r.value, ms)
  {
    hide SortedByPart, Numbered;
    if |ms| < 2 {
      return Some(ms);
    }
    r := InsertAll(ms);
  }

  method ConcatData(ms: seq<Message>) returns (data: seq<Byte>)
    ensures data == Concat(ms)
  {
    data := [];
    for i := 0 to |ms|
      invariant data == Concat(ms[..i])
    {
      assert ms[..i + 1][..i] == ms[..i];
      data := data + ms[i].data;
    }
    assert ms[..|ms|] == ms;
  }

  /** `blank` is the default-constructed message that combining nothing yields; None is the
      exception of an unreadable part number. */
  method CombineMessages(messages: seq<Message>, blank: Message) returns (r: Option<Message>)
    ensures messages == [] ==> r == Some(blank)
    ensures r.None? <==> |messages| >= 2 && !Numbered(messages)
    ensures r.Some? && messages != [] ==>
      exists sorted :: sorted != [] && SortOf(sorted, messages) && r.value == Joined(sorted)
  {
    if messages == [] {
      return Some(blank);
    }
    var sort := SortByPart(messages);
    if sort.None? {
      return None;
    }
    var sortedMessages := sort.value;
    assert sortedMessages != [] by {
      assert messages[0] in multiset(sortedMessages);
    }
    hide SortOf, Numbered, Concat;
    var combinedData := ConcatData(sortedMessages);
    var combined := Message(combinedData, sortedMessages[0].properties);
    combined := combined.RemoveHeader("splitMessage");
    combined := combined.RemoveHeader("partNumber");
    combined := combined.RemoveHeader("totalParts");
    assert combined == Joined(sortedMessages);
    return Some(combined);
  }
}
