/** Reassembly: any arrival order of the parts gives the message back. */
module FragmentationTheorems {
  import opened Bytes
  import opened Decimal
  import opened Fragmentation

  /** What a part looks like. */
  lemma {:induction false} PartShape(m: Message, maxSize: nat, k: nat)
    requires maxSize > 0 && k < PartCount(|m.data|, maxSize)
    ensures var p := Parts(m, maxSize)[k];
      && 0 < |p.data| <= maxSize
      && p.GetHeader("partNumber") == Print(k)
      && p.GetHeader("totalParts") == Print(PartCount(|m.data|, maxSize))
      && p.GetHeader("splitMessage") == "true"
      && p.properties.headers - SPLIT_HEADERS == m.properties.headers - SPLIT_HEADERS
      && p.properties == m.properties.(correlationId := m.properties.messageId, headers := p.properties.headers)
  {
    PartEnds(|m.data|, maxSize, k);
    NextOffset(|m.data|, maxSize, k);
    hide Print, PartCount, Min;
    var p := Parts(m, maxSize)[k];
    assert p == Part(m, maxSize, k);
    var h, h' := m.properties.headers, p.properties.headers;
    var total := Print(PartCount(|m.data|, maxSize));
    assert h' == h["splitMessage" := "true"]["partNumber" := Print(k)]["totalParts" := total];
    assert h' - SPLIT_HEADERS == h - SPLIT_HEADERS;
  }

  /** The parts of a split: each at most `maxSize` bytes, as many as the size divided by
      `maxSize` rounded up, and each saying so. */
  lemma {:induction false} SplitShape(m: Message, maxSize: nat)
    requires maxSize > 0
    ensures var parts := Split(m, maxSize);
      && (forall k :: 0 <= k < |parts| ==> |parts[k].data| <= maxSize)
      && (|m.data| > maxSize ==>
            && |parts| * maxSize >= |m.data| > (|parts| - 1) * maxSize
            && forall k :: 0 <= k < |parts| ==> parts[k].GetHeader("totalParts") == Print(|parts|))
      && (|m.data| <= maxSize ==> parts == [m])
  {
    var parts := Split(m, maxSize);
    if |m.data| > maxSize {
      var n := PartCount(|m.data|, maxSize);
      PartStarts(|m.data|, maxSize, n);
      PartStarts(|m.data|, maxSize, n - 1);
      hide PartCount, Print;
      forall k | 0 <= k < |parts|
        ensures |parts[k].data| <= maxSize && parts[k].GetHeader("totalParts") == Print(|parts|)
      {
        PartShape(m, maxSize, k);
      }
    }
  }

  /** Part numbers read back as they were printed. */
  lemma {:induction false} PartNumbersRead(m: Message, maxSize: nat, k: nat)
    requires maxSize > 0 && k < PartCount(|m.data|, maxSize) <= INT_MAX
    ensures PartNumber(Parts(m, maxSize)[k]) == Some(k)
  {
    PartShape(m, maxSize, k);
    ReadPrinted(k);
  }

  /** The chunks up to part `k` make up the data up to its start. */
  lemma {:induction false} ChunksConcatenate(m: Message, maxSize: nat, k: nat)
    requires maxSize > 0 && k <= PartCount(|m.data|, maxSize)
    ensures Concat(Parts(m, maxSize)[..k]) == m.data[..Min(k * maxSize, |m.data|)]
  {
    if k > 0 {
      ChunksConcatenate(m, maxSize, k - 1);
      NextChunk(m, maxSize, k - 1);
      hide Parts, PartCount, Min;
      var parts := Parts(m, maxSize);
      assert parts[..k][..k - 1] == parts[..k - 1];
    }
  }

  lemma {:induction false} NextChunk(m: Message, maxSize: nat, k: nat)
    requires maxSize > 0 && k < PartCount(|m.data|, maxSize)
    ensures m.data[..Min(k * maxSize, |m.data|)] + Parts(m, maxSize)[k].data
      == m.data[..Min((k + 1) * maxSize, |m.data|)]
  {
    PartEnds(|m.data|, maxSize, k);
    NextOffset(|m.data|, maxSize, k);
    assert Parts(m, maxSize)[k] == Part(m, maxSize, k);
    hide Parts, PartCount, Min, Print;
  }

  lemma {:induction false} AllChunks(m: Message, maxSize: nat)
    requires maxSize > 0
    ensures Concat(Parts(m, maxSize)) == m.data
  {
    var n := PartCount(|m.data|, maxSize);
    PartStarts(|m.data|, maxSize, n);
    ChunksConcatenate(m, maxSize, n);
    assert Parts(m, maxSize)[..n] == Parts(m, maxSize);
  }

  // ---------------------------------------------------------------- order

  ghost predicate StrictlySorted(ms: seq<Message>) {
    Numbered(ms) && forall i, j :: 0 <= i < j < |ms| ==> PartNumber(ms[i]).value < PartNumber(ms[j]).value
  }

  lemma {:induction false} MinimumFirst(s: seq<Message>, t: seq<Message>)
    requires t != [] && multiset(s) == multiset(t) && SortedByPart(s) && StrictlySorted(t)
    ensures s != [] && s[0] == t[0]
  {
    hide PartNumber;
    assert t[0] in multiset(s);
    assert s[0] in multiset(t);
    var i :| 0 <= i < |t| && t[i] == s[0];
    var j :| 0 <= j < |s| && s[j] == t[0];
  }

  lemma {:induction false} TailsSorted(s: seq<Message>, t: seq<Message>)
    requires s != [] && t != [] && SortedByPart(s) && StrictlySorted(t)
    ensures SortedByPart(s[1..]) && StrictlySorted(t[1..])
  {
    hide PartNumber;
  }

  lemma {:induction false} TailMultiset<T>(s: seq<T>)
    requires s != []
    ensures multiset(s[1..]) == multiset(s) - multiset{s[0]}
  {
    assert s == [s[0]] + s[1..];
  }

  /** Different numbers leave a sort no choice. */
  lemma {:induction false} SortIsUnique(s: seq<Message>, t: seq<Message>)
    requires multiset(s) == multiset(t) && SortedByPart(s) && StrictlySorted(t)
    ensures s == t
    decreases |t|
  {
    hide SortedByPart, StrictlySorted;
    if t == [] {
      assert |multiset(s)| == 0;
    } else {
      MinimumFirst(s, t);
      TailsSorted(s, t);
      TailMultiset(s);
      TailMultiset(t);
      SortIsUnique(s[1..], t[1..]);
      assert s == [s[0]] + s[1..] && t == [t[0]] + t[1..];
    }
  }

  lemma {:induction false} PartsStrictlySorted(m: Message, maxSize: nat)
    requires maxSize > 0 && PartCount(|m.data|, maxSize) <= INT_MAX
    ensures StrictlySorted(Parts(m, maxSize))
  {
    var parts := Parts(m, maxSize);
    forall k | 0 <= k < |parts| ensures PartNumber(parts[k]) == Some(k) {
      PartNumbersRead(m, maxSize, k);
    }
    hide PartNumber, Parts;
  }

  lemma {:induction false} ArrivalsAreNumbered(m: Message, maxSize: nat, arrived: seq<Message>)
    requires maxSize > 0 && PartCount(|m.data|, maxSize) <= INT_MAX
    requires multiset(arrived) == multiset(Parts(m, maxSize))
    ensures Numbered(arrived)
  {
    PartsStrictlySorted(m, maxSize);
    hide PartNumber, Parts;
    forall i | 0 <= i < |arrived| ensures PartNumber(arrived[i]).Some? {
      assert arrived[i] in multiset(Parts(m, maxSize));
    }
  }

  // ---------------------------------------------------------------- reassembly

  /** What comes back: the message without the split headers, and, when it was split, with its
      id as correlation id. */
  function Restored(m: Message, maxSize: nat): Message {
    var p := m.properties.(headers := m.properties.headers - SPLIT_HEADERS);
    Message(m.data, if |m.data| <= maxSize then p else p.(correlationId := p.messageId))
  }

  /** However the parts arrive and however equal elements may be sorted, combining them gives
      the message back. */
  lemma {:induction false} Reassembly(m: Message, maxSize: nat, arrived: seq<Message>, sorted: seq<Message>)
    requires maxSize > 0 && PartNumbersFit(m, maxSize)
    requires multiset(arrived) == multiset(Split(m, maxSize)) && SortOf(sorted, arrived)
    ensures sorted != [] && Joined(sorted) == Restored(m, maxSize)
    ensures Joined(sorted).data == m.data && Joined(sorted).properties.messageId == m.properties.messageId
    ensures Joined(sorted).properties.headers == m.properties.headers <==> m.properties.headers.Keys !! SPLIT_HEADERS
    ensures |arrived| < 2 || Numbered(arrived)
  {
    HeadersRestored(m.properties.headers);
    if |m.data| <= maxSize {
      SingletonSort(m, sorted);
      assert |arrived| == |multiset(arrived)| == 1;
      assert Concat([m]) == [] + m.data;
    } else {
      ReassemblyOfParts(m, maxSize, arrived, sorted);
    }
  }

  lemma {:induction false} HeadersRestored(headers: map<string, string>)
    ensures headers - SPLIT_HEADERS == headers <==> headers.Keys !! SPLIT_HEADERS
  {
    assert (headers - SPLIT_HEADERS).Keys == headers.Keys - SPLIT_HEADERS;
    if headers.Keys !! SPLIT_HEADERS {
      assert headers - SPLIT_HEADERS == headers;
    }
  }

  lemma {:induction false} SingletonSort(m: Message, sorted: seq<Message>)
    requires multiset(sorted) == multiset([m])
    ensures sorted == [m]
  {
    assert |multiset(sorted)| == 1;
    assert sorted[0] in multiset([m]);
  }

  lemma {:induction false} ReassemblyOfParts(m: Message, maxSize: nat, arrived: seq<Message>, sorted: seq<Message>)
    requires maxSize > 0 && |m.data| > maxSize && PartCount(|m.data|, maxSize) <= INT_MAX
    requires multiset(arrived) == multiset(Parts(m, maxSize)) && SortOf(sorted, arrived)
    ensures sorted != [] && Joined(sorted) == Restored(m, maxSize) && Numbered(arrived)
  {
    var parts := Parts(m, maxSize);
    PartStarts(|m.data|, maxSize, 1);
    assert |arrived| == |multiset(arrived)| == |parts| >= 2;
    PartsStrictlySorted(m, maxSize);
    ArrivalsAreNumbered(m, maxSize, arrived);
    hide PartNumber, Parts, PartCount, Print;
    SortIsUnique(sorted, parts);
    AllChunks(m, maxSize);
    PartShape(m, maxSize, 0);
  }

  function TotalSize(ms: seq<Message>): nat
    decreases |ms|
  {
    if ms == [] then 0 else TotalSize(ms[..|ms| - 1]) + |ms[|ms| - 1].data|
  }

  lemma {:induction false} ConcatSize(ms: seq<Message>)
    ensures |Concat(ms)| == TotalSize(ms)
    decreases |ms|
  {
    if ms != [] { ConcatSize(ms[..|ms| - 1]); }
  }

  /** Messages that are no parts of one combine too: the one with the least number rules. Its
      properties are those of the result, without the three split headers, and its data comes
      first; all data is there. */
  lemma {:induction false} LeastNumberRules(messages: seq<Message>, sorted: seq<Message>, first: Message)
    requires |messages| >= 2 && SortOf(sorted, messages) && first in messages && Numbered(messages)
    requires forall m :: m in messages && m != first ==> PartNumber(first).value < PartNumber(m).value
    ensures sorted != [] && sorted[0] == first
    ensures var r := Joined(sorted);
      && r.properties == first.properties.(headers :=
           first.properties.headers - {"splitMessage", "partNumber", "totalParts"})
      && |r.data| == TotalSize(sorted) && |first.data| <= |r.data| && r.data[..|first.data|] == first.data
  {
    hide PartNumber;
    assert first in multiset(messages);
    assert first in multiset(sorted);
    var i :| 0 <= i < |sorted| && sorted[i] == first;
    assert sorted[0] in multiset(sorted);
    assert sorted[0] in multiset(messages);
    assert sorted[0] in messages;
    ConcatSize(sorted);
    ConcatStarts(sorted);
    hide Concat, TotalSize;
  }

  lemma {:induction false} ConcatStarts(ms: seq<Message>)
    requires ms != []
    ensures |ms[0].data| <= |Concat(ms)| && Concat(ms)[..|ms[0].data|] == ms[0].data
    decreases |ms|
  {
    if |ms| == 1 {
      assert ms[..0] == [] && Concat(ms) == [] + ms[0].data;
    } else {
      ConcatStarts(ms[..|ms| - 1]);
    }
  }
}
