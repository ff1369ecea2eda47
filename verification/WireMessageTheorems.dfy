/** Which messages survive a trip through their binary form: an exact answer. */
module WireMessageTheorems {
  import opened Bytes
  import opened Checksum
  import opened Decimal
  import opened WireMessage

  /** The value types the reader knows, with texts that fit their length byte. */
  predicate Readable(v: Value) {
    match v
    case Bool(_) => true
    case Int8Value(_) => true
    case UInt8Value(_) => true
    case Float(_) => true
    case String(s) => |s| <= 255
    case _ => false
  }

  predicate ReadableField(f: Field) {
    |f.name| <= 255 && Readable(f.value)
  }

  ghost predicate ReadableFields(fields: map<Text, Value>) {
    forall name :: name in fields ==> |name| <= 255 && Readable(fields[name])
  }

  /** The messages the format was made for. */
  ghost predicate InDomain(m: Message) {
    !m.HasImeiError() && |m.fields| <= 255 && ReadableFields(m.fields)
  }

  // ---------------------------------------------------------------- reading what was written

  lemma {:induction false} ReadValueBack(data: seq<Byte>, offset: nat, v: Value, name: Text, fields: map<Text, Value>)
    requires Readable(v) && name !in fields
    requires 0 < offset && offset - 1 + |EncodeValue(v)| <= |data|
    requires data[offset - 1..offset - 1 + |EncodeValue(v)|] == EncodeValue(v)
    ensures DecodeValue(data, offset, data[offset - 1], name, fields)
      == (offset - 1 + |EncodeValue(v)|, fields[name := v])
  {
    if v.Float? {
      ReadFloatBack(data, offset, v, name, fields);
    } else if v.String? {
      ReadStringBack(data, offset, v, name, fields);
    } else {
      hide LittleEndian, FromLittleEndian4;
      ByteAgrees(data, offset - 1, EncodeValue(v), 0);
      ByteAgrees(data, offset - 1, EncodeValue(v), 1);
    }
  }

  lemma {:induction false} ReadFloatBack(data: seq<Byte>, offset: nat, v: Value, name: Text, fields: map<Text, Value>)
    requires v.Float? && name !in fields && 0 < offset && offset + 4 <= |data|
    requires data[offset - 1..offset + 4] == EncodeValue(v)
    ensures DecodeValue(data, offset, data[offset - 1], name, fields) == (offset + 4, fields[name := v])
  {
    hide LittleEndian, FromLittleEndian4;
    var e := EncodeValue(v);
    LittleEndian4RoundTrips(v.floatBits);
    ByteAgrees(data, offset - 1, e, 0);
    ByteAgrees(data, offset - 1, e, 1);
    ByteAgrees(data, offset - 1, e, 2);
    ByteAgrees(data, offset - 1, e, 3);
    ByteAgrees(data, offset - 1, e, 4);
  }

  lemma {:induction false} ReadStringBack(data: seq<Byte>, offset: nat, v: Value, name: Text, fields: map<Text, Value>)
    requires v.String? && |v.text| <= 255 && name !in fields && 0 < offset && offset + 1 + |v.text| <= |data|
    requires data[offset - 1..offset + 1 + |v.text|] == EncodeValue(v)
    ensures DecodeValue(data, offset, data[offset - 1], name, fields) == (offset + 1 + |v.text|, fields[name := v])
  {
    var e, n := EncodeValue(v), |v.text|;
    ByteAgrees(data, offset - 1, e, 0);
    ByteAgrees(data, offset - 1, e, 1);
    SubSlice(data, offset - 1, e, 2, 2 + n);
    assert e[2..2 + n] == v.text;
  }

  /** If a stretch of the data is `part`, its bytes are those of `part`. */
  lemma {:induction false} BytesAgree(data: seq<Byte>, offset: nat, part: seq<Byte>)
    requires offset + |part| <= |data| && data[offset..offset + |part|] == part
    ensures forall k :: 0 <= k < |part| ==> data[offset + k] == part[k]
  {
    forall k | 0 <= k < |part| ensures data[offset + k] == part[k] {
      assert data[offset..offset + |part|][k] == part[k];
    }
  }

  lemma {:induction false} SubSlice(data: seq<Byte>, offset: nat, part: seq<Byte>, i: nat, j: nat)
    requires offset + |part| <= |data| && data[offset..offset + |part|] == part && i <= j <= |part|
    ensures data[offset + i..offset + j] == part[i..j]
  {
    BytesAgree(data, offset, part);
  }

  lemma {:induction false} ByteAgrees(data: seq<Byte>, offset: nat, part: seq<Byte>, k: nat)
    requires offset + |part| <= |data| && data[offset..offset + |part|] == part && k < |part|
    ensures data[offset + k] == part[k]
  {
    BytesAgree(data, offset, part);
  }

  /** One written field, followed by at least one byte, reads back. */
  lemma {:induction false} ReadFieldBack(data: seq<Byte>, offset: nat, f: Field, fields: map<Text, Value>)
    requires ReadableField(f) && f.name !in fields
    requires offset + |EncodeField(f)| < |data|
    requires data[offset..offset + |EncodeField(f)|] == EncodeField(f)
    ensures DecodeField(data, offset, fields) == Next(offset + |EncodeField(f)|, fields[f.name := f.value])
  {
    var n, v := |f.name|, EncodeValue(f.value);
    assert v != [];
    FieldLaidOut(data, offset, f);
    var at := offset + 2 + n;
    ReadValueBack(data, at, f.value, f.name, fields);
    hide EncodeValue, DecodeValue, EncodeField, Readable, ReadableField;
    assert data[offset + 1..at - 1] == f.name;
  }

  /** Where the parts of a written field are: length, name, value. */
  lemma {:induction false} FieldLaidOut(data: seq<Byte>, offset: nat, f: Field)
    requires ReadableField(f)
    requires offset + |EncodeField(f)| <= |data| && data[offset..offset + |EncodeField(f)|] == EncodeField(f)
    ensures var n, v := |f.name|, EncodeValue(f.value);
      && |EncodeField(f)| == 1 + n + |v|
      && data[offset] == n && data[offset + 1..offset + 1 + n] == f.name
      && var at := offset + 2 + n; data[at - 1..at - 1 + |v|] == v
  {
    hide EncodeValue;
    var e, n, v := EncodeField(f), |f.name|, EncodeValue(f.value);
    assert e == [n] + f.name + v;
    assert e[1..1 + n] == f.name && e[1 + n..1 + n + |v|] == v;
    ByteAgrees(data, offset, e, 0);
    SubSlice(data, offset, e, 1, 1 + n);
    SubSlice(data, offset, e, 1 + n, 1 + n + |v|);
  }

  ghost predicate DistinctNames(fs: seq<Field>) {
    forall i, j :: 0 <= i < j < |fs| ==> fs[i].name != fs[j].name
  }

  function Collected(fields: map<Text, Value>, fs: seq<Field>): map<Text, Value>
    decreases |fs|
  {
    if fs == [] then fields else Collected(fields[fs[0].name := fs[0].value], fs[1..])
  }

  /** Written fields read back in order, whatever they are written after. */
  lemma {:induction false} ReadFieldsBack(data: seq<Byte>, offset: nat, fs: seq<Field>, fields: map<Text, Value>)
    requires DistinctNames(fs)
    requires forall i :: 0 <= i < |fs| ==> ReadableField(fs[i]) && fs[i].name !in fields
    requires offset + |EncodeFields(fs)| + 1 == |data|
    requires data[offset..offset + |EncodeFields(fs)|] == EncodeFields(fs)
    ensures DecodeFields(data, offset, |fs|, fields) == Collected(fields, fs)
    decreases |fs|
  {
    hide EncodeField, DecodeField, ReadableField;
    if fs != [] {
      var f, rest := fs[0], EncodeFields(fs[1..]);
      var size := |EncodeField(f)|;
      FirstFieldSlices(data, offset, fs);
      ReadFieldBack(data, offset, f, fields);
      ReadFieldsBack(data, offset + size, fs[1..], fields[f.name := f.value]);
    }
  }

  lemma {:induction false} FirstFieldSlices(data: seq<Byte>, offset: nat, fs: seq<Field>)
    requires fs != [] && offset + |EncodeFields(fs)| + 1 == |data|
    requires data[offset..offset + |EncodeFields(fs)|] == EncodeFields(fs)
    ensures var size, rest := |EncodeField(fs[0])|, EncodeFields(fs[1..]);
      && 0 < size && size + |rest| == |EncodeFields(fs)|
      && data[offset..offset + size] == EncodeField(fs[0])
      && data[offset + size..offset + size + |rest|] == rest
  {
    var size, all := |EncodeField(fs[0])|, EncodeFields(fs);
    assert size > 0;
    hide EncodeField;
    assert all == EncodeField(fs[0]) + EncodeFields(fs[1..]);
    SubSlice(data, offset, all, 0, size);
    SubSlice(data, offset, all, size, |all|);
  }

  lemma {:induction false} CollectedHolds(fields: map<Text, Value>, fs: seq<Field>, name: Text)
    requires DistinctNames(fs)
    ensures name in Collected(fields, fs) <==> name in fields || exists i :: 0 <= i < |fs| && fs[i].name == name
    ensures forall i :: 0 <= i < |fs| && fs[i].name == name ==> Collected(fields, fs)[name] == fs[i].value
    ensures name in fields && (forall i :: 0 <= i < |fs| ==> fs[i].name != name)
      ==> Collected(fields, fs)[name] == fields[name]
    decreases |fs|
  {
    if fs != [] {
      var more := fields[fs[0].name := fs[0].value];
      CollectedHolds(more, fs[1..], name);
      forall i | 1 <= i < |fs| ensures fs[i] == fs[1..][i - 1] && fs[i].name != fs[0].name { }
      if name in Collected(more, fs[1..]) && name !in more {
        var i :| 0 <= i < |fs[1..]| && fs[1..][i].name == name;
        assert fs[i + 1].name == name;
      }
    }
  }

  lemma {:induction false} NamesCount(fs: seq<Field>, names: set<Text>)
    requires DistinctNames(fs) && |names| == |fs|
    requires forall i :: 0 <= i < |fs| ==> fs[i].name in names
    ensures forall name :: name in names ==> exists i :: 0 <= i < |fs| && fs[i].name == name
    decreases |fs|
  {
    if fs != [] {
      var n := |fs| - 1;
      var last := fs[n].name;
      NamesCount(fs[..n], names - {last});
      forall name | name in names ensures exists i :: 0 <= i < |fs| && fs[i].name == name {
        if name == last {
          assert fs[n].name == name;
        } else {
          assert name in names - {last};
          var i :| 0 <= i < |fs[..n]| && fs[..n][i].name == name;
          assert fs[i].name == name;
        }
      }
    }
  }

  /** Collecting a walk rebuilds the map, whatever the order of the walk. */
  lemma {:induction false} WalkRebuilds(walk: seq<Field>, fields: map<Text, Value>)
    requires IsWalk(walk, fields)
    ensures Collected(map[], walk) == fields
  {
    NamesCount(walk, fields.Keys);
    forall name ensures name in Collected(map[], walk) <==> name in fields {
      CollectedHolds(map[], walk, name);
    }
    forall name | name in fields ensures Collected(map[], walk)[name] == fields[name] {
      CollectedHolds(map[], walk, name);
      var i :| 0 <= i < |walk| && walk[i].name == name;
    }
  }

  // ---------------------------------------------------------------- the header

  /** Small bytes print as one digit each. */
  lemma {:induction false} DecodeSmall(bytes: seq<Byte>)
    requires forall i :: 0 <= i < |bytes| ==> bytes[i] < 10
    ensures |DecodeImei(bytes)| == |bytes|
    ensures forall i :: 0 <= i < |bytes| ==> DecodeImei(bytes)[i] == Digit(bytes[i])
    decreases |bytes|
  {
    if bytes != [] { DecodeSmall(bytes[..|bytes| - 1]); }
  }

  lemma {:induction false} DecodeIsDigits(bytes: seq<Byte>)
    ensures AllDigits(DecodeImei(bytes)) && |DecodeImei(bytes)| >= |bytes|
    decreases |bytes|
  {
    if bytes != [] {
      DecodeIsDigits(bytes[..|bytes| - 1]);
      PrintRoundTrips(bytes[|bytes| - 1]);
      hide Print;
    }
  }

  /** An IMEI survives exactly when it is fifteen digits. */
  lemma {:induction false} ImeiSurvivesIff(imei: string)
    ensures DecodeImei(EncodeImei(imei)) == imei <==> |imei| == 15 && AllDigits(imei)
  {
    var e := EncodeImei(imei);
    DecodeIsDigits(e);
    if AllDigits(imei) && |imei| >= 15 {
      forall i | 0 <= i < 15 ensures e[i] < 10 && Digit(e[i]) == imei[i] { }
      DecodeSmall(e);
      hide DecodeImei;
      if |imei| == 15 {
        assert DecodeImei(e) == imei;
      }
    }
  }

  lemma {:induction false} HeaderBytes(m: Message, walk: seq<Field>)
    ensures var data := Encode(m, walk);
      && |data| == 26 + |EncodeFields(walk)|
      && data[0] == 0xAA && data[1] == 0xBB
      && data[2] == m.messageType && data[3] == m.major && data[4] == m.minor
      && data[5..20] == EncodeImei(m.imei)
      && FromLittleEndian4(data[20], data[21], data[22], data[23]) == m.sequence
      && data[24] == ToByte(|m.fields|)
      && data[25..25 + |EncodeFields(walk)|] == EncodeFields(walk)
  {
    LittleEndian4RoundTrips(m.sequence);
    hide LittleEndian, FromLittleEndian4, XorAll, EncodeFields, EncodeImei;
    var data, h := Encode(m, walk), EncodeHeader(m);
    assert data[..25] == h;
    assert h[5..20] == EncodeImei(m.imei) && h[20..24] == LittleEndian(m.sequence, 4);
    assert forall k :: 0 <= k < 25 ==> data[k] == h[k];
    assert data[5..20] == h[5..20] && data[20..24] == h[20..24];
    assert data[20] == LittleEndian(m.sequence, 4)[0] && data[21] == LittleEndian(m.sequence, 4)[1];
    assert data[22] == LittleEndian(m.sequence, 4)[2] && data[23] == LittleEndian(m.sequence, 4)[3];
  }

  // ---------------------------------------------------------------- the round trip

  /** Every message of the domain reads back, whatever order its fields were written in. */
  lemma {:induction false} RoundTrip(m: Message, walk: seq<Field>)
    requires IsWalk(walk, m.fields) && InDomain(m)
    ensures Decode(Encode(m, walk)) == Ok(m)
  {
    hide EncodeFields, EncodeImei, Encode, DecodeFields, DecodeImei, Collected, FromLittleEndian4;
    HeaderBytes(m, walk);
    ImeiSurvivesIff(m.imei);
    WalkRebuilds(walk, m.fields);
    ReadFieldsBack(Encode(m, walk), 25, walk, map[]);
    hide IsWalk, ReadableFields;
  }

  // -- what the reader can produce at all

  lemma {:induction false} ReadValueShape(data: seq<Byte>, offset: nat, tag: Byte, name: Text, fields: map<Text, Value>)
    requires offset <= |data| && ReadableFields(fields) && |name| <= 255
    ensures var (_, more) := DecodeValue(data, offset, tag, name, fields);
      ReadableFields(more) && |more| <= |fields| + 1
  {
    hide FromLittleEndian4, ToInt8;
    var more := DecodeValue(data, offset, tag, name, fields).1;
    assert more == fields || exists v :: Readable(v) && more == fields[name := v] by {
      if more != fields { assert more == fields[name := more[name]] && Readable(more[name]); }
    }
    if more != fields { assert more.Keys == fields.Keys + {name}; }
  }

  lemma {:induction false} ReadFieldsShape(data: seq<Byte>, offset: nat, count: nat, fields: map<Text, Value>)
    requires data != [] && offset <= |data| && ReadableFields(fields)
    ensures var r := DecodeFields(data, offset, count, fields);
      ReadableFields(r) && |r| <= |fields| + count
    decreases count
  {
    hide ReadableFields, DecodeValue;
    if count > 0 && offset < |data| - 1 {
      var n := data[offset];
      var p := DecodeField(data, offset, fields);
      if p.Next? {
        ReadValueShape(data, offset + n + 2, data[offset + 1 + n], data[offset + 1..offset + 1 + n], fields);
        ReadFieldsShape(data, p.offset, count - 1, p.fields);
      }
    }
  }

  /** The exact answer: reading back what was written gives the same message exactly when its
      IMEI is fifteen digits, it has at most 255 fields, their names have at most 255 bytes,
      and their values are bool, int8, uint8, float, or strings of at most 255 bytes. */
  lemma {:induction false} RoundTripIff(m: Message, walk: seq<Field>)
    requires IsWalk(walk, m.fields)
    ensures Decode(Encode(m, walk)) == Ok(m) <==> InDomain(m)
  {
    if InDomain(m) {
      RoundTrip(m, walk);
    } else if Decode(Encode(m, walk)) == Ok(m) {
      HeaderBytes(m, walk);
      ImeiSurvivesIff(m.imei);
      hide EncodeFields, EncodeImei, Encode, DecodeFields, DecodeImei, FromLittleEndian4, ReadableFields;
      NoFieldsReadable();
      ReadFieldsShape(Encode(m, walk), 25, Encode(m, walk)[24], map[]);
    }
  }

  lemma {:induction false} NoFieldsReadable()
    ensures ReadableFields(map[])
  {
  }

  /** What `toBinary` writes passes the packet checksum. */
  lemma {:induction false} WrittenPassesChecksum(m: Message, walk: seq<Field>)
    ensures ChecksumOk(Encode(m, walk))
  {
    hide EncodeHeader, EncodeFields;
    SealedPasses(EncodeHeader(m) + EncodeFields(walk));
  }

  /** ... and a change of any one of its bytes is noticed. */
  lemma {:induction false} CorruptionDetected(m: Message, walk: seq<Field>, i: nat, b: Byte)
    requires i < |Encode(m, walk)| && b != Encode(m, walk)[i]
    ensures !ChecksumOk(Encode(m, walk)[i := b])
  {
    WrittenPassesChecksum(m, walk);
    OneByteChangeDetected(Encode(m, walk), i, b);
  }

  // ---------------------------------------------------------------- byte by byte

  /** The bytes of a 16- or 32-bit number, lowest first. */
  function Two(n: int): seq<Byte> {
    [n % 256, n / 256 % 256]
  }

  function Four(n: int): seq<Byte> {
    [n % 256, n / 256 % 256, n / 65536 % 256, n / 16777216 % 256]
  }

  lemma {:induction false} TwoBytes(n: int)
    ensures LittleEndian(n, 2) == Two(n)
  {
    assert LittleEndian(n / 256, 1) == [n / 256 % 256] + LittleEndian(n / 256 / 256, 0);
    assert LittleEndian(n, 2) == [n % 256] + LittleEndian(n / 256, 1);
  }

  lemma {:induction false} FourBytes(n: int)
    ensures LittleEndian(n, 4) == Four(n)
  {
    LittleEndian4Bytes(n);
    assert n / 256 / 256 == n / 65536 && n / 256 / 256 / 256 == n / 16777216;
    hide LittleEndian;
  }

  /** How each type of value is written: its tag, then its bytes. */
  lemma {:induction false} WrittenValue(v: Value)
    ensures v.Null? ==> EncodeValue(v) == [0]
    ensures v.Bool? ==> EncodeValue(v) == [1, if v.b then 1 else 0]
    ensures v.Int8Value? ==> EncodeValue(v) == [2, v.int8 % 256]
    ensures v.UInt8Value? ==> EncodeValue(v) == [3, v.uint8]
    ensures v.Int16Value? ==> EncodeValue(v) == [4] + Two(v.int16)
    ensures v.UInt16Value? ==> EncodeValue(v) == [5] + Two(v.uint16)
    ensures v.Int32Value? ==> EncodeValue(v) == [6] + Four(v.int32)
    ensures v.UInt32Value? ==> EncodeValue(v) == [7] + Four(v.uint32)
    ensures v.Int64Value? || v.UInt64Value? ==> EncodeValue(v) == []
    ensures v.Float? ==> EncodeValue(v) == [10] + Four(v.floatBits)
    ensures v.Double? ==> EncodeValue(v) == [11] + (Four(v.doubleBits) + Four(v.doubleBits / 0x1_0000_0000))
    ensures v.String? ==> EncodeValue(v) == [12, |v.text| % 256] + v.text
    ensures v.Binary? ==> EncodeValue(v) == [13, |v.bytes| % 256] + v.bytes
  {
    hide LittleEndian, Two, Four;
    match v
    case Int16Value(i) => TwoBytes(i);
    case UInt16Value(u) => TwoBytes(u);
    case Int32Value(i) => FourBytes(i);
    case UInt32Value(u) => FourBytes(u);
    case Float(bits) => FourBytes(bits);
    case Double(bits) => EightBytes(bits);
    case _ =>
  }

  /** The IMEI is written one byte a character, by its distance from '0'; only the first fifteen
      characters are, and a missing one is a zero. */
  lemma {:induction false} WrittenImei(m: Message, walk: seq<Field>, i: nat)
    requires i < 15
    ensures Encode(m, walk)[5 + i] as int == if i < |m.imei| then (m.imei[i] as int - 48) % 256 else 0
  {
    hide EncodeFields, LittleEndian;
  }

  lemma {:induction false} EightBytes(n: int)
    ensures LittleEndian(n, 8) == Four(n) + Four(n / 0x1_0000_0000)
  {
    var a, b, c, d := n / 256, n / 65536, n / 16777216, n / 0x1_0000_0000;
    FourBytes(n);
    FourBytes(d);
    LowHigh(n, 4);
    assert a / 256 == b && b / 256 == c && c / 256 == d;
    hide Four;
    HighPart(n);
  }

  /** The number left after its `k` low bytes. */
  function Rest(n: int, k: nat): int
    decreases k
  {
    if k == 0 then n else Rest(n / 256, k - 1)
  }

  lemma {:induction false} LowHigh(n: int, k: nat)
    ensures LittleEndian(n, k + 4) == LittleEndian(n, k) + LittleEndian(Rest(n, k), 4)
    decreases k
  {
    if k > 0 { LowHigh(n / 256, k - 1); }
  }

  lemma {:induction false} HighPart(n: int)
    ensures Rest(n, 4) == n / 0x1_0000_0000
  {
    assert Rest(n, 4) == Rest(n / 256, 3) == Rest(n / 256 / 256, 2) == Rest(n / 256 / 256 / 256, 1);
    assert Rest(n / 256 / 256 / 256, 1) == Rest(n / 256 / 256 / 256 / 256, 0);
    assert n / 256 / 256 / 256 / 256 == n / 0x1_0000_0000;
  }

  /** What reading a value does beyond what was written for it: a name that is there keeps its
      value, a type that is not known takes no bytes, and a value cut off is dropped. */
  lemma {:induction false} ReadingValue(data: seq<Byte>, offset: nat, tag: Byte, name: Text, fields: map<Text, Value>)
    requires offset <= |data|
    ensures var (after, more) := DecodeValue(data, offset, tag, name, fields);
      && (name in fields ==> more == fields)
      && (tag !in {1, 2, 3, 10, 12} || offset == |data| ==> after == offset && more == fields)
      && (tag == 10 && offset + 4 > |data| ==> after == offset && more == fields)
      && (tag == 12 && offset < |data| && offset + 1 + data[offset] > |data| ==> after == offset + 1 && more == fields)
  {
    hide FromLittleEndian4;
  }

  /** When reading fails and what it takes for the header otherwise. */
  lemma {:induction false} ReadingHeader(data: seq<Byte>)
    ensures |data| < 25 ==> Decode(data) == Failed(TooShort)
    ensures |data| >= 25 && !(data[0] == 0xAA && data[1] == 0xBB) ==> Decode(data) == Failed(BadMagic)
    ensures |data| >= 25 && data[0] == 0xAA && data[1] == 0xBB ==>
      Decode(data).Ok? && var m := Decode(data).message;
        && m.messageType == data[2] && m.major == data[3] && m.minor == data[4]
        && m.sequence == FromLittleEndian4(data[20], data[21], data[22], data[23])
        && |m.fields| <= data[24]
  {
    if |data| >= 25 {
      NoFieldsReadable();
      ReadFieldsShape(data, 25, data[24], map[]);
    }
    hide DecodeFields, DecodeImei, FromLittleEndian4;
  }
}
