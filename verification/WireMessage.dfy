/** The binary form of a protocol message, and reading it back. */
module WireMessage {
  import opened Bytes
  import opened Checksum
  import opened Decimal

  type Text = seq<Byte>

  /** A field value. Floating-point values are their bit patterns. */
  datatype Value =
    | Null
    | Bool(b: bool)
    | Int8Value(int8: Int8)
    | UInt8Value(uint8: Byte)
    | Int16Value(int16: Int16)
    | UInt16Value(uint16: UInt16)
    | Int32Value(int32: Int32)
    | UInt32Value(uint32: UInt32)
    | Int64Value(int64: Int64)
    | UInt64Value(uint64: UInt64)
    | Float(floatBits: UInt32)
    | Double(doubleBits: UInt64)
    | String(text: Text)
    | Binary(bytes: Text)

  datatype Message = Message(
    messageType: Byte, major: Byte, minor: Byte, imei: string, sequence: UInt32, fields: map<Text, Value>)
  {
    /** The validating constructor records one error for a malformed IMEI. */
    predicate HasImeiError() {
      |imei| != 15 || !AllDigits(imei)
    }
  }

  datatype Field = Field(name: Text, value: Value)

  // ---------------------------------------------------------------- writing

  /** 64-bit integers fall through the visitor and write nothing at all. */
  function EncodeValue(v: Value): seq<Byte> {
    match v
    case Null => [0]
    case Bool(b) => [1, if b then 1 else 0]
    case Int8Value(i) => [2, ToByte(i)]
    case UInt8Value(u) => [3, u]
    case Int16Value(i) => [4] + LittleEndian(i, 2)
    case UInt16Value(u) => [5] + LittleEndian(u, 2)
    case Int32Value(i) => [6] + LittleEndian(i, 4)
    case UInt32Value(u) => [7] + LittleEndian(u, 4)
    case Int64Value(_) => []
    case UInt64Value(_) => []
    case Float(bits) => [10] + LittleEndian(bits, 4)
    case Double(bits) => [11] + LittleEndian(bits, 8)
    case String(s) => [12, ToByte(|s|)] + s
    case Binary(s) => [13, ToByte(|s|)] + s
  }

  function EncodeField(f: Field): seq<Byte> {
    [ToByte(|f.name|)] + f.name + EncodeValue(f.value)
  }

  function EncodeFields(fs: seq<Field>): seq<Byte> {
    if fs == [] then [] else EncodeField(fs[0]) + EncodeFields(fs[1..])
  }

  /** Fifteen bytes, one per character, zero where there is none. */
  function EncodeImei(imei: string): (r: seq<Byte>)
    ensures |r| == 15
  {
    seq(15, i requires 0 <= i < 15 => if i < |imei| then ToByte(imei[i] as int - '0' as int) else 0)
  }

  function EncodeHeader(m: Message): (r: seq<Byte>)
    ensures |r| == 25
  {
    [0xAA, 0xBB, m.messageType, m.major, m.minor] + EncodeImei(m.imei)
    + LittleEndian(m.sequence, 4) + [ToByte(|m.fields|)]
  }

  /** The fields in the order the hash map happens to be walked in. */
  ghost predicate IsWalk(fs: seq<Field>, fields: map<Text, Value>) {
    && |fs| == |fields|
    && (forall i :: 0 <= i < |fs| ==> fs[i].name in fields && fields[fs[i].name] == fs[i].value)
    && (forall i, j :: 0 <= i < j < |fs| ==> fs[i].name != fs[j].name)
  }

  function Encode(m: Message, walk: seq<Field>): seq<Byte> {
    var body := EncodeHeader(m) + EncodeFields(walk);
    body + [XorAll(body)]
  }

  method PushValue(buffer: seq<Byte>, v: Value) returns (binary: seq<Byte>)
    ensures binary == buffer + EncodeValue(v)
  {
    match v {
      case Null => binary := buffer + [0];
      case Bool(b) => binary := buffer + [1, if b then 1 else 0];
      case Int8Value(i) => binary := buffer + [2, ToByte(i)];
      case UInt8Value(u) => binary := buffer + [3, u];
      case Int16Value(i) => binary := PushInteger(buffer, 4, i, 2);
      case UInt16Value(u) => binary := PushInteger(buffer, 5, u, 2);
      case Int32Value(i) => binary := PushInteger(buffer, 6, i, 4);
      case UInt32Value(u) => binary := PushInteger(buffer, 7, u, 4);
      case Int64Value(_) => binary := buffer + [];
      case UInt64Value(_) => binary := buffer + [];
      case Float(bits) => binary := PushInteger(buffer, 10, bits, 4);
      case Double(bits) => binary := PushInteger(buffer, 11, bits, 8);
      case String(s) => binary := PushBytes(buffer + [12], s);
        assert binary == buffer + ([12, ToByte(|s|)] + s);
      case Binary(s) => binary := PushBytes(buffer + [13], s);
        assert binary == buffer + ([13, ToByte(|s|)] + s);
    }
  }

  /** A type tag, then a number, low byte first. */
  method PushInteger(buffer: seq<Byte>, tag: Byte, n: int, size: nat) returns (binary: seq<Byte>)
    ensures binary == buffer + ([tag] + LittleEndian(n, size))
  {
    binary := buffer + [tag];
    var rest := n;
    for i := 0 to size
      invariant binary + LittleEndian(rest, size - i) == buffer + ([tag] + LittleEndian(n, size))
    {
      binary := binary + [rest % 256];
      rest := rest / 256;
    }
  }

  /** The length in one byte, then the bytes. */
  method PushBytes(buffer: seq<Byte>, s: seq<Byte>) returns (binary: seq<Byte>)
    ensures binary == buffer + ([ToByte(|s|)] + s)
  {
    binary := buffer + [ToByte(|s|)];
    for j := 0 to |s|
      invariant binary == buffer + [ToByte(|s|)] + s[..j]
    {
      binary := binary + [s[j]];
    }
  }

  method PushImei(buffer: seq<Byte>, imei: string) returns (binary: seq<Byte>)
    ensures binary == buffer + EncodeImei(imei)
  {
    binary := buffer;
    for i := 0 to 15
      invariant binary == buffer + EncodeImei(imei)[..i]
    {
      if i < |imei| {
        binary := binary + [ToByte(imei[i] as int - '0' as int)];
      } else {
        binary := binary + [0];
      }
      assert EncodeImei(imei)[..i + 1] == EncodeImei(imei)[..i] + [EncodeImei(imei)[i]];
    }
  }

  method PushField(buffer: seq<Byte>, f: Field) returns (binary: seq<Byte>)
    ensures binary == buffer + EncodeField(f)
  {
    hide EncodeValue;
    binary := PushBytes(buffer, f.name);
    binary := PushValue(binary, f.value);
  }

  lemma {:induction false} EncodeFieldsSnoc(fs: seq<Field>, f: Field)
    ensures EncodeFields(fs + [f]) == EncodeFields(fs) + EncodeField(f)
  {
    hide EncodeField;
    if fs == [] {
      assert [] + [f] == [f] && [f][1..] == [];
      assert EncodeFields([f]) == EncodeField(f) + [];
    } else {
      EncodeFieldsSnoc(fs[1..], f);
      assert (fs + [f])[1..] == fs[1..] + [f];
    }
  }

  /** `walk` lists the fields in the order the map yields them. */
  method ToBinary(m: Message, walk: seq<Field>) returns (binary: seq<Byte>)
    requires IsWalk(walk, m.fields)
    ensures binary == Encode(m, walk)
  {
    hide EncodeField, EncodeImei, LittleEndian, IsWalk;
    binary := [0xAA, 0xBB];
    binary := binary + [m.messageType];
    binary := binary + [m.major];
    binary := binary + [m.minor];
    binary := PushImei(binary, m.imei);
    binary := binary + LittleEndian(m.sequence, 4);
    binary := binary + [ToByte(|m.fields|)];
    assert binary == EncodeHeader(m);
    for i := 0 to |walk|
      invariant binary == EncodeHeader(m) + EncodeFields(walk[..i])
    {
      assert walk[..i + 1] == walk[..i] + [walk[i]];
      EncodeFieldsSnoc(walk[..i], walk[i]);
      binary := PushField(binary, walk[i]);
    }
    assert walk[..|walk|] == walk;
    var checksum := ComputeChecksum(binary);
    binary := binary + [checksum];
  }

  // ---------------------------------------------------------------- reading

  datatype ParseError = TooShort | BadMagic

  datatype Result = Ok(message: Message) | Failed(error: ParseError)

  /** Where reading the fields stands after one of them: stopped early, or at an offset. */
  datatype Progress = Stop | Next(offset: nat, fields: map<Text, Value>)

  /** `addField` keeps the value of a name it already has. */
  function Added(fields: map<Text, Value>, name: Text, v: Value): map<Text, Value> {
    if name in fields then fields else fields[name := v]
  }

  /** Reads a value of type `tag` at `offset`. Truncated values are dropped, and unknown types
      skip nothing. */
  function DecodeValue(data: seq<Byte>, offset: nat, tag: Byte, name: Text, fields: map<Text, Value>)
      : (r: (nat, map<Text, Value>))
    requires offset <= |data|
    ensures offset <= r.0 <= |data|
  {
    if offset == |data| then (offset, fields)
    else if tag == 1 then (offset + 1, Added(fields, name, Bool(data[offset] != 0)))
    else if tag == 2 then (offset + 1, Added(fields, name, Int8Value(ToInt8(data[offset]))))
    else if tag == 3 then (offset + 1, Added(fields, name, UInt8Value(data[offset])))
    else if tag == 10 then
      if offset + 4 <= |data|
      then (offset + 4, Added(fields, name,
              Float(FromLittleEndian4(data[offset], data[offset + 1], data[offset + 2], data[offset + 3]))))
      else (offset, fields)
    else if tag == 12 then
      var n := data[offset];
      if offset + 1 + n <= |data|
      then (offset + 1 + n, Added(fields, name, String(data[offset + 1..offset + 1 + n])))
      else (offset + 1, fields)
    else (offset, fields)
  }

  function DecodeField(data: seq<Byte>, offset: nat, fields: map<Text, Value>): (p: Progress)
    requires offset < |data|
    ensures p.Next? ==> offset < p.offset <= |data|
  {
    var n := data[offset];
    var start := offset + 1;
    if start + n >= |data| then Stop
    else
      var name := data[start..start + n];
      var (after, more) := DecodeValue(data, start + n + 1, data[start + n], name, fields);
      Next(after, more)
  }

  /** Reads up to `count` more fields; the last byte of the data is left to the checksum. */
  function DecodeFields(data: seq<Byte>, offset: nat, count: nat, fields: map<Text, Value>): map<Text, Value>
    requires data != [] && offset <= |data|
    decreases count
  {
    if count == 0 || offset >= |data| - 1 then fields
    else
      match DecodeField(data, offset, fields)
      case Stop => fields
      case Next(after, more) => DecodeFields(data, after, count - 1, more)
  }

  /** Each byte printed in decimal: one character only for 0 to 9. */
  function DecodeImei(bytes: seq<Byte>): string
    decreases |bytes|
  {
    if bytes == [] then "" else DecodeImei(bytes[..|bytes| - 1]) + Print(bytes[|bytes| - 1])
  }

  function Decode(data: seq<Byte>): Result {
    if |data| < 25 then Failed(TooShort)
    else if data[0] != 0xAA || data[1] != 0xBB then Failed(BadMagic)
    else Ok(Message(data[2], data[3], data[4], DecodeImei(data[5..20]),
                    FromLittleEndian4(data[20], data[21], data[22], data[23]),
                    DecodeFields(data, 25, data[24], map[])))
  }

  method FromBinary(data: seq<Byte>) returns (r: Result)
    ensures r == Decode(data)
  {
    if |data| < 25 {
      return Failed(TooShort);
    }
    var offset := 0;
    if data[offset] != 0xAA || data[offset + 1] != 0xBB {
      return Failed(BadMagic);
    }
    offset := offset + 2;
    var messageType := data[offset];
    offset := offset + 1;
    var major, minor := data[offset], data[offset + 1];
    offset := offset + 2;
    var imei := "";
    for i := 0 to 15
      invariant imei == DecodeImei(data[5..5 + i])
    {
      assert data[5..5 + i + 1][..i] == data[5..5 + i];
      imei := imei + Print(data[offset + i]);
    }
    offset := offset + 15;
    var sequence := FromLittleEndian4(data[offset], data[offset + 1], data[offset + 2], data[offset + 3]);
    offset := offset + 4;
    var fieldCount := data[offset];
    offset := offset + 1;
    var fields := ReadFields(data, offset, fieldCount);
    return Ok(Message(messageType, major, minor, imei, sequence, fields));
  }

  method ReadFields(data: seq<Byte>, start: nat, fieldCount: Byte) returns (fields: map<Text, Value>)
    requires data != [] && start <= |data|
    ensures fields == DecodeFields(data, start, fieldCount, map[])
  {
    hide DecodeValue;
    var offset := start;
    fields := map[];
    var i := 0;
    while i < fieldCount && offset < |data| - 1
      invariant 0 <= i <= fieldCount && 0 <= offset <= |data|
      invariant DecodeFields(data, offset, fieldCount - i, fields) == DecodeFields(data, start, fieldCount, map[])
    {
      var nameLength := data[offset];
      offset := offset + 1;
      if offset + nameLength >= |data| {
        break;
      }
      var fieldName: Text := [];
      for j: int := 0 to nameLength
        invariant fieldName == data[offset..offset + j]
      {
        fieldName := fieldName + [data[offset + j]];
      }
      offset := offset + nameLength;
      var fieldType := data[offset];
      offset := offset + 1;
      offset, fields := ReadValue(data, offset, fieldType, fieldName, fields);
      i := i + 1;
    }
  }

  method ReadValue(data: seq<Byte>, start: nat, fieldType: Byte, fieldName: Text, before: map<Text, Value>)
    returns (offset: nat, fields: map<Text, Value>)
    requires start <= |data|
    ensures (offset, fields) == DecodeValue(data, start, fieldType, fieldName, before)
  {
    offset, fields := start, before;
    if fieldType == 1 {
      if offset < |data| {
        fields := Added(fields, fieldName, Bool(data[offset] != 0));
        offset := offset + 1;
      }
    } else if fieldType == 2 {
      if offset < |data| {
        fields := Added(fields, fieldName, Int8Value(ToInt8(data[offset])));
        offset := offset + 1;
      }
    } else if fieldType == 3 {
      if offset < |data| {
        fields := Added(fields, fieldName, UInt8Value(data[offset]));
        offset := offset + 1;
      }
    } else if fieldType == 10 {
      if offset + 4 <= |data| {
        var floatBits := FromLittleEndian4(data[offset], data[offset + 1], data[offset + 2], data[offset + 3]);
        fields := Added(fields, fieldName, Float(floatBits));
        offset := offset + 4;
      }
    } else if fieldType == 12 {
      if offset < |data| {
        var strLength := data[offset];
        offset := offset + 1;
        if offset + strLength <= |data| {
          var value: Text := [];
          for j := 0 to strLength
            invariant value == data[offset..offset + j]
          {
            value := value + [data[offset + j]];
          }
          fields := Added(fields, fieldName, String(value));
          offset := offset + strLength;
        }
      }
    }
  }
}
