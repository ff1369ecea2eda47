/** The parser for device packets: a fixed header, a payload by message type, a checksum.

    This is a different layout from the one `Message::toBinary` writes. */
module PacketParser {
  import opened Bytes
  import opened Checksum
  import opened Decimal

  const MINIMUM_PACKET_SIZE := 25
  const HEADER_SIZE := 19
  const CHECKSUM_SIZE := 1

  datatype FieldValue =
    | Flag(b: bool)
    | Signed(i: Int32)
    | Unsigned(u: UInt32)
    | Quantity(r: real)
    | Text(text: seq<Byte>)
    | Raw(bytes: seq<Byte>)

  datatype ValidationError =
    | ImeiFormat
    | UnsupportedVersion
    | UnknownMessageType
    | ImeiLength
    | ImeiNotDigits
    | PayloadTooSmall
    | ChecksumFailed

  type Fields = map<string, FieldValue>

  datatype Message = Message(
    imei: string, sequence: UInt32, messageType: Byte, major: Byte, minor: Byte,
    fields: Fields, errors: seq<ValidationError>)
  {
    predicate IsValid() {
      errors == []
    }
  }

  datatype Header = Header(major: Byte, minor: Byte, messageType: Byte, imei: string, sequence: UInt32)

  datatype ParseError = EmptyPacket | PacketTooSmall | BadHeader

  datatype Result = Parsed(message: Message) | Failed(error: ParseError)

  // ---------------------------------------------------------------- header

  /** The `i`-th BCD nibble of the IMEI: low nibble first. */
  function Nibble(data: seq<Byte>, i: nat): (n: nat)
    requires i < 15 && |data| >= 13
    ensures n < 16
  {
    if i % 2 == 0 then data[5 + i / 2] % 16 else data[5 + i / 2] / 16
  }

  /** The decimal nibbles among the first `n`; others are skipped. */
  function BcdDigits(data: seq<Byte>, n: nat): (s: string)
    requires n <= 15 && |data| >= 13
    ensures |s| <= n && AllDigits(s)
  {
    if n == 0 then ""
    else
      var d := Nibble(data, n - 1);
      BcdDigits(data, n - 1) + if d <= 9 then [Digit(d)] else []
  }

  predicate HasMagic(data: seq<Byte>) {
    |data| >= 2 && data[0] == 0xAA && data[1] == 0xBB
  }

  function HeaderOf(data: seq<Byte>): Header
    requires |data| >= HEADER_SIZE
  {
    Header(data[2], data[3], data[4], BcdDigits(data, 15), FromLittleEndian4(data[13], data[14], data[15], data[16]))
  }

  method ParseHeader(data: seq<Byte>) returns (header: Option<Header>)
    ensures header == if |data| >= HEADER_SIZE && HasMagic(data) then Some(HeaderOf(data)) else None
  {
    if |data| < HEADER_SIZE {
      return None;
    }
    var offset := 0;
    if data[offset] != 0xAA || data[offset + 1] != 0xBB {
      return None;
    }
    offset := offset + 2;
    var major := data[offset];
    offset := offset + 1;
    var minor := data[offset];
    offset := offset + 1;
    var messageType := data[offset];
    offset := offset + 1;
    var imei := "";
    for i := 0 to 15
      invariant imei == BcdDigits(data, i)
    {
      var digit := data[offset + i / 2];
      if i % 2 == 0 {
        digit := digit % 16;
      } else {
        digit := digit / 16 % 16;
      }
      assert digit == Nibble(data, i);
      if digit <= 9 {
        imei := imei + [Digit(digit)];
      }
    }
    offset := offset + 8;
    var sequence := FromLittleEndian4(data[offset], data[offset + 1], data[offset + 2], data[offset + 3]);
    return Some(Header(major, minor, messageType, imei, sequence));
  }

  /** The error the message constructor records. */
  function ConstructionErrors(h: Header): seq<ValidationError> {
    if |h.imei| != 15 || !AllDigits(h.imei) then [ImeiFormat] else []
  }

  predicate SupportedVersion(h: Header) {
    h.major < 2 || (h.major == 2 && h.minor == 0)
  }

  predicate KnownType(t: Byte) {
    1 <= t <= 10
  }

  function HeaderErrors(h: Header): seq<ValidationError> {
    (if SupportedVersion(h) then [] else [UnsupportedVersion])
    + (if KnownType(h.messageType) then [] else [UnknownMessageType])
    + (if |h.imei| == 15 then [] else [ImeiLength])
    + (if AllDigits(h.imei) then [] else [ImeiNotDigits])
  }

  method ValidateHeader(h: Header) returns (errors: seq<ValidationError>)
    ensures errors == HeaderErrors(h)
  {
    errors := [];
    if h.major > 2 || (h.major == 2 && h.minor > 0) {
      errors := errors + [UnsupportedVersion];
    }
    if h.messageType == 0 || h.messageType > 10 {
      errors := errors + [UnknownMessageType];
    }
    if |h.imei| != 15 {
      errors := errors + [ImeiLength];
    }
    if !AllDigits(h.imei) {
      errors := errors + [ImeiNotDigits];
    }
  }

  // ---------------------------------------------------------------- payloads

  function UInt16At(p: seq<Byte>, i: nat): UInt16
    requires i + 2 <= |p|
  {
    FromLittleEndian2(p[i], p[i + 1])
  }

  function UInt32At(p: seq<Byte>, i: nat): UInt32
    requires i + 4 <= |p|
  {
    FromLittleEndian4(p[i], p[i + 1], p[i + 2], p[i + 3])
  }

  /** The layout of a position report. */
  function GpsFields(p: seq<Byte>): Fields
    requires |p| >= 32
  {
    map[
      "latitude" := Quantity(ToInt32(UInt32At(p, 0)) as real / 1000000.0),
      "longitude" := Quantity(ToInt32(UInt32At(p, 4)) as real / 1000000.0),
      "altitude" := Signed(ToInt16(UInt16At(p, 8))),
      "speed" := Quantity(UInt16At(p, 10) as real / 10.0),
      "heading" := Quantity(UInt16At(p, 12) as real / 10.0),
      "satellites" := Unsigned(p[14]),
      "hdop" := Quantity(UInt16At(p, 15) as real / 100.0),
      "fix_type" := Unsigned(p[17]),
      "gps_timestamp" := Unsigned(UInt32At(p, 18))]
  }

  function Bit(b: Byte, weight: nat): bool
    requires weight > 0
  {
    b / weight % 2 == 1
  }

  function StatusFields(p: seq<Byte>): Fields
    requires |p| >= 8
  {
    map[
      "battery_level" := Unsigned(p[0]),
      "signal_strength" := Signed(ToInt8(p[1])),
      "temperature" := Quantity(ToInt16(UInt16At(p, 2)) as real / 10.0),
      "voltage" := Unsigned(UInt16At(p, 4)),
      "status_flags" := Unsigned(p[6]),
      "is_charging" := Flag(Bit(p[6], 1)),
      "is_moving" := Flag(Bit(p[6], 2)),
      "gps_enabled" := Flag(Bit(p[6], 4)),
      "panic_button" := Flag(Bit(p[6], 8))]
  }

  /** Event data that does not fit is skipped, and the timestamp is then read where it began. */
  function EventFields(p: seq<Byte>): Fields
    requires |p| >= 2
  {
    var n := p[1];
    var fits := 2 + n <= |p|;
    var at := if fits then 2 + n else 2;
    map["event_type" := Unsigned(p[0])]
    + (if fits then map["event_data" := Raw(p[2..2 + n])] else map[])
    + (if at + 4 <= |p| then map["event_timestamp" := Unsigned(UInt32At(p, at))] else map[])
  }

  function AckFields(p: seq<Byte>): Fields
    requires |p| >= 6
  {
    var n := p[5];
    map["original_sequence" := Unsigned(UInt32At(p, 0)), "result_code" := Unsigned(p[4])]
    + (if 0 < n && 6 + n <= |p| then map["error_message" := Text(p[6..6 + n])] else map[])
  }

  /** The least payload of each type; types without one take any. */
  function MinimumPayload(t: Byte): nat {
    match t
    case 1 => 32
    case 2 => 8
    case 3 => 2
    case 4 => 6
    case _ => 0
  }

  function PayloadFields(p: seq<Byte>, t: Byte): Fields
    requires |p| >= MinimumPayload(t)
  {
    match t
    case 1 => GpsFields(p)
    case 2 => StatusFields(p)
    case 3 => EventFields(p)
    case 4 => AckFields(p)
    case _ => map["raw_payload" := Raw(p)]
  }

  method ParseGpsUpdate(p: seq<Byte>) returns (fields: Fields, errors: seq<ValidationError>)
    ensures |p| < 32 ==> fields == map[] && errors == [PayloadTooSmall]
    ensures |p| >= 32 ==> fields == GpsFields(p) && errors == []
  {
    hide FromLittleEndian2, FromLittleEndian4, ToInt16, ToInt32;
    fields, errors := map[], [];
    if |p| < 32 {
      errors := [PayloadTooSmall];
      return;
    }
    var offset := 0;
    fields := fields["latitude" := Quantity(ToInt32(UInt32At(p, offset)) as real / 1000000.0)];
    offset := offset + 4;
    fields := fields["longitude" := Quantity(ToInt32(UInt32At(p, offset)) as real / 1000000.0)];
    offset := offset + 4;
    fields := fields["altitude" := Signed(ToInt16(UInt16At(p, offset)))];
    offset := offset + 2;
    fields := fields["speed" := Quantity(UInt16At(p, offset) as real / 10.0)];
    offset := offset + 2;
    fields := fields["heading" := Quantity(UInt16At(p, offset) as real / 10.0)];
    offset := offset + 2;
    fields := fields["satellites" := Unsigned(p[offset])];
    offset := offset + 1;
    fields := fields["hdop" := Quantity(UInt16At(p, offset) as real / 100.0)];
    offset := offset + 2;
    fields := fields["fix_type" := Unsigned(p[offset])];
    offset := offset + 1;
    if offset + 4 <= |p| {
      fields := fields["gps_timestamp" := Unsigned(UInt32At(p, offset))];
      offset := offset + 4;
    }
  }

  method ParseStatusUpdate(p: seq<Byte>) returns (fields: Fields, errors: seq<ValidationError>)
    ensures |p| < 8 ==> fields == map[] && errors == [PayloadTooSmall]
    ensures |p| >= 8 ==> fields == StatusFields(p) && errors == []
  {
    hide FromLittleEndian2, ToInt8, ToInt16, Bit;
    fields, errors := map[], [];
    if |p| < 8 {
      errors := [PayloadTooSmall];
      return;
    }
    var offset := 0;
    fields := fields["battery_level" := Unsigned(p[offset])];
    offset := offset + 1;
    fields := fields["signal_strength" := Signed(ToInt8(p[offset]))];
    offset := offset + 1;
    fields := fields["temperature" := Quantity(ToInt16(UInt16At(p, offset)) as real / 10.0)];
    offset := offset + 2;
    fields := fields["voltage" := Unsigned(UInt16At(p, offset))];
    offset := offset + 2;
    var statusFlags := p[offset];
    fields := fields["status_flags" := Unsigned(statusFlags)];
    fields := fields["is_charging" := Flag(Bit(statusFlags, 1))];
    fields := fields["is_moving" := Flag(Bit(statusFlags, 2))];
    fields := fields["gps_enabled" := Flag(Bit(statusFlags, 4))];
    fields := fields["panic_button" := Flag(Bit(statusFlags, 8))];
  }

  method ParseEventNotification(p: seq<Byte>) returns (fields: Fields, errors: seq<ValidationError>)
    ensures |p| < 2 ==> fields == map[] && errors == [PayloadTooSmall]
    ensures |p| >= 2 ==> fields == EventFields(p) && errors == []
  {
    hide FromLittleEndian4;
    fields, errors := map[], [];
    if |p| < 2 {
      errors := [PayloadTooSmall];
      return;
    }
    var offset := 0;
    fields := fields["event_type" := Unsigned(p[offset])];
    offset := offset + 1;
    var eventDataLength := p[offset];
    offset := offset + 1;
    if offset + eventDataLength <= |p| {
      fields := fields["event_data" := Raw(p[offset..offset + eventDataLength])];
      offset := offset + eventDataLength;
    }
    if offset + 4 <= |p| {
      fields := fields["event_timestamp" := Unsigned(UInt32At(p, offset))];
      offset := offset + 4;
    }
  }

  method ParseCommandAck(p: seq<Byte>) returns (fields: Fields, errors: seq<ValidationError>)
    ensures |p| < 6 ==> fields == map[] && errors == [PayloadTooSmall]
    ensures |p| >= 6 ==> fields == AckFields(p) && errors == []
  {
    hide FromLittleEndian4;
    fields, errors := map[], [];
    if |p| < 6 {
      errors := [PayloadTooSmall];
      return;
    }
    var offset := 0;
    fields := fields["original_sequence" := Unsigned(UInt32At(p, offset))];
    offset := offset + 4;
    fields := fields["result_code" := Unsigned(p[offset])];
    offset := offset + 1;
    var errorMessageLength := p[offset];
    offset := offset + 1;
    if offset + errorMessageLength <= |p| && errorMessageLength > 0 {
      fields := fields["error_message" := Text(p[offset..offset + errorMessageLength])];
      offset := offset + errorMessageLength;
    }
  }

  method ParsePayload(p: seq<Byte>, t: Byte) returns (fields: Fields, errors: seq<ValidationError>)
    ensures |p| < MinimumPayload(t) ==> fields == map[] && errors == [PayloadTooSmall]
    ensures |p| >= MinimumPayload(t) ==> fields == PayloadFields(p, t) && errors == []
  {
    hide GpsFields, StatusFields, EventFields, AckFields;
    if t == 1 {
      fields, errors := ParseGpsUpdate(p);
    } else if t == 2 {
      fields, errors := ParseStatusUpdate(p);
    } else if t == 3 {
      fields, errors := ParseEventNotification(p);
    } else if t == 4 {
      fields, errors := ParseCommandAck(p);
    } else {
      fields, errors := map["raw_payload" := Raw(p)], [];
    }
  }

  // ---------------------------------------------------------------- packets

  /** The bytes between header and checksum. */
  function Payload(data: seq<Byte>): seq<Byte>
    requires |data| >= MINIMUM_PACKET_SIZE
  {
    data[HEADER_SIZE..|data| - CHECKSUM_SIZE]
  }

  function MessageOf(data: seq<Byte>): Message
    requires |data| >= MINIMUM_PACKET_SIZE
  {
    var h, p := HeaderOf(data), Payload(data);
    var fits := |p| >= MinimumPayload(h.messageType);
    Message(h.imei, h.sequence, h.messageType, h.major, h.minor,
            if fits then PayloadFields(p, h.messageType) else map[],
            ConstructionErrors(h) + HeaderErrors(h)
            + (if fits then [] else [PayloadTooSmall])
            + (if ChecksumOk(data) then [] else [ChecksumFailed]))
  }

  function ParseImpl(data: seq<Byte>): Result {
    if |data| < MINIMUM_PACKET_SIZE then Failed(PacketTooSmall)
    else if !HasMagic(data) then Failed(BadHeader)
    else Parsed(MessageOf(data))
  }

  function Parse(data: seq<Byte>): Result {
    if data == [] then Failed(EmptyPacket) else ParseImpl(data)
  }

  datatype LastError = NoError | Because(error: ParseError)

  /** The parser object; its options are not consulted while parsing. */
  class Parser {
    var lastError: LastError

    constructor ()
      ensures lastError == NoError
    {
      lastError := NoError;
    }

    /** An empty packet is refused before the last error is touched. */
    method ParsePacket(packet: seq<Byte>) returns (r: Result)
      modifies this
      ensures r == Parse(packet)
      ensures lastError ==
        if packet == [] then old(lastError) else if r.Failed? then Because(r.error) else NoError
    {
      if packet == [] {
        return Failed(EmptyPacket);
      }
      r := ParseNonEmpty(packet);
    }

    method ParseNonEmpty(data: seq<Byte>) returns (r: Result)
      modifies this
      ensures r == ParseImpl(data)
      ensures lastError == if r.Failed? then Because(r.error) else NoError
    {
      hide HeaderErrors, PayloadFields, ChecksumOk, BcdDigits, FromLittleEndian4, MinimumPayload;
      lastError := NoError;
      if |data| < MINIMUM_PACKET_SIZE {
        lastError := Because(PacketTooSmall);
        return Failed(PacketTooSmall);
      }
      var header := ParseHeader(data);
      if header.None? {
        lastError := Because(BadHeader);
        return Failed(BadHeader);
      }
      var h := header.value;
      var errors := if |h.imei| != 15 || !AllDigits(h.imei) then [ImeiFormat] else [];
      var headerErrors := ValidateHeader(h);
      errors := errors + headerErrors;
      var payloadSize := |data| - HEADER_SIZE - CHECKSUM_SIZE;
      var fields: Fields, payloadErrors: seq<ValidationError> := map[], [];
      if payloadSize > 0 {
        fields, payloadErrors := ParsePayload(data[HEADER_SIZE..HEADER_SIZE + payloadSize], h.messageType);
        errors := errors + payloadErrors;
      }
      var ok := VerifyChecksum(data);
      if !ok {
        errors := errors + [ChecksumFailed];
      }
      var message := Message(h.imei, h.sequence, h.messageType, h.major, h.minor, fields, errors);
      assert message == MessageOf(data);
      return Parsed(message);
    }
  }
}
