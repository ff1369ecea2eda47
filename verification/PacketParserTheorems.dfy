/** Which packets are valid, and what a valid packet says. */
module PacketParserTheorems {
  import opened Bytes
  import opened Checksum
  import opened Decimal
  import opened PacketParser
  import Wire = WireMessage
  import WireTheorems = WireMessageTheorems

  // ---------------------------------------------------------------- exact validity

  lemma {:induction false} BcdComplete(data: seq<Byte>, n: nat)
    requires n <= 15 && |data| >= 13
    ensures |BcdDigits(data, n)| == n <==> forall i :: 0 <= i < n ==> Nibble(data, i) <= 9
    ensures |BcdDigits(data, n)| == n ==> forall i :: 0 <= i < n ==> BcdDigits(data, n)[i] == Digit(Nibble(data, i))
  {
    if n > 0 { BcdComplete(data, n - 1); }
  }

  /** What a well-formed packet must satisfy, in terms of its bytes. */
  ghost predicate WellFormed(data: seq<Byte>)
    requires |data| >= MINIMUM_PACKET_SIZE
  {
    && (data[2] < 2 || (data[2] == 2 && data[3] == 0))
    && 1 <= data[4] <= 10
    && (forall i :: 0 <= i < 15 ==> Nibble(data, i) <= 9)
    && |data| - 20 >= MinimumPayload(data[4])
    && XorAll(data) == 0
  }

  /** Exact validity: a packet of at least 25 bytes with the magic bytes always parses, and the
      result is valid exactly when the packet is well formed. */
  lemma {:induction false} ValidIff(data: seq<Byte>)
    requires |data| >= MINIMUM_PACKET_SIZE && HasMagic(data)
    ensures Parse(data).Parsed? && (Parse(data).message.IsValid() <==> WellFormed(data))
  {
    BcdComplete(data, 15);
    ChecksumOkIfZero(data);
    hide BcdDigits, FromLittleEndian4, PayloadFields, XorAll, ChecksumOk, MinimumPayload;
    var h := HeaderOf(data);
    assert |Payload(data)| == |data| - 20;
    assert ConstructionErrors(h) == [] <==> |h.imei| == 15;
    assert HeaderErrors(h) == [] <==> SupportedVersion(h) && KnownType(h.messageType) && |h.imei| == 15;
  }

  lemma {:induction false} ChecksumOkIfZero(data: seq<Byte>)
    requires data != []
    ensures ChecksumOk(data) <==> XorAll(data) == 0
  {
    ChecksumOkIffZero(data);
  }

  /** Parsing fails outright exactly when the packet is short or does not start with the magic. */
  lemma {:induction false} ParsesIff(data: seq<Byte>)
    ensures Parse(data).Parsed? <==> |data| >= MINIMUM_PACKET_SIZE && HasMagic(data)
  {
  }

  /** A valid packet carries the IMEI its nibbles spell. */
  lemma {:induction false} ValidImei(data: seq<Byte>)
    requires |data| >= MINIMUM_PACKET_SIZE && HasMagic(data) && Parse(data).message.IsValid()
    ensures var imei := Parse(data).message.imei;
      |imei| == 15 && forall i :: 0 <= i < 15 ==> Nibble(data, i) <= 9 && imei[i] == Digit(Nibble(data, i))
  {
    hide BcdDigits, PayloadFields, XorAll, HeaderErrors, ConstructionErrors, ChecksumOk, FromLittleEndian4, Digit;
    ValidIff(data);
    BcdComplete(data, 15);
  }

  /** Any change of one byte of a valid packet that leaves the magic alone is reported. */
  lemma {:induction false} CorruptPacketIsInvalid(data: seq<Byte>, i: nat, b: Byte)
    requires |data| >= MINIMUM_PACKET_SIZE && HasMagic(data) && Parse(data).message.IsValid()
    requires 2 <= i < |data| && b != data[i]
    ensures Parse(data[i := b]).Parsed? && !Parse(data[i := b]).message.IsValid()
  {
    ValidIff(data);
    ValidIff(data[i := b]);
    ChecksumOkIfZero(data);
    ChecksumOkIfZero(data[i := b]);
    OneByteChangeDetected(data, i, b);
    hide *;
  }

  // ---------------------------------------------------------------- payload contents

  lemma {:induction false} Read4(p: seq<Byte>, at: nat, n: int)
    requires at + 4 <= |p| && p[at..at + 4] == LittleEndian(n, 4)
    ensures UInt32At(p, at) == n % 0x1_0000_0000
  {
    LittleEndian4RoundTrips(n);
    hide LittleEndian, FromLittleEndian4;
    var s := p[at..at + 4];
    assert s[0] == p[at] && s[1] == p[at + 1] && s[2] == p[at + 2] && s[3] == p[at + 3];
  }

  lemma {:induction false} LittleEndian2RoundTrips(n: int)
    ensures var s := LittleEndian(n, 2);
      FromLittleEndian2(s[0], s[1]) == n % 0x1_0000
  {
    assert LittleEndian(n, 2) == [n % 256] + LittleEndian(n / 256, 1);
    assert LittleEndian(n / 256, 1) == [n / 256 % 256] + LittleEndian(n / 256 / 256, 0);
    var q := n / 256 / 256;
    assert n == n % 256 + 256 * (n / 256 % 256) + 0x1_0000 * q;
  }

  lemma {:induction false} Read2(p: seq<Byte>, at: nat, n: int)
    requires at + 2 <= |p| && p[at..at + 2] == LittleEndian(n, 2)
    ensures UInt16At(p, at) == n % 0x1_0000
  {
    LittleEndian2RoundTrips(n);
    hide LittleEndian, FromLittleEndian2;
    var s := p[at..at + 2];
    assert s[0] == p[at] && s[1] == p[at + 1];
  }

  /** A number that fits reads back with its sign. */
  lemma {:induction false} SignsReadBack(n: int)
    ensures -0x8000_0000 <= n < 0x8000_0000 ==> ToInt32(n % 0x1_0000_0000) == n
    ensures -0x8000 <= n < 0x8000 ==> ToInt16(n % 0x1_0000) == n
    ensures -0x80 <= n < 0x80 ==> ToInt8(n % 0x100) == n
  {
  }

  /** The part after `front`, seen from the start of the whole. */
  lemma {:induction false} ShiftedSlice(front: seq<Byte>, back: seq<Byte>, i: nat, j: nat)
    requires i <= j <= |back|
    ensures (front + back)[|front| + i..|front| + j] == back[i..j]
  {
  }

  lemma {:induction false} FrontSlice(front: seq<Byte>, back: seq<Byte>, i: nat, j: nat)
    requires i <= j <= |front|
    ensures (front + back)[i..j] == front[i..j]
  {
  }

  /** What a device writes to report a position: raw, scaled readings in fixed order. */
  datatype GpsReading = GpsReading(
    latitude: Int32, longitude: Int32, altitude: Int16, speed: UInt16, heading: UInt16,
    satellites: Byte, hdop: UInt16, fixType: Byte, timestamp: UInt32)
  {
    function Motion(): (s: seq<Byte>)
      ensures |s| == 12
    {
      LittleEndian(latitude, 4) + LittleEndian(longitude, 4) + LittleEndian(altitude, 2) + LittleEndian(speed, 2)
    }

    function Fix(): (s: seq<Byte>)
      ensures |s| == 10
    {
      LittleEndian(heading, 2) + [satellites] + LittleEndian(hdop, 2) + [fixType] + LittleEndian(timestamp, 4)
    }

    function Written(): (s: seq<Byte>)
      ensures |s| == 22
    {
      Motion() + Fix()
    }
  }

  lemma {:induction false} MotionLaidOut(g: GpsReading, rest: seq<Byte>)
    ensures var p := g.Motion() + rest;
      && p[0..4] == LittleEndian(g.latitude, 4) && p[4..8] == LittleEndian(g.longitude, 4)
      && p[8..10] == LittleEndian(g.altitude, 2) && p[10..12] == LittleEndian(g.speed, 2)
  {
    hide LittleEndian;
    var m := g.Motion();
    var position := LittleEndian(g.latitude, 4) + LittleEndian(g.longitude, 4);
    var climb := LittleEndian(g.altitude, 2) + LittleEndian(g.speed, 2);
    assert m == position + climb;
    assert position[0..4] == LittleEndian(g.latitude, 4) && position[4..8] == LittleEndian(g.longitude, 4);
    assert climb[0..2] == LittleEndian(g.altitude, 2) && climb[2..4] == LittleEndian(g.speed, 2);
    FrontSlice(position, climb, 0, 4);
    FrontSlice(position, climb, 4, 8);
    ShiftedSlice(position, climb, 0, 2);
    ShiftedSlice(position, climb, 2, 4);
    FrontSlice(m, rest, 0, 4);
    FrontSlice(m, rest, 4, 8);
    FrontSlice(m, rest, 8, 10);
    FrontSlice(m, rest, 10, 12);
  }

  lemma {:induction false} FixLaidOut(g: GpsReading, padding: seq<Byte>)
    ensures var p := g.Fix() + padding;
      && p[0..2] == LittleEndian(g.heading, 2) && p[2] == g.satellites && p[3..5] == LittleEndian(g.hdop, 2)
      && p[5] == g.fixType && p[6..10] == LittleEndian(g.timestamp, 4)
  {
    hide LittleEndian;
    var f := g.Fix();
    assert f[0..2] == LittleEndian(g.heading, 2) && f[3..5] == LittleEndian(g.hdop, 2);
    assert f[6..10] == LittleEndian(g.timestamp, 4);
    FrontSlice(f, padding, 0, 2);
    FrontSlice(f, padding, 3, 5);
    FrontSlice(f, padding, 6, 10);
  }

  lemma {:induction false} MotionReadsBack(g: GpsReading, rest: seq<Byte>)
    ensures var p := g.Motion() + rest;
      && ToInt32(UInt32At(p, 0)) == g.latitude && ToInt32(UInt32At(p, 4)) == g.longitude
      && ToInt16(UInt16At(p, 8)) == g.altitude && UInt16At(p, 10) == g.speed
  {
    MotionLaidOut(g, rest);
    var p := g.Motion() + rest;
    hide LittleEndian, UInt32At, UInt16At, ToInt16, ToInt32;
    Read4(p, 0, g.latitude);
    Read4(p, 4, g.longitude);
    Read2(p, 8, g.altitude);
    Read2(p, 10, g.speed);
    SignsReadBack(g.latitude);
    SignsReadBack(g.longitude);
    SignsReadBack(g.altitude);
  }

  lemma {:induction false} FixReadsBack(g: GpsReading, padding: seq<Byte>)
    ensures var p := g.Motion() + (g.Fix() + padding);
      && UInt16At(p, 12) == g.heading && p[14] == g.satellites && UInt16At(p, 15) == g.hdop
      && p[17] == g.fixType && UInt32At(p, 18) == g.timestamp
  {
    FixLaidOut(g, padding);
    var m, f := g.Motion(), g.Fix() + padding;
    hide LittleEndian, UInt32At, UInt16At;
    ShiftedSlice(m, f, 0, 2);
    ShiftedSlice(m, f, 3, 5);
    ShiftedSlice(m, f, 6, 10);
    assert |m| == 12;
    Read2(m + f, 12, g.heading);
    Read2(m + f, 15, g.hdop);
    Read4(m + f, 18, g.timestamp);
  }

  /** Every position report reads back as the readings it was written from, signs included. */
  lemma {:induction false} GpsReadsBack(g: GpsReading, padding: seq<Byte>)
    requires |padding| >= 10
    ensures GpsFields(g.Written() + padding) == map[
      "latitude" := Quantity(g.latitude as real / 1000000.0),
      "longitude" := Quantity(g.longitude as real / 1000000.0),
      "altitude" := Signed(g.altitude),
      "speed" := Quantity(g.speed as real / 10.0),
      "heading" := Quantity(g.heading as real / 10.0),
      "satellites" := Unsigned(g.satellites),
      "hdop" := Quantity(g.hdop as real / 100.0),
      "fix_type" := Unsigned(g.fixType),
      "gps_timestamp" := Unsigned(g.timestamp)]
  {
    hide LittleEndian, UInt32At, UInt16At, ToInt16, ToInt32, GpsReading.Motion, GpsReading.Fix;
    assert g.Written() + padding == g.Motion() + (g.Fix() + padding);
    hide GpsReading.Written;
    MotionReadsBack(g, g.Fix() + padding);
    FixReadsBack(g, padding);
  }

  /** What a device writes to report its status; the upper half of the flags has no meaning. */
  datatype StatusReading = StatusReading(
    battery: Byte, signal: Int8, temperature: Int16, voltage: UInt16,
    charging: bool, moving: bool, gps: bool, panic: bool, otherFlags: nat)
  {
    function Flags(): nat {
      WithBit(charging, WithBit(moving, WithBit(gps, WithBit(panic, otherFlags))))
    }

    function Written(): (s: seq<Byte>)
      ensures |s| == 7
    {
      [battery, ToByte(signal)] + LittleEndian(temperature, 2) + LittleEndian(voltage, 2) + [ToByte(Flags())]
    }
  }

  /** A bit below those of `n`. */
  function WithBit(bit: bool, n: nat): nat {
    2 * n + if bit then 1 else 0
  }

  lemma {:induction false} BitsApart(bit: bool, n: nat)
    ensures WithBit(bit, n) / 2 == n && (WithBit(bit, n) % 2 == 1 <==> bit)
  {
  }

  lemma {:induction false} HigherBits(bit: bool, n: nat)
    ensures WithBit(bit, n) / 2 == n
    ensures WithBit(bit, n) / 4 == n / 2
    ensures WithBit(bit, n) / 8 == n / 4
  {
  }

  lemma {:induction false} FlagsReadBack(r: StatusReading)
    requires r.otherFlags < 16
    ensures r.Flags() < 256
    ensures Bit(r.Flags(), 1) == r.charging && Bit(r.Flags(), 2) == r.moving
    ensures Bit(r.Flags(), 4) == r.gps && Bit(r.Flags(), 8) == r.panic
  {
    var p := WithBit(r.panic, r.otherFlags);
    var g := WithBit(r.gps, p);
    var m := WithBit(r.moving, g);
    assert r.Flags() == WithBit(r.charging, m) < 256;
    BitsApart(r.charging, m);
    BitsApart(r.moving, g);
    BitsApart(r.gps, p);
    BitsApart(r.panic, r.otherFlags);
    hide WithBit;
    HigherBits(r.charging, m);
    HigherBits(r.moving, g);
    HigherBits(r.gps, p);
  }

  lemma {:induction false} StatusLaidOut(r: StatusReading, padding: seq<Byte>)
    ensures var p := r.Written() + padding;
      && p[0] == r.battery && p[1] == ToByte(r.signal) && p[6] == ToByte(r.Flags())
      && UInt16At(p, 2) == r.temperature % 0x1_0000 && UInt16At(p, 4) == r.voltage
  {
    hide LittleEndian, UInt16At;
    var w, p := r.Written(), r.Written() + padding;
    assert w[2..4] == LittleEndian(r.temperature, 2) && w[4..6] == LittleEndian(r.voltage, 2);
    FrontSlice(w, padding, 2, 4);
    FrontSlice(w, padding, 4, 6);
    Read2(p, 2, r.temperature);
    Read2(p, 4, r.voltage);
  }

  /** Every status report reads back as what it was written from, each flag on its own. */
  lemma {:induction false} StatusReadsBack(r: StatusReading, padding: seq<Byte>)
    requires r.otherFlags < 16 && padding != []
    ensures StatusFields(r.Written() + padding) == map[
      "battery_level" := Unsigned(r.battery),
      "signal_strength" := Signed(r.signal),
      "temperature" := Quantity(r.temperature as real / 10.0),
      "voltage" := Unsigned(r.voltage),
      "status_flags" := Unsigned(ToByte(r.Flags())),
      "is_charging" := Flag(r.charging),
      "is_moving" := Flag(r.moving),
      "gps_enabled" := Flag(r.gps),
      "panic_button" := Flag(r.panic)]
  {
    hide LittleEndian, UInt16At, Bit, ToInt8, ToInt16, StatusReading.Written, StatusReading.Flags, ToByte;
    StatusLaidOut(r, padding);
    FlagByteReadsBack(r);
    SignalReadsBack(r.signal);
    SignsReadBack(r.temperature);
  }

  lemma {:induction false} SignalReadsBack(signal: Int8)
    ensures ToInt8(ToByte(signal)) == signal
  {
  }

  lemma {:induction false} FlagByteReadsBack(r: StatusReading)
    requires r.otherFlags < 16
    ensures var b := ToByte(r.Flags());
      && Bit(b, 1) == r.charging && Bit(b, 2) == r.moving && Bit(b, 4) == r.gps && Bit(b, 8) == r.panic
  {
    FlagsReadBack(r);
    assert ToByte(r.Flags()) == r.Flags();
    hide Bit, StatusReading.Flags;
  }

  /** An event is written as its type, the length of its data, the data and a timestamp. */
  function EventWritten(eventType: Byte, data: seq<Byte>, timestamp: UInt32): seq<Byte> {
    [eventType, ToByte(|data|)] + (data + LittleEndian(timestamp, 4))
  }

  /** Every event with at most 255 bytes of data reads back, and nothing else is read. */
  lemma {:induction false} EventReadsBack(eventType: Byte, data: seq<Byte>, timestamp: UInt32, padding: seq<Byte>)
    requires |data| <= 255
    ensures EventFields(EventWritten(eventType, data, timestamp) + padding)
      == map["event_type" := Unsigned(eventType), "event_data" := Raw(data), "event_timestamp" := Unsigned(timestamp)]
  {
    hide LittleEndian, UInt32At;
    var p := EventWritten(eventType, data, timestamp) + padding;
    var at := 2 + |data|;
    assert p[2..at] == data;
    assert p[at..at + 4] == LittleEndian(timestamp, 4);
    Read4(p, at, timestamp);
  }

  /** Whatever the bytes: data and timestamp of an event are both read, and as sent, exactly when
      the announced length and the four bytes of the timestamp are there. */
  lemma {:induction false} EventReadsBackIff(eventType: Byte, length: Byte, rest: seq<Byte>)
    ensures var f := EventFields([eventType, length] + rest);
      && ("event_data" in f && "event_timestamp" in f <==> length + 4 <= |rest|)
      && (length + 4 <= |rest| ==> f == map[
            "event_type" := Unsigned(eventType), "event_data" := Raw(rest[..length]),
            "event_timestamp" := Unsigned(UInt32At(rest, length))])
  {
    var p := [eventType, length] + rest;
    hide FromLittleEndian4;
    if length + 4 <= |rest| {
      assert p[2..2 + length] == rest[..length];
      var at := 2 + length;
      assert p[at] == rest[length] && p[at + 1] == rest[length + 1];
      assert p[at + 2] == rest[length + 2] && p[at + 3] == rest[length + 3];
    }
  }

  /** An event of which only the first `k` bytes arrive reads back exactly when they are all. */
  lemma {:induction false} TruncatedEventReadsBackIff(eventType: Byte, data: seq<Byte>, timestamp: UInt32, k: nat)
    requires |data| <= 255 && 2 <= k <= |EventWritten(eventType, data, timestamp)|
    ensures EventFields(EventWritten(eventType, data, timestamp)[..k])
      == map["event_type" := Unsigned(eventType), "event_data" := Raw(data), "event_timestamp" := Unsigned(timestamp)]
      <==> k == |EventWritten(eventType, data, timestamp)|
  {
    hide LittleEndian, EventFields;
    var w := EventWritten(eventType, data, timestamp);
    assert w[..k] == [eventType, |data|] + w[2..k];
    EventReadsBackIff(eventType, |data|, w[2..k]);
    EventReadsBack(eventType, data, timestamp, []);
    assert w + [] == w && w[..|w|] == w;
    var whole: Fields :=
      map["event_type" := Unsigned(eventType), "event_data" := Raw(data), "event_timestamp" := Unsigned(timestamp)];
    assert "event_data" in whole && "event_timestamp" in whole;
  }

  /** Event data that does not fit is dropped, and its first bytes are taken for the timestamp. */
  lemma {:induction false} OversizedEventMisreadsTimestamp(eventType: Byte, length: Byte, data: seq<Byte>)
    requires 4 <= |data| < length
    ensures EventFields([eventType, length] + data)
      == map["event_type" := Unsigned(eventType), "event_timestamp" := Unsigned(UInt32At(data, 0))]
  {
    var p := [eventType, length] + data;
    assert p[2] == data[0] && p[3] == data[1] && p[4] == data[2] && p[5] == data[3];
    hide FromLittleEndian4;
  }

  /** An acknowledgment is written as the sequence it answers, a result and a message. */
  function AckWritten(sequence: UInt32, result: Byte, text: seq<Byte>): seq<Byte> {
    LittleEndian(sequence, 4) + ([result, ToByte(|text|)] + text)
  }

  /** Every acknowledgment with at most 255 bytes of text reads back; an empty text is no field. */
  lemma {:induction false} AckReadsBack(sequence: UInt32, result: Byte, text: seq<Byte>, padding: seq<Byte>)
    requires |text| <= 255
    ensures AckFields(AckWritten(sequence, result, text) + padding)
      == map["original_sequence" := Unsigned(sequence), "result_code" := Unsigned(result)]
         + if text == [] then map[] else map["error_message" := Text(text)]
  {
    hide LittleEndian, UInt32At;
    var p := AckWritten(sequence, result, text) + padding;
    assert p[0..4] == LittleEndian(sequence, 4);
    assert p[4] == result && p[5] == |text| && p[6..6 + |text|] == text;
    Read4(p, 0, sequence);
  }

  // ---------------------------------------------------------------- whole packets

  /** Bytes the parser takes for a packet of type `t` with this payload. */
  ghost predicate Carries(data: seq<Byte>, t: Byte, payload: seq<Byte>) {
    && |data| >= 25 && data[0] == 0xAA && data[1] == 0xBB && data[4] == t
    && data[19..|data| - 1] == payload
  }

  lemma {:induction false} ParsedFields(data: seq<Byte>, payload: seq<Byte>)
    requires |data| >= 25 && Carries(data, data[4], payload)
    ensures Parse(data).Parsed?
    ensures Parse(data).message.fields ==
      if |payload| >= MinimumPayload(data[4]) then PayloadFields(payload, data[4]) else map[]
  {
    hide PayloadFields, MinimumPayload, ConstructionErrors, HeaderErrors, ChecksumOk, BcdDigits, FromLittleEndian4;
  }

  /** A whole packet of type 1 carries the position it was made from. */
  lemma {:induction false} GpsPacketReadsBack(data: seq<Byte>, g: GpsReading, padding: seq<Byte>)
    requires |padding| >= 10 && Carries(data, 1, g.Written() + padding)
    ensures Parse(data).Parsed? && Parse(data).message.fields == map[
      "latitude" := Quantity(g.latitude as real / 1000000.0),
      "longitude" := Quantity(g.longitude as real / 1000000.0),
      "altitude" := Signed(g.altitude),
      "speed" := Quantity(g.speed as real / 10.0),
      "heading" := Quantity(g.heading as real / 10.0),
      "satellites" := Unsigned(g.satellites),
      "hdop" := Quantity(g.hdop as real / 100.0),
      "fix_type" := Unsigned(g.fixType),
      "gps_timestamp" := Unsigned(g.timestamp)]
  {
    ParsedFields(data, g.Written() + padding);
    GpsReadsBack(g, padding);
    hide GpsFields, StatusFields, EventFields, AckFields, Parse, GpsReading.Written;
  }

  /** Of type 2, the status. */
  lemma {:induction false} StatusPacketReadsBack(data: seq<Byte>, r: StatusReading, padding: seq<Byte>)
    requires r.otherFlags < 16 && padding != [] && Carries(data, 2, r.Written() + padding)
    ensures Parse(data).Parsed? && Parse(data).message.fields == map[
      "battery_level" := Unsigned(r.battery),
      "signal_strength" := Signed(r.signal),
      "temperature" := Quantity(r.temperature as real / 10.0),
      "voltage" := Unsigned(r.voltage),
      "status_flags" := Unsigned(ToByte(r.Flags())),
      "is_charging" := Flag(r.charging),
      "is_moving" := Flag(r.moving),
      "gps_enabled" := Flag(r.gps),
      "panic_button" := Flag(r.panic)]
  {
    ParsedFields(data, r.Written() + padding);
    StatusReadsBack(r, padding);
    hide GpsFields, StatusFields, EventFields, AckFields, Parse, StatusReading.Written, StatusReading.Flags, ToByte;
  }

  /** Of type 3, the event. */
  lemma {:induction false} EventPacketReadsBack(
      data: seq<Byte>, eventType: Byte, content: seq<Byte>, timestamp: UInt32, padding: seq<Byte>)
    requires |content| <= 255 && Carries(data, 3, EventWritten(eventType, content, timestamp) + padding)
    ensures Parse(data).Parsed? && Parse(data).message.fields == map[
      "event_type" := Unsigned(eventType), "event_data" := Raw(content), "event_timestamp" := Unsigned(timestamp)]
  {
    ParsedFields(data, EventWritten(eventType, content, timestamp) + padding);
    EventReadsBack(eventType, content, timestamp, padding);
    hide GpsFields, StatusFields, EventFields, AckFields, Parse, LittleEndian;
  }

  /** Of type 4, the acknowledgment. */
  lemma {:induction false} AckPacketReadsBack(
      data: seq<Byte>, sequence: UInt32, result: Byte, text: seq<Byte>, padding: seq<Byte>)
    requires |text| <= 255 && Carries(data, 4, AckWritten(sequence, result, text) + padding)
    ensures Parse(data).Parsed? && Parse(data).message.fields ==
      map["original_sequence" := Unsigned(sequence), "result_code" := Unsigned(result)]
      + if text == [] then map[] else map["error_message" := Text(text)]
  {
    ParsedFields(data, AckWritten(sequence, result, text) + padding);
    AckReadsBack(sequence, result, text, padding);
    hide GpsFields, StatusFields, EventFields, AckFields, Parse, LittleEndian;
  }

  /** Of any other type, known or not, the bytes as they are. */
  lemma {:induction false} OtherPacketIsRaw(data: seq<Byte>, t: Byte, payload: seq<Byte>)
    requires Carries(data, t, payload) && !(1 <= t <= 4)
    ensures Parse(data).Parsed? && Parse(data).message.fields == map["raw_payload" := Raw(payload)]
  {
    ParsedFields(data, payload);
    hide Parse;
  }

  /** The IMEI nibbles are all decimal. */
  ghost predicate DecimalImei(data: seq<Byte>)
    requires |data| >= 13
  {
    forall i :: 0 <= i < 15 ==> Nibble(data, i) <= 9
  }

  function Number(low: int, second: int, third: int, high: int): int {
    low + 256 * second + 65536 * third + 16777216 * high
  }

  /** The header of a parsed packet, byte by byte; nibbles that are no digits are left out. */
  lemma {:induction false} HeaderReads(data: seq<Byte>)
    requires |data| >= MINIMUM_PACKET_SIZE && HasMagic(data)
    ensures var m := Parse(data).message;
      && m.major == data[2] && m.minor == data[3] && m.messageType == data[4]
      && m.sequence == Number(data[13], data[14], data[15], data[16])
      && AllDigits(m.imei) && (|m.imei| == 15 <==> DecimalImei(data))
  {
    BcdComplete(data, 15);
    hide PayloadFields, MinimumPayload, ConstructionErrors, HeaderErrors, ChecksumOk, BcdDigits, Nibble;
  }

  /** The least payload of each type, in bytes. */
  function LeastPayload(t: Byte): nat {
    if t == 1 then 32 else if t == 2 then 8 else if t == 3 then 2 else if t == 4 then 6 else 0
  }

  lemma {:induction false} HeaderErrorsExactly(h: Header)
    requires AllDigits(h.imei)
    ensures ConstructionErrors(h) + HeaderErrors(h) ==
      (if |h.imei| == 15 then [] else [ImeiFormat])
      + (if h.major < 2 || (h.major == 2 && h.minor == 0) then [] else [UnsupportedVersion])
      + (if 1 <= h.messageType <= 10 then [] else [UnknownMessageType])
      + (if |h.imei| == 15 then [] else [ImeiLength])
  {
  }

  /** Exactly which errors a parsed packet reports, in order: an IMEI that is not fifteen digits
      counts twice, as malformed and as too short. */
  lemma {:induction false} ErrorsExactly(data: seq<Byte>)
    requires |data| >= MINIMUM_PACKET_SIZE && HasMagic(data)
    ensures Parse(data).message.errors ==
      (if DecimalImei(data) then [] else [ImeiFormat])
      + (if data[2] < 2 || (data[2] == 2 && data[3] == 0) then [] else [UnsupportedVersion])
      + (if 1 <= data[4] <= 10 then [] else [UnknownMessageType])
      + (if DecimalImei(data) then [] else [ImeiLength])
      + (if |data| - 20 >= LeastPayload(data[4]) then [] else [PayloadTooSmall])
      + (if XorAll(data) == 0 then [] else [ChecksumFailed])
  {
    BcdComplete(data, 15);
    ChecksumOkIfZero(data);
    var h := HeaderOf(data);
    assert |h.imei| == 15 <==> DecimalImei(data);
    assert |Payload(data)| == |data| - 20 && MinimumPayload(data[4]) == LeastPayload(data[4]);
    hide BcdDigits, FromLittleEndian4, PayloadFields, XorAll, ChecksumOk, MinimumPayload, LeastPayload, Nibble;
    hide DecimalImei, ConstructionErrors, HeaderErrors;
    HeaderErrorsExactly(h);
  }

  // ---------------------------------------------------------------- the other wire format

  /** The first eight IMEI bytes of the other format, read as fifteen nibbles, are decimal. */
  ghost predicate DecimalNibbles(imei: string) {
    var e := Wire.EncodeImei(imei);
    forall k :: 0 <= k < 8 ==> e[k] % 16 <= 9 && (k < 7 ==> e[k] / 16 <= 9)
  }

  /** The parser's IMEI is taken from the first eight of the fifteen IMEI bytes written. */
  lemma {:induction false} WrittenNibble(m: Wire.Message, walk: seq<Wire.Field>, i: nat)
    requires i < 15
    ensures var data, e := Wire.Encode(m, walk), Wire.EncodeImei(m.imei);
      |data| >= 13 && Nibble(data, i) == if i % 2 == 0 then e[i / 2] % 16 else e[i / 2] / 16
  {
    WireTheorems.HeaderBytes(m, walk);
    hide Wire.Encode, Wire.EncodeImei;
    assert Wire.Encode(m, walk)[5..20][i / 2] == Wire.Encode(m, walk)[5 + i / 2];
  }

  lemma {:induction false} NibbleIsDecimal(m: Wire.Message, walk: seq<Wire.Field>, i: nat)
    requires DecimalNibbles(m.imei) && i < 15
    ensures |Wire.Encode(m, walk)| >= 13 && Nibble(Wire.Encode(m, walk), i) <= 9
  {
    WrittenNibble(m, walk, i);
    hide Wire.Encode, Wire.EncodeImei, Nibble;
    var k := i / 2;
    assert i == 2 * k || i == 2 * k + 1;
  }

  lemma {:induction false} ByteIsDecimal(m: Wire.Message, walk: seq<Wire.Field>, k: nat)
    requires |Wire.Encode(m, walk)| >= 13 && k < 8
    requires Nibble(Wire.Encode(m, walk), 2 * k) <= 9 && (k < 7 ==> Nibble(Wire.Encode(m, walk), 2 * k + 1) <= 9)
    ensures var b := Wire.EncodeImei(m.imei)[k];
      b % 16 <= 9 && (k < 7 ==> b / 16 <= 9)
  {
    hide Wire.Encode, Wire.EncodeImei, Nibble;
    assert 2 * k / 2 == k && 2 * k % 2 == 0;
    assert (2 * k + 1) / 2 == k && (2 * k + 1) % 2 == 1;
    WrittenNibble(m, walk, 2 * k);
    if k < 7 { WrittenNibble(m, walk, 2 * k + 1); }
  }

  lemma {:induction false} NibblesDecimalIff(m: Wire.Message, walk: seq<Wire.Field>)
    ensures |Wire.Encode(m, walk)| >= 13
    ensures (forall i :: 0 <= i < 15 ==> Nibble(Wire.Encode(m, walk), i) <= 9) <==> DecimalNibbles(m.imei)
  {
    WrittenNibble(m, walk, 0);
    hide Wire.Encode, Wire.EncodeImei, Nibble;
    if DecimalNibbles(m.imei) {
      hide DecimalNibbles;
      forall i | 0 <= i < 15 ensures Nibble(Wire.Encode(m, walk), i) <= 9 { NibbleIsDecimal(m, walk, i); }
    }
    if forall i :: 0 <= i < 15 ==> Nibble(Wire.Encode(m, walk), i) <= 9 {
      var e := Wire.EncodeImei(m.imei);
      forall k | 0 <= k < 8 ensures e[k] % 16 <= 9 && (k < 7 ==> e[k] / 16 <= 9) { ByteIsDecimal(m, walk, k); }
    }
  }

  /** The parser takes the other format's type for the major version, its major version for the
      minor one and its minor version for the type. So it accepts what `toBinary` writes exactly
      when these fit, the IMEI bytes pass for nibbles, and there are enough bytes. */
  lemma {:induction false} WrittenIsValidIff(m: Wire.Message, walk: seq<Wire.Field>)
    ensures var r := Parse(Wire.Encode(m, walk));
      r.Parsed? && (r.message.IsValid() <==>
        && (m.messageType < 2 || (m.messageType == 2 && m.major == 0))
        && 1 <= m.minor <= 10
        && DecimalNibbles(m.imei)
        && 6 + |Wire.EncodeFields(walk)| >= MinimumPayload(m.minor))
  {
    WireTheorems.HeaderBytes(m, walk);
    WireTheorems.WrittenPassesChecksum(m, walk);
    var data := Wire.Encode(m, walk);
    NibblesDecimalIff(m, walk);
    ValidIff(data);
    ChecksumOkIfZero(data);
    hide Wire.Encode, Wire.EncodeFields, Parse, XorAll, ChecksumOk, DecimalNibbles, Nibble, MinimumPayload;
  }

  /** Fifteen digits always pass for nibbles. */
  lemma {:induction false} DigitsPassForNibbles(imei: string)
    requires |imei| == 15 && AllDigits(imei)
    ensures DecimalNibbles(imei)
  {
    var e := Wire.EncodeImei(imei);
    forall k | 0 <= k < 8 ensures e[k] <= 9 {
      DigitByte(imei, k);
    }
    hide Wire.EncodeImei, AllDigits;
  }

  /** The same for a message with a proper IMEI. */
  lemma {:induction false} WrittenWithImeiIsValidIff(m: Wire.Message, walk: seq<Wire.Field>)
    requires !m.HasImeiError()
    ensures Parse(Wire.Encode(m, walk)).message.IsValid() <==>
      && (m.messageType < 2 || (m.messageType == 2 && m.major == 0))
      && 1 <= m.minor <= 10
      && 6 + |Wire.EncodeFields(walk)| >= MinimumPayload(m.minor)
  {
    WrittenIsValidIff(m, walk);
    DigitsPassForNibbles(m.imei);
    hide Parse, Wire.Encode, Wire.EncodeFields, DecimalNibbles, MinimumPayload;
  }

  /** What an accepted message is read as: versions and type shifted, an IMEI of the first eight
      digits with zeros between them, and four other digits of the IMEI for the sequence. */
  lemma {:induction false} WrittenReadsAs(m: Wire.Message, walk: seq<Wire.Field>)
    requires !m.HasImeiError() && Parse(Wire.Encode(m, walk)).message.IsValid()
    ensures var r, e := Parse(Wire.Encode(m, walk)).message, Wire.EncodeImei(m.imei);
      && r.major == m.messageType && r.minor == m.major && r.messageType == m.minor
      && |r.imei| == 15
      && (forall i :: 0 <= i < 15 ==> r.imei[i] == if i % 2 == 0 then m.imei[i / 2] else '0')
      && r.sequence == FromLittleEndian4(e[8], e[9], e[10], e[11])
  {
    WireTheorems.HeaderBytes(m, walk);
    var data := Wire.Encode(m, walk);
    ShiftedHeader(m, walk);
    ValidImei(data);
    var r := Parse(data).message;
    forall i | 0 <= i < 15 ensures r.imei[i] == if i % 2 == 0 then m.imei[i / 2] else '0' {
      WrittenNibble(m, walk, i);
      DigitByte(m.imei, i / 2);
      hide Parse, Wire.Encode, Wire.EncodeImei, Nibble;
    }
    hide Parse, Wire.Encode, Wire.EncodeImei, Wire.EncodeFields;
  }

  lemma {:induction false} DigitByte(imei: string, k: nat)
    requires |imei| == 15 && AllDigits(imei) && k < 15
    ensures var b := Wire.EncodeImei(imei)[k];
      b <= 9 && Digit(b % 16) == imei[k] && Digit(b / 16) == '0'
  {
    assert IsDigit(imei[k]);
  }

  lemma {:induction false} ShiftedHeader(m: Wire.Message, walk: seq<Wire.Field>)
    ensures var r, e := Parse(Wire.Encode(m, walk)), Wire.EncodeImei(m.imei);
      && r.Parsed? && r.message.major == m.messageType && r.message.minor == m.major && r.message.messageType == m.minor
      && r.message.sequence == FromLittleEndian4(e[8], e[9], e[10], e[11])
  {
    WireTheorems.HeaderBytes(m, walk);
    var data, e := Wire.Encode(m, walk), Wire.EncodeImei(m.imei);
    hide Wire.Encode, Wire.EncodeImei, FromLittleEndian4, BcdDigits, PayloadFields, ChecksumOk, MinimumPayload;
    hide ConstructionErrors, HeaderErrors, Wire.EncodeFields;
    forall k | 0 <= k < 15 ensures data[5 + k] == e[k] {
      assert data[5..20][k] == data[5 + k];
    }
    assert data[13] == e[8] && data[14] == e[9] && data[15] == e[10] && data[16] == e[11];
  }

  /** In particular every message of a version x.0 comes out invalid. */
  lemma {:induction false} WrittenMessagesAreInvalid(m: Wire.Message, walk: seq<Wire.Field>)
    requires m.minor == 0
    ensures Parse(Wire.Encode(m, walk)).Parsed? && !Parse(Wire.Encode(m, walk)).message.IsValid()
  {
    WireTheorems.HeaderBytes(m, walk);
    ValidIff(Wire.Encode(m, walk));
    hide Wire.Encode, Parse, XorAll;
  }
}
