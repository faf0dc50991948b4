/** The telemetry codec: `LoRaTransmitter.pack_telemetry` (central.py) and
    `LoRaReceiver.unpack_packet` (core/lora_receiver.py), over a layout so that both
    the format string as written and the documented struct can be instantiated. */
module Codec {
  import opened Wrappers
  import opened WireFormat
  import opened Telemetry

  /** Python's `int(x)` on a float: truncation toward zero. */
  function TruncToZero(x: real): (r: int)
    ensures x >= 0.0 ==> r as real <= x < r as real + 1.0
    ensures x < 0.0 ==> r as real - 1.0 < x <= r as real
  {
    if x >= 0.0 then x.Floor else -((-x).Floor)
  }

  /** The 17 integers handed to `struct.pack`, in order: rpm, temperatura, tps,
      lambda x1000, steering x10, brake, accelX x1000, accelY x1000, wheels FL..RR,
      suspension FL..RR, timestamp. */
  function FieldValues(d: TelemetryData): (vals: seq<int>)
    ensures |vals| == 17
  {
    [d.rpm, d.temperatura, d.tps,
     TruncToZero(d.lambda * 1000.0),
     TruncToZero(d.steeringAngle * 10.0),
     d.brakePressure,
     TruncToZero(d.accelX * 1000.0),
     TruncToZero(d.accelY * 1000.0),
     d.wheelFL, d.wheelFR, d.wheelRL, d.wheelRR,
     d.suspFL, d.suspFR, d.suspRL, d.suspRR,
     d.timestamp]
  }

  /** Every scaled channel fits its field of the documented struct. */
  predicate Encodable(d: TelemetryData) {
    AllFit(DocumentedLayout, FieldValues(d))
  }

  /** `pack_telemetry`: the packed bytes, or the empty payload when `struct.pack`
      raises. */
  function PackTelemetry(layout: seq<Code>, d: TelemetryData): (payload: seq<byte>)
  {
    match Pack(layout, FieldValues(d))
    case Some(bs) => bs
    case None => []
  }

  /** The payload is either empty or exactly the layout's size, and it is non-empty
      exactly when every scaled value fits its code. */
  lemma PackTelemetryShape(layout: seq<Code>, d: TelemetryData)
    requires layout != []
    ensures PackTelemetry(layout, d) != [] <==> AllFit(layout, FieldValues(d))
    ensures PackTelemetry(layout, d) != [] ==> |PackTelemetry(layout, d)| == Size(layout)
  {
    PackSucceedsIff(layout, FieldValues(d));
    if AllFit(layout, FieldValues(d)) {
      assert Size(layout) >= layout[0].width > 0;
    }
  }

  const KeyRPM := "RPM"
  const KeyTemperatura := "Temperatura"
  const KeyThrottlePos := "ThrottlePos"
  const KeyLambda := "Lambda"
  const KeySteeringAngle := "SteeringAngle"
  const KeyBrakePressure := "BrakePressure"
  const KeyAccelX := "AccelX"
  const KeyAccelY := "AccelY"
  const KeyWheelFL := "WheelSpeed_FL"
  const KeyWheelFR := "WheelSpeed_FR"
  const KeyWheelRL := "WheelSpeed_RL"
  const KeyWheelRR := "WheelSpeed_RR"
  const KeySuspFL := "SuspensionPos_FL"
  const KeySuspFR := "SuspensionPos_FR"
  const KeySuspRL := "SuspensionPos_RL"
  const KeySuspRR := "SuspensionPos_RR"
  const KeyTimestamp := "timestamp_ms"

  /** The dictionary `unpack_packet` builds from unpacked values 0..16, with the
      fixed-point channels divided back by their scale. */
  function ToDict(v: seq<int>): (m: map<string, real>)
    requires |v| >= 17
  {
    map[KeyRPM := v[0] as real,
        KeyTemperatura := v[1] as real,
        KeyThrottlePos := v[2] as real,
        KeyLambda := v[3] as real / 1000.0,
        KeySteeringAngle := v[4] as real / 10.0,
        KeyBrakePressure := v[5] as real,
        KeyAccelX := v[6] as real / 1000.0,
        KeyAccelY := v[7] as real / 1000.0,
        KeyWheelFL := v[8] as real,
        KeyWheelFR := v[9] as real,
        KeyWheelRL := v[10] as real,
        KeyWheelRR := v[11] as real,
        KeySuspFL := v[12] as real,
        KeySuspFR := v[13] as real,
        KeySuspRL := v[14] as real,
        KeySuspRR := v[15] as real,
        KeyTimestamp := v[16] as real]
  }

  /** `PACKET_SIZE`, the only length the receiver accepts. */
  const PacketSize := 36

  /** `unpack_packet` for a receiver reading `packetSize`-byte packets with
      `layout`: `None` for any other length (the explicit check), and `None` when
      `struct.unpack` raises because the layout's size differs. */
  function UnpackPacket(layout: seq<Code>, packetSize: nat, raw: seq<byte>): (r: Option<map<string, real>>)
    requires |layout| >= 17
    ensures r.Some? <==> |raw| == packetSize == Size(layout)
  {
    if |raw| != packetSize then None
    else match Unpack(layout, raw)
      case Some(v) => Some(ToDict(v))
      case None => None
  }

  /** The packet size that matches the documented struct. */
  const DocumentedPacketSize := 34

  /** A buffer of the right size decodes to the dictionary of its fields. */
  lemma Decoded(layout: seq<Code>, packetSize: nat, raw: seq<byte>)
    requires |layout| >= 17 && |raw| == packetSize == Size(layout)
    ensures UnpackPacket(layout, packetSize, raw) == Some(ToDict(Fields(layout, raw)))
  {
  }

  /** The values under the engine keys of `ToDict(v)`. */
  lemma ToDictEngineValues(v: seq<int>)
    requires |v| >= 17
    ensures var m := ToDict(v);
      && KeyRPM in m && m[KeyRPM] == v[0] as real
      && KeyTemperatura in m && m[KeyTemperatura] == v[1] as real
      && KeyThrottlePos in m && m[KeyThrottlePos] == v[2] as real
      && KeyLambda in m && m[KeyLambda] == v[3] as real / 1000.0
  {
  }

  /** The values under the chassis keys of `ToDict(v)`. */
  lemma ToDictChassisValues(v: seq<int>)
    requires |v| >= 17
    ensures var m := ToDict(v);
      && KeySteeringAngle in m && m[KeySteeringAngle] == v[4] as real / 10.0
      && KeyBrakePressure in m && m[KeyBrakePressure] == v[5] as real
      && KeyAccelX in m && m[KeyAccelX] == v[6] as real / 1000.0
      && KeyAccelY in m && m[KeyAccelY] == v[7] as real / 1000.0
  {
  }

  /** The values under the wheel, suspension and timestamp keys of `ToDict(v)`. */
  lemma ToDictWheelValues(v: seq<int>)
    requires |v| >= 17
    ensures var m := ToDict(v);
      && KeyWheelFL in m && m[KeyWheelFL] == v[8] as real
      && KeyWheelFR in m && m[KeyWheelFR] == v[9] as real
      && KeyWheelRL in m && m[KeyWheelRL] == v[10] as real
      && KeyWheelRR in m && m[KeyWheelRR] == v[11] as real
      && KeySuspFL in m && m[KeySuspFL] == v[12] as real
      && KeySuspFR in m && m[KeySuspFR] == v[13] as real
      && KeySuspRL in m && m[KeySuspRL] == v[14] as real
      && KeySuspRR in m && m[KeySuspRR] == v[15] as real
      && KeyTimestamp in m && m[KeyTimestamp] == v[16] as real
  {
  }

  /** The value stored under each key of `ToDict(v)`. */
  lemma ToDictValues(v: seq<int>)
    requires |v| >= 17
    ensures var m := ToDict(v);
      && KeyRPM in m && m[KeyRPM] == v[0] as real
      && KeyTemperatura in m && m[KeyTemperatura] == v[1] as real
      && KeyThrottlePos in m && m[KeyThrottlePos] == v[2] as real
      && KeyLambda in m && m[KeyLambda] == v[3] as real / 1000.0
      && KeySteeringAngle in m && m[KeySteeringAngle] == v[4] as real / 10.0
      && KeyBrakePressure in m && m[KeyBrakePressure] == v[5] as real
      && KeyAccelX in m && m[KeyAccelX] == v[6] as real / 1000.0
      && KeyAccelY in m && m[KeyAccelY] == v[7] as real / 1000.0
      && KeyWheelFL in m && m[KeyWheelFL] == v[8] as real
      && KeyWheelFR in m && m[KeyWheelFR] == v[9] as real
      && KeyWheelRL in m && m[KeyWheelRL] == v[10] as real
      && KeyWheelRR in m && m[KeyWheelRR] == v[11] as real
      && KeySuspFL in m && m[KeySuspFL] == v[12] as real
      && KeySuspFR in m && m[KeySuspFR] == v[13] as real
      && KeySuspRL in m && m[KeySuspRL] == v[14] as real
      && KeySuspRR in m && m[KeySuspRR] == v[15] as real
      && KeyTimestamp in m && m[KeyTimestamp] == v[16] as real
  {
    ToDictEngineValues(v);
    ToDictChassisValues(v);
    ToDictWheelValues(v);
  }

  /** With the format as written the explicit length check and `struct.unpack`
      agree: every 36-byte buffer decodes, every other length is refused. */
  lemma LiteralAcceptsExactlyPacketSize(raw: seq<byte>)
    ensures UnpackPacket(LiteralLayout, PacketSize, raw).Some? <==> |raw| == 36
  {
    LiteralLayoutSize();
    LiteralFormatCodes();
  }

  /** Fixing only the format string is not enough: a receiver that keeps
      `PACKET_SIZE = 36` with the 34-byte documented struct decodes nothing. */
  lemma DocumentedLayoutWithPacketSizeDecodesNothing(raw: seq<byte>)
    ensures UnpackPacket(DocumentedLayout, PacketSize, raw).None?
  {
    DocumentedLayoutSize();
  }

  /** `decoded` is `x` truncated toward zero to a multiple of `1/scale`: it lies
      within one scale unit of `x`, on the side of zero. */
  predicate WithinUnit(decoded: real, x: real, scale: real)
    requires scale > 0.0
  {
    (x >= 0.0 ==> x - 1.0 / scale < decoded <= x) &&
    (x < 0.0 ==> x <= decoded < x + 1.0 / scale)
  }

  /** A decoded dictionary carries every channel of `d`: the integer channels
      exactly, the fixed-point ones to within one scale unit. */
  predicate Recovers(m: map<string, real>, d: TelemetryData) {
    && KeyRPM in m && m[KeyRPM] == d.rpm as real
    && KeyTemperatura in m && m[KeyTemperatura] == d.temperatura as real
    && KeyThrottlePos in m && m[KeyThrottlePos] == d.tps as real
    && KeyLambda in m && WithinUnit(m[KeyLambda], d.lambda, 1000.0)
    && KeySteeringAngle in m && WithinUnit(m[KeySteeringAngle], d.steeringAngle, 10.0)
    && KeyBrakePressure in m && m[KeyBrakePressure] == d.brakePressure as real
    && KeyAccelX in m && WithinUnit(m[KeyAccelX], d.accelX, 1000.0)
    && KeyAccelY in m && WithinUnit(m[KeyAccelY], d.accelY, 1000.0)
    && KeyWheelFL in m && m[KeyWheelFL] == d.wheelFL as real
    && KeyWheelFR in m && m[KeyWheelFR] == d.wheelFR as real
    && KeyWheelRL in m && m[KeyWheelRL] == d.wheelRL as real
    && KeyWheelRR in m && m[KeyWheelRR] == d.wheelRR as real
    && KeySuspFL in m && m[KeySuspFL] == d.suspFL as real
    && KeySuspFR in m && m[KeySuspFR] == d.suspFR as real
    && KeySuspRL in m && m[KeySuspRL] == d.suspRL as real
    && KeySuspRR in m && m[KeySuspRR] == d.suspRR as real
    && KeyTimestamp in m && m[KeyTimestamp] == d.timestamp as real
  }

  lemma TruncScaled(x: real, scale: real)
    requires scale > 0.0
    ensures WithinUnit(TruncToZero(x * scale) as real / scale, x, scale)
  {
    var t := TruncToZero(x * scale) as real;
    assert t / scale * scale == t;
    if x >= 0.0 {
      assert x * scale >= 0.0;
    } else {
      assert x * scale < 0.0;
    }
  }

  /** What an encodable record decodes to, stated for an arbitrary record. */
  lemma DecodePacked(d: TelemetryData)
    requires Encodable(d)
    ensures UnpackPacket(DocumentedLayout, DocumentedPacketSize, PackTelemetry(DocumentedLayout, d)) == Some(ToDict(FieldValues(d)))
    ensures PackTelemetry(DocumentedLayout, d) != []
  {
    UnpackPack(DocumentedLayout, FieldValues(d));
    PackTelemetryShape(DocumentedLayout, d);
    DocumentedLayoutSize();
  }

  /** Decoding what the documented layout packs recovers every channel: integer
      channels exactly, lambda and the accelerations to 0.001, steering to 0.1. */
  lemma {:induction false} RoundTrip(d: TelemetryData)
    requires Encodable(d)
    ensures PackTelemetry(DocumentedLayout, d) != []
    ensures var m := UnpackPacket(DocumentedLayout, DocumentedPacketSize, PackTelemetry(DocumentedLayout, d));
            m.Some? && Recovers(m.value, d)
  {
    DecodePacked(d);
    ToDictValues(FieldValues(d));
    TruncScaled(d.lambda, 1000.0);
    TruncScaled(d.steeringAngle, 10.0);
    TruncScaled(d.accelX, 1000.0);
    TruncScaled(d.accelY, 1000.0);
  }

  /** With no checksum, every buffer of the documented size decodes to some
      dictionary, and distinct buffers decode to distinct value lists. */
  lemma EveryFullBufferDecodes(raw: seq<byte>)
    requires |raw| == DocumentedPacketSize
    ensures UnpackPacket(DocumentedLayout, DocumentedPacketSize, raw).Some?
    ensures Pack(DocumentedLayout, Fields(DocumentedLayout, raw)) == Some(raw)
  {
    DocumentedLayoutSize();
    PackUnpack(DocumentedLayout, raw);
    Decoded(DocumentedLayout, DocumentedPacketSize, raw);
  }

  // ---------------------------------------------------------------------------
  // The source as written

  /** With the format string as written (18 codes) `struct.pack` is given 17
      values and always raises, so `pack_telemetry` returns the empty payload for
      every record. */
  lemma LiteralPackAlwaysEmpty(d: TelemetryData)
    ensures PackTelemetry(LiteralLayout, d) == []
  {
    LiteralFormatCodes();
  }

  /** A timestamp outside the uint32 range (epoch milliseconds are about 1.7e12)
      makes packing fail even with the documented layout. */
  lemma WideTimestampNeverPacks(d: TelemetryData)
    requires d.timestamp >= 0x1_0000_0000 || d.timestamp < 0
    ensures PackTelemetry(DocumentedLayout, d) == []
  {
    PackTelemetryShape(DocumentedLayout, d);
    DocumentedLayoutSize();
    assert !Fits(DocumentedLayout[16], FieldValues(d)[16]);
  }

  /** Decoding a 36-byte buffer with the format as written puts the extra signed
      code into WheelSpeed_FL, shifts every later channel by one field, reads
      `timestamp_ms` from a 16-bit field and drops the trailing uint32. */
  lemma LiteralDecodeShifts(raw: seq<byte>)
    requires |raw| == 36
    ensures UnpackPacket(LiteralLayout, PacketSize, raw).Some?
    ensures var m := UnpackPacket(LiteralLayout, PacketSize, raw).value;
            && KeyWheelFL in m && m[KeyWheelFL] == DecodeField(I16, raw[14..16]) as real
            && KeyTimestamp in m && m[KeyTimestamp] == DecodeField(U16, raw[30..32]) as real
            && -32768.0 <= m[KeyWheelFL] < 32768.0
            && 0.0 <= m[KeyTimestamp] < 65536.0
  {
    LiteralLayoutSize();
    LiteralFormatCodes();
    Decoded(LiteralLayout, PacketSize, raw);
    ToDictValues(Fields(LiteralLayout, raw));
    LiteralFieldsAt(raw);
  }

  /** A concrete buffer on which the as-written decoder reports a negative wheel
      speed: all zero except 0xFF 0xFF at bytes 14 and 15. */
  lemma LiteralNegativeWheelSpeed()
    ensures var raw := seq(36, i => if i == 14 || i == 15 then 255 else 0);
            && UnpackPacket(LiteralLayout, PacketSize, raw).Some?
            && KeyWheelFL in UnpackPacket(LiteralLayout, PacketSize, raw).value
            && UnpackPacket(LiteralLayout, PacketSize, raw).value[KeyWheelFL] == -1.0
  {
    var raw: seq<byte> := seq(36, i => if i == 14 || i == 15 then 255 else 0);
    LiteralDecodeShifts(raw);
    assert raw[14..16] == [255, 255];
    assert UnLE([255]) == 255 by { assert [255][1..] == []; }
    assert UnLE([255, 255]) == 65535 by { assert [255, 255][1..] == [255]; }
    assert Pow256(2) == 65536;
  }

  /** The worked example: RPM 5200, steering -12.5, lambda 1.234, accelX -0.523. */
  const WorkedRecord := Zero.(rpm := 5200, steeringAngle := -12.5, lambda := 1.234, accelX := -0.523)

  /** On the wire the worked example becomes 5200, -125, 1234 and -523. */
  lemma WorkedExampleScaled()
    ensures FieldValues(WorkedRecord) == [5200, 0, 0, 1234, -125, 0, -523, 0, 0, 0, 0, 0, 0, 0, 0, 0, 0]
  {
    assert TruncToZero(1.234 * 1000.0) == 1234;
    assert TruncToZero(-12.5 * 10.0) == -125;
    assert TruncToZero(-0.523 * 1000.0) == -523;
  }

  lemma WorkedRecordEncodable()
    ensures Encodable(WorkedRecord)
  {
    var vals := FieldValues(WorkedRecord);
    WorkedExampleScaled();
    assert Pow256(1) == 256 && Pow256(2) == 65536 && Pow256(4) == 0x1_0000_0000;
    forall i | 0 <= i < 17 ensures Fits(DocumentedLayout[i], vals[i]) {
    }
  }

  /** ... and any encodable record carrying those four readings decodes back to
      exactly them. */
  lemma WorkedExample(d: TelemetryData)
    requires d.rpm == 5200 && d.steeringAngle == -12.5 && d.lambda == 1.234 && d.accelX == -0.523
    requires Encodable(d)
    ensures var m := UnpackPacket(DocumentedLayout, DocumentedPacketSize, PackTelemetry(DocumentedLayout, d));
            && m.Some?
            && Recovers(m.value, d)
            && m.value[KeyRPM] == 5200.0 && m.value[KeySteeringAngle] == -12.5
            && m.value[KeyLambda] == 1.234 && m.value[KeyAccelX] == -0.523
  {
    RoundTrip(d);
    DecodePacked(d);
    var vals := FieldValues(d);
    assert vals[3] == 1234 && vals[4] == -125 && vals[6] == -523 by {
      assert TruncToZero(1.234 * 1000.0) == 1234;
      assert TruncToZero(-12.5 * 10.0) == -125;
      assert TruncToZero(-0.523 * 1000.0) == -523;
    }
    ToDictValues(vals);
  }
}
