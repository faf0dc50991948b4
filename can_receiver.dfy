/** The sample cache of the on-car sender (`CANReceiver`, central.py): decoded CAN
    signals are copied by name into the current record, and snapshots of that
    record are taken for the main loop. Decoding a frame with the DBC database is
    outside the model; it arrives here as `None` (the frame could not be decoded)
    or as the map of signal values it produced. */
module CanBus {
  import opened Wrappers
  import opened WireFormat
  import opened Telemetry
  import opened Codec

  const SigRPM := "RPM"
  const SigEngineTemp := "EngineTemp"
  const SigTPS := "TPS"
  const SigLambda := "Lambda"
  const SigSteeringAngle := "SteeringAngle"
  const SigBrakePressure := "BrakePressure"
  const SigAccelX := "AccelX"
  const SigAccelY := "AccelY"
  const SigWheelFL := "WheelSpeed_FL"
  const SigWheelFR := "WheelSpeed_FR"
  const SigWheelRL := "WheelSpeed_RL"
  const SigWheelRR := "WheelSpeed_RR"
  const SigSuspFL := "Suspension_FL"
  const SigSuspFR := "Suspension_FR"
  const SigSuspRL := "Suspension_RL"
  const SigSuspRR := "Suspension_RR"

  /** The signal names the sender recognises. */
  const KnownSignals: set<string> := {
    SigRPM, SigEngineTemp, SigTPS, SigLambda, SigSteeringAngle, SigBrakePressure,
    SigAccelX, SigAccelY, SigWheelFL, SigWheelFR, SigWheelRL, SigWheelRR,
    SigSuspFL, SigSuspFR, SigSuspRL, SigSuspRR}

  /** An integer channel: `int(value)` when the signal is present, else unchanged. */
  function IntSignal(m: map<string, real>, name: string, current: int): int {
    if name in m then TruncToZero(m[name]) else current
  }

  /** A fractional channel: the value when the signal is present, else unchanged. */
  function RealSignal(m: map<string, real>, name: string, current: real): real {
    if name in m then m[name] else current
  }

  /** The field updates of `process_message` for one decoded frame. */
  function ApplySignals(d: TelemetryData, m: map<string, real>): TelemetryData {
    d.(rpm := IntSignal(m, SigRPM, d.rpm),
       temperatura := IntSignal(m, SigEngineTemp, d.temperatura),
       tps := IntSignal(m, SigTPS, d.tps),
       lambda := RealSignal(m, SigLambda, d.lambda),
       steeringAngle := RealSignal(m, SigSteeringAngle, d.steeringAngle),
       brakePressure := IntSignal(m, SigBrakePressure, d.brakePressure),
       accelX := RealSignal(m, SigAccelX, d.accelX),
       accelY := RealSignal(m, SigAccelY, d.accelY),
       wheelFL := IntSignal(m, SigWheelFL, d.wheelFL),
       wheelFR := IntSignal(m, SigWheelFR, d.wheelFR),
       wheelRL := IntSignal(m, SigWheelRL, d.wheelRL),
       wheelRR := IntSignal(m, SigWheelRR, d.wheelRR),
       suspFL := IntSignal(m, SigSuspFL, d.suspFL),
       suspFR := IntSignal(m, SigSuspFR, d.suspFR),
       suspRL := IntSignal(m, SigSuspRL, d.suspRL),
       suspRR := IntSignal(m, SigSuspRR, d.suspRR))
  }

  /** Only recognised names matter: two frames that agree on the known signals
      have the same effect, and a frame with none of them changes nothing. */
  lemma UnknownSignalsIgnored(d: TelemetryData, m1: map<string, real>, m2: map<string, real>)
    requires forall k | k in KnownSignals :: (k in m1 <==> k in m2) && (k in m1 ==> m1[k] == m2[k])
    ensures ApplySignals(d, m1) == ApplySignals(d, m2)
  {
  }

  /** A frame with no recognised signal leaves the record as it was. */
  lemma NoKnownSignalNoChange(d: TelemetryData, m: map<string, real>)
    requires forall k | k in m :: k !in KnownSignals
    ensures ApplySignals(d, m) == d
  {
    UnknownSignalsIgnored(d, m, map[]);
  }

  /** Two frames in a row act like one frame whose signals are the first's
      overridden by the second's. */
  lemma ApplyTwice(d: TelemetryData, m1: map<string, real>, m2: map<string, real>)
    ensures ApplySignals(ApplySignals(d, m1), m2) == ApplySignals(d, m1 + m2)
  {
  }

  /** The timestamp is never set from a signal; each present signal sets its own
      channel (integer channels truncated toward zero) and each absent signal
      leaves its channel as it was. */
  lemma ApplySetsChannels(d: TelemetryData, m: map<string, real>)
    ensures ApplySignals(d, m).timestamp == d.timestamp
    ensures SigRPM in m ==> ApplySignals(d, m).rpm == TruncToZero(m[SigRPM])
    ensures SigRPM !in m ==> ApplySignals(d, m).rpm == d.rpm
    ensures SigEngineTemp in m ==> ApplySignals(d, m).temperatura == TruncToZero(m[SigEngineTemp])
    ensures SigEngineTemp !in m ==> ApplySignals(d, m).temperatura == d.temperatura
    ensures SigTPS in m ==> ApplySignals(d, m).tps == TruncToZero(m[SigTPS])
    ensures SigTPS !in m ==> ApplySignals(d, m).tps == d.tps
    ensures SigLambda in m ==> ApplySignals(d, m).lambda == m[SigLambda]
    ensures SigLambda !in m ==> ApplySignals(d, m).lambda == d.lambda
    ensures SigSteeringAngle in m ==> ApplySignals(d, m).steeringAngle == m[SigSteeringAngle]
    ensures SigSteeringAngle !in m ==> ApplySignals(d, m).steeringAngle == d.steeringAngle
    ensures SigBrakePressure in m ==> ApplySignals(d, m).brakePressure == TruncToZero(m[SigBrakePressure])
    ensures SigBrakePressure !in m ==> ApplySignals(d, m).brakePressure == d.brakePressure
    ensures SigAccelX in m ==> ApplySignals(d, m).accelX == m[SigAccelX]
    ensures SigAccelX !in m ==> ApplySignals(d, m).accelX == d.accelX
    ensures SigAccelY in m ==> ApplySignals(d, m).accelY == m[SigAccelY]
    ensures SigAccelY !in m ==> ApplySignals(d, m).accelY == d.accelY
    ensures SigWheelFL in m ==> ApplySignals(d, m).wheelFL == TruncToZero(m[SigWheelFL])
    ensures SigWheelFL !in m ==> ApplySignals(d, m).wheelFL == d.wheelFL
    ensures SigWheelFR in m ==> ApplySignals(d, m).wheelFR == TruncToZero(m[SigWheelFR])
    ensures SigWheelFR !in m ==> ApplySignals(d, m).wheelFR == d.wheelFR
    ensures SigWheelRL in m ==> ApplySignals(d, m).wheelRL == TruncToZero(m[SigWheelRL])
    ensures SigWheelRL !in m ==> ApplySignals(d, m).wheelRL == d.wheelRL
    ensures SigWheelRR in m ==> ApplySignals(d, m).wheelRR == TruncToZero(m[SigWheelRR])
    ensures SigWheelRR !in m ==> ApplySignals(d, m).wheelRR == d.wheelRR
    ensures SigSuspFL in m ==> ApplySignals(d, m).suspFL == TruncToZero(m[SigSuspFL])
    ensures SigSuspFL !in m ==> ApplySignals(d, m).suspFL == d.suspFL
    ensures SigSuspFR in m ==> ApplySignals(d, m).suspFR == TruncToZero(m[SigSuspFR])
    ensures SigSuspFR !in m ==> ApplySignals(d, m).suspFR == d.suspFR
    ensures SigSuspRL in m ==> ApplySignals(d, m).suspRL == TruncToZero(m[SigSuspRL])
    ensures SigSuspRL !in m ==> ApplySignals(d, m).suspRL == d.suspRL
    ensures SigSuspRR in m ==> ApplySignals(d, m).suspRR == TruncToZero(m[SigSuspRR])
    ensures SigSuspRR !in m ==> ApplySignals(d, m).suspRR == d.suspRR
  {
  }

  /** A timestamp that always fits the wire's uint32 field: milliseconds since
      `bootMs`, wrapping at 2^32, as the receiver's struct documents it. */
  function WireTimestamp(nowMs: int, bootMs: int): (t: int)
    ensures Fits(U32, t)
    ensures 0 <= nowMs - bootMs < 0x1_0000_0000 ==> t == nowMs - bootMs
  {
    assert Pow256(4) == 0x1_0000_0000;
    (nowMs - bootMs) % 0x1_0000_0000
  }

  /** An epoch-millisecond clock reading of today's magnitude does not fit. */
  lemma EpochMillisecondsOverflow()
    ensures !Fits(U32, 1_700_000_000_000)
  {
    assert Pow256(4) == 0x1_0000_0000;
  }

  /** With the wire timestamp, a record whose other channels fit is encodable
      whatever the clock reads. */
  lemma WireTimestampEncodes(d: TelemetryData, nowMs: int, bootMs: int)
    requires forall i | 0 <= i < 16 :: Fits(DocumentedLayout[i], FieldValues(d)[i])
    ensures Encodable(d.(timestamp := WireTimestamp(nowMs, bootMs)))
  {
    var t := WireTimestamp(nowMs, bootMs);
    DocumentedLayoutSize();
    assert FieldValues(d.(timestamp := t)) == FieldValues(d)[16 := t];
    assert DocumentedLayout[16] == U32;
  }

  class CANReceiver {
    /** The current record, written by the reception thread. */
    var data: TelemetryData
    var messagesReceived: nat

    constructor()
      ensures data == Zero && messagesReceived == 0
    {
      data := Zero;
      messagesReceived := 0;
    }

    /** `process_message`: a frame that decodes updates the named channels and
        is counted; one that does not decode changes nothing. */
    method ProcessMessage(decoded: Option<map<string, real>>)
      modifies this
      ensures decoded.None? ==> data == old(data) && messagesReceived == old(messagesReceived)
      ensures decoded.Some? ==> data == ApplySignals(old(data), decoded.value)
      ensures decoded.Some? ==> messagesReceived == old(messagesReceived) + 1
    {
      match decoded {
        case None =>
        case Some(m) =>
          data := ApplySignals(data, m);
          messagesReceived := messagesReceived + 1;
      }
    }

    /** `get_current_data`: a copy of the current record stamped with the clock
        in milliseconds. */
    method GetCurrentData(clockMs: int) returns (snapshot: TelemetryData)
      ensures snapshot == data.(timestamp := clockMs)
    {
      snapshot := data.(timestamp := clockMs);
    }
  }
}
