/** The telemetry record (`TelemetryData` in central.py) and its partition into
    priority tiers. Fractional channels are exact reals standing for the source's
    floats; integer channels are unbounded integers whose wire ranges the codec
    checks. */
module Telemetry {

  datatype TelemetryData = TelemetryData(
    // high tier, refreshed on every tick
    rpm: int,
    steeringAngle: real,
    brakePressure: int,
    accelX: real,
    accelY: real,
    suspFL: int,
    suspFR: int,
    suspRL: int,
    suspRR: int,
    // medium tier
    tps: int,
    lambda: real,
    wheelFL: int,
    wheelFR: int,
    wheelRL: int,
    wheelRR: int,
    // low tier
    temperatura: int,
    // milliseconds, assigned when the snapshot is taken
    timestamp: int)

  /** `TelemetryData()`: every channel zero. */
  const Zero := TelemetryData(0, 0.0, 0, 0.0, 0.0, 0, 0, 0, 0, 0, 0.0, 0, 0, 0, 0, 0, 0)

  /** The tiers that are not sent fresh on every tick. */
  datatype Tier = Medium | Low

  /** The channels of one slow tier. */
  datatype TierValues =
    | MediumValues(tps: int, lambda: real, wheelFL: int, wheelFR: int, wheelRL: int, wheelRR: int)
    | LowValues(temperatura: int)

  /** The channels of the high tier, plus the timestamp that travels with them. */
  datatype HighValues = HighValues(
    rpm: int, steeringAngle: real, brakePressure: int, accelX: real, accelY: real,
    suspFL: int, suspFR: int, suspRL: int, suspRR: int, timestamp: int)

  function TierOf(d: TelemetryData, t: Tier): TierValues {
    match t
    case Medium => MediumValues(d.tps, d.lambda, d.wheelFL, d.wheelFR, d.wheelRL, d.wheelRR)
    case Low => LowValues(d.temperatura)
  }

  function HighOf(d: TelemetryData): HighValues {
    HighValues(d.rpm, d.steeringAngle, d.brakePressure, d.accelX, d.accelY,
               d.suspFL, d.suspFR, d.suspRL, d.suspRR, d.timestamp)
  }

  /** A record is determined by its high part and its two slow tiers. */
  lemma TiersDetermineRecord(a: TelemetryData, b: TelemetryData)
    requires HighOf(a) == HighOf(b) && TierOf(a, Medium) == TierOf(b, Medium) && TierOf(a, Low) == TierOf(b, Low)
    ensures a == b
  {
  }
}
