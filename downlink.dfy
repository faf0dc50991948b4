/** The sender's main loop (`TelemetrySystem.main_loop`, central.py): every tick
    builds an outgoing record whose high tier is the current snapshot and whose
    medium and low tiers are either refreshed from the snapshot (when due) or held
    from a cache of what was last sent, hands it to the transmitter and advances
    the scheduler. Snapshots arrive as a parameter; the clock, the sleep that
    keeps the rate and the periodic statistics are outside the model. */
module Downlink {
  import opened WireFormat
  import opened Telemetry
  import opened Codec
  import opened Scheduler
  import opened Transmitter

  /** `d` with the channels of one slow tier replaced by `v`. */
  function WithTier(d: TelemetryData, v: TierValues): TelemetryData {
    match v
    case MediumValues(tps, lambda, fl, fr, rl, rr) =>
      d.(tps := tps, lambda := lambda, wheelFL := fl, wheelFR := fr, wheelRL := rl, wheelRR := rr)
    case LowValues(temperatura) => d.(temperatura := temperatura)
  }

  /** Replacing one tier sets that tier and leaves the other tier and the high
      part alone. */
  lemma WithTierSets(d: TelemetryData, e: TelemetryData, t: Tier)
    ensures TierOf(WithTier(d, TierOf(e, t)), t) == TierOf(e, t)
    ensures forall u: Tier | u != t :: TierOf(WithTier(d, TierOf(e, t)), u) == TierOf(d, u)
    ensures HighOf(WithTier(d, TierOf(e, t))) == HighOf(d)
  {
  }

  /** The outgoing record of one tick and the cache after it. */
  datatype Merged = Merged(packet: TelemetryData, cache: TelemetryData)

  /** The body of one tick: refresh each slow tier from `current` when due
      (record and cache), otherwise copy it from the cache into the record. */
  function Merge(current: TelemetryData, cache: TelemetryData, mediumDue: bool, lowDue: bool): Merged {
    var afterMedium :=
      if mediumDue then Merged(current, WithTier(cache, TierOf(current, Medium)))
      else Merged(WithTier(current, TierOf(cache, Medium)), cache);
    if lowDue then Merged(afterMedium.packet, WithTier(afterMedium.cache, TierOf(current, Low)))
    else Merged(WithTier(afterMedium.packet, TierOf(afterMedium.cache, Low)), afterMedium.cache)
  }

  /** The body of one tick, statement by statement: start from the snapshot,
      then for each slow tier either refresh the cache or copy the cached tier
      into the record. */
  method BuildPacket(current: TelemetryData, cache: TelemetryData, mediumDue: bool, lowDue: bool)
    returns (packet: TelemetryData, newCache: TelemetryData)
    ensures Merged(packet, newCache) == Merge(current, cache, mediumDue, lowDue)
  {
    packet, newCache := current, cache;
    if mediumDue {
      newCache := WithTier(newCache, TierOf(current, Medium));
    } else {
      packet := WithTier(packet, TierOf(newCache, Medium));
    }
    if lowDue {
      newCache := WithTier(newCache, TierOf(current, Low));
    } else {
      packet := WithTier(packet, TierOf(newCache, Low));
    }
  }

  /** What a tick sends and caches, tier by tier: the high part is always fresh;
      a due tier is taken from the snapshot, a tier not due from the cache; and
      afterwards the cache holds exactly the slow tiers just sent. */
  lemma MergeTiers(current: TelemetryData, cache: TelemetryData, mediumDue: bool, lowDue: bool)
    ensures var r := Merge(current, cache, mediumDue, lowDue);
      && HighOf(r.packet) == HighOf(current)
      && TierOf(r.packet, Medium) == (if mediumDue then TierOf(current, Medium) else TierOf(cache, Medium))
      && TierOf(r.packet, Low) == (if lowDue then TierOf(current, Low) else TierOf(cache, Low))
      && TierOf(r.cache, Medium) == TierOf(r.packet, Medium)
      && TierOf(r.cache, Low) == TierOf(r.packet, Low)
      && HighOf(r.cache) == HighOf(cache)
  {
  }

  /** The loop's state: the scheduler's counter, the cache and the records sent
      so far. */
  datatype LoopState = LoopState(cycle: int, cache: TelemetryData, packets: seq<TelemetryData>)

  /** Before the first tick: counter zero, cache all zero, nothing sent. */
  const Initial := LoopState(0, Zero, [])

  /** One tick with the given intervals. */
  function Step(s: LoopState, current: TelemetryData, medium: int, low: int): LoopState
    requires medium > 0 && low > 0
  {
    var r := Merge(current, s.cache, Due(s.cycle, medium), Due(s.cycle, low));
    LoopState(NextCycle(s.cycle, low), r.cache, s.packets + [r.packet])
  }

  /** The state after one tick per snapshot. */
  function Run(s0: LoopState, snaps: seq<TelemetryData>, medium: int, low: int): LoopState
    requires medium > 0 && low > 0
  {
    if snaps == [] then s0
    else Step(Run(s0, snaps[..|snaps| - 1], medium, low), snaps[|snaps| - 1], medium, low)
  }

  /** The tick whose snapshot supplied the medium tier sent at tick `t`. */
  function LastMediumRefresh(t: nat, medium: int, low: int): nat
    requires medium > 0 && low > 0
  {
    var c := t % low;
    assert c % medium <= c <= t;
    t - c % medium
  }

  /** The tick whose snapshot supplied the low tier sent at tick `t`. */
  function LastLowRefresh(t: nat, low: int): nat
    requires low > 0
  {
    t - t % low
  }

  /** When a tier is not due at tick `t`, its last refresh is the same as at
      tick `t - 1`. */
  lemma RefreshCarries(t: nat, medium: int, low: int)
    requires medium > 0 && low > 0 && t > 0
    ensures (t % low) % medium != 0 ==> LastMediumRefresh(t, medium, low) == LastMediumRefresh(t - 1, medium, low)
    ensures t % low != 0 ==> LastLowRefresh(t, low) == LastLowRefresh(t - 1, low)
  {
    ModSucc(t - 1, low);
    if t % low != 0 {
      var c := t % low;
      assert (t - 1) % low == c - 1;
      ModSucc(c - 1, medium);
    }
  }

  /** The record sent at tick `t` carries tick `t`'s high part and each slow
      tier from that tier's last refresh. */
  predicate PacketHolds(packets: seq<TelemetryData>, snaps: seq<TelemetryData>, t: nat, medium: int, low: int)
    requires medium > 0 && low > 0 && t < |packets| && t < |snaps|
  {
    && HighOf(packets[t]) == HighOf(snaps[t])
    && TierOf(packets[t], Medium) == TierOf(snaps[LastMediumRefresh(t, medium, low)], Medium)
    && TierOf(packets[t], Low) == TierOf(snaps[LastLowRefresh(t, low)], Low)
  }

  /** After at least one tick the cache holds the tiers of their last refresh. */
  predicate CacheHolds(cache: TelemetryData, snaps: seq<TelemetryData>, medium: int, low: int)
    requires medium > 0 && low > 0 && |snaps| > 0
  {
    && TierOf(cache, Medium) == TierOf(snaps[LastMediumRefresh(|snaps| - 1, medium, low)], Medium)
    && TierOf(cache, Low) == TierOf(snaps[LastLowRefresh(|snaps| - 1, low)], Low)
  }

  /** The loop invariant of the sender after the ticks of `snaps`. */
  predicate Holds(s: LoopState, snaps: seq<TelemetryData>, medium: int, low: int)
    requires medium > 0 && low > 0
  {
    && |s.packets| == |snaps|
    && s.cycle == |snaps| % low
    && (forall t: nat | t < |snaps| :: PacketHolds(s.packets, snaps, t, medium, low))
    && (|snaps| > 0 ==> CacheHolds(s.cache, snaps, medium, low))
  }

  lemma PacketHoldsExtend(packets: seq<TelemetryData>, snaps: seq<TelemetryData>, t: nat,
                          packet: TelemetryData, x: TelemetryData, medium: int, low: int)
    requires medium > 0 && low > 0 && t < |packets| && t < |snaps|
    requires PacketHolds(packets, snaps, t, medium, low)
    ensures PacketHolds(packets + [packet], snaps + [x], t, medium, low)
  {
    var snaps' := snaps + [x];
    assert snaps'[t] == snaps[t];
    assert snaps'[LastMediumRefresh(t, medium, low)] == snaps[LastMediumRefresh(t, medium, low)];
    assert snaps'[LastLowRefresh(t, low)] == snaps[LastLowRefresh(t, low)];
  }

  /** The medium tier of the tick after `snaps`, in the record and in the cache,
      is that of its last refresh. */
  lemma NewMediumHolds(s: LoopState, snaps: seq<TelemetryData>, x: TelemetryData, medium: int, low: int)
    requires medium > 0 && low > 0 && s.cycle == |snaps| % low
    requires |snaps| > 0 ==> CacheHolds(s.cache, snaps, medium, low)
    ensures var r := Merge(x, s.cache, Due(s.cycle, medium), Due(s.cycle, low));
      var source := (snaps + [x])[LastMediumRefresh(|snaps|, medium, low)];
      TierOf(r.packet, Medium) == TierOf(source, Medium) && TierOf(r.cache, Medium) == TierOf(source, Medium)
  {
    var n := |snaps|;
    var c := s.cycle;
    MergeTiers(x, s.cache, Due(c, medium), Due(c, low));
    if n == 0 {
      assert c == 0 && LastMediumRefresh(n, medium, low) == 0;
    }
    if Due(c, medium) {
      assert LastMediumRefresh(n, medium, low) == n;
      assert (snaps + [x])[n] == x;
    } else {
      assert n > 0;
      RefreshCarries(n, medium, low);
      assert (snaps + [x])[LastMediumRefresh(n - 1, medium, low)] == snaps[LastMediumRefresh(n - 1, medium, low)];
    }
  }

  /** The low tier of the tick after `snaps`, in the record and in the cache, is
      that of its last refresh. */
  lemma NewLowHolds(s: LoopState, snaps: seq<TelemetryData>, x: TelemetryData, medium: int, low: int)
    requires medium > 0 && low > 0 && s.cycle == |snaps| % low
    requires |snaps| > 0 ==> CacheHolds(s.cache, snaps, medium, low)
    ensures var r := Merge(x, s.cache, Due(s.cycle, medium), Due(s.cycle, low));
      var source := (snaps + [x])[LastLowRefresh(|snaps|, low)];
      TierOf(r.packet, Low) == TierOf(source, Low) && TierOf(r.cache, Low) == TierOf(source, Low)
  {
    var n := |snaps|;
    var c := s.cycle;
    MergeTiers(x, s.cache, Due(c, medium), Due(c, low));
    ModUnique(c, low, 0, c);
    if n == 0 {
      assert c == 0 && LastLowRefresh(n, low) == 0;
    }
    if Due(c, low) {
      assert LastLowRefresh(n, low) == n;
      assert (snaps + [x])[n] == x;
    } else {
      assert n > 0;
      RefreshCarries(n, medium, low);
      assert (snaps + [x])[LastLowRefresh(n - 1, low)] == snaps[LastLowRefresh(n - 1, low)];
    }
  }

  /** The tick after `snaps` sends the new snapshot's high part and each slow
      tier from its last refresh, and leaves the cache holding those tiers. */
  lemma NewPacketHolds(s: LoopState, snaps: seq<TelemetryData>, x: TelemetryData, medium: int, low: int)
    requires medium > 0 && low > 0 && Holds(s, snaps, medium, low)
    ensures var s' := Step(s, x, medium, low);
      && PacketHolds(s'.packets, snaps + [x], |snaps|, medium, low)
      && CacheHolds(s'.cache, snaps + [x], medium, low)
  {
    var r := Merge(x, s.cache, Due(s.cycle, medium), Due(s.cycle, low));
    MergeTiers(x, s.cache, Due(s.cycle, medium), Due(s.cycle, low));
    NewMediumHolds(s, snaps, x, medium, low);
    NewLowHolds(s, snaps, x, medium, low);
    var s' := Step(s, x, medium, low);
    assert s'.packets[|snaps|] == r.packet && s'.cache == r.cache;
    assert (snaps + [x])[|snaps|] == x;
  }

  /** One tick preserves the loop invariant. */
  lemma HoldsStep(s: LoopState, snaps: seq<TelemetryData>, x: TelemetryData, medium: int, low: int)
    requires medium > 0 && low > 0 && Holds(s, snaps, medium, low)
    ensures Holds(Step(s, x, medium, low), snaps + [x], medium, low)
  {
    var s' := Step(s, x, medium, low);
    var r := Merge(x, s.cache, Due(s.cycle, medium), Due(s.cycle, low));
    assert s'.packets == s.packets + [r.packet];
    ModSucc(|snaps|, low);
    NewPacketHolds(s, snaps, x, medium, low);
    forall t: nat | t < |snaps| + 1
      ensures PacketHolds(s'.packets, snaps + [x], t, medium, low)
    {
      if t < |snaps| {
        PacketHoldsExtend(s.packets, snaps, t, r.packet, x, medium, low);
      }
    }
  }

  /** The sender holds each slow tier at its last refresh: the record sent at tick
      `t` carries tick `t`'s high part, the medium tier of the last tick whose
      counter was a multiple of the medium interval, and the low tier of the last
      tick whose counter was zero; the cache holds the same tiers. */
  lemma {:induction false} HoldLastValue(snaps: seq<TelemetryData>, medium: int, low: int)
    requires medium > 0 && low > 0
    ensures Holds(Run(Initial, snaps, medium, low), snaps, medium, low)
  {
    if snaps != [] {
      var n := |snaps| - 1;
      HoldLastValue(snaps[..n], medium, low);
      HoldsStep(Run(Initial, snaps[..n], medium, low), snaps[..n], snaps[n], medium, low);
      assert snaps[..n] + [snaps[n]] == snaps;
    }
  }

  /** With the configured rates: the record of tick `t` carries the medium tier
      of tick `t - t % 5` and the low tier of tick `t - t % 50`. */
  lemma ConfiguredHold(snaps: seq<TelemetryData>, t: nat)
    requires t < |snaps|
    ensures var s := Run(Initial, snaps, MediumInterval, LowInterval);
      && |s.packets| == |snaps|
      && HighOf(s.packets[t]) == HighOf(snaps[t])
      && TierOf(s.packets[t], Medium) == TierOf(snaps[t - t % 5], Medium)
      && TierOf(s.packets[t], Low) == TierOf(snaps[t - t % 50], Low)
  {
    FiringSchedule(t);
    HoldLastValue(snaps, 5, 50);
    assert PacketHolds(Run(Initial, snaps, 5, 50).packets, snaps, t, 5, 50);
    ModOfMod(t, 50, 5);
  }

  class TelemetrySystem {
    const downsampler: DownsamplingManager
    const transmitter: LoRaTransmitter
    var cachedData: TelemetryData
    /** The records built so far, one per tick. */
    ghost var packets: seq<TelemetryData>

    ghost predicate Valid()
      reads this, downsampler, transmitter
    {
      downsampler.Valid() && transmitter.Valid()
    }

    /** The loop state this object is in. */
    ghost function State(): LoopState
      reads this, downsampler
    {
      LoopState(downsampler.cycleCount, cachedData, packets)
    }

    constructor(layout: seq<Code>, useMarkers: bool)
      ensures Valid() && State() == Initial
      ensures transmitter.layout == layout && transmitter.written == []
      ensures fresh(downsampler) && fresh(transmitter)
    {
      downsampler := new DownsamplingManager();
      transmitter := new LoRaTransmitter(layout, useMarkers);
      cachedData := Zero;
      packets := [];
    }

    /** One iteration of `main_loop`: build the record, send it (`writeOk` says
        whether the serial write succeeds), advance the cycle. */
    method Tick(current: TelemetryData, writeOk: bool)
      requires Valid()
      modifies this, downsampler, transmitter
      ensures Valid()
      ensures State() == Step(old(State()), current, MediumInterval, LowInterval)
      ensures transmitter.isOpen == old(transmitter.isOpen)
      ensures var sent := packets[|packets| - 1];
              transmitter.sentRecords == old(transmitter.sentRecords) +
                (if old(transmitter.isOpen) && writeOk && PackTelemetry(transmitter.layout, sent) != [] then [sent] else [])
    {
      var mediumDue, lowDue := downsampler.ShouldSendMedium(), downsampler.ShouldSendLow();
      var packet;
      packet, cachedData := BuildPacket(current, cachedData, mediumDue, lowDue);
      var _ := transmitter.SendPacket(packet, writeOk);
      packets := packets + [packet];
      downsampler.IncrementCycle();
    }

    /** `main_loop` over the snapshots taken on successive ticks. */
    method MainLoop(snaps: seq<TelemetryData>, writes: seq<bool>)
      requires Valid() && |writes| == |snaps|
      modifies this, downsampler, transmitter
      ensures Valid()
      ensures State() == Run(old(State()), snaps, MediumInterval, LowInterval)
    {
      var i := 0;
      while i < |snaps|
        invariant 0 <= i <= |snaps|
        invariant Valid()
        invariant State() == Run(old(State()), snaps[..i], MediumInterval, LowInterval)
      {
        Tick(snaps[i], writes[i]);
        assert snaps[..i + 1][..i] == snaps[..i];
        i := i + 1;
      }
      assert snaps[..i] == snaps;
    }
  }
}
