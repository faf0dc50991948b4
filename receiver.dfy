/** The ground-station receiver (`LoRaReceiver`, core/lora_receiver.py): port
    selection, the connect/start/stop guards, the reception loop's bookkeeping and
    the statistics it reports. Serial reads arrive as parameters (what each
    `read(PACKET_SIZE)` returned), as do arrival times and the clock; the thread
    and its lock are outside the model. */
module Receiver {
  import opened Wrappers
  import opened Text
  import opened WireFormat
  import opened Codec
  import opened Framing

  // ---------------------------------------------------------------------------
  // Port selection

  datatype PortInfo = PortInfo(device: string, description: string)

  /** Words that mark a USB serial adapter. */
  const Keywords: seq<string> := ["CH340", "FTDI", "CP210", "USB", "Serial"]

  /** The port's upper-cased description contains an upper-cased keyword. */
  predicate LooksLikeAdapter(p: PortInfo) {
    exists k | 0 <= k < |Keywords| :: Contains(Upper(p.description), Upper(Keywords[k]))
  }

  /** `auto_detect_port`: the first port that looks like a USB serial adapter,
      else the first port, else nothing. */
  method AutoDetectPort(ports: seq<PortInfo>) returns (r: Option<string>)
    ensures r.None? <==> ports == []
    ensures (exists i | 0 <= i < |ports| :: LooksLikeAdapter(ports[i])) ==>
              exists i | 0 <= i < |ports| ::
                && LooksLikeAdapter(ports[i]) && r == Some(ports[i].device)
                && forall j | 0 <= j < i :: !LooksLikeAdapter(ports[j])
    ensures (forall i | 0 <= i < |ports| :: !LooksLikeAdapter(ports[i])) && ports != [] ==>
              r == Some(ports[0].device)
  {
    for i := 0 to |ports|
      invariant forall j | 0 <= j < i :: !LooksLikeAdapter(ports[j])
    {
      if LooksLikeAdapter(ports[i]) {
        return Some(ports[i].device);
      }
    }
    if ports != [] {
      return Some(ports[0].device);
    }
    return None;
  }

  /** The description check ignores case on both sides. */
  lemma AdapterMatchIgnoresCase(device: string, description: string)
    ensures LooksLikeAdapter(PortInfo(device, description)) == LooksLikeAdapter(PortInfo(device, Upper(description)))
  {
    assert Upper(Upper(description)) == Upper(description);
  }

  /** A port described as a CH340 adapter is picked, in whatever case. */
  lemma Ch340Matches(device: string)
    ensures LooksLikeAdapter(PortInfo(device, "usb-serial ch340"))
  {
    var u := Upper("usb-serial ch340");
    assert u == "USB-SERIAL CH340";
    assert OccursAt(u, Upper(Keywords[0]), 11) by {
      assert Upper(Keywords[0]) == "CH340";
      assert u[11..16] == "CH340";
    }
  }

  // ---------------------------------------------------------------------------
  // Statistics

  /** `rx_times` holds at most this many arrival times. */
  const RxWindow := 50

  /** The newest `RxWindow` elements of `s`. */
  function Newest(s: seq<real>): (r: seq<real>)
    ensures |r| <= RxWindow && |r| == if |s| <= RxWindow then |s| else RxWindow
  {
    if |s| <= RxWindow then s else s[|s| - RxWindow..]
  }

  /** `deque(maxlen=50).append`: when full, the oldest time is dropped. */
  function PushTime(times: seq<real>, t: real): (r: seq<real>)
    requires |times| <= RxWindow
    ensures |r| <= RxWindow
  {
    if |times| == RxWindow then times[1..] + [t] else times + [t]
  }

  /** Pushing onto the window of a history gives the window of the longer
      history: `rx_times` is always the newest 50 arrivals. */
  lemma PushKeepsNewest(history: seq<real>, t: real)
    ensures PushTime(Newest(history), t) == Newest(history + [t])
  {
    if |history| >= RxWindow {
      var h := history + [t];
      assert Newest(history)[1..] + [t] == h[|h| - RxWindow..];
    }
  }

  /** The success ratio in percent; the denominator is at least one. */
  function SuccessRate(received: nat, errors: nat): (r: real)
    ensures 0.0 <= r <= 100.0
  {
    var total := if received + errors > 1 then received + errors else 1;
    received as real / total as real * 100.0
  }

  /** The rate is 0 before anything arrives (not 100), and it is 100 exactly
      when at least one packet arrived and none failed. */
  lemma SuccessRateCases(received: nat, errors: nat)
    ensures received + errors == 0 ==> SuccessRate(received, errors) == 0.0
    ensures SuccessRate(received, errors) == 100.0 <==> received > 0 && errors == 0
  {
    var total := if received + errors > 1 then received + errors else 1;
    if SuccessRate(received, errors) == 100.0 {
      assert received as real / total as real == 1.0;
      assert received as real == total as real;
    }
  }

  /** The arrival rate in Hz over the window: the number of intervals over the
      span, or 0 with fewer than two arrivals or a span that is not positive. */
  function CurrentHz(times: seq<real>): (hz: real)
    ensures hz >= 0.0
  {
    if |times| >= 2 && times[|times| - 1] - times[0] > 0.0
    then (|times| - 1) as real / (times[|times| - 1] - times[0])
    else 0.0
  }

  /** Arrivals evenly spaced `period` seconds apart give `1 / period` Hz. */
  lemma EvenArrivalsHz(times: seq<real>, t0: real, period: real)
    requires |times| >= 2 && period > 0.0
    requires forall i | 0 <= i < |times| :: times[i] == t0 + i as real * period
    ensures CurrentHz(times) == 1.0 / period
  {
    var n := (|times| - 1) as real;
    assert times[|times| - 1] - times[0] == n * period;
    assert n / (n * period) == 1.0 / period;
  }

  datatype Statistics = Statistics(
    packetsReceived: nat, packetsErrors: nat, successRate: real, uptimeSeconds: real, currentHz: real)

  // ---------------------------------------------------------------------------
  // The reception loop's bookkeeping

  /** What the reception thread publishes and counts. */
  datatype RxState = RxState(latest: map<string, real>, received: nat, errors: nat, rxTimes: seq<real>)

  /** One iteration of `reception_loop` after `read_packet` returned `raw` at
      time `arrival`: a decoded packet replaces the published data, is counted and
      timed; a packet that does not decode is counted as an error; no packet
      changes nothing. */
  function Receive(st: RxState, layout: seq<Code>, packetSize: nat, raw: Option<seq<byte>>, arrival: real): RxState
    requires |layout| >= 17 && |st.rxTimes| <= RxWindow
  {
    if raw.None? || raw.value == [] then st
    else match UnpackPacket(layout, packetSize, raw.value)
      case Some(data) => RxState(data, st.received + 1, st.errors, PushTime(st.rxTimes, arrival))
      case None => st.(errors := st.errors + 1)
  }

  /** Each packet read is counted exactly once, as received or as an error, and
      only a received one replaces the published data. */
  lemma ReceiveCounts(st: RxState, layout: seq<Code>, packetSize: nat, raw: Option<seq<byte>>, arrival: real)
    requires |layout| >= 17 && |st.rxTimes| <= RxWindow
    ensures var st' := Receive(st, layout, packetSize, raw, arrival);
      && st'.received + st'.errors == st.received + st.errors + (if raw.Some? && raw.value != [] then 1 else 0)
      && (st'.latest != st.latest ==> st'.received == st.received + 1)
      && |st'.rxTimes| <= RxWindow
  {
  }

  /** What `read_packet` returns for each of a series of raw serial reads. */
  function ReadAll(isOpen: bool, size: nat, chunks: seq<seq<byte>>): (r: seq<Option<seq<byte>>>)
    requires forall i | 0 <= i < |chunks| :: |chunks[i]| <= size
    ensures |r| == |chunks|
    ensures forall i | 0 <= i < |chunks| :: r[i] == ReadPacket(isOpen, size, chunks[i])
  {
    seq(|chunks|, i requires 0 <= i < |chunks| => ReadPacket(isOpen, size, chunks[i]))
  }

  /** The state after the loop has run once per read. */
  function ReceiveAll(st: RxState, layout: seq<Code>, packetSize: nat, results: seq<Option<seq<byte>>>, times: seq<real>): (r: RxState)
    requires |layout| >= 17 && |st.rxTimes| <= RxWindow && |times| == |results|
    ensures |r.rxTimes| <= RxWindow
  {
    if results == [] then st
    else
      var n := |results| - 1;
      Receive(ReceiveAll(st, layout, packetSize, results[..n], times[..n]), layout, packetSize, results[n], times[n])
  }

  /** With the receiver as written (the 18-code layout and 36-byte reads), a
      packet that `read_packet` delivers always decodes, so the error counter
      never moves whatever bytes are on the line. */
  lemma {:induction false} AsWrittenNeverErrs(st: RxState, chunks: seq<seq<byte>>, times: seq<real>)
    requires |st.rxTimes| <= RxWindow && |times| == |chunks|
    requires forall i | 0 <= i < |chunks| :: |chunks[i]| <= PacketSize
    ensures ReceiveAll(st, LiteralLayout, PacketSize, ReadAll(true, PacketSize, chunks), times).errors == st.errors
  {
    LiteralFormatCodes();
    var results := ReadAll(true, PacketSize, chunks);
    if chunks != [] {
      var n := |chunks| - 1;
      AsWrittenNeverErrs(st, chunks[..n], times[..n]);
      var prefix := ReadAll(true, PacketSize, chunks[..n]);
      assert results[..n] == prefix;
      var before := ReceiveAll(st, LiteralLayout, PacketSize, prefix, times[..n]);
      if results[n].Some? && results[n].value != [] {
        LiteralAcceptsExactlyPacketSize(results[n].value);
      }
    }
  }

  class LoRaReceiver {
    const layout: seq<Code>
    const packetSize: nat
    var port: Option<string>
    var isOpen: bool
    var running: bool
    var latestData: map<string, real>
    var packetsReceived: nat
    var packetsErrors: nat
    var rxTimes: seq<real>
    var startTime: real

    ghost predicate Valid()
      reads this
    {
      |layout| >= 17 && |rxTimes| <= RxWindow
    }

    /** The bookkeeping part of the state. */
    ghost function Rx(): RxState
      reads this
    {
      RxState(latestData, packetsReceived, packetsErrors, rxTimes)
    }

    constructor(layout: seq<Code>, packetSize: nat, port: Option<string>, now: real)
      requires |layout| >= 17
      ensures Valid() && this.layout == layout && this.packetSize == packetSize && this.port == port
      ensures !isOpen && !running && startTime == now
      ensures Rx() == RxState(map[], 0, 0, [])
    {
      this.layout := layout;
      this.packetSize := packetSize;
      this.port := port;
      isOpen := false;
      running := false;
      latestData := map[];
      packetsReceived := 0;
      packetsErrors := 0;
      rxTimes := [];
      startTime := now;
    }

    /** `connect`: already open succeeds at once; otherwise a missing or empty
        port name is auto-detected from `available`, no port fails, and
        `openOk` says whether opening the chosen port succeeds. */
    method Connect(available: seq<PortInfo>, openOk: bool) returns (ok: bool)
      requires Valid()
      modifies this
      ensures Valid() && Rx() == old(Rx()) && running == old(running) && startTime == old(startTime)
      ensures old(isOpen) ==> ok && isOpen && port == old(port)
      ensures !old(isOpen) && old(port).Some? && old(port).value != [] ==> port == old(port)
      ensures ok <==> old(isOpen) || (port.Some? && port.value != [] && openOk)
      ensures isOpen == ok
    {
      if isOpen {
        return true;
      }
      if port.None? || port.value == [] {
        port := AutoDetectPort(available);
      }
      if port.None? || port.value == [] {
        return false;
      }
      if openOk {
        isOpen := true;
        return true;
      }
      return false;
    }

    /** `disconnect`. */
    method Disconnect()
      modifies this
      ensures !isOpen && port == old(port) && running == old(running)
      ensures Rx() == old(Rx()) && startTime == old(startTime)
    {
      isOpen := false;
    }

    /** `start`: a receiver already running succeeds without side effects;
        otherwise it connects and, on success, starts running with the clock
        reset. */
    method Start(available: seq<PortInfo>, openOk: bool, now: real) returns (ok: bool)
      requires Valid()
      modifies this
      ensures Valid() && Rx() == old(Rx())
      ensures old(running) ==> ok && isOpen == old(isOpen) && port == old(port) && running && startTime == old(startTime)
      ensures !old(running) ==> (ok <==> old(isOpen) || (port.Some? && port.value != [] && openOk))
      ensures !old(running) && ok ==> running && isOpen && startTime == now
      ensures !old(running) && !ok ==> !running && startTime == old(startTime)
    {
      if running {
        return true;
      }
      ok := Connect(available, openOk);
      if !ok {
        return false;
      }
      running := true;
      startTime := now;
    }

    /** `stop`: nothing happens unless running; then it stops and disconnects. */
    method Stop()
      modifies this
      ensures !old(running) ==> isOpen == old(isOpen) && running == old(running)
      ensures old(running) ==> !running && !isOpen
      ensures Rx() == old(Rx()) && port == old(port) && startTime == old(startTime)
    {
      if !running {
        return;
      }
      running := false;
      Disconnect();
    }

    /** `get_latest_data`: a copy of the published data (empty before the first
        packet). */
    method GetLatestData() returns (d: map<string, real>)
      ensures d == latestData
    {
      d := latestData;
    }

    /** `get_statistics` at clock time `now`. */
    method GetStatistics(now: real) returns (s: Statistics)
      ensures s.packetsReceived == packetsReceived && s.packetsErrors == packetsErrors
      ensures s.successRate == SuccessRate(packetsReceived, packetsErrors)
      ensures s.currentHz == CurrentHz(rxTimes) && s.uptimeSeconds == now - startTime
    {
      var hz := 0.0;
      if |rxTimes| >= 2 {
        var dt := rxTimes[|rxTimes| - 1] - rxTimes[0];
        if dt > 0.0 {
          hz := (|rxTimes| - 1) as real / dt;
        }
      }
      var total := if packetsReceived + packetsErrors > 1 then packetsReceived + packetsErrors else 1;
      s := Statistics(packetsReceived, packetsErrors, packetsReceived as real / total as real * 100.0, now - startTime, hz);
    }

    /** `reception_loop`, one iteration per serial read: `chunks[i]` is what the
        i-th `read(PACKET_SIZE)` returned and `times[i]` the clock after it. */
    method ReceptionLoop(chunks: seq<seq<byte>>, times: seq<real>)
      requires Valid() && |times| == |chunks|
      requires forall i | 0 <= i < |chunks| :: |chunks[i]| <= packetSize
      modifies this
      ensures Valid() && isOpen == old(isOpen) && running == old(running)
      ensures Rx() == ReceiveAll(old(Rx()), layout, packetSize, ReadAll(isOpen, packetSize, chunks), times)
    {
      ghost var results := ReadAll(isOpen, packetSize, chunks);
      var i := 0;
      while i < |chunks|
        invariant 0 <= i <= |chunks|
        invariant Valid() && isOpen == old(isOpen) && running == old(running)
        invariant Rx() == ReceiveAll(old(Rx()), layout, packetSize, results[..i], times[..i])
      {
        ghost var before := Rx();
        var raw := ReadPacket(isOpen, packetSize, chunks[i]);
        if raw.Some? && raw.value != [] {
          var data := UnpackPacket(layout, packetSize, raw.value);
          if data.Some? {
            latestData := data.value;
            packetsReceived := packetsReceived + 1;
            rxTimes := PushTime(rxTimes, times[i]);
          } else {
            packetsErrors := packetsErrors + 1;
          }
        }
        assert results[i] == raw;
        assert Rx() == Receive(before, layout, packetSize, raw, times[i]);
        assert results[..i + 1][..i] == results[..i] && times[..i + 1][..i] == times[..i];
        i := i + 1;
      }
      assert results[..i] == results && times[..i] == times;
    }
  }
}
