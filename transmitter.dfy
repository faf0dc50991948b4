/** The serial transmitter of the on-car sender (`LoRaTransmitter`, central.py):
    packs a record, frames it and writes it, counting packets and bytes. The serial
    port is reduced to whether it is open and whether a write succeeds; the bytes
    written are kept as a field so that the receiver's view of the link can be
    stated. */
module Transmitter {
  import opened WireFormat
  import opened Telemetry
  import opened Codec
  import opened Framing

  /** The payloads of a sequence of records. */
  function Payloads(layout: seq<Code>, records: seq<TelemetryData>): (ps: seq<seq<byte>>)
    ensures |ps| == |records|
  {
    seq(|records|, i requires 0 <= i < |records| => PackTelemetry(layout, records[i]))
  }

  lemma {:induction false} StreamAppend(ps: seq<seq<byte>>, p: seq<byte>, useMarkers: bool)
    ensures Stream(ps + [p], useMarkers) == Stream(ps, useMarkers) + Frame(p, useMarkers)
  {
    if ps == [] {
      assert [p][1..] == [];
      assert ps + [p] == [p];
    } else {
      assert (ps + [p])[1..] == ps[1..] + [p];
      StreamAppend(ps[1..], p, useMarkers);
    }
  }

  /** Every frame of a stream of equal-size payloads has the same length, so the
      stream's length is the frame length times the number of payloads. */
  lemma {:induction false} StreamLength(ps: seq<seq<byte>>, size: nat, useMarkers: bool)
    requires forall i | 0 <= i < |ps| :: |ps[i]| == size
    ensures |Stream(ps, useMarkers)| == |ps| * (size + if useMarkers then 4 else 0)
  {
    if ps != [] {
      StreamLength(ps[1..], size, useMarkers);
    }
  }

  /** End to end, with the documented layout and the marker scanner: scanning the
      stream of any encodable records yields one payload per record, and each
      decodes to its record. */
  lemma LinkRoundTrip(records: seq<TelemetryData>)
    requires forall i | 0 <= i < |records| :: Encodable(records[i])
    ensures var got := ScanAll(Stream(Payloads(DocumentedLayout, records), true), DocumentedPacketSize);
            && |got| == |records|
            && forall i | 0 <= i < |records| ::
                 var m := UnpackPacket(DocumentedLayout, DocumentedPacketSize, got[i]);
                 m.Some? && Recovers(m.value, records[i])
  {
    var ps := Payloads(DocumentedLayout, records);
    forall i | 0 <= i < |records|
      ensures |ps[i]| == DocumentedPacketSize
      ensures var m := UnpackPacket(DocumentedLayout, DocumentedPacketSize, ps[i]);
              m.Some? && Recovers(m.value, records[i])
    {
      RoundTrip(records[i]);
      PackTelemetryShape(DocumentedLayout, records[i]);
      DocumentedLayoutSize();
    }
    ScanAllFrames(ps, DocumentedPacketSize);
  }

  class LoRaTransmitter {
    const layout: seq<Code>
    const useMarkers: bool
    var isOpen: bool
    var packetsSent: nat
    var bytesSent: nat
    /** Every byte handed to the serial port, in order. */
    var written: seq<byte>
    /** The records whose packets were written. */
    ghost var sentRecords: seq<TelemetryData>

    ghost predicate Valid()
      reads this
    {
      && packetsSent == |sentRecords|
      && written == Stream(Payloads(layout, sentRecords), useMarkers)
      && bytesSent == |written|
      && forall i | 0 <= i < |sentRecords| :: PackTelemetry(layout, sentRecords[i]) != []
    }

    constructor(layout: seq<Code>, useMarkers: bool)
      ensures Valid() && this.layout == layout && this.useMarkers == useMarkers
      ensures !isOpen && packetsSent == 0 && bytesSent == 0 && written == []
    {
      this.layout := layout;
      this.useMarkers := useMarkers;
      isOpen := false;
      packetsSent := 0;
      bytesSent := 0;
      written := [];
      sentRecords := [];
    }

    /** `connect`: `portOk` says whether opening the serial port succeeded; on
        failure the previous connection is kept. */
    method Connect(portOk: bool) returns (ok: bool)
      modifies this
      ensures ok == portOk && isOpen == (old(isOpen) || portOk)
      ensures packetsSent == old(packetsSent) && bytesSent == old(bytesSent)
      ensures written == old(written) && sentRecords == old(sentRecords)
    {
      if portOk {
        isOpen := true;
      }
      ok := portOk;
    }

    /** `disconnect`. */
    method Disconnect()
      modifies this
      ensures !isOpen
      ensures packetsSent == old(packetsSent) && bytesSent == old(bytesSent)
      ensures written == old(written) && sentRecords == old(sentRecords)
    {
      isOpen := false;
    }

    /** `send_packet`: refused when the port is closed or packing fails; the
        counters move only after a write that succeeds (`writeOk`), by one packet
        and by the frame's length. */
    method SendPacket(data: TelemetryData, writeOk: bool) returns (ok: bool)
      requires Valid()
      modifies this
      ensures Valid()
      ensures isOpen == old(isOpen)
      ensures ok <==> old(isOpen) && writeOk && PackTelemetry(layout, data) != []
      ensures ok ==> written == old(written) + Frame(PackTelemetry(layout, data), useMarkers)
      ensures ok ==> packetsSent == old(packetsSent) + 1 && sentRecords == old(sentRecords) + [data]
      ensures ok ==> bytesSent == old(bytesSent) + |PackTelemetry(layout, data)| + (if useMarkers then 4 else 0)
      ensures !ok ==> written == old(written) && sentRecords == old(sentRecords)
      ensures !ok ==> packetsSent == old(packetsSent) && bytesSent == old(bytesSent)
    {
      if !isOpen {
        return false;
      }
      var payload := PackTelemetry(layout, data);
      if payload == [] {
        return false;
      }
      var packet := if useMarkers then StartMarker + payload + EndMarker else payload;
      if !writeOk {
        return false;
      }
      StreamAppend(Payloads(layout, sentRecords), payload, useMarkers);
      assert Payloads(layout, sentRecords + [data]) == Payloads(layout, sentRecords) + [payload];
      written := written + packet;
      sentRecords := sentRecords + [data];
      packetsSent := packetsSent + 1;
      bytesSent := bytesSent + |packet|;
      ok := true;
    }

    /** Every packet costs the same number of bytes: the counters stay in a
        fixed ratio. */
    lemma BytesPerPacket()
      requires Valid() && layout != []
      ensures bytesSent == packetsSent * (Size(layout) + if useMarkers then 4 else 0)
    {
      var ps := Payloads(layout, sentRecords);
      forall i | 0 <= i < |ps| ensures |ps[i]| == Size(layout) {
        PackTelemetryShape(layout, sentRecords[i]);
      }
      StreamLength(ps, Size(layout), useMarkers);
    }

    /** With the format string as written nothing is ever sent. */
    lemma AsWrittenSendsNothing()
      requires Valid() && layout == LiteralLayout
      ensures packetsSent == 0 && bytesSent == 0
    {
      if |sentRecords| > 0 {
        LiteralPackAlwaysEmpty(sentRecords[0]);
        assert false;
      }
    }
  }
}
