/** Packet framing on the serial link: the sender's `AA 55 ‖ payload ‖ 55 AA`
    frames (`send_packet`, central.py), the receiver's fixed-size raw read
    (`read_packet`, core/lora_receiver.py), and the marker scanner the receiver was
    designed to use instead. */
module Framing {
  import opened Wrappers
  import opened WireFormat

  const StartMarker: seq<byte> := [0xAA, 0x55]
  const EndMarker: seq<byte> := [0x55, 0xAA]

  /** `USE_PACKET_MARKERS` on the sender. */
  const UsePacketMarkers := true

  /** The bytes `send_packet` writes for one payload. */
  function Frame(payload: seq<byte>, useMarkers: bool): (f: seq<byte>)
    ensures |f| == |payload| + (if useMarkers then 4 else 0)
  {
    if useMarkers then StartMarker + payload + EndMarker else payload
  }

  /** The stream a sender produces for a sequence of payloads. */
  function Stream(payloads: seq<seq<byte>>, useMarkers: bool): seq<byte>
  {
    if payloads == [] then [] else Frame(payloads[0], useMarkers) + Stream(payloads[1..], useMarkers)
  }

  // ---------------------------------------------------------------------------
  // The receiver's read, as written

  /** `read_packet`: with the port closed nothing is read; otherwise `chunk` is
      what `serial.read(size)` returned before its timeout, and only a full chunk
      is a packet. */
  function ReadPacket(isOpen: bool, size: nat, chunk: seq<byte>): (r: Option<seq<byte>>)
    requires |chunk| <= size
    ensures r.Some? <==> isOpen && |chunk| == size
    ensures r.Some? ==> r.value == chunk
  {
    if !isOpen then None
    else if |chunk| == size then Some(chunk)
    else None
  }

  /** The `k`-th full chunk a raw reader takes from a stream it started reading at
      offset 0. */
  function RawChunk(stream: seq<byte>, size: nat, k: nat): seq<byte>
    requires (k + 1) * size <= |stream|
  {
    stream[k * size..(k + 1) * size]
  }

  /** A raw reader on a framed stream: its first chunk is the start marker
      followed by the payload cut two bytes short, so the 16-bit value at its head
      is 0x55AA (21930) whatever was sent. */
  lemma RawReadSeesMarker(payload: seq<byte>, rest: seq<byte>, size: nat)
    requires size >= 2 && |payload| + 2 >= size
    ensures var stream := Frame(payload, true) + rest;
            && size <= |stream|
            && RawChunk(stream, size, 0) == StartMarker + payload[..size - 2]
            && DecodeField(U16, RawChunk(stream, size, 0)[..2]) == 0x55AA
  {
    var stream := Frame(payload, true) + rest;
    assert RawChunk(stream, size, 0) == StartMarker + payload[..size - 2];
    assert RawChunk(stream, size, 0)[..2] == [0xAA, 0x55];
    assert UnLE([0x55]) == 0x55 by { assert [0x55 as byte][1..] == []; }
    assert UnLE([0xAA, 0x55]) == 0xAA + 256 * 0x55 by { assert [0xAA as byte, 0x55][1..] == [0x55]; }
  }

  // ---------------------------------------------------------------------------
  // The marker scanner (intended design, not active in the receiver)

  /** Scans for `AA 55`, takes `size` payload bytes and accepts them when `55 AA`
      follows; on a bad second marker byte or a bad end marker it resumes after
      the bytes it consumed. Returns the payload and the unread rest. */
  function Scan(s: seq<byte>, size: nat): (r: Option<(seq<byte>, seq<byte>)>)
    ensures r.Some? ==> |r.value.0| == size && size + 4 + |r.value.1| <= |s|
    decreases |s|
  {
    if |s| == 0 then None
    else if s[0] != 0xAA then Scan(s[1..], size)
    else if |s| < 2 then None
    else if s[1] != 0x55 then Scan(s[2..], size)
    else if |s| < size + 4 then None
    else if s[size + 2..size + 4] != EndMarker then Scan(s[size + 4..], size)
    else Some((s[2..size + 2], s[size + 4..]))
  }

  /** What the scanner returns is a frame followed by the unread rest, at the
      end of its input: it never invents a payload. */
  lemma {:induction false} ScanFindsFrame(s: seq<byte>, size: nat)
    requires Scan(s, size).Some?
    ensures var r := Scan(s, size).value;
      s[|s| - |r.1| - size - 4..] == StartMarker + r.0 + EndMarker + r.1
    decreases |s|
  {
    var r := Scan(s, size).value;
    var k := |s| - |r.1| - size - 4;
    var d := if s[0] != 0xAA then 1 else if s[1] != 0x55 then 2 else if s[size + 2..size + 4] != EndMarker then size + 4 else 0;
    if d > 0 {
      ScanFindsFrame(s[d..], size);
      assert s[d..][k - d..] == s[k..];
    } else {
      assert s[..size + 4] == StartMarker + r.0 + EndMarker;
      assert s == s[..size + 4] + r.1;
    }
  }

  /** Every payload the scanner finds, in order, until the stream runs out. */
  function ScanAll(s: seq<byte>, size: nat): seq<seq<byte>>
    decreases |s|
  {
    match Scan(s, size)
    case None => []
    case Some((payload, rest)) => [payload] + ScanAll(rest, size)
  }

  /** A frame at the head of the stream is found whole and the scan resumes right
      after it. */
  lemma ScanFrame(payload: seq<byte>, rest: seq<byte>)
    ensures Scan(Frame(payload, true) + rest, |payload|) == Some((payload, rest))
  {
    var s := Frame(payload, true) + rest;
    var n := |payload|;
    assert s[0] == 0xAA && s[1] == 0x55;
    assert s[n + 2..n + 4] == EndMarker;
    assert s[2..n + 2] == payload;
    assert s[n + 4..] == rest;
  }

  /** Scanning the stream of a sequence of equal-size payloads returns exactly
      those payloads. */
  lemma {:induction false} ScanAllFrames(payloads: seq<seq<byte>>, size: nat)
    requires forall i | 0 <= i < |payloads| :: |payloads[i]| == size
    ensures ScanAll(Stream(payloads, true), size) == payloads
  {
    if payloads != [] {
      ScanFrame(payloads[0], Stream(payloads[1..], true));
      ScanAllFrames(payloads[1..], size);
    }
  }

  /** Bytes other than 0xAA in front of a frame are skipped. */
  lemma {:induction false} ScanSkipsNoise(noise: seq<byte>, s: seq<byte>, size: nat)
    requires forall i | 0 <= i < |noise| :: noise[i] != 0xAA
    ensures Scan(noise + s, size) == Scan(s, size)
  {
    if noise != [] {
      var t := noise + s;
      assert t[0] == noise[0] != 0xAA;
      assert t[1..] == noise[1..] + s;
      assert Scan(t, size) == Scan(t[1..], size);
      ScanSkipsNoise(noise[1..], s, size);
    } else {
      assert noise + s == s;
    }
  }

  /** A frame whose end marker was corrupted is dropped as a whole and the scan
      goes on with the bytes after it. */
  lemma ScanDropsCorruptFrame(payload: seq<byte>, badEnd: seq<byte>, rest: seq<byte>)
    requires |badEnd| == 2 && badEnd != EndMarker
    ensures Scan(StartMarker + payload + badEnd + rest, |payload|) == Scan(rest, |payload|)
  {
    var s := StartMarker + payload + badEnd + rest;
    var n := |payload|;
    assert s[n + 2..n + 4] == badEnd;
    assert s[n + 4..] == rest;
  }
}
