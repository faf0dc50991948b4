/** Little-endian, standard-size struct packing as Python's `struct` module does it
    for the `<` formats used on the telemetry link: a format is a sequence of
    conversion codes, each a fixed byte width and a signedness, packed back to back
    with no padding. */
module WireFormat {
  import opened Wrappers

  type byte = x: int | 0 <= x < 256

  type Width = w: nat | w > 0 witness 1

  /** One conversion code: its byte width and whether it is two's-complement signed. */
  datatype Code = Code(width: Width, signed: bool)

  const I8 := Code(1, true)     // 'b'
  const U8 := Code(1, false)    // 'B'
  const I16 := Code(2, true)    // 'h'
  const U16 := Code(2, false)   // 'H'
  const U32 := Code(4, false)   // 'I'

  function Pow256(n: nat): (r: nat)
    ensures r >= 1
  {
    if n == 0 then 1 else 256 * Pow256(n - 1)
  }

  /** A positive power of 256 is twice its half. */
  lemma HalfPow256(n: nat)
    requires n > 0
    ensures Pow256(n) == 2 * (Pow256(n) / 2)
  {
    assert Pow256(n) == 2 * (128 * Pow256(n - 1));
  }

  /** Smallest value a code accepts. */
  function MinValue(c: Code): int {
    if c.signed then -(Pow256(c.width) / 2) else 0
  }

  /** One past the largest value a code accepts. */
  function Bound(c: Code): int {
    if c.signed then Pow256(c.width) / 2 else Pow256(c.width)
  }

  /** `struct.pack` accepts `v` for code `c` (otherwise it raises `struct.error`). */
  predicate Fits(c: Code, v: int) {
    MinValue(c) <= v < Bound(c)
  }

  /** The standard-size code a format character stands for. */
  function CodeOf(ch: char): Option<Code> {
    match ch
    case 'b' => Some(I8)
    case 'B' => Some(U8)
    case 'h' => Some(I16)
    case 'H' => Some(U16)
    case 'i' => Some(Code(4, true))
    case 'I' => Some(U32)
    case 'l' => Some(Code(4, true))
    case 'L' => Some(Code(4, false))
    case 'q' => Some(Code(8, true))
    case 'Q' => Some(Code(8, false))
    case _ => None
  }

  /** The codes of a string of code letters; `None` if any letter is not a code. */
  function ParseCodes(s: string): (r: Option<seq<Code>>)
    ensures r.Some? ==> |r.value| == |s|
  {
    if forall i | 0 <= i < |s| :: CodeOf(s[i]).Some?
    then Some(seq(|s|, i requires 0 <= i < |s| && CodeOf(s[i]).Some? => CodeOf(s[i]).value))
    else None
  }

  /** The codes of a little-endian format string (`<` followed by code letters). */
  function ParseFormat(fmt: string): (r: Option<seq<Code>>)
    ensures r.Some? ==> |r.value| + 1 == |fmt|
  {
    if |fmt| > 0 && fmt[0] == '<' then ParseCodes(fmt[1..]) else None
  }

  /** Number of bytes a layout occupies (`struct.calcsize`). */
  function Size(layout: seq<Code>): nat {
    if layout == [] then 0 else layout[0].width + Size(layout[1..])
  }

  lemma SizeAppend(a: seq<Code>, b: seq<Code>)
    ensures Size(a + b) == Size(a) + Size(b)
  {
    if a == [] {
      assert a + b == b;
    } else {
      assert (a + b)[0] == a[0];
      assert (a + b)[1..] == a[1..] + b;
      SizeAppend(a[1..], b);
    }
  }

  // ---------------------------------------------------------------------------
  // One field

  /** Little-endian base-256 digits of `u`, exactly `w` of them. */
  function LE(u: nat, w: nat): (r: seq<byte>)
    ensures |r| == w
  {
    if w == 0 then [] else [u % 256] + LE(u / 256, w - 1)
  }

  /** The unsigned value of little-endian bytes. */
  function UnLE(bs: seq<byte>): (u: nat)
    ensures u < Pow256(|bs|)
  {
    if bs == [] then 0 else bs[0] + 256 * UnLE(bs[1..])
  }

  lemma {:induction false} UnLEofLE(u: nat, w: nat)
    requires u < Pow256(w)
    ensures UnLE(LE(u, w)) == u
  {
    if w > 0 {
      UnLEofLE(u / 256, w - 1);
      assert LE(u, w)[1..] == LE(u / 256, w - 1);
    }
  }

  lemma {:induction false} LEofUnLE(bs: seq<byte>)
    ensures LE(UnLE(bs), |bs|) == bs
  {
    if bs != [] {
      LEofUnLE(bs[1..]);
      var u := UnLE(bs);
      assert u % 256 == bs[0] && u / 256 == UnLE(bs[1..]);
    }
  }

  /** Two's-complement little-endian encoding of one value. */
  function EncodeField(c: Code, v: int): (r: seq<byte>)
    requires Fits(c, v)
    ensures |r| == c.width
  {
    LE(if v < 0 then v + Pow256(c.width) else v, c.width)
  }

  /** The value `struct.unpack` reads for code `c` from exactly `c.width` bytes. */
  function DecodeField(c: Code, bs: seq<byte>): (v: int)
    requires |bs| == c.width
    ensures Fits(c, v)
  {
    var u := UnLE(bs);
    var p := Pow256(c.width);
    HalfPow256(c.width);
    if c.signed && u >= p / 2 then u - p else u
  }

  lemma DecodeEncodeField(c: Code, v: int)
    requires Fits(c, v)
    ensures DecodeField(c, EncodeField(c, v)) == v
  {
    UnLEofLE(if v < 0 then v + Pow256(c.width) else v, c.width);
  }

  lemma EncodeDecodeField(c: Code, bs: seq<byte>)
    requires |bs| == c.width
    ensures EncodeField(c, DecodeField(c, bs)) == bs
  {
    LEofUnLE(bs);
  }

  // ---------------------------------------------------------------------------
  // A whole record

  /** Every value fits the code at the same position. */
  predicate AllFit(layout: seq<Code>, vals: seq<int>) {
    |vals| == |layout| && forall i :: 0 <= i < |layout| ==> Fits(layout[i], vals[i])
  }

  /** `struct.pack(fmt, *vals)`: `None` where Python raises `struct.error` (wrong
      number of values, or a value out of its code's range). */
  function Pack(layout: seq<Code>, vals: seq<int>): (r: Option<seq<byte>>)
    decreases layout
  {
    if |vals| != |layout| then None
    else if layout == [] then Some([])
    else if !Fits(layout[0], vals[0]) then None
    else match Pack(layout[1..], vals[1..])
      case None => None
      case Some(rest) => Some(EncodeField(layout[0], vals[0]) + rest)
  }

  /** The values read field by field from a buffer of exactly the layout's size. */
  function Fields(layout: seq<Code>, bs: seq<byte>): (vals: seq<int>)
    requires |bs| == Size(layout)
    ensures |vals| == |layout|
    decreases layout
  {
    if layout == [] then []
    else
      var w := layout[0].width;
      [DecodeField(layout[0], bs[..w])] + Fields(layout[1..], bs[w..])
  }

  /** `struct.unpack(fmt, bs)`: `None` where Python raises `struct.error`, which
      for these formats happens exactly when the length differs from `calcsize`. */
  function Unpack(layout: seq<Code>, bs: seq<byte>): (r: Option<seq<int>>)
    ensures r.Some? <==> |bs| == Size(layout)
  {
    if |bs| != Size(layout) then None else Some(Fields(layout, bs))
  }

  /** Packing succeeds exactly when there is one in-range value per code, and
      then yields `calcsize` bytes. */
  lemma {:induction false} PackSucceedsIff(layout: seq<Code>, vals: seq<int>)
    ensures Pack(layout, vals).Some? <==> AllFit(layout, vals)
    ensures Pack(layout, vals).Some? ==> |Pack(layout, vals).value| == Size(layout)
    decreases layout
  {
    if |vals| == |layout| && layout != [] {
      PackSucceedsIff(layout[1..], vals[1..]);
      if AllFit(layout, vals) {
        assert AllFit(layout[1..], vals[1..]) by {
          forall i | 0 <= i < |layout| - 1 ensures Fits(layout[1..][i], vals[1..][i]) {
            assert Fits(layout[i + 1], vals[i + 1]);
          }
        }
      } else if Fits(layout[0], vals[0]) {
        var i :| 0 <= i < |layout| && !Fits(layout[i], vals[i]);
        assert !Fits(layout[1..][i - 1], vals[1..][i - 1]);
      }
    }
  }

  /** Every field read from a buffer is in range for its code. */
  lemma {:induction false} FieldsFit(layout: seq<Code>, bs: seq<byte>)
    requires |bs| == Size(layout)
    ensures AllFit(layout, Fields(layout, bs))
    decreases layout
  {
    if layout != [] {
      var w := layout[0].width;
      FieldsFit(layout[1..], bs[w..]);
      var vals := Fields(layout, bs);
      forall i | 0 <= i < |layout| ensures Fits(layout[i], vals[i]) {
        if i > 0 {
          assert vals[i] == Fields(layout[1..], bs[w..])[i - 1];
        }
      }
    }
  }

  /** Unpacking what was packed gives back the values. */
  lemma {:induction false} UnpackPack(layout: seq<Code>, vals: seq<int>)
    requires AllFit(layout, vals)
    ensures Pack(layout, vals).Some? && Unpack(layout, Pack(layout, vals).value) == Some(vals)
    decreases layout
  {
    PackSucceedsIff(layout, vals);
    if layout != [] {
      var bs := Pack(layout, vals).value;
      var w := layout[0].width;
      assert AllFit(layout[1..], vals[1..]) by {
        forall i | 0 <= i < |layout| - 1 ensures Fits(layout[1..][i], vals[1..][i]) {
          assert Fits(layout[i + 1], vals[i + 1]);
        }
      }
      UnpackPack(layout[1..], vals[1..]);
      var rest := Pack(layout[1..], vals[1..]).value;
      assert bs == EncodeField(layout[0], vals[0]) + rest;
      assert bs[..w] == EncodeField(layout[0], vals[0]);
      assert bs[w..] == rest;
      DecodeEncodeField(layout[0], vals[0]);
      assert Fields(layout[1..], bs[w..]) == vals[1..];
      assert Fields(layout, bs) == [vals[0]] + vals[1..];
      assert vals == [vals[0]] + vals[1..];
    }
  }

  /** Packing what was unpacked gives back the bytes: with no checksum, every
      buffer of the right size is the encoding of exactly one value list. */
  lemma {:induction false} PackUnpack(layout: seq<Code>, bs: seq<byte>)
    requires |bs| == Size(layout)
    ensures Pack(layout, Fields(layout, bs)) == Some(bs)
    decreases layout
  {
    if layout != [] {
      var w := layout[0].width;
      var vals := Fields(layout, bs);
      PackUnpack(layout[1..], bs[w..]);
      EncodeDecodeField(layout[0], bs[..w]);
      assert vals[1..] == Fields(layout[1..], bs[w..]);
      assert bs == bs[..w] + bs[w..];
    }
  }

  /** Byte offset of field `i`. */
  function Offset(layout: seq<Code>, i: nat): nat
    requires i <= |layout|
  {
    Size(layout[..i])
  }

  /** Field `i` ends within the layout. */
  lemma OffsetBound(layout: seq<Code>, i: nat)
    requires i < |layout|
    ensures Offset(layout, i) + layout[i].width <= Size(layout)
  {
    SizeAppend(layout[..i + 1], layout[i + 1..]);
    assert layout[..i + 1] + layout[i + 1..] == layout;
    SizeAppend(layout[..i], [layout[i]]);
    assert layout[..i] + [layout[i]] == layout[..i + 1];
    assert Size([layout[i]]) == layout[i].width;
  }

  /** The offset of field `i` is the first width plus the offset of field `i - 1`
      in the rest of the layout. */
  lemma OffsetStep(layout: seq<Code>, i: nat)
    requires 0 < i <= |layout|
    ensures Offset(layout, i) == layout[0].width + Offset(layout[1..], i - 1)
  {
    assert layout[..i] == [layout[0]] + layout[1..][..i - 1];
    SizeAppend([layout[0]], layout[1..][..i - 1]);
    assert Size([layout[0]]) == layout[0].width;
  }

  /** A field decoded from a slice of a suffix is decoded from the matching slice
      of the whole buffer. */
  lemma DecodeShifted(c: Code, bs: seq<byte>, w: nat, o: nat, off: nat)
    requires off == w + o && off + c.width <= |bs|
    ensures DecodeField(c, bs[w..][o..o + c.width]) == DecodeField(c, bs[off..off + c.width])
  {
    assert bs[w..][o..o + c.width] == bs[off..off + c.width];
  }

  /** Field `i > 0` is field `i - 1` of the rest of the buffer. */
  lemma FieldsTail(layout: seq<Code>, bs: seq<byte>, i: nat)
    requires |bs| == Size(layout) && 0 < i < |layout|
    ensures |bs[layout[0].width..]| == Size(layout[1..])
    ensures Fields(layout, bs)[i] == Fields(layout[1..], bs[layout[0].width..])[i - 1]
  {
  }

  /** What `FieldAt` states: field `i` of `bs` is decoded from exactly the bytes
      at its offset. */
  predicate DecodedAt(layout: seq<Code>, bs: seq<byte>, i: nat)
    requires |bs| == Size(layout) && i < |layout|
  {
    && Offset(layout, i) + layout[i].width <= |bs|
    && Fields(layout, bs)[i] == DecodeField(layout[i], bs[Offset(layout, i)..Offset(layout, i) + layout[i].width])
  }

  /** The first field sits at offset zero. */
  lemma DecodedAtFirst(layout: seq<Code>, bs: seq<byte>)
    requires |bs| == Size(layout) && 0 < |layout|
    ensures DecodedAt(layout, bs, 0)
  {
    OffsetBound(layout, 0);
    assert layout[..0] == [];
    assert bs[0..layout[0].width] == bs[..layout[0].width];
  }

  /** Field `i > 0` sits where field `i - 1` of the rest of the buffer does,
      shifted by the first field's width. */
  lemma DecodedAtNext(layout: seq<Code>, bs: seq<byte>, i: nat)
    requires |bs| == Size(layout) && 0 < i < |layout|
    requires |bs[layout[0].width..]| == Size(layout[1..])
    requires DecodedAt(layout[1..], bs[layout[0].width..], i - 1)
    ensures DecodedAt(layout, bs, i)
  {
    var w, c := layout[0].width, layout[i];
    var rest := bs[w..];
    var o, off := Offset(layout[1..], i - 1), Offset(layout, i);
    OffsetBound(layout, i);
    OffsetStep(layout, i);
    assert layout[1..][i - 1] == c;
    calc {
      Fields(layout, bs)[i];
    ==  { FieldsTail(layout, bs, i); }
      Fields(layout[1..], rest)[i - 1];
    ==
      DecodeField(c, rest[o..o + c.width]);
    ==  { DecodeShifted(c, bs, w, o, off); }
      DecodeField(c, bs[off..off + c.width]);
    }
  }

  /** Field `i` is decoded from the `width` bytes at its offset and from nothing else. */
  lemma {:induction false} FieldAt(layout: seq<Code>, bs: seq<byte>, i: nat)
    requires |bs| == Size(layout) && i < |layout|
    ensures Offset(layout, i) + layout[i].width <= |bs|
    ensures Fields(layout, bs)[i] ==
            DecodeField(layout[i], bs[Offset(layout, i)..Offset(layout, i) + layout[i].width])
    decreases i
  {
    if i == 0 {
      DecodedAtFirst(layout, bs);
    } else {
      FieldsTail(layout, bs, i);
      FieldAt(layout[1..], bs[layout[0].width..], i - 1);
      DecodedAtNext(layout, bs, i);
    }
  }

  // ---------------------------------------------------------------------------
  // The two layouts of the telemetry record

  /** The format string both ends of the link use. */
  const LiteralFormat: string := "<HbBHhHhhhHHHHHHHHI"

  /** The 17-field packed C struct the receiver documents: rpm, temperatura, tps,
      lambda, steeringAngle, brakePressure, accelX, accelY, four wheel speeds,
      four suspension travels, timestamp. */
  const DocumentedLayout: seq<Code> :=
    [U16, I8, U8, U16, I16, U16, I16, I16, U16, U16, U16, U16, U16, U16, U16, U16, U32]

  /** What `LiteralFormat` actually spells: the documented layout with one more
      `h` after accelY. */
  const LiteralLayout: seq<Code> :=
    [U16, I8, U8, U16, I16, U16, I16, I16, I16, U16, U16, U16, U16, U16, U16, U16, U16, U32]

  /** Letter by letter, the format string after `<` spells the as-written layout. */
  lemma LiteralLetters()
    ensures |LiteralFormat| == 19 && LiteralFormat[0] == '<' && |LiteralLayout| == 18
    ensures forall i | 0 <= i < 18 :: CodeOf(LiteralFormat[i + 1]) == Some(LiteralLayout[i])
  {
  }

  /** The as-written layout is the documented one with an extra `h` at position 8. */
  lemma LiteralIsDocumentedPlusOne()
    ensures LiteralLayout == DocumentedLayout[..8] + [I16] + DocumentedLayout[8..]
  {
  }

  /** The format string spells 18 codes, and differs from the documented struct
      only by the extra signed 16-bit code at position 8. */
  lemma LiteralFormatCodes()
    ensures ParseFormat(LiteralFormat) == Some(LiteralLayout)
    ensures |LiteralLayout| == 18
    ensures LiteralLayout == DocumentedLayout[..8] + [I16] + DocumentedLayout[8..]
  {
    LiteralLetters();
    LiteralIsDocumentedPlusOne();
    var body := LiteralFormat[1..];
    assert forall i | 0 <= i < |body| :: CodeOf(body[i]) == Some(LiteralLayout[i]) by {
      forall i | 0 <= i < |body|
        ensures CodeOf(body[i]) == Some(LiteralLayout[i])
      {
        assert body[i] == LiteralFormat[i + 1];
      }
    }
    assert ParseCodes(body).value == LiteralLayout;
  }

  /** `calcsize` of the codes from index `k` on, counted by index. */
  function SizeFrom(layout: seq<Code>, k: nat): nat
    requires k <= |layout|
    decreases |layout| - k
  {
    if k == |layout| then 0 else layout[k].width + SizeFrom(layout, k + 1)
  }

  /** Counting by index gives the size of the suffix. */
  lemma {:induction false} SizeFromSuffix(layout: seq<Code>, k: nat)
    requires k <= |layout|
    ensures SizeFrom(layout, k) == Size(layout[k..])
    decreases |layout| - k
  {
    if k < |layout| {
      SizeFromSuffix(layout, k + 1);
      assert layout[k..][1..] == layout[k + 1..];
    }
  }

  /** The format's `calcsize` is 36, the receiver's PACKET_SIZE. */
  lemma LiteralLayoutSize()
    ensures Size(LiteralLayout) == 36
    ensures Size(LiteralLayout[8..]) == 22 && Size(LiteralLayout[16..]) == 6
  {
    var l := LiteralLayout;
    assert SizeFrom(l, 17) == 4;
    assert SizeFrom(l, 16) == 6;
    assert SizeFrom(l, 15) == 8;
    assert SizeFrom(l, 14) == 10;
    assert SizeFrom(l, 13) == 12;
    assert SizeFrom(l, 12) == 14;
    assert SizeFrom(l, 11) == 16;
    assert SizeFrom(l, 10) == 18;
    assert SizeFrom(l, 9) == 20;
    assert SizeFrom(l, 8) == 22;
    assert SizeFrom(l, 7) == 24;
    assert SizeFrom(l, 6) == 26;
    assert SizeFrom(l, 5) == 28;
    assert SizeFrom(l, 4) == 30;
    assert SizeFrom(l, 3) == 32;
    assert SizeFrom(l, 2) == 33;
    assert SizeFrom(l, 1) == 34;
    assert SizeFrom(l, 0) == 36;
    SizeFromSuffix(l, 0);
    SizeFromSuffix(l, 8);
    SizeFromSuffix(l, 16);
    assert l[0..] == l;
  }

  /** Where the as-written layout puts its ninth and seventeenth fields. */
  lemma LiteralOffsets()
    ensures Offset(LiteralLayout, 8) == 14 && Offset(LiteralLayout, 16) == 30
  {
    LiteralLayoutSize();
    SizeAppend(LiteralLayout[..8], LiteralLayout[8..]);
    assert LiteralLayout[..8] + LiteralLayout[8..] == LiteralLayout;
    SizeAppend(LiteralLayout[..16], LiteralLayout[16..]);
    assert LiteralLayout[..16] + LiteralLayout[16..] == LiteralLayout;
  }

  /** Under the as-written layout field 8 is the signed 16-bit value at bytes
      14..16 and field 16 the unsigned 16-bit value at bytes 30..32. */
  lemma LiteralFieldsAt(raw: seq<byte>)
    requires |raw| == 36
    ensures |raw| == Size(LiteralLayout)
    ensures Fields(LiteralLayout, raw)[8] == DecodeField(I16, raw[14..16])
    ensures Fields(LiteralLayout, raw)[16] == DecodeField(U16, raw[30..32])
  {
    LiteralLayoutSize();
    LiteralOffsets();
    FieldAt(LiteralLayout, raw, 8);
    FieldAt(LiteralLayout, raw, 16);
  }

  /** The documented struct has 17 fields in 34 bytes, not the 36 its comment claims. */
  lemma DocumentedLayoutSize()
    ensures |DocumentedLayout| == 17 && Size(DocumentedLayout) == 34
  {
    var l := DocumentedLayout;
    assert SizeFrom(l, 16) == 4;
    assert SizeFrom(l, 15) == 6;
    assert SizeFrom(l, 14) == 8;
    assert SizeFrom(l, 13) == 10;
    assert SizeFrom(l, 12) == 12;
    assert SizeFrom(l, 11) == 14;
    assert SizeFrom(l, 10) == 16;
    assert SizeFrom(l, 9) == 18;
    assert SizeFrom(l, 8) == 20;
    assert SizeFrom(l, 7) == 22;
    assert SizeFrom(l, 6) == 24;
    assert SizeFrom(l, 5) == 26;
    assert SizeFrom(l, 4) == 28;
    assert SizeFrom(l, 3) == 30;
    assert SizeFrom(l, 2) == 31;
    assert SizeFrom(l, 1) == 32;
    assert SizeFrom(l, 0) == 34;
    SizeFromSuffix(l, 0);
    assert l[0..] == l;
  }
}
