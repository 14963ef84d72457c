/** The sequence parameter set parser of nalu.cpp: what it computes from a buffer, as a function on bit
    strings, and its loops, proved against that function. */
module Sps {
  import opened Media
  import opened Nalu
  import opened Bits

  datatype Info = Info(width: int, height: int, profile: nat, level: nat)

  // ----- Specification of the parser, over bit strings -----

  /** The profiles for which the parser expects chroma and scaling information. */
  predicate HasChromaInfo(profile: nat) {
    profile in {100, 110, 122, 244, 44, 83, 86, 118}
  }

  function TruncMod(a: int, b: int): int
    requires b != 0
  {
    a - b * TruncDiv(a, b)
  }

  function SkipScalingList(bits: seq<Bit>, cur: nat, left: nat, last: int, next: int): (r: Read<()>)
    requires cur <= |bits|
    ensures r.Got? ==> cur <= r.cursor <= |bits|
    decreases left
  {
    if left == 0 then Got((), cur)
    else if next == 0 then SkipScalingList(bits, cur, left - 1, last, 0)
    else
      var (delta, c) :- SignedGolomb(bits, cur);
      var n := TruncMod(last + delta + 256, 256);
      SkipScalingList(bits, c, left - 1, if n == 0 then last else n, n)
  }

  function ListSize(i: nat): nat {
    if i < 6 then 16 else 64
  }

  function SkipScalingLists(bits: seq<Bit>, cur: nat, i: nat): (r: Read<()>)
    requires cur <= |bits| && i <= 8
    ensures r.Got? ==> cur <= r.cursor <= |bits|
    decreases 8 - i
  {
    if i == 8 then Got((), cur) else
    var (present, c) :- Field(bits, 1, cur);
    var (_, c') :- if present == 1 then SkipScalingList(bits, c, ListSize(i), 8, 8) else Got((), c);
    SkipScalingLists(bits, c', i + 1)
  }

  function SkipChroma(bits: seq<Bit>, cur: nat): (r: Read<()>)
    requires cur <= |bits|
    ensures r.Got? ==> cur <= r.cursor <= |bits|
  {
    var (format, c) :- UnsignedGolomb(bits, cur);
    var (_, c) :- if format == 3 then Field(bits, 1, c) else Got(0, c);
    var (_, c) :- UnsignedGolomb(bits, c);
    var (_, c) :- UnsignedGolomb(bits, c);
    var (_, c) :- Field(bits, 1, c);
    var (scaling, c) :- Field(bits, 1, c);
    if scaling == 1 then SkipScalingLists(bits, c, 0) else Got((), c)
  }

  function SkipSigned(bits: seq<Bit>, cur: nat, n: nat): (r: Read<()>)
    requires cur <= |bits|
    ensures r.Got? ==> cur <= r.cursor <= |bits|
    decreases n
  {
    if n == 0 then Got((), cur) else
    var (_, c) :- SignedGolomb(bits, cur);
    SkipSigned(bits, c, n - 1)
  }

  function SkipOrderCount(bits: seq<Bit>, cur: nat): (r: Read<()>)
    requires cur <= |bits|
    ensures r.Got? ==> cur <= r.cursor <= |bits|
  {
    var (_, c) :- UnsignedGolomb(bits, cur);
    var (kind, c) :- UnsignedGolomb(bits, c);
    if kind == 0 then
      var (_, c) :- UnsignedGolomb(bits, c);
      Got((), c)
    else if kind == 1 then
      var (_, c) :- Field(bits, 1, c);
      var (_, c) :- SignedGolomb(bits, c);
      var (_, c) :- SignedGolomb(bits, c);
      var (n, c) :- UnsignedGolomb(bits, c);
      SkipSigned(bits, c, n)
    else Got((), c)
  }

  datatype Crop = Crop(left: nat, right: nat, top: nat, bottom: nat)

  function ParseCrop(bits: seq<Bit>, cur: nat): (r: Read<Crop>)
    requires cur <= |bits|
    ensures r.Got? ==> cur <= r.cursor <= |bits|
  {
    var (present, c) :- Field(bits, 1, cur);
    if present == 0 then Got(Crop(0, 0, 0, 0), c) else
    var (left, c) :- UnsignedGolomb(bits, c);
    var (right, c) :- UnsignedGolomb(bits, c);
    var (top, c) :- UnsignedGolomb(bits, c);
    var (bottom, c) :- UnsignedGolomb(bits, c);
    Got(Crop(left, right, top, bottom), c)
  }

  /** The size as the parser computes it: top and bottom offsets come off the width. */
  function SizeOf(widthInMbs: nat, heightInUnits: nat, frameMbsOnly: nat, crop: Crop): (int, int) {
    (widthInMbs * 16 - crop.bottom * 2 - crop.top * 2,
     (2 - frameMbsOnly) * heightInUnits * 16 - crop.right * 2 - crop.left * 2)
  }

  function ParseSize(bits: seq<Bit>, cur: nat): (r: Read<(int, int)>)
    requires cur <= |bits|
    ensures r.Got? ==> cur <= r.cursor <= |bits|
  {
    var (_, c) :- UnsignedGolomb(bits, cur);
    var (_, c) :- Field(bits, 1, c);
    var (w, c) :- UnsignedGolomb(bits, c);
    var (h, c) :- UnsignedGolomb(bits, c);
    var (frameMbsOnly, c) :- Field(bits, 1, c);
    var (_, c) :- if frameMbsOnly == 0 then Field(bits, 1, c) else Got(0, c);
    var (_, c) :- Field(bits, 1, c);
    var (crop, c) :- ParseCrop(bits, c);
    var (_, c) :- Field(bits, 1, c);
    Got(SizeOf(w + 1, h + 1, frameMbsOnly, crop), c)
  }

  /** Everything after the id of the parameter set, of which only the size is kept. */
  function ParseBody(bits: seq<Bit>, cur: nat, profile: nat): (r: Read<(int, int)>)
    requires cur <= |bits|
    ensures r.Got? ==> cur <= r.cursor <= |bits|
  {
    var (_, c) :- if HasChromaInfo(profile) then SkipChroma(bits, cur) else Got((), cur);
    var (_, c) :- SkipOrderCount(bits, c);
    ParseSize(bits, c)
  }

  function ParseBits(bits: seq<Bit>): Read<Info> {
    var (_, c) :- Field(bits, 8, 0);
    var (profile, c) :- Field(bits, 8, c);
    var (_, c) :- Field(bits, 8, c);
    var (level, c) :- Field(bits, 8, c);
    var (_, c) :- UnsignedGolomb(bits, c);
    var (size, c) :- ParseBody(bits, c, profile);
    Got(Info(size.0, size.1, profile, level), c)
  }

  const START_CODE: seq<Byte> := [0, 0, 0, 1]

  /** Four bytes are dropped from any buffer of four bytes or more, start code or not; the length
      is taken as a 16-bit number. A shorter buffer cannot be compared with a start code. */
  function ParseSps(d: seq<Byte>): Read<Info> {
    if |d| % 0x1_0000 >= 4 || (|d| >= 4 && d[..4] == START_CODE) then ParseBits(BitsOf(d[4..]))
    else if |d| >= 4 then ParseBits(BitsOf(d))
    else Undefined
  }

  // ----- The parser -----

  method ReadScalingList(data: seq<Byte>, from: nat, size: nat) returns (r: Read<()>)
    requires from <= 8 * |data|
    ensures r == SkipScalingList(BitsOf(data), from, size, 8, 8)
  {
    hide SignedGolomb, BitsOf, TruncMod;
    ghost var bits := BitsOf(data);
    assert |bits| == 8 * |data| by { BitCount(data); }
    var lastScale, nextScale := 8, 8;
    var cur: nat := from;
    for j := 0 to size
      invariant cur <= |bits|
      invariant SkipScalingList(bits, cur, size - j, lastScale, nextScale) == SkipScalingList(bits, from, size, 8, 8)
    {
      if nextScale != 0 {
        var delta :- ReadSignedGolomb(data, cur);
        nextScale := TruncMod(lastScale + delta.0 + 256, 256);
        cur := delta.1;
      }
      lastScale := if nextScale == 0 then lastScale else nextScale;
    }
    return Got((), cur);
  }

  lemma BitCount(data: seq<Byte>)
    ensures |BitsOf(data)| == 8 * |data|
  {
  }

  method ReadScalingLists(data: seq<Byte>, from: nat) returns (r: Read<()>)
    requires from <= 8 * |data|
    ensures r == SkipScalingLists(BitsOf(data), from, 0)
  {
    hide Field, BitsOf, SkipScalingList;
    ghost var bits := BitsOf(data);
    assert |bits| == 8 * |data| by { BitCount(data); }
    var cur: nat := from;
    for i := 0 to 8
      invariant cur <= |bits|
      invariant SkipScalingLists(bits, cur, i) == SkipScalingLists(bits, from, 0)
    {
      var present :- ReadBits(1, data, cur);
      cur := present.1;
      if present.0 == 1 {
        var list :- ReadScalingList(data, cur, ListSize(i));
        cur := list.1;
      }
    }
    return Got((), cur);
  }

  method ReadChroma(data: seq<Byte>, from: nat) returns (r: Read<()>)
    requires from <= 8 * |data|
    ensures r == SkipChroma(BitsOf(data), from)
  {
    hide Field, BitsOf, UnsignedGolomb, SkipScalingLists;
    assert |BitsOf(data)| == 8 * |data| by { BitCount(data); }
    var format :- ReadUnsignedGolomb(data, from);
    var cur := format.1;
    if format.0 == 3 {
      var flag :- ReadBits(1, data, cur);
      cur := flag.1;
    }
    var luma :- ReadUnsignedGolomb(data, cur);
    var chroma :- ReadUnsignedGolomb(data, luma.1);
    var bypass :- ReadBits(1, data, chroma.1);
    var scaling :- ReadBits(1, data, bypass.1);
    cur := scaling.1;
    if scaling.0 == 1 {
      r := ReadScalingLists(data, cur);
      return;
    }
    return Got((), cur);
  }

  method ReadOrderCount(data: seq<Byte>, from: nat) returns (r: Read<()>)
    requires from <= 8 * |data|
    ensures r == SkipOrderCount(BitsOf(data), from)
  {
    hide Field, BitsOf, UnsignedGolomb, SignedGolomb;
    ghost var bits := BitsOf(data);
    assert |bits| == 8 * |data| by { BitCount(data); }
    var frameNum :- ReadUnsignedGolomb(data, from);
    var kind :- ReadUnsignedGolomb(data, frameNum.1);
    var cur: nat := kind.1;
    if kind.0 == 0 {
      var lsb :- ReadUnsignedGolomb(data, cur);
      cur := lsb.1;
    } else if kind.0 == 1 {
      var zero :- ReadBits(1, data, cur);
      var nonRef :- ReadSignedGolomb(data, zero.1);
      var field :- ReadSignedGolomb(data, nonRef.1);
      var n :- ReadUnsignedGolomb(data, field.1);
      cur := n.1;
      for i := 0 to n.0
        invariant cur <= |bits|
        invariant SkipSigned(bits, cur, n.0 - i) == SkipSigned(bits, n.1, n.0)
      {
        var offset :- ReadSignedGolomb(data, cur);
        cur := offset.1;
      }
    }
    return Got((), cur);
  }

  method ReadSize(data: seq<Byte>, from: nat) returns (r: Read<(int, int)>)
    requires from <= 8 * |data|
    ensures r == ParseSize(BitsOf(data), from)
  {
    hide Field, BitsOf, UnsignedGolomb, ParseCrop;
    assert |BitsOf(data)| == 8 * |data| by { BitCount(data); }
    var maxRefs :- ReadUnsignedGolomb(data, from);
    var gaps :- ReadBits(1, data, maxRefs.1);
    var w :- ReadUnsignedGolomb(data, gaps.1);
    var h :- ReadUnsignedGolomb(data, w.1);
    var frameMbsOnly :- ReadBits(1, data, h.1);
    var cur := frameMbsOnly.1;
    if frameMbsOnly.0 == 0 {
      var adaptive :- ReadBits(1, data, cur);
      cur := adaptive.1;
    }
    var direct :- ReadBits(1, data, cur);
    var crop :- ReadCrop(data, direct.1);
    var vui :- ReadBits(1, data, crop.1);
    return Got(SizeOf(w.0 + 1, h.0 + 1, frameMbsOnly.0, crop.0), vui.1);
  }

  method ReadCrop(data: seq<Byte>, from: nat) returns (r: Read<Crop>)
    requires from <= 8 * |data|
    ensures r == ParseCrop(BitsOf(data), from)
  {
    hide Field, BitsOf, UnsignedGolomb;
    assert |BitsOf(data)| == 8 * |data| by { BitCount(data); }
    var present :- ReadBits(1, data, from);
    if present.0 == 0 {
      return Got(Crop(0, 0, 0, 0), present.1);
    }
    var left :- ReadUnsignedGolomb(data, present.1);
    var right :- ReadUnsignedGolomb(data, left.1);
    var top :- ReadUnsignedGolomb(data, right.1);
    var bottom :- ReadUnsignedGolomb(data, top.1);
    return Got(Crop(left.0, right.0, top.0, bottom.0), bottom.1);
  }

  method ReadBody(data: seq<Byte>, from: nat, profile: nat) returns (r: Read<(int, int)>)
    requires from <= 8 * |data|
    ensures r == ParseBody(BitsOf(data), from, profile)
  {
    hide BitsOf, SkipChroma, SkipOrderCount, ParseSize;
    assert |BitsOf(data)| == 8 * |data| by { BitCount(data); }
    var cur: nat := from;
    if HasChromaInfo(profile) {
      var chroma :- ReadChroma(data, cur);
      cur := chroma.1;
    }
    var order :- ReadOrderCount(data, cur);
    r := ReadSize(data, order.1);
  }

  method ParseSpsData(d: seq<Byte>) returns (r: Read<Info>)
    ensures r == ParseSps(d)
  {
    hide Field, BitsOf, UnsignedGolomb, ParseBody;
    var data := d;
    if |d| < 4 {
      return Undefined;
    }
    if |d| % 0x1_0000 >= 4 || d[..4] == START_CODE {
      data := d[4..];
    }
    assert |BitsOf(data)| == 8 * |data| by { BitCount(data); }
    var skip :- ReadBits(8, data, 0);
    var profile :- ReadBits(8, data, skip.1);
    var constraints :- ReadBits(8, data, profile.1);
    var level :- ReadBits(8, data, constraints.1);
    var id :- ReadUnsignedGolomb(data, level.1);
    var size :- ReadBody(data, id.1, profile.0);
    return Got(Info(size.0.0, size.0.1, profile.0, level.0), size.1);
  }
}
