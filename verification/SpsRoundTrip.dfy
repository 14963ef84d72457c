/** A writer for sequence parameter sets as section 7.3.2.1.1 of ITU-T H.264 lays them out, and the
    proof that the parser recovers profile, level and size from what it writes. */
module SpsRoundTrip {
  import opened Media
  import opened Nalu
  import opened Bits
  import opened Sps

  // ----- The syntax -----

  /** A scaling list is the sequence of its delta_scale values. */
  datatype ChromaInfo = ChromaInfo(
    format: nat,
    separatePlane: Bit,
    lumaDepth: nat,
    chromaDepth: nat,
    bypass: Bit,
    scaling: Option<seq<Option<seq<int>>>>)

  datatype Order = Lsb(log2Max: nat) | Cycle(alwaysZero: Bit, nonRef: int, field: int, refs: seq<int>) | OutputOrder

  datatype ParameterSet = ParameterSet(
    header: nat,
    profile: nat,
    constraints: nat,
    level: nat,
    id: nat,
    chroma: Option<ChromaInfo>,
    log2FrameNum: nat,
    order: Order,
    maxRefs: nat,
    gaps: Bit,
    widthInMbs: nat,
    heightInUnits: nat,
    frameMbsOnly: Bit,
    adaptive: Bit,
    direct: Bit,
    crop: Option<Crop>,
    vui: Bit)

  /** The profiles with chroma information in section 7.3.2.1.1; the parser knows fewer. */
  predicate StandardChromaInfo(profile: nat) {
    profile in {100, 110, 122, 244, 44, 83, 86, 118, 128, 138, 139, 134, 135}
  }

  predicate SignedOk(x: int) {
    Encodable(ToCodeNum(x))
  }

  /** The deltas are exactly those that the scaling process asks for. */
  predicate ListOk(deltas: seq<int>, left: nat, last: int, next: int)
    decreases left
  {
    if left == 0 then deltas == []
    else if next == 0 then ListOk(deltas, left - 1, last, 0)
    else
      && deltas != [] && -128 <= deltas[0] <= 127
      && var n := (last + deltas[0] + 256) % 256;
         ListOk(deltas[1..], left - 1, if n == 0 then last else n, n)
  }

  /** Six lists of 16 values, then lists of 64. */
  predicate ListsOk(lists: seq<Option<seq<int>>>) {
    forall i | 0 <= i < |lists| :: lists[i].Some? ==> ListOk(lists[i].value, if i < 6 then 16 else 64, 8, 8)
  }

  predicate ChromaOk(c: ChromaInfo) {
    && c.format <= 3 && Encodable(c.lumaDepth) && Encodable(c.chromaDepth)
    && (c.scaling.Some? ==> |c.scaling.value| == (if c.format == 3 then 12 else 8) && ListsOk(c.scaling.value))
  }

  predicate OrderOk(o: Order) {
    match o
    case Lsb(n) => Encodable(n)
    case Cycle(_, a, b, refs) =>
      SignedOk(a) && SignedOk(b) && Encodable(|refs|) && forall x | x in refs :: SignedOk(x)
    case OutputOrder => true
  }

  predicate CropOk(c: Crop) {
    Encodable(c.left) && Encodable(c.right) && Encodable(c.top) && Encodable(c.bottom)
  }

  predicate WellFormed(s: ParameterSet) {
    && s.header < 256 && s.profile < 256 && s.constraints < 256 && s.level < 256
    && Encodable(s.id) && Encodable(s.log2FrameNum) && Encodable(s.maxRefs)
    && (s.chroma.Some? <==> StandardChromaInfo(s.profile)) && (s.chroma.Some? ==> ChromaOk(s.chroma.value))
    && OrderOk(s.order)
    && s.widthInMbs > 0 && Encodable(s.widthInMbs - 1) && s.heightInUnits > 0 && Encodable(s.heightInUnits - 1)
    && (s.crop.Some? ==> CropOk(s.crop.value))
  }

  // ----- The writer -----

  function WriteSigned(xs: seq<int>): seq<Bit> {
    if xs == [] then [] else EncodeSigned(xs[0]) + WriteSigned(xs[1..])
  }

  function WriteList(l: Option<seq<int>>): seq<Bit> {
    if l.None? then Binary(0, 1) else Binary(1, 1) + WriteSigned(l.value)
  }

  function WriteLists(lists: seq<Option<seq<int>>>): seq<Bit> {
    if lists == [] then [] else WriteList(lists[0]) + WriteLists(lists[1..])
  }

  function WriteScaling(scaling: Option<seq<Option<seq<int>>>>): seq<Bit> {
    if scaling.None? then Binary(0, 1) else Binary(1, 1) + WriteLists(scaling.value)
  }

  function PlaneFlag(c: ChromaInfo): seq<Bit> {
    if c.format == 3 then Binary(c.separatePlane, 1) else []
  }

  function WriteChroma(c: ChromaInfo): seq<Bit> {
    EncodeUnsigned(c.format)
      + (PlaneFlag(c)
      + (EncodeUnsigned(c.lumaDepth)
      + (EncodeUnsigned(c.chromaDepth)
      + (Binary(c.bypass, 1)
      + WriteScaling(c.scaling)))))
  }

  function WriteOrder(o: Order): seq<Bit> {
    match o
    case Lsb(n) => EncodeUnsigned(0) + EncodeUnsigned(n)
    case Cycle(z, a, b, refs) =>
      EncodeUnsigned(1) + (Binary(z, 1) + (EncodeSigned(a) + (EncodeSigned(b)
        + (EncodeUnsigned(|refs|) + WriteSigned(refs)))))
    case OutputOrder => EncodeUnsigned(2)
  }

  function WriteCrop(crop: Option<Crop>): seq<Bit> {
    match crop
    case None => Binary(0, 1)
    case Some(c) =>
      Binary(1, 1) + (EncodeUnsigned(c.left) + (EncodeUnsigned(c.right)
        + (EncodeUnsigned(c.top) + EncodeUnsigned(c.bottom))))
  }

  function WriteSizeTail(s: ParameterSet): seq<Bit> {
    Binary(s.frameMbsOnly, 1)
      + ((if s.frameMbsOnly == 0 then Binary(s.adaptive, 1) else [])
      + (Binary(s.direct, 1)
      + (WriteCrop(s.crop)
      + Binary(s.vui, 1))))
  }

  function WriteSize(s: ParameterSet): seq<Bit>
    requires s.widthInMbs > 0 && s.heightInUnits > 0
  {
    EncodeUnsigned(s.maxRefs)
      + (Binary(s.gaps, 1)
      + (EncodeUnsigned(s.widthInMbs - 1)
      + (EncodeUnsigned(s.heightInUnits - 1)
      + WriteSizeTail(s))))
  }

  function Write(s: ParameterSet): seq<Bit>
    requires WellFormed(s)
  {
    Binary(s.header, 8) + (Binary(s.profile, 8) + (Binary(s.constraints, 8) + (Binary(s.level, 8)
      + (EncodeUnsigned(s.id)
      + ((if s.chroma.Some? then WriteChroma(s.chroma.value) else [])
      + ((EncodeUnsigned(s.log2FrameNum) + WriteOrder(s.order))
      + WriteSize(s)))))))
  }

  // ----- Each part is read back -----

  lemma FlagRoundTrip(bits: seq<Bit>, cur: nat, b: nat)
    requires b < 2 && At(bits, cur, Binary(b, 1))
    ensures Field(bits, 1, cur) == Got(b, cur + 1)
  {
    assert Pow2(1) == 2;
    FieldRoundTrip(bits, cur, b, 1);
  }

  lemma {:induction false} SignedListRoundTrip(bits: seq<Bit>, cur: nat, xs: seq<int>)
    requires At(bits, cur, WriteSigned(xs)) && forall x | x in xs :: SignedOk(x)
    ensures SkipSigned(bits, cur, |xs|) == Got((), cur + |WriteSigned(xs)|)
    decreases |xs|
  {
    hide SignedGolomb, EncodeSigned;
    if xs != [] {
      AtSplit(bits, cur, EncodeSigned(xs[0]), WriteSigned(xs[1..]));
      assert SignedOk(xs[0]);
      SignedRoundTrip(bits, cur, xs[0]);
      SignedListRoundTrip(bits, cur + |EncodeSigned(xs[0])|, xs[1..]);
    }
  }

  lemma {:induction false} ListRoundTrip(bits: seq<Bit>, cur: nat, xs: seq<int>, left: nat, last: int, next: int)
    requires At(bits, cur, WriteSigned(xs)) && ListOk(xs, left, last, next) && 0 <= last < 256 && 0 <= next < 256
    ensures SkipScalingList(bits, cur, left, last, next) == Got((), cur + |WriteSigned(xs)|)
    decreases left
  {
    hide SignedGolomb, EncodeSigned;
    if left == 0 {
    } else if next == 0 {
      ListRoundTrip(bits, cur, xs, left - 1, last, 0);
    } else {
      AtSplit(bits, cur, EncodeSigned(xs[0]), WriteSigned(xs[1..]));
      SmallDelta(xs[0], last);
      SignedRoundTrip(bits, cur, xs[0]);
      var n := (last + xs[0] + 256) % 256;
      ListRoundTrip(bits, cur + |EncodeSigned(xs[0])|, xs[1..], left - 1, if n == 0 then last else n, n);
    }
  }

  lemma SmallDelta(x: int, last: int)
    requires -128 <= x <= 127 && 0 <= last < 256
    ensures SignedOk(x) && TruncMod(last + x + 256, 256) == (last + x + 256) % 256
  {
  }

  /** One list behind its flag. */
  lemma OneListRoundTrip(bits: seq<Bit>, cur: nat, l: Option<seq<int>>, size: nat)
    requires At(bits, cur, WriteList(l)) && (l.Some? ==> ListOk(l.value, size, 8, 8))
    ensures |WriteList(l)| > 0 && cur + |WriteList(l)| <= |bits|
    ensures Field(bits, 1, cur) == Got(if l.Some? then 1 else 0, cur + 1)
    ensures l.Some? ==> SkipScalingList(bits, cur + 1, size, 8, 8) == Got((), cur + |WriteList(l)|)
    ensures l.None? ==> |WriteList(l)| == 1
  {
    hide Field, WriteSigned, SkipScalingList, ListOk;
    if l.Some? {
      AtSplit(bits, cur, Binary(1, 1), WriteSigned(l.value));
      FlagRoundTrip(bits, cur, 1);
      ListRoundTrip(bits, cur + 1, l.value, size, 8, 8);
    } else {
      FlagRoundTrip(bits, cur, 0);
    }
  }

  lemma {:induction false} ListsRoundTrip(bits: seq<Bit>, cur: nat, lists: seq<Option<seq<int>>>, i: nat)
    requires |lists| == 8 && i <= 8 && ListsOk(lists) && At(bits, cur, WriteLists(lists[i..]))
    ensures SkipScalingLists(bits, cur, i) == Got((), cur + |WriteLists(lists[i..])|)
    decreases 8 - i
  {
    hide Field, WriteList, SkipScalingList, ListOk, Binary;
    if i < 8 {
      var l := lists[i];
      assert lists[i..][1..] == lists[i+1..] && lists[i..][0] == l;
      AtSplit(bits, cur, WriteList(l), WriteLists(lists[i+1..]));
      OneListRoundTrip(bits, cur, l, ListSize(i));
      ListsRoundTrip(bits, cur + |WriteList(l)|, lists, i + 1);
    }
  }

  lemma ScalingRoundTrip(bits: seq<Bit>, cur: nat, c: ChromaInfo)
    requires ChromaOk(c) && (c.scaling.Some? ==> c.format != 3) && At(bits, cur, WriteScaling(c.scaling))
    ensures Field(bits, 1, cur) == Got(if c.scaling.Some? then 1 else 0, cur + 1)
    ensures c.scaling.Some? ==> SkipScalingLists(bits, cur + 1, 0) == Got((), cur + |WriteScaling(c.scaling)|)
  {
    hide Field, Binary, SkipScalingLists, WriteLists, ListsOk;
    if c.scaling.Some? {
      AtSplit(bits, cur, Binary(1, 1), WriteLists(c.scaling.value));
      FlagRoundTrip(bits, cur, 1);
      assert c.scaling.value[0..] == c.scaling.value;
      ListsRoundTrip(bits, cur + 1, c.scaling.value, 0);
    } else {
      FlagRoundTrip(bits, cur, 0);
    }
  }

  /** The depth of chroma, the bypass flag and the scaling lists. */
  lemma ChromaTailRoundTrip(bits: seq<Bit>, cur: nat, c: ChromaInfo)
    requires ChromaOk(c) && (c.scaling.Some? ==> c.format != 3)
    requires At(bits, cur, EncodeUnsigned(c.chromaDepth) + (Binary(c.bypass, 1) + WriteScaling(c.scaling)))
    ensures var c1 := cur + |EncodeUnsigned(c.chromaDepth)|;
      && UnsignedGolomb(bits, cur) == Got(c.chromaDepth, c1)
      && Field(bits, 1, c1) == Got(c.bypass, c1 + 1)
      && Field(bits, 1, c1 + 1) == Got(if c.scaling.Some? then 1 else 0, c1 + 2)
      && (c.scaling.Some? ==>
            SkipScalingLists(bits, c1 + 2, 0) == Got((), c1 + 1 + |WriteScaling(c.scaling)|))
  {
    hide Field, UnsignedGolomb, EncodeUnsigned, Binary, SkipScalingLists, WriteScaling, At, ListsOk;
    AtSplit(bits, cur, EncodeUnsigned(c.chromaDepth), Binary(c.bypass, 1) + WriteScaling(c.scaling));
    UnsignedRoundTrip(bits, cur, c.chromaDepth);
    var c1 := cur + |EncodeUnsigned(c.chromaDepth)|;
    AtSplit(bits, c1, Binary(c.bypass, 1), WriteScaling(c.scaling));
    FlagRoundTrip(bits, c1, c.bypass);
    ScalingRoundTrip(bits, c1 + 1, c);
  }

  /** The format, its plane flag and the depth of luma. */
  lemma ChromaHeadRoundTrip(bits: seq<Bit>, cur: nat, c: ChromaInfo, rest: seq<Bit>)
    requires ChromaOk(c)
    requires At(bits, cur, EncodeUnsigned(c.format) + (PlaneFlag(c) + (EncodeUnsigned(c.lumaDepth) + rest)))
    ensures var c1 := cur + |EncodeUnsigned(c.format)|;
      var c2 := c1 + |PlaneFlag(c)|;
      var c3 := c2 + |EncodeUnsigned(c.lumaDepth)|;
      && UnsignedGolomb(bits, cur) == Got(c.format, c1)
      && (c.format == 3 ==> Field(bits, 1, c1) == Got(c.separatePlane, c2))
      && UnsignedGolomb(bits, c2) == Got(c.lumaDepth, c3)
      && At(bits, c3, rest)
  {
    hide Field, UnsignedGolomb, EncodeUnsigned, Binary, At, ListsOk;
    var w2 := EncodeUnsigned(c.lumaDepth) + rest;
    AtSplit(bits, cur, EncodeUnsigned(c.format), PlaneFlag(c) + w2);
    UnsignedRoundTrip(bits, cur, c.format);
    var c1 := cur + |EncodeUnsigned(c.format)|;
    AtSplit(bits, c1, PlaneFlag(c), w2);
    if c.format == 3 {
      FlagRoundTrip(bits, c1, c.separatePlane);
    }
    var c2 := c1 + |PlaneFlag(c)|;
    AtSplit(bits, c2, EncodeUnsigned(c.lumaDepth), rest);
    UnsignedRoundTrip(bits, c2, c.lumaDepth);
  }

  lemma ChromaRoundTrip(bits: seq<Bit>, cur: nat, c: ChromaInfo)
    requires ChromaOk(c) && (c.scaling.Some? ==> c.format != 3) && At(bits, cur, WriteChroma(c))
    ensures SkipChroma(bits, cur) == Got((), cur + |WriteChroma(c)|)
  {
    hide Field, UnsignedGolomb, EncodeUnsigned, Binary, SkipScalingLists, WriteScaling, At, ListsOk;
    var rest := EncodeUnsigned(c.chromaDepth) + (Binary(c.bypass, 1) + WriteScaling(c.scaling));
    ChromaHeadRoundTrip(bits, cur, c, rest);
    var c1 := cur + |EncodeUnsigned(c.format)|;
    ChromaTailRoundTrip(bits, c1 + |PlaneFlag(c)| + |EncodeUnsigned(c.lumaDepth)|, c);
    ScalingLength(c.scaling);
  }

  lemma ScalingLength(scaling: Option<seq<Option<seq<int>>>>)
    ensures |WriteScaling(scaling)| >= 1 && (scaling.None? ==> |WriteScaling(scaling)| == 1)
  {
  }

  lemma OrderRoundTrip(bits: seq<Bit>, cur: nat, log2FrameNum: nat, o: Order)
    requires Encodable(log2FrameNum) && OrderOk(o)
    requires At(bits, cur, EncodeUnsigned(log2FrameNum) + WriteOrder(o))
    ensures SkipOrderCount(bits, cur) == Got((), cur + |EncodeUnsigned(log2FrameNum) + WriteOrder(o)|)
  {
    hide Field, UnsignedGolomb, SignedGolomb, EncodeUnsigned, EncodeSigned, Binary, SkipSigned, WriteSigned, At;
    AtSplit(bits, cur, EncodeUnsigned(log2FrameNum), WriteOrder(o));
    UnsignedRoundTrip(bits, cur, log2FrameNum);
    var c1 := cur + |EncodeUnsigned(log2FrameNum)|;
    match o
    case Lsb(n) =>
      AtSplit(bits, c1, EncodeUnsigned(0), EncodeUnsigned(n));
      UnsignedRoundTrip(bits, c1, 0);
      UnsignedRoundTrip(bits, c1 + |EncodeUnsigned(0)|, n);
    case Cycle(z, a, b, refs) =>
      CycleRoundTrip(bits, c1, o);
    case OutputOrder =>
      UnsignedRoundTrip(bits, c1, 2);
  }

  lemma CycleRoundTrip(bits: seq<Bit>, cur: nat, o: Order)
    requires o.Cycle? && OrderOk(o) && At(bits, cur, WriteOrder(o))
    ensures var k := UnsignedGolomb(bits, cur);
      && k.Got? && k.value == 1
      && var z := Field(bits, 1, k.cursor);
      && z.Got?
      && var a := SignedGolomb(bits, z.cursor);
      && a.Got?
      && var b := SignedGolomb(bits, a.cursor);
      && b.Got?
      && var n := UnsignedGolomb(bits, b.cursor);
      && n.Got?
      && SkipSigned(bits, n.cursor, n.value) == Got((), cur + |WriteOrder(o)|)
  {
    hide Field, UnsignedGolomb, SignedGolomb, EncodeUnsigned, EncodeSigned, Binary, SkipSigned, WriteSigned, At;
    var Cycle(z, a, b, refs) := o;
    var w4 := EncodeUnsigned(|refs|) + WriteSigned(refs);
    var w3 := EncodeSigned(b) + w4;
    var w2 := EncodeSigned(a) + w3;
    var w1 := Binary(z, 1) + w2;
    AtSplit(bits, cur, EncodeUnsigned(1), w1);
    UnsignedRoundTrip(bits, cur, 1);
    var c1 := cur + |EncodeUnsigned(1)|;
    AtSplit(bits, c1, Binary(z, 1), w2);
    FlagRoundTrip(bits, c1, z);
    AtSplit(bits, c1 + 1, EncodeSigned(a), w3);
    SignedRoundTrip(bits, c1 + 1, a);
    var c3 := c1 + 1 + |EncodeSigned(a)|;
    AtSplit(bits, c3, EncodeSigned(b), w4);
    SignedRoundTrip(bits, c3, b);
    var c4 := c3 + |EncodeSigned(b)|;
    AtSplit(bits, c4, EncodeUnsigned(|refs|), WriteSigned(refs));
    UnsignedRoundTrip(bits, c4, |refs|);
    SignedListRoundTrip(bits, c4 + |EncodeUnsigned(|refs|)|, refs);
  }

  function CropOf(crop: Option<Crop>): Crop {
    if crop.None? then Crop(0, 0, 0, 0) else crop.value
  }

  lemma TwoRoundTrips(bits: seq<Bit>, cur: nat, v: nat, w: nat, rest: seq<Bit>)
    requires Encodable(v) && Encodable(w) && At(bits, cur, EncodeUnsigned(v) + (EncodeUnsigned(w) + rest))
    ensures var c1 := cur + |EncodeUnsigned(v)|;
      var c2 := c1 + |EncodeUnsigned(w)|;
      UnsignedGolomb(bits, cur) == Got(v, c1) && UnsignedGolomb(bits, c1) == Got(w, c2) && At(bits, c2, rest)
  {
    hide UnsignedGolomb, EncodeUnsigned, At;
    AtSplit(bits, cur, EncodeUnsigned(v), EncodeUnsigned(w) + rest);
    UnsignedRoundTrip(bits, cur, v);
    var c1 := cur + |EncodeUnsigned(v)|;
    AtSplit(bits, c1, EncodeUnsigned(w), rest);
    UnsignedRoundTrip(bits, c1, w);
  }

  lemma OffsetsRegrouped(c: Crop)
    ensures Binary(1, 1) + (EncodeUnsigned(c.left) + (EncodeUnsigned(c.right)
              + (EncodeUnsigned(c.top) + EncodeUnsigned(c.bottom)))) == WriteCrop(Some(c))
    ensures EncodeUnsigned(c.bottom) + [] == EncodeUnsigned(c.bottom)
  {
    hide Binary, EncodeUnsigned;
  }

  lemma CropRoundTrip(bits: seq<Bit>, cur: nat, crop: Option<Crop>)
    requires (crop.Some? ==> CropOk(crop.value)) && At(bits, cur, WriteCrop(crop))
    ensures ParseCrop(bits, cur) == Got(CropOf(crop), cur + |WriteCrop(crop)|)
  {
    hide Field, UnsignedGolomb, EncodeUnsigned, Binary, At;
    if crop.None? {
      FlagRoundTrip(bits, cur, 0);
    } else {
      var c := crop.value;
      var last := EncodeUnsigned(c.top) + (EncodeUnsigned(c.bottom) + []);
      OffsetsRegrouped(c);
      AtSplit(bits, cur, Binary(1, 1), EncodeUnsigned(c.left) + (EncodeUnsigned(c.right) + last));
      FlagRoundTrip(bits, cur, 1);
      TwoRoundTrips(bits, cur + 1, c.left, c.right, last);
      TwoRoundTrips(bits, cur + 1 + |EncodeUnsigned(c.left)| + |EncodeUnsigned(c.right)|, c.top, c.bottom, []);
    }
  }

  /** The flags and the cropping offsets that follow the size in macroblocks. */
  lemma SizeTailRoundTrip(bits: seq<Bit>, cur: nat, s: ParameterSet)
    requires (s.crop.Some? ==> CropOk(s.crop.value)) && At(bits, cur, WriteSizeTail(s))
    ensures var c := if s.frameMbsOnly == 0 then cur + 2 else cur + 1;
      && Field(bits, 1, cur) == Got(s.frameMbsOnly, cur + 1)
      && (s.frameMbsOnly == 0 ==> Field(bits, 1, cur + 1) == Got(s.adaptive, cur + 2))
      && Field(bits, 1, c) == Got(s.direct, c + 1)
      && ParseCrop(bits, c + 1) == Got(CropOf(s.crop), c + 1 + |WriteCrop(s.crop)|)
      && Field(bits, 1, c + 1 + |WriteCrop(s.crop)|) == Got(s.vui, cur + |WriteSizeTail(s)|)
  {
    hide Field, Binary, At, ParseCrop, WriteCrop;
    var mbaff := if s.frameMbsOnly == 0 then Binary(s.adaptive, 1) else [];
    var w2 := WriteCrop(s.crop) + Binary(s.vui, 1);
    var w1 := Binary(s.direct, 1) + w2;
    AtSplit(bits, cur, Binary(s.frameMbsOnly, 1), mbaff + w1);
    FlagRoundTrip(bits, cur, s.frameMbsOnly);
    AtSplit(bits, cur + 1, mbaff, w1);
    if s.frameMbsOnly == 0 {
      FlagRoundTrip(bits, cur + 1, s.adaptive);
    }
    var c := cur + 1 + |mbaff|;
    AtSplit(bits, c, Binary(s.direct, 1), w2);
    FlagRoundTrip(bits, c, s.direct);
    AtSplit(bits, c + 1, WriteCrop(s.crop), Binary(s.vui, 1));
    CropRoundTrip(bits, c + 1, s.crop);
    FlagRoundTrip(bits, c + 1 + |WriteCrop(s.crop)|, s.vui);
  }

  lemma SizeRoundTrip(bits: seq<Bit>, cur: nat, s: ParameterSet)
    requires WellFormed(s) && At(bits, cur, WriteSize(s))
    ensures ParseSize(bits, cur)
         == Got(SizeOf(s.widthInMbs, s.heightInUnits, s.frameMbsOnly, CropOf(s.crop)), cur + |WriteSize(s)|)
  {
    hide Field, UnsignedGolomb, EncodeUnsigned, Binary, At, ParseCrop, WriteCrop, ChromaOk, OrderOk, SizeOf;
    hide WriteSizeTail;
    var w3 := EncodeUnsigned(s.heightInUnits - 1) + WriteSizeTail(s);
    var w2 := EncodeUnsigned(s.widthInMbs - 1) + w3;
    AtSplit(bits, cur, EncodeUnsigned(s.maxRefs), Binary(s.gaps, 1) + w2);
    UnsignedRoundTrip(bits, cur, s.maxRefs);
    var c1 := cur + |EncodeUnsigned(s.maxRefs)|;
    AtSplit(bits, c1, Binary(s.gaps, 1), w2);
    FlagRoundTrip(bits, c1, s.gaps);
    AtSplit(bits, c1 + 1, EncodeUnsigned(s.widthInMbs - 1), w3);
    UnsignedRoundTrip(bits, c1 + 1, s.widthInMbs - 1);
    var c3 := c1 + 1 + |EncodeUnsigned(s.widthInMbs - 1)|;
    AtSplit(bits, c3, EncodeUnsigned(s.heightInUnits - 1), WriteSizeTail(s));
    UnsignedRoundTrip(bits, c3, s.heightInUnits - 1);
    SizeTailRoundTrip(bits, c3 + |EncodeUnsigned(s.heightInUnits - 1)|, s);
  }

  /** The parameter sets the parser reads as the standard means them. It does not know five of the
      profiles with chroma information, nor the four further lists of chroma_format_idc 3. */
  predicate Supported(s: ParameterSet) {
    && WellFormed(s)
    && s.profile !in {128, 138, 139, 134, 135}
    && (s.chroma.Some? && s.chroma.value.format == 3 ==> s.chroma.value.scaling.None?)
  }

  function InfoOf(s: ParameterSet): Info {
    var (w, h) := SizeOf(s.widthInMbs, s.heightInUnits, s.frameMbsOnly, CropOf(s.crop));
    Info(w, h, s.profile, s.level)
  }

  lemma ByteRoundTrip(bits: seq<Bit>, cur: nat, n: nat)
    requires n < 256 && At(bits, cur, Binary(n, 8))
    ensures Field(bits, 8, cur) == Got(n, cur + 8)
  {
    assert Pow2(8) == 256 by { Pow2Of8(); }
    FieldRoundTrip(bits, cur, n, 8);
  }

  lemma Pow2Of8()
    ensures Pow2(8) == 256
  {
    assert Pow2(4) == 16;
    Pow2Sum(4, 4);
  }

  lemma BodyRoundTrip(bits: seq<Bit>, cur: nat, s: ParameterSet)
    requires Supported(s)
    requires At(bits, cur, (if s.chroma.Some? then WriteChroma(s.chroma.value) else [])
                           + ((EncodeUnsigned(s.log2FrameNum) + WriteOrder(s.order)) + WriteSize(s)))
    ensures var r := ParseBody(bits, cur, s.profile);
      r.Got? && r.value == SizeOf(s.widthInMbs, s.heightInUnits, s.frameMbsOnly, CropOf(s.crop))
  {
    hide SkipChroma, SkipOrderCount, ParseSize, WriteChroma, WriteOrder, WriteSize, EncodeUnsigned, At, SizeOf;
    var chroma := if s.chroma.Some? then WriteChroma(s.chroma.value) else [];
    var order := EncodeUnsigned(s.log2FrameNum) + WriteOrder(s.order);
    AtSplit(bits, cur, chroma, order + WriteSize(s));
    if s.chroma.Some? {
      ChromaRoundTrip(bits, cur, s.chroma.value);
    }
    AtSplit(bits, cur + |chroma|, order, WriteSize(s));
    OrderRoundTrip(bits, cur + |chroma|, s.log2FrameNum, s.order);
    SizeRoundTrip(bits, cur + |chroma| + |order|, s);
  }

  /** NAL header, profile, constraint flags and level. */
  lemma HeaderRoundTrip(bits: seq<Bit>, s: ParameterSet, rest: seq<Bit>)
    requires s.header < 256 && s.profile < 256 && s.constraints < 256 && s.level < 256
    requires At(bits, 0, Binary(s.header, 8) + (Binary(s.profile, 8) + (Binary(s.constraints, 8)
                           + (Binary(s.level, 8) + rest))))
    ensures |bits| >= 32 && Field(bits, 8, 0) == Got(s.header, 8) && Field(bits, 8, 8) == Got(s.profile, 16)
    ensures Field(bits, 8, 16) == Got(s.constraints, 24) && Field(bits, 8, 24) == Got(s.level, 32)
    ensures At(bits, 32, rest)
  {
    hide At, Field, Binary;
    var w3 := Binary(s.level, 8) + rest;
    var w2 := Binary(s.constraints, 8) + w3;
    AtSplit(bits, 0, Binary(s.header, 8), Binary(s.profile, 8) + w2);
    ByteRoundTrip(bits, 0, s.header);
    AtSplit(bits, 8, Binary(s.profile, 8), w2);
    ByteRoundTrip(bits, 8, s.profile);
    AtSplit(bits, 16, Binary(s.constraints, 8), w3);
    ByteRoundTrip(bits, 16, s.constraints);
    AtSplit(bits, 24, Binary(s.level, 8), rest);
    ByteRoundTrip(bits, 24, s.level);
  }

  /** The parser recovers what was written, whatever follows the parameter set. */
  lemma {:induction false} BitsRoundTrip(s: ParameterSet, tail: seq<Bit>)
    requires Supported(s)
    ensures var r := ParseBits(Write(s) + tail);
      r.Got? && r.value == InfoOf(s)
  {
    hide At, Field, UnsignedGolomb, EncodeUnsigned, Binary, ParseBody;
    hide WriteChroma, WriteOrder, WriteSize, WellFormed, SizeOf;
    var bits := Write(s) + tail;
    PrefixAt(Write(s), tail);
    HeaderOk(s);
    var w5 := (if s.chroma.Some? then WriteChroma(s.chroma.value) else [])
              + ((EncodeUnsigned(s.log2FrameNum) + WriteOrder(s.order)) + WriteSize(s));
    HeaderRoundTrip(bits, s, EncodeUnsigned(s.id) + w5);
    AtSplit(bits, 32, EncodeUnsigned(s.id), w5);
    UnsignedRoundTrip(bits, 32, s.id);
    BodyRoundTrip(bits, 32 + |EncodeUnsigned(s.id)|, s);
  }

  lemma PrefixAt(a: seq<Bit>, b: seq<Bit>)
    ensures At(a + b, 0, a)
  {
  }

  lemma HeaderOk(s: ParameterSet)
    requires WellFormed(s)
    ensures s.header < 256 && s.profile < 256 && s.constraints < 256 && s.level < 256 && Encodable(s.id)
    ensures s.widthInMbs > 0 && s.heightInUnits > 0
  {
  }

  // ----- From bits to bytes -----

  lemma {:induction false} ValueBound(bits: seq<Bit>)
    ensures Value(bits) < Pow2(|bits|)
  {
    if bits != [] {
      ValueBound(bits[..|bits|-1]);
    }
  }

  function PackByte(bits: seq<Bit>): (b: Byte)
    requires |bits| == 8
  {
    ValueBound(bits);
    Pow2Of8();
    Value(bits)
  }

  function Pack(bits: seq<Bit>): (d: seq<Byte>)
    requires |bits| % 8 == 0
    ensures 8 * |d| == |bits|
  {
    if bits == [] then [] else [PackByte(bits[..8])] + Pack(bits[8..])
  }

  lemma {:induction false} ValueBit(bits: seq<Bit>, k: nat)
    requires k < |bits|
    ensures ShiftRight(Value(bits), |bits| - 1 - k) % 2 == bits[k]
    decreases |bits|
  {
    if k < |bits| - 1 {
      ValueBit(bits[..|bits|-1], k);
      assert Value(bits) / 2 == Value(bits[..|bits|-1]);
    }
  }

  lemma {:induction false} PackBit(bits: seq<Bit>, i: nat)
    requires |bits| % 8 == 0 && i < |bits|
    ensures BitAt(Pack(bits), i) == bits[i]
    decreases i
  {
    hide Value, ShiftRight;
    if i < 8 {
      ValueBit(bits[..8], i);
    } else {
      PackBit(bits[8..], i - 8);
      assert (i - 8) / 8 == i / 8 - 1 && (i - 8) % 8 == i % 8;
    }
  }

  lemma BitsOfPack(bits: seq<Bit>)
    requires |bits| % 8 == 0
    ensures BitsOf(Pack(bits)) == bits
  {
    hide Pack, BitAt;
    forall i | 0 <= i < |bits| ensures BitsOf(Pack(bits))[i] == bits[i] {
      PackBit(bits, i);
    }
  }

  const LONG_START_CODE: seq<Byte> := [0, 0, 0, 1]

  /** Round trip: from a parameter set behind a 4-byte start code the parser recovers profile, level
      and size, whatever bits fill up its last byte and follow it. */
  lemma {:induction false} ParameterSetRoundTrip(s: ParameterSet, tail: seq<Bit>)
    requires Supported(s) && |Write(s) + tail| % 8 == 0
    ensures var r := ParseSps(LONG_START_CODE + Pack(Write(s) + tail));
      r.Got? && r.value == InfoOf(s)
  {
    var d := LONG_START_CODE + Pack(Write(s) + tail);
    assert d[..4] == LONG_START_CODE && d[4..] == Pack(Write(s) + tail);
    hide Write, Pack, ParseBits, InfoOf, Supported;
    BitsOfPack(Write(s) + tail);
    BitsRoundTrip(s, tail);
  }

  /** The first four bytes of a buffer are dropped whatever they are, unless the 16-bit length is below
      four and they are no start code. */
  lemma StartCodeIsNotChecked(prefix: seq<Byte>, d: seq<Byte>)
    requires |prefix| == 4
    ensures ParseSps(prefix + d)
         == if |prefix + d| % 0x1_0000 >= 4 || prefix == LONG_START_CODE then ParseBits(BitsOf(d))
            else ParseBits(BitsOf(prefix + d))
  {
    hide ParseBits;
    assert (prefix + d)[4..] == d && (prefix + d)[..4] == prefix;
  }

  lemma BitsOfTail(d: seq<Byte>)
    requires d != []
    ensures BitsOf(d[1..]) == BitsOf(d)[8..]
  {
    hide ShiftRight;
    forall i | 0 <= i < 8 * |d| - 8 ensures BitsOf(d[1..])[i] == BitsOf(d)[8..][i] {
      assert (i + 8) / 8 == i / 8 + 1 && (i + 8) % 8 == i % 8;
    }
  }

  lemma {:induction false} NothingShifted(k: nat)
    ensures ShiftRight(0, k) == 0
  {
    if k > 0 {
      NothingShifted(k - 1);
    }
  }

  lemma {:induction false} ValueOfZeros(bits: seq<Bit>)
    requires forall i | 0 <= i < |bits| :: bits[i] == 0
    ensures Value(bits) == 0
  {
    if bits != [] {
      ValueOfZeros(bits[..|bits|-1]);
    }
  }

  lemma ZeroByte(d: seq<Byte>)
    requires |d| >= 2 && d[1] == 0
    ensures |BitsOf(d)| >= 16 && Field(BitsOf(d), 8, 8) == Got(0, 16)
  {
    hide ShiftRight;
    var byte := BitsOf(d)[8..16];
    forall i | 0 <= i < 8 ensures byte[i] == 0 {
      assert (i + 8) / 8 == 1;
      NothingShifted(7 - (i + 8) % 8);
    }
    ValueOfZeros(byte);
  }

  /** The header and the profile are read as such only at their own place: a byte further, what counts
      as the profile are the constraint flags. */
  lemma ConstraintsReadAsProfile(s: ParameterSet, tail: seq<Bit>)
    requires WellFormed(s)
    ensures var bits := Write(s) + tail;
      |bits| >= 32 && Field(bits[8..], 8, 8) == Got(s.constraints, 16)
  {
    hide At, Binary, Value, EncodeUnsigned, WriteChroma, WriteOrder, WriteSize;
    var bits := Write(s) + tail;
    PrefixAt(Write(s), tail);
    HeaderOk(s);
    var w5 := (if s.chroma.Some? then WriteChroma(s.chroma.value) else [])
              + ((EncodeUnsigned(s.log2FrameNum) + WriteOrder(s.order)) + WriteSize(s));
    HeaderRoundTrip(bits, s, EncodeUnsigned(s.id) + w5);
    assert bits[8..][8..16] == bits[16..24];
  }

  lemma ProfileIsTheSecondByte(bits: seq<Bit>)
    ensures var r := ParseBits(bits);
      r.Got? ==> |bits| >= 16 && Field(bits, 8, 8) == Got(r.value.profile, 16)
  {
    hide UnsignedGolomb, ParseBody, Value;
  }

  const SHORT_START_CODE: seq<Byte> := [0, 0, 1]

  /** Behind a 3-byte start code the whole set is read one byte too far on: the profile, if there is a
      result at all, is the byte of constraint flags (or 0, at lengths that look too short). */
  lemma ShortStartCodeIsMisread(s: ParameterSet, tail: seq<Bit>)
    requires WellFormed(s) && |Write(s) + tail| % 8 == 0
    ensures var d := SHORT_START_CODE + Pack(Write(s) + tail);
      var r := ParseSps(d);
      r.Got? ==> r.value.profile == if |d| % 0x1_0000 >= 4 then s.constraints else 0
  {
    hide Write, Pack, ParseBits, WellFormed, Field, BitsOf;
    var bits := Write(s) + tail;
    var bytes := Pack(bits);
    var d := SHORT_START_CODE + bytes;
    ConstraintsReadAsProfile(s, tail);
    BitsOfPack(bits);
    BitsOfTail(bytes);
    assert |bytes| >= 4 && d[4..] == bytes[1..] && d[1] == 0 && d[..4][2] == 1;
    ZeroByte(d);
    ProfileIsTheSecondByte(BitsOf(d));
    ProfileIsTheSecondByte(bits[8..]);
  }

  /** A set of the baseline profile, 640 by 480. */
  const BASELINE := ParameterSet(0x67, 66, 0, 30, 0, None, 0, Order.Lsb(0), 1, 0, 40, 30, 1, 0, 1, None, 0)

  /** This set is read correctly behind the long start code and never behind the short one. */
  lemma ShortStartCodeFails(tail: seq<Bit>)
    requires |Write(BASELINE) + tail| % 8 == 0
    ensures Supported(BASELINE)
    ensures var bytes := Pack(Write(BASELINE) + tail);
      var long, short := ParseSps(LONG_START_CODE + bytes), ParseSps(SHORT_START_CODE + bytes);
      && long.Got? && long.value == Info(640, 480, 66, 30)
      && !(short.Got? && short.value == Info(640, 480, 66, 30))
  {
    hide Write, Pack, ParseSps;
    BaselineIsSupported();
    ParameterSetRoundTrip(BASELINE, tail);
    ShortStartCodeIsMisread(BASELINE, tail);
  }

  lemma BaselineIsSupported()
    ensures Supported(BASELINE) && InfoOf(BASELINE) == Info(640, 480, 66, 30)
  {
    Pow2Of31();
  }

  // ----- The size against the standard -----

  function ChromaFormat(s: ParameterSet): nat {
    if s.chroma.None? then 1
    else if s.chroma.value.format == 3 && s.chroma.value.separatePlane == 1 then 0
    else s.chroma.value.format
  }

  /** Section 7.4.2.1.1: the cropping units, by chroma format. */
  function CropUnits(s: ParameterSet): (int, int) {
    var format := ChromaFormat(s);
    (if format == 1 || format == 2 then 2 else 1,
     (if format == 1 then 2 else 1) * (2 - s.frameMbsOnly))
  }

  /** The size of the cropped picture that the standard defines. */
  function StandardSize(s: ParameterSet): (int, int) {
    var (x, y) := CropUnits(s);
    var c := CropOf(s.crop);
    (16 * s.widthInMbs - x * (c.left + c.right),
     16 * (2 - s.frameMbsOnly) * s.heightInUnits - y * (c.top + c.bottom))
  }

  /** The parser's size is the standard's exactly when the crop offsets it mixes up balance; without
      cropping it always is. */
  lemma {:induction false} SizeIsStandardIff(s: ParameterSet, tail: seq<Bit>)
    requires Supported(s) && |Write(s) + tail| % 8 == 0
    ensures var r := ParseSps(LONG_START_CODE + Pack(Write(s) + tail));
      var (x, y), c := CropUnits(s), CropOf(s.crop);
      && r.Got?
      && ((r.value.width, r.value.height) == StandardSize(s) <==>
            x * (c.left + c.right) == 2 * (c.top + c.bottom) && y * (c.top + c.bottom) == 2 * (c.left + c.right))
      && (s.crop.None? ==> (r.value.width, r.value.height) == StandardSize(s))
  {
    ParameterSetRoundTrip(s, tail);
    hide Write, Pack, ParseSps, Supported, CropUnits;
    CropAlgebra(s);
  }

  lemma CropAlgebra(s: ParameterSet)
    ensures var i := InfoOf(s);
      var (x, y), c := CropUnits(s), CropOf(s.crop);
      && ((i.width, i.height) == StandardSize(s) <==>
            x * (c.left + c.right) == 2 * (c.top + c.bottom) && y * (c.top + c.bottom) == 2 * (c.left + c.right))
      && (s.crop.None? ==> (i.width, i.height) == StandardSize(s))
  {
    assert 16 * (2 - s.frameMbsOnly) * s.heightInUnits == (2 - s.frameMbsOnly) * s.heightInUnits * 16;
  }
}
