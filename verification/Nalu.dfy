/** The Annex B scanner of nalu.cpp: finding NAL units by their start codes (Annex B of ITU-T H.264),
    extracting one of them, and telling whether a buffer holds an IDR picture. */
module Nalu {
  import opened Media

  type Byte = b: int | 0 <= b < 256

  const CODED_SLICE := 1
  const IDR_SLICE := 5
  const ANY_TYPE := 255

  /** A NAL unit: where its start code begins, how long that is, and the type that follows it. */
  datatype Unit = Unit(offset: nat, header: nat, nalType: nat)

  /** Two or three zero bytes, a one, and at least one more byte. */
  ghost predicate StartCode(d: seq<Byte>, i: nat, h: nat) {
    && (h == 3 || h == 4) && i + h < |d|
    && d[i + h - 1] == 1
    && forall j | i <= j < i + h - 1 :: d[j] == 0
  }

  ghost predicate NoStartCode(d: seq<Byte>, from: nat, to: nat) {
    forall i: nat, h: nat | from <= i < to :: !StartCode(d, i, h)
  }

  /** The length of the start code at position i, or 0. */
  function HeaderAt(d: seq<Byte>, i: nat): (h: nat)
    requires i <= |d|
    ensures h == 0 <==> !StartCode(d, i, 3) && !StartCode(d, i, 4)
    ensures h != 0 ==> StartCode(d, i, h)
  {
    if |d| - i > 3 && d[i] == 0 && d[i+1] == 0 then
      if d[i+2] == 0 && |d| - i > 4 && d[i+3] == 1 then 4
      else if d[i+2] == 1 then 3
      else 0
    else 0
  }

  /** The first unit at or after `from`. */
  function Scan(d: seq<Byte>, from: nat): Option<Unit>
    requires from <= |d|
    decreases |d| - from
  {
    if |d| - from <= 3 then None
    else if HeaderAt(d, from) != 0 then
      var h := HeaderAt(d, from);
      Some(Unit(from, h, d[from + h] % 32))
    else Scan(d, from + 1)
  }

  lemma {:induction false} ScanIsLeast(d: seq<Byte>, from: nat)
    requires from <= |d|
    ensures match Scan(d, from)
      case None => NoStartCode(d, from, |d|)
      case Some(u) => from <= u.offset && StartCode(d, u.offset, u.header)
                      && u.nalType == d[u.offset + u.header] % 32 && NoStartCode(d, from, u.offset)
    decreases |d| - from
  {
    if |d| - from > 3 && HeaderAt(d, from) == 0 {
      ScanIsLeast(d, from + 1);
    }
  }

  method FindNextNal(data: seq<Byte>, from: nat) returns (r: Option<Unit>)
    requires from <= |data|
    ensures r == Scan(data, from)
    ensures match r
      case None => NoStartCode(data, from, |data|)
      case Some(u) => from <= u.offset && StartCode(data, u.offset, u.header)
                      && u.nalType == data[u.offset + u.header] % 32 && NoStartCode(data, from, u.offset)
  {
    ScanIsLeast(data, from);
    var at := from;
    while |data| - at > 3
      invariant from <= at <= |data|
      invariant Scan(data, at) == Scan(data, from)
    {
      if data[at] == 0 && data[at+1] == 0 {
        if data[at+2] == 0 && |data| - at > 4 && data[at+3] == 1 {
          return Some(Unit(at, 4, data[at+4] % 32));
        }
        if data[at+2] == 1 {
          return Some(Unit(at, 3, data[at+3] % 32));
        }
      }
      at := at + 1;
    }
    return None;
  }

  /** All units of a buffer; the next one is looked for right after a start code. */
  function Units(d: seq<Byte>, from: nat): seq<Unit>
    requires from <= |d|
    decreases |d| - from
  {
    ScanIsLeast(d, from);
    var u := Scan(d, from);
    if u.None? then [] else [u.value] + Units(d, u.value.offset + u.value.header)
  }

  predicate IsSlice(u: Unit) {
    u.nalType == 1 || u.nalType == 5
  }

  /** The k-th unit is the first slice. */
  ghost predicate FirstSlice(us: seq<Unit>, k: nat) {
    k < |us| && IsSlice(us[k]) && forall j | 0 <= j < k :: !IsSlice(us[j])
  }

  method ContainsIdrFrame(data: seq<Byte>) returns (r: bool)
    ensures r <==> exists k: nat :: FirstSlice(Units(data, 0), k) && Units(data, 0)[k].nalType == 5
  {
    hide Scan, StartCode, NoStartCode, Units;
    ghost var us := Units(data, 0);
    ghost var n := 0;
    var at := 0;
    while at < |data|
      invariant at <= |data| && n <= |us| && us[n..] == Units(data, at)
      invariant forall j | 0 <= j < n :: !IsSlice(us[j])
      decreases |data| - at
    {
      var u := FindNextNal(data, at);
      UnitsStep(data, at, us, n);
      if u.None? {
        return false;
      }
      if u.value.nalType == IDR_SLICE {
        assert FirstSlice(us, n);
        return true;
      }
      if u.value.nalType == CODED_SLICE {
        assert FirstSlice(us, n);
        return false;
      }
      at := u.value.offset + u.value.header;
      n := n + 1;
    }
    NoMoreUnits(data);
    return false;
  }

  /** A unit cut out of a buffer, and how much of the buffer follows it. */
  datatype Piece = Piece(offset: nat, size: nat, remaining: nat)

  function Cut(d: seq<Byte>, u: Unit): (p: Piece)
    requires u.offset + u.header <= |d|
    ensures p.offset == u.offset && p.offset + p.size + p.remaining == |d| && p.size >= u.header
    ensures p.remaining == 0 <==> Scan(d, u.offset + u.header).None?
    ensures p.remaining > 0 ==> Scan(d, u.offset + u.header).value.offset == p.offset + p.size
  {
    ScanIsLeast(d, u.offset + u.header);
    var next := Scan(d, u.offset + u.header);
    if next.None? then Piece(u.offset, |d| - u.offset, 0)
    else Piece(u.offset, next.value.offset - u.offset, |d| - next.value.offset)
  }

  predicate Matches(u: Unit, wanted: nat) {
    u.nalType == wanted || wanted == ANY_TYPE
  }

  /** The k-th unit is the first of the wanted type, and no slice comes before it. */
  ghost predicate Wanted(us: seq<Unit>, wanted: nat, k: nat) {
    k < |us| && Matches(us[k], wanted) && forall j | 0 <= j < k :: !Matches(us[j], wanted) && !IsSlice(us[j])
  }

  lemma {:induction false} UnitsInRange(d: seq<Byte>, from: nat)
    requires from <= |d|
    ensures forall u | u in Units(d, from) :: u.offset + u.header <= |d|
    decreases |d| - from
  {
    ScanIsLeast(d, from);
    var u := Scan(d, from);
    if u.Some? {
      UnitsInRange(d, u.value.offset + u.value.header);
    }
  }

  /** `p` is the piece cut out for the k-th unit of the buffer. */
  ghost predicate CutAt(d: seq<Byte>, wanted: nat, k: nat, p: Piece) {
    var us := Units(d, 0);
    && Wanted(us, wanted, k)
    && us[k].offset + us[k].header <= |d|
    && p == Cut(d, us[k])
  }

  lemma UnitsStep(d: seq<Byte>, from: nat, us: seq<Unit>, n: nat)
    requires from <= |d| && n <= |us| && us[n..] == Units(d, from)
    ensures match Scan(d, from)
      case None => n == |us|
      case Some(u) => n < |us| && us[n] == u && u.offset + u.header < |d| && from < u.offset + u.header
                      && us[n+1..] == Units(d, u.offset + u.header)
  {
    ScanIsLeast(d, from);
    hide Scan, StartCode, NoStartCode;
    assert n == |us| <==> us[n..] == [];
    if n < |us| {
      assert us[n] == us[n..][0] && us[n+1..] == us[n..][1..];
    }
  }

  method ExtractNalu(data: seq<Byte>, wanted: nat) returns (r: Option<Piece>)
    ensures r.None? ==> forall k: nat :: !Wanted(Units(data, 0), wanted, k)
    ensures r.Some? ==> exists k: nat :: CutAt(data, wanted, k, r.value)
  {
    hide Scan, StartCode, NoStartCode, Units;
    ghost var us := Units(data, 0);
    ghost var n := 0;
    var at := 0;
    while at < |data|
      invariant at <= |data| && n <= |us| && us[n..] == Units(data, at)
      invariant forall j | 0 <= j < n :: !Matches(us[j], wanted) && !IsSlice(us[j])
      decreases |data| - at
    {
      var nal := FindNextNal(data, at);
      UnitsStep(data, at, us, n);
      if nal.None? {
        return None;
      }
      var u := nal.value;
      if u.nalType == wanted || wanted == ANY_TYPE {
        var next := FindNextNal(data, u.offset + u.header);
        var size, remaining := |data| - u.offset, 0;
        if next.Some? {
          size, remaining := next.value.offset - u.offset, |data| - next.value.offset;
        }
        assert CutAt(data, wanted, n, Piece(u.offset, size, remaining));
        return Some(Piece(u.offset, size, remaining));
      }
      if u.nalType == IDR_SLICE || u.nalType == CODED_SLICE {
        return None;
      }
      at := u.offset + u.header;
      n := n + 1;
    }
    NoMoreUnits(data);
    return None;
  }

  lemma NoMoreUnits(d: seq<Byte>)
    ensures Units(d, |d|) == []
  {
  }

  /** With the wildcard type, extraction takes the first unit there is. */
  lemma AnyTypeTakesTheFirst(d: seq<Byte>, k: nat, p: Piece)
    requires CutAt(d, 255, k, p)
    ensures k == 0 && Scan(d, 0).Some? && p == Cut(d, Scan(d, 0).value)
  {
    hide Scan, Cut;
    assert Matches(Units(d, 0)[0], 255);
  }

  /** Position i belongs to the start code of one of the units. */
  ghost predicate Covered(us: seq<Unit>, i: nat) {
    exists u :: u in us && u.offset <= i < u.offset + u.header
  }

  /** A unit of the buffer: a start code and the type in the byte behind it. */
  ghost predicate IsUnit(d: seq<Byte>, from: nat, u: Unit) {
    from <= u.offset && StartCode(d, u.offset, u.header) && u.nalType == d[u.offset + u.header] % 32
  }

  lemma FirstUnit(d: seq<Byte>, from: nat) returns (rest: seq<Unit>)
    requires from <= |d| && Scan(d, from).Some?
    ensures var u := Scan(d, from).value;
      && u.offset + u.header < |d| && from < u.offset + u.header && IsUnit(d, from, u)
      && NoStartCode(d, from, u.offset)
      && rest == Units(d, u.offset + u.header) && Units(d, from) == [u] + rest
  {
    hide Scan;
    ScanIsLeast(d, from);
    var u := Scan(d, from).value;
    rest := Units(d, u.offset + u.header);
  }

  /** Each unit is one, and they follow each other without overlap. */
  lemma {:induction false} UnitsFollowEachOther(d: seq<Byte>, from: nat)
    requires from <= |d|
    ensures var us := Units(d, from);
      && (forall k :: 0 <= k < |us| ==> IsUnit(d, from, us[k]))
      && (forall k :: 0 < k < |us| ==> us[k-1].offset + us[k-1].header <= us[k].offset)
    decreases |d| - from
  {
    if Scan(d, from).Some? {
      var rest := FirstUnit(d, from);
      hide Scan, StartCode, NoStartCode, Units;
      var us, u := Units(d, from), Scan(d, from).value;
      UnitsFollowEachOther(d, u.offset + u.header);
      forall k | 0 < k < |us|
        ensures IsUnit(d, from, us[k]) && us[k-1].offset + us[k-1].header <= us[k].offset
      {
        assert us[k] == rest[k-1] && IsUnit(d, u.offset + u.header, rest[k-1]);
        if k > 1 { assert us[k-1] == rest[k-2]; }
      }
    }
  }

  /** There are no others: every start code of the buffer is one of theirs or lies within one, as the
      last three bytes of a long one do. */
  lemma {:induction false} UnitsAreComplete(d: seq<Byte>, from: nat, i: nat, h: nat)
    requires from <= i && StartCode(d, i, h)
    ensures Covered(Units(d, from), i)
    decreases |d| - from
  {
    ScanIsLeast(d, from);
    var rest := FirstUnit(d, from);
    var u := Scan(d, from).value;
    hide Scan, Units;
    assert u in Units(d, from);
    if i >= u.offset + u.header {
      UnitsAreComplete(d, u.offset + u.header, i, h);
      CoveredByMore(rest, Units(d, from), i);
    }
  }

  lemma CoveredByMore(a: seq<Unit>, b: seq<Unit>, i: nat)
    requires Covered(a, i) && forall u :: u in a ==> u in b
    ensures Covered(b, i)
  {
  }

  // ----- Splitting a buffer -----

  /** What remains to be scanned of a buffer is scanned alike on its own. */
  lemma {:induction false} ScanSuffix(d: seq<Byte>, k: nat, from: nat)
    requires k + from <= |d|
    ensures var s := Scan(d[k..], from);
      Scan(d, k + from) == if s.None? then None
                           else Some(Unit(k + s.value.offset, s.value.header, s.value.nalType))
    decreases |d| - k - from
  {
    if |d| - k - from > 3 {
      assert HeaderAt(d[k..], from) == HeaderAt(d, k + from);
      if HeaderAt(d, k + from) == 0 {
        ScanSuffix(d, k, from + 1);
      }
    }
  }

  lemma ScanAtStartCode(d: seq<Byte>, from: nat)
    requires from <= |d| && Scan(d, from).Some?
    ensures var u := Scan(d, from).value;
      u.offset < |d| && Scan(d[u.offset..], 0) == Some(Unit(0, u.header, u.nalType))
  {
    ScanIsLeast(d, from);
    var u := Scan(d, from).value;
    ScanSuffix(d, u.offset, 0);
    assert HeaderAt(d, u.offset) == u.header;
  }

  /** Extracts any unit, then goes on with what remains, until nothing is found. */
  function Split(d: seq<Byte>): seq<seq<Byte>>
    decreases |d|
  {
    ScanIsLeast(d, 0);
    var u := Scan(d, 0);
    if u.None? then [] else
    var p := Cut(d, u.value);
    [d[p.offset..p.offset + p.size]] + Split(d[|d| - p.remaining..])
  }

  function Concat(ps: seq<seq<Byte>>): seq<Byte> {
    if ps == [] then [] else ps[0] + Concat(ps[1..])
  }

  lemma CutConcat(d: seq<Byte>, i: nat, j: nat)
    requires i <= j <= |d|
    ensures d[i..j] + d[j..] == d[i..]
  {
  }

  lemma ConcatCons(p: seq<Byte>, ps: seq<seq<Byte>>)
    ensures Concat([p] + ps) == p + Concat(ps)
  {
  }

  lemma SplitRest(d: seq<Byte>, u: Unit, p: Piece)
    requires u.offset + u.header <= |d| && p == Cut(d, u) && u.header > 0
    ensures p.remaining > 0 ==> var s := Scan(d[p.offset + p.size..], 0); s.Some? && s.value.offset == 0
  {
    hide Scan, Cut;
    if p.remaining > 0 {
      ScanAtStartCode(d, u.offset + u.header);
    }
  }

  /** The pieces put together again are the buffer from its first start code on. */
  lemma {:induction false} SplitIsExhaustive(d: seq<Byte>)
    ensures Scan(d, 0).None? ==> Split(d) == []
    ensures Scan(d, 0).Some? ==> Scan(d, 0).value.offset < |d| && Concat(Split(d)) == d[Scan(d, 0).value.offset..]
    decreases |d|
  {
    ScanIsLeast(d, 0);
    hide Scan, StartCode, NoStartCode, Concat, Cut;
    if Scan(d, 0).Some? {
      var u := Scan(d, 0).value;
      var p := Cut(d, u);
      var k := p.offset + p.size;
      assert k == |d| - p.remaining;
      SplitIsExhaustive(d[k..]);
      SplitRest(d, u, p);
      ConcatCons(d[p.offset..k], Split(d[k..]));
      CutConcat(d, p.offset, k);
      if p.remaining == 0 {
        NothingInEmpty();
        assert d[k..] == [];
      } else {
        assert d[k..][0..] == d[k..];
      }
    }
  }

  lemma NothingInEmpty()
    ensures Scan([], 0) == None && Concat(Split([])) == []
  {
  }

  /** Each piece begins with its own start code and holds no other unit of the buffer. */
  lemma SplitPieceIsOneUnit(d: seq<Byte>)
    requires Scan(d, 0).Some?
    ensures var u, p := Scan(d, 0).value, Split(d)[0];
      && StartCode(d, u.offset, u.header) && |p| >= u.header && p == d[u.offset..u.offset + |p|]
      && NoStartCode(d, 0, u.offset) && NoStartCode(d, u.offset + u.header, u.offset + |p|)
      && (u.offset + |p| < |d| ==> HeaderAt(d, u.offset + |p|) != 0)
  {
    hide Scan, StartCode, NoStartCode, HeaderAt;
    ScanIsLeast(d, 0);
    var u := Scan(d, 0).value;
    ScanIsLeast(d, u.offset + u.header);
    var next := Scan(d, u.offset + u.header);
    if next.Some? {
      StartCodeHeader(d, next.value.offset, next.value.header);
    }
  }

  lemma StartCodeHeader(d: seq<Byte>, i: nat, h: nat)
    requires i <= |d| && StartCode(d, i, h)
    ensures HeaderAt(d, i) != 0
  {
  }
}
