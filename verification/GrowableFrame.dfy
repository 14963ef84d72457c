/** The growable frame buffer of frame_basic.cpp. Whether an allocation succeeds is an input. The cost
    of growing is kept in a ghost counter of the bytes copied from an old buffer to a new one. */
module GrowableFrame {
  import Seqs

  type Byte = b: int | 0 <= b < 256

  const OVERALLOCATE_BY := 32
  const GROW_FACTOR := 5

  datatype State = State(capacity: nat, data: seq<Byte>, copied: nat)

  predicate Fits(s: State) {
    |s.data| <= s.capacity
  }

  function NewSize(s: State, additional: nat): nat {
    s.capacity + if s.capacity / GROW_FACTOR > additional then s.capacity / GROW_FACTOR else additional
  }

  function Grow(s: State, desired: nat, keep: bool, granted: bool): (State, bool) {
    if desired <= s.capacity then (s, true)
    else if !granted then (s, false)
    else if keep then (State(desired, s.data, s.copied + |s.data|), true)
    else (State(desired, [], s.copied), true)
  }

  function EnsureFreeSpace(s: State, additional: nat, granted: bool): (State, bool) {
    if s.capacity - |s.data| < additional then Grow(s, NewSize(s, additional), true, granted) else (s, true)
  }

  function Append(s: State, bytes: seq<Byte>, granted: bool): (State, bool) {
    var (t, ok) := EnsureFreeSpace(s, |bytes|, granted);
    if ok then (t.(data := t.data + bytes), true) else (t, false)
  }

  class BasicFrame {
    var data: array?<Byte>
    var allocSize: nat
    var dataSize: nat
    ghost var copied: nat

    /** The buffer, once there is one, ends in zeroes that belong to nobody. */
    ghost predicate Valid()
      reads this, data
    {
      && dataSize <= allocSize
      && (data == null ==> allocSize == 0)
      && (data != null ==> data.Length == allocSize + 32)
      && (data != null ==> forall i :: allocSize <= i < data.Length ==> data[i] == 0)
    }

    ghost function View(): State
      reads this, data
      requires Valid()
    {
      State(allocSize, if data == null then [] else data[..dataSize], copied)
    }

    constructor ()
      ensures Valid() && View() == State(0, [], 0)
    {
      data, allocSize, dataSize, copied := null, 0, 0, 0;
    }

    method AllocMem(desired: nat, granted: bool) returns (mem: array?<Byte>)
      ensures mem == null <==> !granted
      ensures mem != null ==> fresh(mem) && mem.Length == desired + 32
      ensures mem != null ==> forall i :: desired <= i < mem.Length ==> mem[i] == 0
    {
      if !granted {
        return null;
      }
      mem := new Byte[desired + OVERALLOCATE_BY];
      forall i | desired <= i < mem.Length {
        mem[i] := 0;
      }
    }

    method GrowTo(desired: nat, keep: bool, granted: bool) returns (ok: bool)
      requires Valid()
      modifies this
      ensures Valid() && (View(), ok) == Grow(old(View()), desired, keep, granted)
      ensures data == old(data) || fresh(data)
    {
      if desired <= allocSize {
        return true;
      }
      var grown := AllocMem(desired, granted);
      if grown == null {
        return false;
      }
      if keep {
        forall i | 0 <= i < dataSize {
          grown[i] := data[i];
        }
        assert grown[..dataSize] == View().data;
        copied := copied + dataSize;
      } else {
        dataSize := 0;
      }
      data, allocSize := grown, desired;
      return true;
    }

    method EnsureRoom(additional: nat, granted: bool) returns (ok: bool)
      requires Valid()
      modifies this
      ensures Valid() && (View(), ok) == EnsureFreeSpace(old(View()), additional, granted)
      ensures ok ==> dataSize + additional <= allocSize
      ensures data == old(data) || fresh(data)
    {
      ok := true;
      if allocSize - dataSize < additional {
        var step := allocSize / GROW_FACTOR;
        ok := GrowTo(allocSize + if step > additional then step else additional, true, granted);
      }
    }

    method AppendBytes(bytes: seq<Byte>, granted: bool) returns (ok: bool)
      requires Valid()
      modifies this, data
      ensures Valid() && (View(), ok) == Append(old(View()), bytes, granted)
      ensures data == old(data) || fresh(data)
    {
      hide EnsureFreeSpace;
      ok := EnsureRoom(|bytes|, granted);
      if !ok {
        return;
      }
      ghost var before := View().data;
      forall i | 0 <= i < |bytes| {
        data[dataSize + i] := bytes[i];
      }
      dataSize := dataSize + |bytes|;
      if data == null {
        assert before + bytes == [];
      } else {
        assert data[..dataSize] == before + bytes;
      }
    }
  }

  // ----- Runs of appends -----

  datatype Piece = Piece(bytes: seq<Byte>, granted: bool)

  function AppendAll(s: State, pieces: seq<Piece>): (r: (State, seq<bool>))
    ensures |r.1| == |pieces|
    decreases pieces
  {
    if pieces == [] then (s, [])
    else
      var (t, ok) := Append(s, pieces[0].bytes, pieces[0].granted);
      var (end, oks) := AppendAll(t, pieces[1..]);
      (end, [ok] + oks)
  }

  /** The pieces that went in, one after the other. */
  function Joined(pieces: seq<Piece>, oks: seq<bool>): seq<Byte>
    requires |pieces| == |oks|
  {
    if pieces == [] then []
    else (if oks[0] then pieces[0].bytes else []) + Joined(pieces[1..], oks[1..])
  }

  lemma AppendConcatenates(s: State, bytes: seq<Byte>, granted: bool)
    requires Fits(s)
    ensures var (t, ok) := Append(s, bytes, granted);
            && Fits(t)
            && t.data == s.data + (if ok then bytes else [])
            && (ok <==> granted || |s.data| + |bytes| <= s.capacity)
  {
  }

  /** A run of appends is concatenation. */
  lemma {:induction false} AppendsConcatenate(s: State, pieces: seq<Piece>)
    requires Fits(s)
    ensures var (end, oks) := AppendAll(s, pieces);
            Fits(end) && end.data == s.data + Joined(pieces, oks)
    decreases pieces
  {
    hide Append;
    if pieces != [] {
      var piece := pieces[0];
      var (t, ok) := Append(s, piece.bytes, piece.granted);
      AppendConcatenates(s, piece.bytes, piece.granted);
      AppendsConcatenate(t, pieces[1..]);
      var oks := AppendAll(t, pieces[1..]).1;
      assert ([ok] + oks)[1..] == oks;
      Seqs.Associate(s.data, if ok then piece.bytes else [], Joined(pieces[1..], oks));
    }
  }

  /** An append is refused only when it had to grow and could not. */
  lemma {:induction false} RefusedOnlyWithoutMemory(s: State, pieces: seq<Piece>, i: nat)
    requires Fits(s) && i < |pieces| && !AppendAll(s, pieces).1[i]
    ensures !pieces[i].granted
    decreases pieces
  {
    hide Append;
    AppendConcatenates(s, pieces[0].bytes, pieces[0].granted);
    if i > 0 {
      RefusedOnlyWithoutMemory(Append(s, pieces[0].bytes, pieces[0].granted).0, pieces[1..], i - 1);
    }
  }

  /** Growing takes at least a ninth of the buffer, so it pays for the bytes it copies. */
  lemma AppendIsPaidFor(s: State, bytes: seq<Byte>, granted: bool)
    requires Fits(s)
    ensures var (t, ok) := Append(s, bytes, granted);
            && Fits(t) && s.capacity <= t.capacity
            && t.copied - s.copied <= 9 * (t.capacity - s.capacity)
            && (t.capacity > s.capacity ==> t.capacity < 2 * |t.data|)
  {
    if s.capacity - |s.data| < |bytes| && granted {
      var q := s.capacity / GROW_FACTOR;
      assert s.capacity <= 5 * q + 4;
      assert NewSize(s, |bytes|) >= s.capacity + q && NewSize(s, |bytes|) >= s.capacity + 1;
    }
  }

  lemma {:induction false} RunIsPaidFor(s: State, pieces: seq<Piece>)
    requires Fits(s)
    ensures var end := AppendAll(s, pieces).0;
            && s.capacity <= end.capacity
            && end.copied - s.copied <= 9 * (end.capacity - s.capacity)
            && |s.data| <= |end.data|
            && (end.capacity == s.capacity || end.capacity < 2 * |end.data|)
    decreases pieces
  {
    hide Append;
    if pieces != [] {
      var (t, ok) := Append(s, pieces[0].bytes, pieces[0].granted);
      AppendIsPaidFor(s, pieces[0].bytes, pieces[0].granted);
      AppendKeepsData(s, pieces[0].bytes, pieces[0].granted);
      RunIsPaidFor(t, pieces[1..]);
    }
  }

  lemma AppendKeepsData(s: State, bytes: seq<Byte>, granted: bool)
    ensures s.data <= Append(s, bytes, granted).0.data
  {
  }

  /** However the data arrives, building it up in a new frame copies less than eighteen bytes for each
      byte in it. */
  lemma LinearCopying(pieces: seq<Piece>)
    ensures var end := AppendAll(State(0, [], 0), pieces).0;
            end.data != [] ==> end.copied < 18 * |end.data|
    ensures AppendAll(State(0, [], 0), pieces).0.data == [] ==> AppendAll(State(0, [], 0), pieces).0.copied == 0
  {
    hide AppendAll;
    RunIsPaidFor(State(0, [], 0), pieces);
  }

  // ----- What growing does -----

  /** Growing to a size gives at least that size if memory is granted or not needed, never shrinks, and
      loses the data exactly if it must move it and is not told to keep it. */
  lemma GrowingKeepsOrDrops(s: State, desired: nat, keep: bool, granted: bool)
    ensures var (t, ok) := Grow(s, desired, keep, granted);
      && (ok <==> granted || desired <= s.capacity)
      && t.capacity == (if ok && desired > s.capacity then desired else s.capacity)
      && t.data == (if ok && desired > s.capacity && !keep then [] else s.data)
      && t.copied - s.copied == if ok && desired > s.capacity && keep then |s.data| else 0
  {
  }

  /** An append that does not fit grows the buffer by a fifth, or by the size of what is appended if that
      is more; any other leaves the capacity and copies nothing. */
  lemma AppendGrowsByAFifth(s: State, bytes: seq<Byte>, granted: bool)
    requires Fits(s)
    ensures var (t, ok) := Append(s, bytes, granted);
      if |s.data| + |bytes| > s.capacity && granted then
        && t.capacity >= s.capacity + |bytes| && 5 * t.capacity > 6 * s.capacity - 5
        && (t.capacity == s.capacity + |bytes| || 5 * t.capacity <= 6 * s.capacity)
        && t.copied == s.copied + |s.data|
      else t.capacity == s.capacity && t.copied == s.copied
  {
    var fifth := s.capacity / GROW_FACTOR;
    assert 5 * fifth <= s.capacity < 5 * fifth + 5;
  }
}
