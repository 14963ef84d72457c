/** The in-memory file of buffered_file.cpp: chunks of one size, allocated as writing reaches them. The
    state it stands for is one flat sequence of bytes and a position in it. */
module BufferedFile {
  import opened Media
  import Seqs

  type Byte = b: int | 0 <= b < 256

  datatype Origin = FromStart | FromHere | FromEnd | Elsewhere

  datatype State = State(content: seq<Byte>, pos: nat, invalid: bool)

  // ----- What the file does -----

  predicate Sane(s: State) {
    s.pos <= |s.content|
  }

  function CeilDiv(a: nat, b: nat): nat
    requires b > 0
  {
    (a + b - 1) / b
  }

  /** Chunks are added while the ones there are come to less than the maximum. */
  function Capacity(bufferSize: nat, maxSize: nat): nat
    requires bufferSize > 0
  {
    bufferSize * CeilDiv(maxSize, bufferSize)
  }

  /** What a flat file holds once `data` has been written at `pos`. */
  function Overwrite(content: seq<Byte>, pos: nat, data: seq<Byte>): (r: seq<Byte>)
    requires pos <= |content|
    ensures |r| == if pos + |data| < |content| then |content| else pos + |data|
    ensures forall i :: 0 <= i < |r| ==> r[i] == if pos <= i < pos + |data| then data[i-pos] else content[i]
  {
    content[..pos] + data + if pos + |data| < |content| then content[pos + |data|..] else []
  }

  function SeekTarget(s: State, offset: int, origin: Origin): Option<int> {
    match origin
    case FromStart => Some(offset)
    case FromHere => Some(s.pos + offset)
    case FromEnd => Some(|s.content| + offset)
    case Elsewhere => None
  }

  function Seek(s: State, offset: int, origin: Origin): (State, int) {
    var target := SeekTarget(s, offset, origin);
    if target.None? || target.value < 0 || target.value > |s.content| || s.invalid then (s, -1)
    else (s.(pos := target.value), target.value)
  }

  /** A write that does not fit fills the file up and spoils it. */
  function Write(s: State, data: seq<Byte>, capacity: nat): (State, bool)
    requires Sane(s) && s.pos <= capacity
  {
    if s.invalid then (s, false)
    else if s.pos + |data| <= capacity then
      (State(Overwrite(s.content, s.pos, data), s.pos + |data|, false), true)
    else
      (State(Overwrite(s.content, s.pos, data[..capacity - s.pos]), capacity, true), false)
  }

  /** What saving emits: of the last chunk, as much as the length leaves over. */
  function Saved(content: seq<Byte>, bufferSize: nat): seq<Byte>
    requires bufferSize > 0
  {
    var n := CeilDiv(|content|, bufferSize);
    if n == 0 then [] else
      LastChunkStarts(|content|, bufferSize);
      content[..(n - 1) * bufferSize + |content| % bufferSize]
  }

  lemma LastChunkStarts(len: nat, bufferSize: nat)
    requires bufferSize > 0 && len > 0
    ensures var n := CeilDiv(len, bufferSize);
            && n > 0 && (n - 1) * bufferSize < len <= n * bufferSize
            && (n - 1) * bufferSize + len % bufferSize == if len % bufferSize == 0 then len - bufferSize else len
  {
    var q, r := len / bufferSize, len % bufferSize;
    assert len == q * bufferSize + r;
    if r == 0 {
      DivIs(len + bufferSize - 1, bufferSize, q, bufferSize - 1);
    } else {
      DivIs(len + bufferSize - 1, bufferSize, q + 1, r - 1);
    }
  }

  lemma CeilIs(len: nat, bufferSize: nat, n: int)
    requires bufferSize > 0 && (n - 1) * bufferSize < len <= n * bufferSize
    ensures CeilDiv(len, bufferSize) == n
  {
    DivIs(len + bufferSize - 1, bufferSize, n, len - (n - 1) * bufferSize - 1);
  }

  lemma CeilIsLeast(len: nat, bufferSize: nat, n: nat)
    requires bufferSize > 0
    ensures n * bufferSize >= len <==> n >= CeilDiv(len, bufferSize)
  {
    var c := CeilDiv(len, bufferSize);
    if len == 0 {
      DivIs(bufferSize - 1, bufferSize, 0, bufferSize - 1);
    } else {
      LastChunkStarts(len, bufferSize);
      if n >= c {
        Widen(c, n, bufferSize);
      } else {
        Widen(n, c - 1, bufferSize);
      }
    }
  }

  // ----- Chunks as one sequence -----

  predicate AreChunks(cells: seq<seq<Byte>>, bufferSize: nat) {
    bufferSize > 0 && forall i :: 0 <= i < |cells| ==> |cells[i]| == bufferSize
  }

  function Flat(cells: seq<seq<Byte>>): seq<Byte> {
    if cells == [] then [] else cells[0] + Flat(cells[1..])
  }

  lemma {:induction false} FlatLength(cells: seq<seq<Byte>>, bufferSize: nat)
    requires AreChunks(cells, bufferSize)
    ensures |Flat(cells)| == |cells| * bufferSize
  {
    if cells != [] {
      FlatLength(cells[1..], bufferSize);
    }
  }

  lemma {:induction false} FlatSplits(cells: seq<seq<Byte>>, c: nat)
    requires c < |cells|
    ensures Flat(cells) == Flat(cells[..c]) + cells[c] + Flat(cells[c+1..])
  {
    if c == 0 {
      assert cells[..0] == [];
      Seqs.EmptyConcat(cells[0]);
    } else {
      FlatSplits(cells[1..], c - 1);
      assert cells[1..][..c-1] == cells[..c][1..] && cells[1..][c..] == cells[c+1..];
      Seqs.Associate(cells[0], Flat(cells[1..][..c-1]), cells[c]);
      Seqs.Associate(cells[0], Flat(cells[1..][..c-1]) + cells[c], Flat(cells[c+1..]));
    }
  }

  /** A chunk that is not reached yet adds nothing. */
  lemma SpareChunkIsUnseen(cells: seq<seq<Byte>>, chunk: seq<Byte>, bufferSize: nat, len: nat)
    requires Layout(cells, bufferSize, len) && |chunk| == bufferSize
    ensures Layout(cells + [chunk], bufferSize, len)
    ensures Flat(cells + [chunk])[..len] == Flat(cells)[..len]
  {
    FlatLength(cells, bufferSize);
    FlatSplits(cells + [chunk], |cells|);
    assert (cells + [chunk])[..|cells|] == cells;
  }

  lemma OverwriteInside(a: seq<Byte>, b: seq<Byte>, c: seq<Byte>, o: nat, data: seq<Byte>, len: nat, longer: nat)
    requires o + |data| <= |b| && |a| + o <= len <= longer <= |a| + |b| + |c|
    requires longer == if |a| + o + |data| > len then |a| + o + |data| else len
    ensures (a + Overwrite(b, o, data) + c)[..longer] == Overwrite((a + b + c)[..len], |a| + o, data)
  {
  }

  lemma OverwriteNothing(content: seq<Byte>, pos: nat)
    requires pos <= |content|
    ensures Overwrite(content, pos, []) == content
  {
  }

  lemma OverwriteTwice(content: seq<Byte>, pos: nat, data: seq<Byte>, i: nat, j: nat)
    requires pos <= |content| && i <= j <= |data|
    ensures |Overwrite(content, pos, data[..i])| >= pos + i
    ensures Overwrite(Overwrite(content, pos, data[..i]), pos + i, data[i..j]) == Overwrite(content, pos, data[..j])
  {
  }

  predicate Layout(cells: seq<seq<Byte>>, bufferSize: nat, len: nat) {
    AreChunks(cells, bufferSize) && len <= |cells| * bufferSize && len <= |Flat(cells)|
  }

  function Longer(len: nat, end: nat): nat {
    if end > len then end else len
  }

  /** The chunks before and behind one of them, and what becomes of all when it is replaced. */
  lemma PartsOfFlat(cells: seq<seq<Byte>>, bufferSize: nat, c: nat, chunk: seq<Byte>)
    requires AreChunks(cells, bufferSize) && c < |cells| && |chunk| == bufferSize
    ensures var a, b := Flat(cells[..c]), Flat(cells[c+1..]);
            && |a| == c * bufferSize && |a| + bufferSize + |b| == |cells| * bufferSize
            && Flat(cells) == a + cells[c] + b
            && Flat(cells[c := chunk]) == a + chunk + b && AreChunks(cells[c := chunk], bufferSize)
  {
    hide Flat;
    var written := cells[c := chunk];
    assert written[..c] == cells[..c] && written[c+1..] == cells[c+1..];
    FlatLength(cells, bufferSize);
    FlatLength(cells[..c], bufferSize);
    FlatSplits(cells, c);
    FlatSplits(written, c);
  }

  /** Writing inside one chunk is writing to the flat sequence. */
  lemma {:induction false} ChunkWriteIsFlat(cells: seq<seq<Byte>>, bufferSize: nat, c: nat, o: nat, data: seq<Byte>,
                                            len: nat)
    requires Layout(cells, bufferSize, len) && c * bufferSize + o <= len
    requires c < |cells| && o + |data| <= bufferSize
    ensures var pos := c * bufferSize + o;
            var longer, written := Longer(len, pos + |data|), cells[c := Overwrite(cells[c], o, data)];
            && Layout(written, bufferSize, longer)
            && Flat(written)[..longer] == Overwrite(Flat(cells)[..len], pos, data)
  {
    hide Flat, Overwrite;
    var chunk := Overwrite(cells[c], o, data);
    PartsOfFlat(cells, bufferSize, c, chunk);
    OverwriteInside(Flat(cells[..c]), cells[c], Flat(cells[c+1..]), o, data, len,
                    Longer(len, c * bufferSize + o + |data|));
  }

  lemma PositionIsInside(pos: nat, bufferSize: nat, count: nat)
    requires bufferSize > 0 && pos <= count * bufferSize
    ensures var q, r := pos / bufferSize, pos % bufferSize;
            && 0 <= r < bufferSize && pos == q * bufferSize + r && q <= count
            && (q == count ==> r == 0 && pos == count * bufferSize)
  {
    var q := pos / bufferSize;
    if q > count {
      Widen(count + 1, q, bufferSize);
    }
  }

  lemma CapacityAt(bufferSize: nat, count: nat, maxSize: nat)
    requires bufferSize > 0 && count <= CeilDiv(maxSize, bufferSize)
    ensures count * bufferSize <= Capacity(bufferSize, maxSize)
    ensures count * bufferSize == Capacity(bufferSize, maxSize) <==> count * bufferSize >= maxSize
    ensures count * bufferSize == Capacity(bufferSize, maxSize) <==> count == CeilDiv(maxSize, bufferSize)
  {
    hide CeilDiv;
    Widen(count, CeilDiv(maxSize, bufferSize), bufferSize);
    CeilIsLeast(maxSize, bufferSize, count);
    if count < CeilDiv(maxSize, bufferSize) {
      Widen(count + 1, CeilDiv(maxSize, bufferSize), bufferSize);
    }
  }

  lemma CapacityBeyond(bufferSize: nat, q: nat, r: nat, count: nat, maxSize: nat)
    requires bufferSize > 0 && q < count <= CeilDiv(maxSize, bufferSize) && r < bufferSize
    ensures q * bufferSize + r < Capacity(bufferSize, maxSize)
  {
    hide CeilDiv;
    Widen(q + 1, CeilDiv(maxSize, bufferSize), bufferSize);
  }

  /** There are as many chunks as the content needs, and no more than the maximum calls for. */
  predicate Enough(bufferSize: nat, len: nat, count: nat, maxSize: nat) {
    bufferSize > 0 && count == CeilDiv(len, bufferSize) && count <= CeilDiv(maxSize, bufferSize)
  }

  lemma BeforeWriting(pos: nat, len: nat, bufferSize: nat, count: nat, maxSize: nat)
    requires Enough(bufferSize, len, count, maxSize) && pos <= len <= count * bufferSize
    ensures var q, r := pos / bufferSize, pos % bufferSize;
            && 0 <= r < bufferSize && pos == q * bufferSize + r && q <= count
            && pos <= Capacity(bufferSize, maxSize)
            && (q < count ==> pos < Capacity(bufferSize, maxSize))
            && (q == count ==> r == 0 && len == pos == count * bufferSize)
            && (q == count ==> (pos == Capacity(bufferSize, maxSize) <==> bufferSize * count >= maxSize))
  {
    hide CeilDiv, Capacity;
    PositionIsInside(pos, bufferSize, count);
    CapacityAt(bufferSize, count, maxSize);
    if pos / bufferSize < count {
      CapacityBeyond(bufferSize, pos / bufferSize, pos % bufferSize, count, maxSize);
    }
  }

  lemma AfterWriting(len: nat, longer: nat, bufferSize: nat, count: nat, maxSize: nat)
    requires Enough(bufferSize, len, count, maxSize) && len <= longer <= count * bufferSize
    ensures Enough(bufferSize, longer, count, maxSize)
  {
    hide CeilDiv;
    if len == 0 {
      NoChunks(bufferSize);
    } else {
      LastChunkStarts(len, bufferSize);
      CeilIs(longer, bufferSize, count);
    }
  }

  lemma AfterWritingMore(len: nat, longer: nat, bufferSize: nat, count: nat, maxSize: nat)
    requires Enough(bufferSize, len, count, maxSize) && bufferSize * count < maxSize
    requires len == count * bufferSize < longer <= (count + 1) * bufferSize
    ensures Enough(bufferSize, longer, count + 1, maxSize)
  {
    hide CeilDiv;
    CeilIs(longer, bufferSize, count + 1);
    CeilIsLeast(maxSize, bufferSize, count);
  }

  lemma FlatGrows(cells: seq<seq<Byte>>, i: nat)
    requires i < |cells|
    ensures Flat(cells[..i+1]) == Flat(cells[..i]) + cells[i]
  {
    FlatSplits(cells[..i+1], i);
    assert cells[..i+1][..i] == cells[..i];
  }

  lemma PrefixOfTwo(a: seq<Byte>, b: seq<Byte>, len: nat, k: nat)
    requires k <= |b| && |a| + k <= len <= |a| + |b|
    ensures (a + b)[..len][..|a| + k] == a + b[..k]
  {
  }

  lemma SavedFromChunks(cells: seq<seq<Byte>>, bufferSize: nat, len: nat)
    requires Layout(cells, bufferSize, len) && |cells| == CeilDiv(len, bufferSize) > 0
    ensures Saved(Flat(cells)[..len], bufferSize)
         == Flat(cells[..|cells|-1]) + cells[|cells|-1][..len % bufferSize]
  {
    hide CeilDiv, Flat;
    var n := |cells|;
    assert len > 0 by { NoChunks(bufferSize); }
    LastChunkStarts(len, bufferSize);
    FlatGrows(cells, n - 1);
    assert cells[..n] == cells;
    FlatLength(cells[..n-1], bufferSize);
    FlatLength(cells, bufferSize);
    PrefixOfTwo(Flat(cells[..n-1]), cells[n-1], len, len % bufferSize);
  }

  lemma NoChunks(bufferSize: nat)
    requires bufferSize > 0
    ensures CeilDiv(0, bufferSize) == 0
  {
    DivIs(bufferSize - 1, bufferSize, 0, bufferSize - 1);
  }

  // ----- The file -----

  ghost function ChunksOf(buffers: seq<array<Byte>>): (r: seq<seq<Byte>>)
    reads buffers
    ensures |r| == |buffers| && forall i :: 0 <= i < |r| ==> r[i] == buffers[i][..]
  {
    seq(|buffers|, i requires 0 <= i < |buffers| reads buffers => buffers[i][..])
  }

  ghost predicate AreDistinct(buffers: seq<array<Byte>>) {
    forall i, j :: 0 <= i < j < |buffers| ==> buffers[i] != buffers[j]
  }

  lemma ChunksGrow(buffers: seq<array<Byte>>, buffer: array<Byte>)
    requires AreDistinct(buffers) && buffer !in buffers
    ensures AreDistinct(buffers + [buffer])
    ensures ChunksOf(buffers + [buffer]) == ChunksOf(buffers) + [buffer[..]]
  {
  }

  method StoreInChunk(buffers: seq<array<Byte>>, c: nat, offset: nat, data: seq<Byte>)
    requires c < |buffers| && offset + |data| <= buffers[c].Length && AreDistinct(buffers)
    modifies buffers[c]
    ensures ChunksOf(buffers)
         == old(ChunksOf(buffers))[c := Overwrite(old(buffers[c][..]), offset, data)]
  {
    hide ChunksOf;
    var buffer := buffers[c];
    forall i | 0 <= i < |data| {
      buffer[offset + i] := data[i];
    }
    assert buffer[..] == Overwrite(old(buffer[..]), offset, data);
    assert forall i :: 0 <= i < |buffers| && i != c ==> buffers[i][..] == old(buffers[i][..]);
  }

  class File {
    const bufferSize: nat
    const maxSize: nat
    var lastWrittenPos: nat
    var writePos: nat
    var invalidState: bool
    var buffers: seq<array<Byte>>

    /** What also holds between the allocation of a chunk and the write that fills it. */
    ghost predicate Sound()
      reads this`buffers, this`writePos, this`lastWrittenPos, buffers
    {
      Layout(Chunks(), bufferSize, lastWrittenPos) && writePos <= lastWrittenPos && AreDistinct(buffers)
    }

    ghost predicate Valid()
      reads this`buffers, this`writePos, this`lastWrittenPos, buffers
    {
      Sound() && Enough(bufferSize, lastWrittenPos, |buffers|, maxSize)
    }

    ghost function Chunks(): seq<seq<Byte>>
      reads this`buffers, buffers
    {
      ChunksOf(buffers)
    }

    ghost function Content(): (r: seq<Byte>)
      reads this`buffers, this`writePos, this`lastWrittenPos, buffers
      requires Valid()
      ensures |r| == lastWrittenPos
    {
      Flat(Chunks())[..lastWrittenPos]
    }

    ghost function View(): State
      reads this, buffers
      requires Valid()
    {
      State(Content(), writePos, invalidState)
    }

    constructor (size: nat, max: nat)
      requires size > 0
      ensures Valid() && View() == State([], 0, false)
      ensures bufferSize == size && maxSize == max
    {
      bufferSize, maxSize := size, max;
      lastWrittenPos, writePos, invalidState, buffers := 0, 0, false, [];
      new;
      NoChunks(size);
    }

    method SeekTo(offset: int, origin: Origin) returns (r: int)
      requires Valid()
      modifies this`writePos
      ensures Valid() && (View(), r) == Seek(old(View()), offset, origin)
    {
      var pos;
      match origin {
        case FromStart => pos := offset;
        case FromHere => pos := writePos + offset;
        case FromEnd => pos := lastWrittenPos + offset;
        case Elsewhere => return -1;
      }
      if pos > lastWrittenPos || pos < 0 || invalidState {
        return -1;
      }
      writePos := pos;
      return writePos;
    }

    method AllocBuffer() returns (ok: bool)
      requires Sound() && lastWrittenPos == |buffers| * bufferSize
      modifies this`buffers
      ensures ok <==> bufferSize * |old(buffers)| < maxSize
      ensures Sound() && Flat(Chunks())[..lastWrittenPos] == old(Flat(Chunks())[..lastWrittenPos])
      ensures if ok then |buffers| == |old(buffers)| + 1 else buffers == old(buffers)
      ensures forall i :: 0 <= i < |buffers| ==> buffers[i] in old(buffers) || fresh(buffers[i])
    {
      hide Flat, ChunksOf, AreDistinct;
      if bufferSize * |buffers| >= maxSize {
        return false;
      }
      var newBuffer := new Byte[bufferSize];
      SpareChunkIsUnseen(Chunks(), newBuffer[..], bufferSize, lastWrittenPos);
      ChunksGrow(buffers, newBuffer);
      buffers := buffers + [newBuffer];
      return true;
    }

    /** Writes from `offset` of the chunk `current` on, as far as the chunk goes; it has been allocated. */
    method FillChunk(current: nat, offset: nat, data: seq<Byte>) returns (written: nat)
      requires Sound() && 0 < |data| && writePos == current * bufferSize + offset
      requires current < |buffers| && offset < bufferSize
      modifies this`writePos, this`lastWrittenPos, buffers
      ensures written == if bufferSize - offset < |data| then bufferSize - offset else |data|
      ensures writePos == old(writePos) + written && lastWrittenPos == Longer(old(lastWrittenPos), writePos)
      ensures Sound()
      ensures Flat(Chunks())[..lastWrittenPos]
           == Overwrite(old(Flat(Chunks())[..lastWrittenPos]), old(writePos), data[..written])
    {
      hide Flat, Overwrite, AreDistinct, ChunksOf;
      written := if bufferSize - offset < |data| then bufferSize - offset else |data|;
      ChunkWriteIsFlat(Chunks(), bufferSize, current, offset, data[..written], lastWrittenPos);
      StoreInChunk(buffers, current, offset, data[..written]);
      writePos := writePos + written;
      lastWrittenPos := if writePos > lastWrittenPos then writePos else lastWrittenPos;
    }

    /** Writes what fits in the chunk at the position, which is allocated if need be. */
    method WriteToBuffer(data: seq<Byte>) returns (written: nat)
      requires Valid() && 0 < |data|
      modifies this`writePos, this`lastWrittenPos, this`buffers, buffers
      ensures Valid() && written <= |data| && writePos == old(writePos) + written
      ensures written == 0 <==> old(writePos) == Capacity(bufferSize, maxSize)
      ensures Content() == Overwrite(old(Content()), old(writePos), data[..written])
      ensures forall i :: 0 <= i < |buffers| ==> buffers[i] in old(buffers) || fresh(buffers[i])
    {
      hide Flat, Overwrite, AreDistinct, Enough, Capacity, ChunksOf;
      var currentBuffer, offsetInBuffer := writePos / bufferSize, writePos % bufferSize;
      ghost var content, position, len, count := Content(), writePos, lastWrittenPos, |buffers|;
      BeforeWriting(writePos, lastWrittenPos, bufferSize, |buffers|, maxSize);
      written := 0;
      if currentBuffer > |buffers| {
        return;
      } else if currentBuffer == |buffers| {
        var ok := AllocBuffer();
        if !ok {
          OverwriteNothing(content, position);
          return;
        }
      }
      written := FillChunk(currentBuffer, offsetInBuffer, data);
      if count < |buffers| {
        AfterWritingMore(len, lastWrittenPos, bufferSize, count, maxSize);
      } else {
        AfterWriting(len, lastWrittenPos, bufferSize, count, maxSize);
      }
    }

    lemma PositionIsBelowCapacity()
      requires Valid()
      ensures 0 < bufferSize && writePos <= lastWrittenPos && writePos <= Capacity(bufferSize, maxSize)
    {
      BeforeWriting(writePos, lastWrittenPos, bufferSize, |buffers|, maxSize);
    }

    method WriteBytes(data: seq<Byte>) returns (ok: bool)
      requires Valid()
      modifies this, buffers
      ensures Valid() && old(writePos) <= Capacity(bufferSize, maxSize)
      ensures (View(), ok) == Write(old(View()), data, Capacity(bufferSize, maxSize))
    {
      hide Overwrite, Capacity, Valid, Content;
      PositionIsBelowCapacity();
      if invalidState {
        return false;
      }
      ghost var content, position := Content(), writePos;
      OverwriteNothing(content, position);
      var totalWritten := 0;
      while totalWritten < |data|
        invariant Valid() && !invalidState && totalWritten <= |data| && writePos == position + totalWritten
        invariant Content() == Overwrite(content, position, data[..totalWritten])
        invariant forall i :: 0 <= i < |buffers| ==> buffers[i] in old(buffers) || fresh(buffers[i])
        decreases |data| - totalWritten
      {
        var n := if |data| - totalWritten < bufferSize then |data| - totalWritten else bufferSize;
        var written := WriteToBuffer(data[totalWritten..totalWritten + n]);
        OverwriteTwice(content, position, data, totalWritten, totalWritten + written);
        if written == 0 {
          invalidState := true;
          return false;
        }
        totalWritten := totalWritten + written;
      }
      PositionIsBelowCapacity();
      assert data[..totalWritten] == data;
      return true;
    }

    /** Saving to a stream that is `ready` and takes `room` bytes: the write that does not fit takes what
        does and turns the stream bad, and nothing more is written. */
    method Save(ready: bool, room: nat) returns (os: seq<Byte>, good: bool)
      requires Valid()
      ensures good <==> ready && |Saved(Content(), bufferSize)| <= room
      ensures os == if ready then Taken(Saved(Content(), bufferSize), room) else []
    {
      hide Flat, AreDistinct, ChunksOf, CeilDiv, Saved;
      var size := |buffers|;
      os, good := [], ready;
      ghost var cells := Chunks();
      ghost var whole: seq<Byte> := [];
      EveryPieceIsSaved(cells, bufferSize, lastWrittenPos, 0);
      var nI := 0;
      while nI < size && good
        invariant 0 <= nI <= size
        invariant ready ==> os == Taken(whole, room) && (good <==> |whole| <= room)
        invariant !ready ==> os == [] && !good
        invariant whole == PieceEnd(cells, lastWrittenPos % bufferSize, nI)
      {
        var nToWrite := if nI != size - 1 then bufferSize else lastWrittenPos % bufferSize;
        var piece := buffers[nI][..nToWrite];
        PieceGrows(cells, bufferSize, lastWrittenPos % bufferSize, nI, piece);
        whole := whole + piece;
        good := |os| + |piece| <= room;
        os := os + Taken(piece, room - |os|);
        nI := nI + 1;
      }
      EveryPieceIsSaved(cells, bufferSize, lastWrittenPos, nI);
    }

    /** Saving under a name: a spoilt file is not even opened. */
    method SaveToFile(opens: bool, room: nat) returns (os: seq<Byte>, good: bool)
      requires Valid()
      ensures good <==> !invalidState && opens && |Saved(Content(), bufferSize)| <= room
      ensures os == if !invalidState && opens then Taken(Saved(Content(), bufferSize), room) else []
    {
      if invalidState {
        return [], false;
      }
      os, good := Save(opens, room);
    }
  }

  /** What a stream with so much room takes. */
  function Taken(data: seq<Byte>, room: nat): seq<Byte> {
    if |data| <= room then data else data[..room]
  }

  /** What saving has emitted after `i` chunks; of the last one only `rest` bytes. */
  function PieceEnd(cells: seq<seq<Byte>>, rest: nat, i: nat): seq<Byte>
    requires i <= |cells|
    requires forall j :: 0 <= j < |cells| ==> rest <= |cells[j]|
  {
    if i == 0 then []
    else if i < |cells| then Flat(cells[..i])
    else Flat(cells[..i-1]) + cells[i-1][..rest]
  }

  lemma PieceGrows(cells: seq<seq<Byte>>, bufferSize: nat, rest: nat, i: nat, piece: seq<Byte>)
    requires AreChunks(cells, bufferSize) && i < |cells| && rest <= bufferSize
    requires piece == if i < |cells| - 1 then cells[i] else cells[i][..rest]
    ensures PieceEnd(cells, rest, i + 1) == PieceEnd(cells, rest, i) + piece
  {
    hide Flat;
    FlatOfNothing(cells);
    FlatGrows(cells, i);
  }

  lemma {:induction false} FlatPrefix(cells: seq<seq<Byte>>, i: nat, j: nat)
    requires i <= j <= |cells|
    ensures Flat(cells[..i]) <= Flat(cells[..j])
    decreases j
  {
    hide Flat;
    if i < j {
      FlatPrefix(cells, i, j - 1);
      FlatGrows(cells, j - 1);
    }
  }

  /** What has been emitted begins what is saved, and in the end it is all of it. */
  lemma EveryPieceIsSaved(cells: seq<seq<Byte>>, bufferSize: nat, len: nat, i: nat)
    requires Layout(cells, bufferSize, len) && |cells| == CeilDiv(len, bufferSize) && i <= |cells|
    ensures len % bufferSize <= bufferSize && forall j :: 0 <= j < |cells| ==> len % bufferSize <= |cells[j]|
    ensures var saved := Saved(Flat(cells)[..len], bufferSize);
            && PieceEnd(cells, len % bufferSize, i) <= saved
            && (i == |cells| ==> PieceEnd(cells, len % bufferSize, i) == saved)
  {
    hide Flat, CeilDiv, Saved;
    var saved := Saved(Flat(cells)[..len], bufferSize);
    if |cells| == 0 {
      NothingIsSaved(cells, bufferSize, len);
    } else {
      SavedFromChunks(cells, bufferSize, len);
      if 0 < i < |cells| {
        FlatPrefix(cells, i, |cells| - 1);
      }
    }
  }

  lemma NothingIsSaved(cells: seq<seq<Byte>>, bufferSize: nat, len: nat)
    requires Layout(cells, bufferSize, len) && |cells| == 0 == CeilDiv(len, bufferSize)
    ensures Saved(Flat(cells)[..len], bufferSize) == []
  {
  }

  lemma FlatOfNothing(cells: seq<seq<Byte>>)
    ensures Flat(cells[..0]) == []
  {
  }

  // ----- Whole runs -----

  /** What is saved is the content if and only if the content is empty or does not end with a chunk. */
  lemma {:induction false} SaveIsExactIff(content: seq<Byte>, bufferSize: nat)
    requires bufferSize > 0
    ensures Saved(content, bufferSize) == content <==> content == [] || |content| % bufferSize != 0
    ensures Saved(content, bufferSize) != content ==>
      |content| >= bufferSize && Saved(content, bufferSize) == content[..|content| - bufferSize]
  {
    hide CeilDiv;
    if content == [] {
      NoChunks(bufferSize);
    } else {
      LastChunkStarts(|content|, bufferSize);
    }
  }

  datatype Op = SeekOp(offset: int, origin: Origin) | WriteOp(data: seq<Byte>)

  function Do(s: State, op: Op, capacity: nat): (r: (State, bool))
    requires Sane(s) && s.pos <= capacity
    ensures Sane(r.0)
  {
    match op
    case SeekOp(offset, origin) => var (t, at) := Seek(s, offset, origin); (t, at >= 0)
    case WriteOp(data) => Write(s, data, capacity)
  }

  /** Whether all operations succeed, and the state after them. */
  function Run(s: State, ops: seq<Op>, capacity: nat): (State, bool)
    requires Sane(s) && |s.content| <= capacity
    decreases ops
  {
    if ops == [] then (s, true)
    else
      var (t, ok) := Do(s, ops[0], capacity);
      if ok then Run(t, ops[1..], capacity) else (t, false)
  }

  /** The same on a flat file that has no bound and cannot fail but for seeking outside of it. */
  function FlatRun(content: seq<Byte>, pos: nat, ops: seq<Op>): Option<(seq<Byte>, nat)>
    requires pos <= |content|
    decreases ops, 0
  {
    if ops == [] then Some((content, pos))
    else match ops[0]
      case WriteOp(data) => FlatRun(Overwrite(content, pos, data), pos + |data|, ops[1..])
      case SeekOp(offset, FromStart) => FlatRunFrom(content, offset, ops[1..])
      case SeekOp(offset, FromHere) => FlatRunFrom(content, pos + offset, ops[1..])
      case SeekOp(offset, FromEnd) => FlatRunFrom(content, |content| + offset, ops[1..])
      case SeekOp(_, Elsewhere) => None
  }

  function FlatRunFrom(content: seq<Byte>, target: int, ops: seq<Op>): Option<(seq<Byte>, nat)>
    decreases ops, 1
  {
    if 0 <= target <= |content| then FlatRun(content, target, ops) else None
  }

  lemma {:induction false} FlatRunGrows(content: seq<Byte>, pos: nat, ops: seq<Op>)
    requires pos <= |content| && FlatRun(content, pos, ops).Some?
    ensures |FlatRun(content, pos, ops).value.0| >= |content|
    decreases ops
  {
    if ops != [] {
      match ops[0]
      case WriteOp(data) => FlatRunGrows(Overwrite(content, pos, data), pos + |data|, ops[1..]);
      case SeekOp(offset, origin) =>
        var from := match origin case FromStart => 0 case FromHere => pos case FromEnd => |content| case Elsewhere => 0;
        FlatRunGrows(content, from + offset, ops[1..]);
    }
  }

  /** A run succeeds if and only if the flat file takes it and what it ends up with fits; then both hold
      the same. */
  lemma {:induction false} RunsAreFlat(s: State, ops: seq<Op>, capacity: nat)
    requires Sane(s) && |s.content| <= capacity && !s.invalid
    ensures var (end, ok) := Run(s, ops, capacity);
            var flat := FlatRun(s.content, s.pos, ops);
            && (ok <==> flat.Some? && |flat.value.0| <= capacity)
            && (ok ==> end == State(flat.value.0, flat.value.1, false))
    decreases ops
  {
    hide Overwrite;
    if ops != [] {
      var (t, ok) := Do(s, ops[0], capacity);
      if ok {
        RunsAreFlat(t, ops[1..], capacity);
      } else if ops[0].WriteOp? && FlatRun(s.content, s.pos, ops).Some? {
        FlatRunGrows(Overwrite(s.content, s.pos, ops[0].data), s.pos + |ops[0].data|, ops[1..]);
      }
    }
  }

  /** A spoilt file stays spoilt and keeps what was written until then. */
  lemma SpoiltForGood(s: State, op: Op, capacity: nat)
    requires Sane(s) && s.pos <= capacity && s.invalid
    ensures Do(s, op, capacity) == (s, false)
  {
  }

  /** Seeking reports where it has gone to, and -1 if it has gone nowhere. */
  lemma SeekReportsThePosition(s: State, offset: int, origin: Origin)
    requires Sane(s)
    ensures var (t, r) := Seek(s, offset, origin);
      && Sane(t) && t.content == s.content && t.invalid == s.invalid
      && (r == t.pos || (r == -1 && t == s))
      && (s.invalid ==> r == -1)
  {
  }

  /** A write that does not fit leaves the file full and spoilt, with as much of the data as fits. */
  lemma FailedWriteFillsTheFile(s: State, data: seq<Byte>, capacity: nat)
    requires Sane(s) && |s.content| <= capacity && !s.invalid && s.pos + |data| > capacity
    ensures var (t, ok) := Write(s, data, capacity);
      && !ok && t.invalid && t.pos == |t.content| == capacity
      && (forall i :: 0 <= i < capacity ==> t.content[i] == if i < s.pos then s.content[i] else data[i - s.pos])
  {
    hide Overwrite;
  }

  /** The room there is: the least number of whole chunks that comes to the maximum. */
  lemma CapacityIsLeastMultiple(bufferSize: nat, maxSize: nat)
    requires bufferSize > 0
    ensures Capacity(bufferSize, maxSize) % bufferSize == 0
    ensures maxSize <= Capacity(bufferSize, maxSize) < maxSize + bufferSize
  {
    hide CeilDiv;
    var n := CeilDiv(maxSize, bufferSize);
    if maxSize == 0 {
      NoChunks(bufferSize);
    } else {
      LastChunkStarts(maxSize, bufferSize);
    }
    DivIs(bufferSize * n, bufferSize, n, 0);
  }
}
