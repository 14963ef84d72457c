/** The node of stream_input_iterator.cpp that plays a list of files as one stream. What each file
    holds, and whether it opens, is given; so is where the source lands when it seeks in a file. */
module InputIterator {
  import opened Media
  import Seqs

  datatype Entry = Packet(video: bool, pts: int) | Fault

  /** Offsets, contents and openability of the files, in the order of the list. */
  datatype Library = Library(offsets: seq<nat>, files: seq<seq<Entry>>, opens: seq<bool>) {
    ghost predicate Sane() {
      |offsets| == |files| == |opens|
    }
  }

  datatype Frame = Frame(video: bool, pts: int)

  datatype MediaState = MediaState(processed: nat, processedInFile: nat, fileOffset: nat, lastFramePts: int)

  /** `at` is how far the source has read in the current file; a `broken` source has failed to open. */
  datatype State = State(
    current: nat,
    eof: bool,
    audio: MediaState,
    video: MediaState,
    at: nat,
    broken: bool)

  ghost predicate Sane(lib: Library, s: State) {
    && lib.Sane()
    && (!s.broken ==> s.current < |lib.files| && s.at <= |lib.files[s.current]|)
  }

  function Created(): State {
    State(0, false, MediaState(0, 0, 0, 0), MediaState(0, 0, 0, 0), 0, true)
  }

  function Restart(m: MediaState): MediaState {
    m.(processedInFile := 0)
  }

  function OpenSource(lib: Library, s: State): (r: (State, bool))
    requires lib.Sane()
    ensures r.1 ==> Sane(lib, r.0) && !r.0.broken
    ensures r.0.current == s.current && r.0.eof == s.eof
  {
    if s.current >= |lib.files| then (s, false)
    else
      (s.(audio := Restart(s.audio), video := Restart(s.video), at := 0, broken := !lib.opens[s.current]),
       lib.opens[s.current])
  }

  function Place(m: MediaState, pts: int, offset: nat): MediaState {
    var fileOffset := if m.processedInFile == 0 then offset else m.fileOffset;
    MediaState(m.processed + 1, m.processedInFile + 1, fileOffset, pts + fileOffset)
  }

  function Read(lib: Library, s: State): (r: (State, Option<Frame>))
    requires Sane(lib, s)
    ensures r.1.Some? ==> Sane(lib, r.0) && !r.0.broken && !r.0.eof
    ensures r.1.Some? ==> r.0.current > s.current || (r.0.current == s.current && r.0.at > s.at)
    decreases |lib.files| - s.current
  {
    if s.eof || s.broken then (s, None)
    else if s.at < |lib.files[s.current]| then
      var t := s.(at := s.at + 1);
      match lib.files[s.current][s.at]
      case Fault => (t, None)
      case Packet(video, pts) =>
        var m := Place(if video then s.video else s.audio, pts, lib.offsets[s.current]);
        (if video then t.(video := m) else t.(audio := m), Some(Frame(video, m.lastFramePts)))
    else if s.current == |lib.files| - 1 then (s.(eof := true), None)
    else
      var (t, ok) := OpenSource(lib, s.(current := s.current + 1));
      if ok then Read(lib, t) else (t, None)
  }

  const TWO_TO_THE_64 := 0x1_0000_0000_0000_0000

  function Unsigned(x: int): nat {
    x % TWO_TO_THE_64
  }

  function Signed(x: nat): int {
    if x < TWO_TO_THE_64 / 2 then x else x - TWO_TO_THE_64
  }

  /** The file to seek in, from `i` on. */
  function FileOf(offsets: seq<nat>, offset: int, i: nat): (k: nat)
    requires i < |offsets|
    ensures i <= k < |offsets|
    ensures forall j :: i < j <= k ==> Unsigned(offset) >= offsets[j]
    ensures k + 1 < |offsets| ==> Unsigned(offset) < offsets[k+1]
    decreases |offsets| - i
  {
    if i == |offsets| - 1 || Unsigned(offset) < offsets[i+1] then i else FileOf(offsets, offset, i + 1)
  }

  /** What the source is asked to seek to. */
  function OffsetInFile(offsets: seq<nat>, offset: int, file: nat): int
    requires file < |offsets|
  {
    if Unsigned(offset) >= offsets[file] then Signed(Unsigned(offset) - offsets[file]) else 0
  }

  function Min(a: nat, b: nat): nat {
    if a < b then a else b
  }

  /** `landing` is the packet the source lands on, or nothing when it fails. */
  function Seek(lib: Library, s: State, offset: int, landing: Option<nat>): (State, bool)
    requires Sane(lib, s)
  {
    if |lib.files| == 0 then (s.(eof := true), true)
    else
      var file := FileOf(lib.offsets, offset, 0);
      var (t, ok) := if file == s.current then (s, true) else OpenSource(lib, s.(current := file));
      if !ok || landing.None? || t.broken then (t, false)
      else (t.(at := Min(landing.value, |lib.files[file]|)), true)
  }

  // ----- The node -----

  class ListStream {
    const lib: Library
    var currentURL: nat
    var eof: bool
    var aState: MediaState
    var vState: MediaState
    var sourceAt: nat
    var sourceBroken: bool

    ghost function View(): State
      reads this
    {
      State(currentURL, eof, aState, vState, sourceAt, sourceBroken)
    }

    ghost predicate Valid()
      reads this
    {
      Sane(lib, View())
    }

    constructor (library: Library)
      requires library.Sane()
      ensures Valid() && lib == library && View() == Created()
    {
      lib := library;
      currentURL, eof, sourceAt, sourceBroken := 0, false, 0, true;
      aState, vState := MediaState(0, 0, 0, 0), MediaState(0, 0, 0, 0);
    }

    method OpenCurrent() returns (ok: bool)
      requires lib.Sane()
      modifies this
      ensures (View(), ok) == OpenSource(lib, old(View()))
    {
      if currentURL >= |lib.files| {
        return false;
      }
      ok := lib.opens[currentURL];
      sourceAt, sourceBroken := 0, !ok;
      aState := aState.(processedInFile := 0);
      vState := vState.(processedInFile := 0);
    }

    method OpenIn() returns (ok: bool)
      requires lib.Sane()
      modifies this
      ensures (View(), ok) == OpenSource(lib, old(View()).(current := 0))
    {
      currentURL := 0;
      ok := OpenCurrent();
    }

    method ReadFrame() returns (frame: Option<Frame>)
      requires Valid()
      modifies this
      ensures (View(), frame) == Read(lib, old(View()))
    {
      if eof {
        return None;
      }
      var retry := true;
      frame := None;
      while currentURL < |lib.files| && retry
        invariant Valid() && !eof && frame == None
        invariant retry ==> Read(lib, View()) == Read(lib, old(View()))
        invariant !retry ==> (View(), frame) == Read(lib, old(View()))
        invariant currentURL >= |lib.files| ==> sourceBroken
        decreases |lib.files| - currentURL, retry
      {
        retry := false;
        if sourceBroken {
          return None;
        }
        if sourceAt < |lib.files[currentURL]| {
          var entry := lib.files[currentURL][sourceAt];
          sourceAt := sourceAt + 1;
          if entry.Fault? {
            return None;
          }
          var state := if entry.video then vState else aState;
          if state.processedInFile == 0 {
            state := state.(fileOffset := lib.offsets[currentURL]);
          }
          state := state.(lastFramePts := entry.pts + state.fileOffset,
                          processedInFile := state.processedInFile + 1,
                          processed := state.processed + 1);
          if entry.video {
            vState := state;
          } else {
            aState := state;
          }
          return Some(Frame(entry.video, state.lastFramePts));
        }
        if currentURL == |lib.files| - 1 {
          eof := true;
          return None;
        }
        currentURL := currentURL + 1;
        retry := OpenCurrent();
      }
    }

    method SeekTo(offset: int, landing: Option<nat>) returns (ok: bool)
      requires Valid()
      modifies this
      ensures (View(), ok) == Seek(lib, old(View()), offset, landing)
    {
      var fileID := 0;
      while fileID < |lib.offsets|
        invariant 0 <= fileID <= |lib.offsets|
        invariant |lib.offsets| > 0 ==> fileID < |lib.offsets|
        invariant |lib.offsets| > 0 ==> FileOf(lib.offsets, offset, fileID) == FileOf(lib.offsets, offset, 0)
      {
        var lastFile := fileID == |lib.offsets| - 1;
        if lastFile || Unsigned(offset) < lib.offsets[fileID+1] {
          break;
        }
        fileID := fileID + 1;
      }
      if fileID >= |lib.offsets| {
        eof := true;
        return true;
      }
      ok := true;
      if fileID != currentURL {
        currentURL := fileID;
        ok := OpenCurrent();
      }
      if ok {
        if landing.None? || sourceBroken {
          return false;
        }
        sourceAt := Min(landing.value, |lib.files[currentURL]|);
      }
    }
  }

  // ----- Reading on -----

  /** Once a packet of a medium has been read from a file, its offset is that of the file. */
  predicate OffsetsAreRight(lib: Library, s: State) {
    && (s.audio.processedInFile > 0 ==> s.current < |lib.offsets| && s.audio.fileOffset == lib.offsets[s.current])
    && (s.video.processedInFile > 0 ==> s.current < |lib.offsets| && s.video.fileOffset == lib.offsets[s.current])
  }

  lemma {:induction false} ReadKeepsOffsets(lib: Library, s: State)
    requires Sane(lib, s) && OffsetsAreRight(lib, s)
    ensures OffsetsAreRight(lib, Read(lib, s).0)
    decreases |lib.files| - s.current
  {
    if !s.eof && !s.broken && s.at == |lib.files[s.current]| && s.current < |lib.files| - 1 {
      var (t, ok) := OpenSource(lib, s.(current := s.current + 1));
      if ok {
        ReadKeepsOffsets(lib, t);
      }
    }
  }

  lemma SeekKeepsOffsets(lib: Library, s: State, offset: int, landing: Option<nat>)
    requires Sane(lib, s) && OffsetsAreRight(lib, s)
    ensures Sane(lib, Seek(lib, s, offset, landing).0) && OffsetsAreRight(lib, Seek(lib, s, offset, landing).0)
  {
  }

  /** Reads until a call brings no frame. */
  function Drain(lib: Library, s: State): seq<Frame>
    requires Sane(lib, s)
    decreases |lib.files| - s.current, if s.broken then 0 else |lib.files[s.current]| - s.at
  {
    var (t, frame) := Read(lib, s);
    if frame.None? then [] else
      ReadNeedsAFile(lib, s);
      [frame.value] + Drain(lib, t)
  }

  lemma ReadNeedsAFile(lib: Library, s: State)
    requires Sane(lib, s) && Read(lib, s).1.Some?
    ensures !s.broken
  {
  }

  /** What the files hold from `at` of the file `i` on, moved to their offsets, up to the first fault or
      the first file that does not open. */
  function Ahead(lib: Library, i: nat, at: nat): seq<Frame>
    requires lib.Sane() && (i < |lib.files| ==> at <= |lib.files[i]|)
    decreases |lib.files| - i, if i < |lib.files| then |lib.files[i]| - at else 0
  {
    if i >= |lib.files| then []
    else if at == |lib.files[i]| then
      if i + 1 < |lib.files| && lib.opens[i+1] then Ahead(lib, i + 1, 0) else []
    else if lib.files[i][at].Fault? then []
    else
      [Frame(lib.files[i][at].video, lib.files[i][at].pts + lib.offsets[i])] + Ahead(lib, i, at + 1)
  }

  lemma {:induction false} ReadIsAhead(lib: Library, s: State)
    requires Sane(lib, s) && OffsetsAreRight(lib, s) && !s.eof && !s.broken
    ensures var (t, frame) := Read(lib, s);
            Ahead(lib, s.current, s.at)
            == if frame.None? then [] else [frame.value] + Ahead(lib, t.current, t.at)
    decreases |lib.files| - s.current
  {
    if s.at == |lib.files[s.current]| && s.current < |lib.files| - 1 {
      var (t, ok) := OpenSource(lib, s.(current := s.current + 1));
      if ok {
        ReadIsAhead(lib, t);
      }
    }
  }

  /** Reading on returns exactly what lies ahead. */
  lemma {:induction false} DrainIsAhead(lib: Library, s: State)
    requires Sane(lib, s) && OffsetsAreRight(lib, s) && !s.eof && !s.broken
    ensures Drain(lib, s) == Ahead(lib, s.current, s.at)
    decreases |lib.files| - s.current, |lib.files[s.current]| - s.at
  {
    hide Read, Ahead, OffsetsAreRight;
    ReadIsAhead(lib, s);
    ReadKeepsOffsets(lib, s);
    var (t, frame) := Read(lib, s);
    if frame.Some? {
      DrainIsAhead(lib, t);
    }
  }

  // ----- One timeline -----

  ghost predicate AllGood(lib: Library) {
    && lib.Sane()
    && (forall i :: 0 <= i < |lib.opens| ==> lib.opens[i])
    && (forall i, j :: 0 <= i < |lib.files| && 0 <= j < |lib.files[i]| ==> lib.files[i][j].Packet?)
  }

  function Moved(entries: seq<Entry>, offset: nat): (r: seq<Frame>)
    requires forall j :: 0 <= j < |entries| ==> entries[j].Packet?
    ensures |r| == |entries|
    ensures forall j :: 0 <= j < |r| ==> r[j] == Frame(entries[j].video, entries[j].pts + offset)
  {
    seq(|entries|, j requires 0 <= j < |entries| => Frame(entries[j].video, entries[j].pts + offset))
  }

  /** The files from `i` on, each moved to its offset, one after the other. */
  ghost function Timeline(lib: Library, i: nat): seq<Frame>
    requires AllGood(lib) && i <= |lib.files|
    decreases |lib.files| - i
  {
    if i == |lib.files| then [] else Moved(lib.files[i], lib.offsets[i]) + Timeline(lib, i + 1)
  }

  /** One packet moves from what lies ahead in its file to the front. */
  lemma AheadOfPacket(lib: Library, i: nat, at: nat, later: seq<Frame>)
    requires AllGood(lib) && i < |lib.files| && at < |lib.files[i]|
    ensures var moved := Moved(lib.files[i], lib.offsets[i]);
            && Ahead(lib, i, at) == [moved[at]] + Ahead(lib, i, at + 1)
            && moved[at..] + later == [moved[at]] + (moved[at + 1..] + later)
  {
    var moved := Moved(lib.files[i], lib.offsets[i]);
    assert lib.files[i][at].Packet?;
    assert moved[at..] == [moved[at]] + moved[at + 1..];
    Seqs.Associate([moved[at]], moved[at + 1..], later);
  }

  lemma AheadOfEnd(lib: Library, i: nat)
    requires AllGood(lib) && i < |lib.files|
    ensures Ahead(lib, i, |lib.files[i]|) == if i + 1 < |lib.files| then Ahead(lib, i + 1, 0) else []
  {
  }

  lemma WholeFile(lib: Library, i: nat)
    requires AllGood(lib) && i < |lib.files|
    ensures var moved := Moved(lib.files[i], lib.offsets[i]);
            moved[0..] == moved && moved[|lib.files[i]|..] == []
  {
  }

  lemma {:induction false} AheadIsTimeline(lib: Library, i: nat, at: nat)
    requires AllGood(lib) && i < |lib.files| && at <= |lib.files[i]|
    ensures Ahead(lib, i, at) == Moved(lib.files[i], lib.offsets[i])[at..] + Timeline(lib, i + 1)
    decreases |lib.files| - i, |lib.files[i]| - at
  {
    hide Ahead, Moved, AllGood;
    InGoodOrder(lib);
    if at < |lib.files[i]| {
      AheadIsTimeline(lib, i, at + 1);
      AheadOfPacket(lib, i, at, Timeline(lib, i + 1));
    } else {
      AheadOfEnd(lib, i);
      WholeFile(lib, i);
      Seqs.EmptyConcat(Timeline(lib, i + 1));
      if i + 1 < |lib.files| {
        AheadIsTimeline(lib, i + 1, 0);
        WholeFile(lib, i + 1);
      }
    }
  }

  lemma InGoodOrder(lib: Library)
    requires AllGood(lib)
    ensures lib.Sane()
    ensures forall i, j :: 0 <= i < |lib.files| && 0 <= j < |lib.files[i]| ==> lib.files[i][j].Packet?
  {
  }

  /** Opening the list and reading it to the end plays every packet of every file, in order. */
  lemma PlaysEverything(lib: Library)
    requires AllGood(lib) && |lib.files| > 0
    ensures var (s, ok) := OpenSource(lib, Created());
            ok && Drain(lib, s) == Timeline(lib, 0)
  {
    var (s, ok) := OpenSource(lib, Created());
    DrainIsAhead(lib, s);
    AheadIsTimeline(lib, 0, 0);
    assert Moved(lib.files[0], lib.offsets[0])[0..] == Moved(lib.files[0], lib.offsets[0]);
  }

  /** Timestamps of each medium do not go back, nor below a floor. */
  predicate NeverGoesBack(frames: seq<Frame>, audio: int, video: int) {
    if frames == [] then true
    else if frames[0].video then video <= frames[0].pts && NeverGoesBack(frames[1..], audio, frames[0].pts)
    else audio <= frames[0].pts && NeverGoesBack(frames[1..], frames[0].pts, video)
  }

  /** Each file is in order and fits between its offset and the next one. */
  ghost predicate Fits(lib: Library) {
    && AllGood(lib)
    && (forall i, j :: 0 <= i <= j < |lib.offsets| ==> lib.offsets[i] <= lib.offsets[j])
    && (forall i :: 0 <= i < |lib.files| ==>
          NeverGoesBack(Moved(lib.files[i], lib.offsets[i]), lib.offsets[i], lib.offsets[i]))
    && (forall i, j :: 0 <= i < |lib.files| - 1 && 0 <= j < |lib.files[i]| ==>
          lib.files[i][j].pts + lib.offsets[i] < lib.offsets[i+1])
  }

  lemma {:induction false} OrderJoins(a: seq<Frame>, b: seq<Frame>, audio: int, video: int, middle: int)
    requires NeverGoesBack(a, audio, video) && NeverGoesBack(b, middle, middle)
    requires audio <= middle && video <= middle && forall j :: 0 <= j < |a| ==> a[j].pts <= middle
    ensures NeverGoesBack(a + b, audio, video)
  {
    if a == [] {
      Seqs.EmptyConcat(b);
      LowerFloor(b, middle, middle, audio, video);
    } else {
      Seqs.ConcatTail(a, b);
      if a[0].video {
        OrderJoins(a[1..], b, audio, a[0].pts, middle);
      } else {
        OrderJoins(a[1..], b, a[0].pts, video, middle);
      }
    }
  }

  lemma {:induction false} LowerFloor(a: seq<Frame>, audio: int, video: int, lowAudio: int, lowVideo: int)
    requires NeverGoesBack(a, audio, video) && lowAudio <= audio && lowVideo <= video
    ensures NeverGoesBack(a, lowAudio, lowVideo)
  {
    if a != [] {
      if a[0].video {
        LowerFloor(a[1..], audio, a[0].pts, lowAudio, a[0].pts);
      } else {
        LowerFloor(a[1..], a[0].pts, video, a[0].pts, lowVideo);
      }
    }
  }

  lemma {:induction false} TimelineNeverGoesBack(lib: Library, i: nat)
    requires Fits(lib) && i < |lib.files|
    ensures NeverGoesBack(Timeline(lib, i), lib.offsets[i], lib.offsets[i])
    decreases |lib.files| - i
  {
    var moved := Moved(lib.files[i], lib.offsets[i]);
    if i + 1 < |lib.files| {
      TimelineNeverGoesBack(lib, i + 1);
      OrderJoins(moved, Timeline(lib, i + 1), lib.offsets[i], lib.offsets[i], lib.offsets[i+1]);
    } else {
      Seqs.EmptyConcat(moved);
    }
  }

  // ----- Seeking -----

  lemma UnsignedIs(x: int)
    ensures 0 <= x < TWO_TO_THE_64 ==> Unsigned(x) == x
    ensures -TWO_TO_THE_64 <= x < 0 ==> Unsigned(x) == x + TWO_TO_THE_64
  {
  }

  /** A seek goes to the one file whose slot holds the target, and asks it for what is left over. */
  lemma SeekFindsTheFile(offsets: seq<nat>, offset: nat, file: nat)
    requires file < |offsets| && offset < TWO_TO_THE_64 / 2 && offsets[0] <= offset
    requires forall i, j :: 0 <= i <= j < |offsets| ==> offsets[i] <= offsets[j]
    ensures FileOf(offsets, offset, 0) == file
       <==> offsets[file] <= offset && (file + 1 < |offsets| ==> offset < offsets[file+1])
    ensures FileOf(offsets, offset, 0) == file ==> OffsetInFile(offsets, offset, file) + offsets[file] == offset
  {
    hide Unsigned;
    UnsignedIs(offset);
    var k := FileOf(offsets, offset, 0);
    assert offsets[k] <= offset;
    if file < k {
      assert offsets[file+1] <= offsets[k];
    } else if k < file {
      assert offsets[k+1] <= offsets[file];
    }
  }

  /** A target before the first file goes to its beginning; a negative one is taken for a huge one, and
      goes to the last file. */
  lemma SeekOutside(offsets: seq<nat>, offset: int)
    requires offsets != [] && -TWO_TO_THE_64 / 2 <= offset < TWO_TO_THE_64 / 2
    requires forall i, j :: 0 <= i <= j < |offsets| ==> offsets[i] <= offsets[j]
    requires forall i :: 0 <= i < |offsets| ==> offsets[i] < TWO_TO_THE_64 / 2
    ensures 0 <= offset < offsets[0] ==> FileOf(offsets, offset, 0) == 0 && OffsetInFile(offsets, offset, 0) == 0
    ensures offset < 0 ==> FileOf(offsets, offset, 0) == |offsets| - 1
  {
    hide Unsigned;
    UnsignedIs(offset);
    var k := FileOf(offsets, offset, 0);
  }

  function From(frames: seq<Frame>, pts: int): seq<Frame> {
    if frames == [] then []
    else if frames[0].pts >= pts then [frames[0]] + From(frames[1..], pts)
    else From(frames[1..], pts)
  }

  lemma {:induction false} FromConcat(a: seq<Frame>, b: seq<Frame>, pts: int)
    ensures From(a + b, pts) == From(a, pts) + From(b, pts)
  {
    if a == [] {
      Seqs.EmptyConcat(b);
    } else {
      Seqs.ConcatTail(a, b);
      FromConcat(a[1..], b, pts);
    }
  }

  lemma {:induction false} FromNone(a: seq<Frame>, pts: int)
    requires forall j :: 0 <= j < |a| ==> a[j].pts < pts
    ensures From(a, pts) == []
  {
    if a != [] {
      FromNone(a[1..], pts);
    }
  }

  lemma {:induction false} FromAll(a: seq<Frame>, pts: int)
    requires forall j :: 0 <= j < |a| ==> a[j].pts >= pts
    ensures From(a, pts) == a
  {
    if a != [] {
      FromAll(a[1..], pts);
      assert [a[0]] + a[1..] == a;
    }
  }

  lemma {:induction false} FloorHolds(a: seq<Frame>, audio: int, video: int, floor: int)
    requires NeverGoesBack(a, audio, video) && floor <= audio && floor <= video
    ensures forall j :: 0 <= j < |a| ==> a[j].pts >= floor
  {
    if a != [] {
      if a[0].video {
        FloorHolds(a[1..], audio, a[0].pts, floor);
      } else {
        FloorHolds(a[1..], a[0].pts, video, floor);
      }
      forall j | 0 <= j < |a| ensures a[j].pts >= floor {
        assert j > 0 ==> a[j] == a[1..][j-1];
      }
    }
  }

  /** The part of the timeline from `pts` on begins in the file whose slot holds it. */
  lemma {:induction false} FromTimeline(lib: Library, i: nat, file: nat, pts: nat)
    requires Fits(lib) && i <= file < |lib.files| && lib.offsets[file] <= pts
    requires file + 1 < |lib.files| ==> pts <= lib.offsets[file+1]
    ensures From(Timeline(lib, i), pts)
         == From(Moved(lib.files[file], lib.offsets[file]), pts) + Timeline(lib, file + 1)
    decreases file - i
  {
    var moved := Moved(lib.files[i], lib.offsets[i]);
    FromConcat(moved, Timeline(lib, i + 1), pts);
    if i < file {
      FromTimeline(lib, i + 1, file, pts);
      assert lib.offsets[i+1] <= lib.offsets[file];
      FromNone(moved, pts);
      Seqs.EmptyConcat(From(Timeline(lib, i + 1), pts));
    } else if i + 1 < |lib.files| {
      TimelineNeverGoesBack(lib, i + 1);
      FloorHolds(Timeline(lib, i + 1), lib.offsets[i+1], lib.offsets[i+1], pts);
      FromAll(Timeline(lib, i + 1), pts);
    }
  }

  /** The source has landed on the first packet that is not before `target`. */
  ghost predicate LandsOn(entries: seq<Entry>, target: int, landing: nat) {
    && landing <= |entries|
    && (forall j :: 0 <= j < landing ==> entries[j].Packet? && entries[j].pts < target)
    && (forall j :: landing <= j < |entries| ==> entries[j].Packet? && entries[j].pts >= target)
  }

  lemma FromLanding(entries: seq<Entry>, offset: nat, target: int, landing: nat)
    requires LandsOn(entries, target, landing)
    ensures From(Moved(entries, offset), target + offset) == Moved(entries, offset)[landing..]
  {
    var moved := Moved(entries, offset);
    assert moved == moved[..landing] + moved[landing..];
    FromConcat(moved[..landing], moved[landing..], target + offset);
    FromNone(moved[..landing], target + offset);
    FromAll(moved[landing..], target + offset);
  }

  lemma SeekGoesTo(lib: Library, s: State, offset: nat, landing: nat)
    requires AllGood(lib) && Sane(lib, s) && !s.eof && lib.files != []
    requires s.broken ==> s.current != FileOf(lib.offsets, offset, 0)
    requires landing <= |lib.files[FileOf(lib.offsets, offset, 0)]|
    ensures var (t, ok) := Seek(lib, s, offset, Some(landing));
            ok && !t.broken && !t.eof && t.current == FileOf(lib.offsets, offset, 0) && t.at == landing
  {
    hide FileOf;
  }

  /** When the source lands where it is asked to, reading on from a seek plays the rest of the one
      timeline, whatever was read before. */
  lemma {:induction false} SeekLandsOnTheTimeline(lib: Library, s: State, offset: nat, landing: nat)
    requires Fits(lib) && Sane(lib, s) && OffsetsAreRight(lib, s) && !s.eof && lib.files != []
    requires s.broken ==> s.current != FileOf(lib.offsets, offset, 0)
    requires lib.offsets[0] <= offset < TWO_TO_THE_64 / 2
    requires var file := FileOf(lib.offsets, offset, 0);
             LandsOn(lib.files[file], OffsetInFile(lib.offsets, offset, file), landing)
    ensures var (t, ok) := Seek(lib, s, offset, Some(landing));
            && ok && Sane(lib, t)
            && Drain(lib, t) == From(Timeline(lib, 0), offset)
  {
    hide FileOf, OffsetInFile, Seek, Drain, Ahead, From, OffsetsAreRight, Timeline;
    var file := FileOf(lib.offsets, offset, 0);
    var (t, ok) := Seek(lib, s, offset, Some(landing));
    SeekFindsTheFile(lib.offsets, offset, file);
    SeekKeepsOffsets(lib, s, offset, Some(landing));
    SeekGoesTo(lib, s, offset, landing);
    DrainIsAhead(lib, t);
    AheadIsTimeline(lib, file, landing);
    FromTimeline(lib, 0, file, offset);
    FromLanding(lib.files[file], lib.offsets[file], OffsetInFile(lib.offsets, offset, file), landing);
  }

  /** The end of the list is final: seeking back does not make it readable again. */
  lemma EndIsFinal(lib: Library, s: State, offset: int, landing: Option<nat>)
    requires Sane(lib, s) && s.eof
    ensures Sane(lib, Seek(lib, s, offset, landing).0)
    ensures Seek(lib, s, offset, landing).0.eof && Drain(lib, Seek(lib, s, offset, landing).0) == []
  {
  }

  // ----- When reading stops, what is counted, and when seeking fails -----

  /** Why a read brings nothing: the list is at its end, the source has failed to open (before, or the
      next file now), or the packet just read was faulty. Files on the way are empty and do open. */
  lemma {:induction false} ReadingStopsForACause(lib: Library, s: State)
    requires Sane(lib, s) && Read(lib, s).1.None?
    ensures var t := Read(lib, s).0;
      && (|| (t == s && (s.eof || s.broken))
          || (t.eof && t.current == |lib.files| - 1 && t.at == |lib.files[t.current]| && !t.broken)
          || (!t.eof && t.broken && s.current < t.current < |lib.files| && !lib.opens[t.current])
          || (!t.eof && !t.broken && t.current < |lib.files| && 0 < t.at <= |lib.files[t.current]|
              && lib.files[t.current][t.at - 1] == Fault))
      && (forall i :: s.current < i < t.current ==> i < |lib.files| && lib.files[i] == [] && lib.opens[i])
    decreases |lib.files| - s.current
  {
    if !s.eof && !s.broken && s.at == |lib.files[s.current]| && s.current < |lib.files| - 1 {
      var (t, ok) := OpenSource(lib, s.(current := s.current + 1));
      if ok {
        ReadingStopsForACause(lib, t);
      }
    }
  }

  /** A frame read is counted once, for its medium, and its timestamp is remembered there. */
  lemma {:induction false} ReadCountsTheFrame(lib: Library, s: State)
    requires Sane(lib, s)
    ensures var (t, frame) := Read(lib, s);
      match frame
      case None => t.audio.processed == s.audio.processed && t.video.processed == s.video.processed
      case Some(f) =>
        && t.video.processed == s.video.processed + (if f.video then 1 else 0)
        && t.audio.processed == s.audio.processed + (if f.video then 0 else 1)
        && (if f.video then t.video else t.audio).lastFramePts == f.pts
        && (if f.video then t.audio else t.video).lastFramePts
           == (if f.video then s.audio else s.video).lastFramePts
    decreases |lib.files| - s.current
  {
    if !s.eof && !s.broken && s.at == |lib.files[s.current]| && s.current < |lib.files| - 1 {
      var (t, ok) := OpenSource(lib, s.(current := s.current + 1));
      if ok {
        ReadCountsTheFrame(lib, t);
      }
    }
  }

  /** A seek succeeds in an empty list, which is then at its end; otherwise exactly if the file found is
      open already or opens now and the source can seek in it. It is the current file either way. */
  lemma SeekSucceedsIff(lib: Library, s: State, offset: int, landing: Option<nat>)
    requires Sane(lib, s)
    ensures var (t, ok) := Seek(lib, s, offset, landing);
      if lib.files == [] then ok && t == s.(eof := true) else
        var file := FileOf(lib.offsets, offset, 0);
        && t.current == file && t.eof == s.eof
        && (ok <==> landing.Some? && if file == s.current then !s.broken else lib.opens[file])
        && (ok ==> t.at == if landing.value < |lib.files[file]| then landing.value else |lib.files[file]|)
        && (t.audio.processed, t.video.processed) == (s.audio.processed, s.video.processed)
        && (file != s.current ==> t.audio.processedInFile == 0 == t.video.processedInFile)
        && (file == s.current ==> t.audio == s.audio && t.video == s.video)
  {
    hide FileOf;
  }
}
