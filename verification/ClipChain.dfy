/** How StreamReader.py registers the files of a recording in the clip database: a thread moves each
    finished file away, and the file is entered once that thread has been seen to be done. What the
    stream delivers and whether the thread is still alive when asked are inputs. */
module ClipChain {
  import opened Media
  import Seqs

  /** Letters of ASCII; other characters are left alone. */
  function LowerChar(c: char): char {
    if 'A' <= c <= 'Z' then c - 'A' + 'a' else c
  }

  function Lower(s: string): (r: string)
    ensures |r| == |s|
  {
    seq(|s|, i requires 0 <= i < |s| => LowerChar(s[i]))
  }

  /** The part of a path after the last slash. */
  function Base(path: string): string {
    if path == [] || path[|path|-1] == '/' then [] else Base(path[..|path|-1]) + [path[|path|-1]]
  }

  lemma {:induction false} BaseIsTheLastPart(path: string)
    ensures var r := Base(path);
            && |r| <= |path| && r == path[|path| - |r|..] && '/' !in r
            && (|r| < |path| ==> path[|path| - |r| - 1] == '/')
  {
    if path != [] && path[|path|-1] != '/' {
      BaseIsTheLastPart(path[..|path|-1]);
    }
  }

  /** Clips are filed in a directory per location and first five characters of the name. */
  function DirOf(location: string, name: string): string {
    Lower(location + "/" + name[..if |name| < 5 then |name| else 5])
  }

  datatype Link = Link(dir: string, name: string)

  datatype Clip = Clip(dir: string, name: string, firstMs: int, lastMs: int, prev: Option<Link>)

  /** What a moving thread has been given to register. */
  datatype Mover = Mover(dir: string, name: string, firstMs: int, lastMs: int, prevDir: string, prevName: string)

  function Registered(m: Mover): Clip {
    Clip(m.dir, Lower(m.name), m.firstMs, m.lastMs,
         if m.prevName == "" then None else Some(Link(m.prevDir, m.prevName)))
  }

  datatype State = State(
    stream: bool,
    isRunning: bool,
    curPath: string,
    curName: string,
    curDir: string,
    prevName: string,
    prevDir: string,
    startMs: int,
    lastMs: int,
    mover: Option<Mover>,
    db: seq<Clip>)

  function Created(): State {
    State(false, false, "", "", "", "", "", 0, 0, None, [])
  }

  datatype Result = NoFrame(running: bool) | Delivered(path: string, ms: int)

  datatype Event =
    | Open(opens: bool)
    | NewFrame(result: Result, alive: bool)
    | Close

  // ----- What the reader does -----

  function Finalize(s: State, block: bool, alive: bool): State {
    if s.mover.None? || (alive && !block) then s
    else s.(mover := None, db := s.db + [Registered(s.mover.value)])
  }

  function MoverOf(s: State): Mover {
    Mover(s.curDir, s.curName, s.startMs, s.lastMs, s.prevDir, s.prevName)
  }

  function AddFile(s: State): State {
    if s.curName == "" then s else
      var t := Finalize(s, true, true);
      t.(mover := Some(MoverOf(t)))
  }

  function CloseAll(s: State): State {
    Created().(db := Finalize(AddFile(s), true, true).db)
  }

  function Follow(s: State, location: string, path: string, ms: int): State {
    if path == s.curPath then s
    else
      var t := AddFile(s);
      t.(curPath := path, prevName := t.curName, prevDir := t.curDir,
         curName := Base(path), curDir := DirOf(location, Base(path)), startMs := ms)
  }

  function Step(s: State, location: string, e: Event): State {
    match e
    case Open(opens) =>
      var t := if s.stream then CloseAll(s) else s;
      if opens then t.(stream := true, isRunning := true) else t
    case Close => CloseAll(s)
    case NewFrame(result, alive) =>
      if !s.stream || !s.isRunning then s
      else match result
        case NoFrame(running) => if running then s else CloseAll(s)
        case Delivered(path, ms) => Finalize(Follow(s, location, path, ms).(lastMs := ms), false, alive)
  }

  lemma AddingIgnoresPath(s: State, path: string)
    ensures AddFile(s.(curPath := path)) == AddFile(s).(curPath := path)
  {
  }

  /** The reader, with a clip manager; without one it registers nothing. */
  class StreamReader {
    const location: string
    var stream: bool
    var isRunning: bool
    var curFilePath: string
    var curFilename: string
    var curDirPath: string
    var prevFilename: string
    var prevDirPath: string
    var curStartMs: int
    var curLastMs: int
    var moverThread: Option<Mover>
    var db: seq<Clip>

    ghost function View(): State
      reads this
    {
      State(stream, isRunning, curFilePath, curFilename, curDirPath, prevFilename, prevDirPath,
            curStartMs, curLastMs, moverThread, db)
    }

    constructor (name: string)
      ensures View() == Created() && location == name
    {
      location := name;
      stream, isRunning := false, false;
      curFilePath, curFilename, curDirPath, prevFilename, prevDirPath := "", "", "", "", "";
      curStartMs, curLastMs, moverThread, db := 0, 0, None, [];
    }

    method InitVariables()
      modifies this
      ensures View() == Created().(mover := old(moverThread), db := old(db))
    {
      stream, isRunning := false, false;
      curFilePath, curFilename, curDirPath, prevFilename, prevDirPath := "", "", "", "", "";
      curStartMs, curLastMs := 0, 0;
    }

    method FinalizeMoverThread(blockIfRunning: bool, alive: bool)
      modifies this`moverThread, this`db
      ensures View() == Finalize(old(View()), blockIfRunning, alive)
    {
      if moverThread.Some? {
        if alive {
          if !blockIfRunning {
            return;
          }
        }
        db := db + [Registered(moverThread.value)];
        moverThread := None;
      }
    }

    method AddFileToDb(alive: bool)
      modifies this`moverThread, this`db
      ensures View() == AddFile(old(View()))
    {
      if curFilename == "" {
        return;
      }
      FinalizeMoverThread(true, alive);
      assert moverThread.None?;
      moverThread := Some(Mover(curDirPath, curFilename, curStartMs, curLastMs, prevDirPath, prevFilename));
    }

    method CloseStream(alive: bool, lastAlive: bool)
      modifies this
      ensures View() == CloseAll(old(View()))
    {
      isRunning := false;
      if curFilename != "" {
        AddFileToDb(alive);
      }
      FinalizeMoverThread(true, lastAlive);
      InitVariables();
    }

    method OpenStream(opens: bool, alive: bool, lastAlive: bool) returns (ok: bool)
      modifies this
      ensures View() == Step(old(View()), location, Open(opens))
      ensures ok == isRunning
    {
      if stream {
        CloseStream(alive, lastAlive);
      }
      if opens {
        stream, isRunning := true, true;
      }
      return isRunning;
    }

    /** A new file name closes the file before. */
    method FollowFile(path: string, ms: int, alive: bool)
      modifies this
      ensures View() == Follow(old(View()), location, path, ms)
    {
      hide Base, DirOf, AddFile;
      if path != curFilePath {
        AddingIgnoresPath(View(), path);
        curFilePath := path;
        AddFileToDb(alive);
        prevFilename := curFilename;
        prevDirPath := curDirPath;
        curFilename := Base(curFilePath);
        curDirPath := DirOf(location, curFilename);
        curStartMs := ms;
      }
    }

    method GetNewFrame(result: Result, aliveBefore: bool, alive: bool) returns (frame: Option<(string, int)>)
      modifies this
      ensures View() == Step(old(View()), location, NewFrame(result, alive))
      ensures frame == if old(stream && isRunning) && result.Delivered? then Some((result.path, result.ms)) else None
    {
      hide Follow, Finalize, CloseAll;
      if !stream || !isRunning {
        return None;
      }
      if result.NoFrame? {
        if !result.running {
          CloseStream(aliveBefore, alive);
        }
        return None;
      }
      FollowFile(result.path, result.ms, aliveBefore);
      curLastMs := result.ms;
      FinalizeMoverThread(false, alive);
      return Some((result.path, result.ms));
    }
  }

  // ----- What ought to be registered -----

  datatype Shot = Shot(path: string, ms: int)

  /** A stretch of frames recorded to one file. */
  datatype Segment = Segment(path: string, firstMs: int, lastMs: int)

  function Segments(shots: seq<Shot>): (r: seq<Segment>)
    ensures shots != [] ==> r != [] && r[|r|-1].path == shots[|shots|-1].path && r[|r|-1].lastMs == shots[|shots|-1].ms
    ensures shots == [] ==> r == []
    ensures forall i :: 0 < i < |r| ==> r[i].path != r[i-1].path
  {
    if shots == [] then []
    else
      var before, shot := Segments(shots[..|shots|-1]), shots[|shots|-1];
      if before != [] && before[|before|-1].path == shot.path then
        before[..|before|-1] + [before[|before|-1].(lastMs := shot.ms)]
      else before + [Segment(shot.path, shot.ms, shot.ms)]
  }

  function PrevOf(location: string, segments: seq<Segment>, i: nat): Option<Link>
    requires i <= |segments|
  {
    if i == 0 || Base(segments[i-1].path) == "" then None
    else Some(Link(DirOf(location, Base(segments[i-1].path)), Base(segments[i-1].path)))
  }

  function ClipFor(location: string, segment: Segment, prev: Option<Link>): seq<Clip> {
    var name := Base(segment.path);
    if name == "" then []
    else [Clip(DirOf(location, name), Lower(name), segment.firstMs, segment.lastMs, prev)]
  }

  /** One clip for each file with a name, in order, with its own times and a link to the file before. */
  function ClipsOf(location: string, segments: seq<Segment>): seq<Clip> {
    if segments == [] then []
    else
      var n := |segments| - 1;
      ClipsOf(location, segments[..n]) + ClipFor(location, segments[n], PrevOf(location, segments, n))
  }

  /** What has been closed, and the frames delivered since the stream was opened. */
  datatype Ledger = Ledger(closed: seq<Clip>, shots: seq<Shot>, isOpen: bool)

  function Settle(l: Ledger, location: string): Ledger {
    Ledger(l.closed + ClipsOf(location, Segments(l.shots)), [], false)
  }

  function Enter(l: Ledger, location: string, e: Event): Ledger {
    match e
    case Open(opens) => var t := if l.isOpen then Settle(l, location) else l; t.(isOpen := opens || t.isOpen)
    case Close => Settle(l, location)
    case NewFrame(result, _) =>
      if !l.isOpen then l
      else match result
        case NoFrame(running) => if running then l else Settle(l, location)
        case Delivered(path, ms) => l.(shots := l.shots + [Shot(path, ms)])
  }

  function Run(s: State, location: string, events: seq<Event>): State
    decreases events
  {
    if events == [] then s else Run(Step(s, location, events[0]), location, events[1..])
  }

  function EnterAll(l: Ledger, location: string, events: seq<Event>): Ledger
    decreases events
  {
    if events == [] then l else EnterAll(Enter(l, location, events[0]), location, events[1..])
  }

  function Moving(s: State): seq<Clip> {
    if s.mover.Some? then [Registered(s.mover.value)] else []
  }

  function Recording(s: State): seq<Clip> {
    if s.curName == "" then [] else [Registered(MoverOf(s))]
  }

  /** The current and previous names are those of the last two stretches. */
  predicate Tracks(s: State, location: string, shots: seq<Shot>) {
    var segments := Segments(shots);
    var n := |segments|;
    if n == 0 then s.curPath == "" && s.curName == "" && s.prevName == ""
    else
      && s.curPath == segments[n-1].path && s.curName == Base(s.curPath)
      && (s.curName != "" ==> s.curDir == DirOf(location, s.curName) && s.startMs == segments[n-1].firstMs)
      && s.lastMs == segments[n-1].lastMs
      && (s.curName != "" ==> PrevLink(s) == PrevOf(location, segments, n - 1))
  }

  function PrevLink(s: State): Option<Link> {
    if s.prevName == "" then None else Some(Link(s.prevDir, s.prevName))
  }

  function Earlier(segments: seq<Segment>): seq<Segment> {
    if segments == [] then [] else segments[..|segments|-1]
  }

  /** All stretches but the one being recorded are registered or being moved, each once, in order. */
  predicate Agrees(s: State, location: string, l: Ledger) {
    && s.stream == s.isRunning == l.isOpen
    && Tracks(s, location, l.shots)
    && s.db + Moving(s) == l.closed + ClipsOf(location, Earlier(Segments(l.shots)))
    && (!l.isOpen ==> l.shots == [] && s.mover.None?)
  }

  lemma {:induction false} SegmentsOfOne(shots: seq<Shot>, shot: Shot)
    ensures var before := Segments(shots);
            Segments(shots + [shot])
            == if before != [] && before[|before|-1].path == shot.path then
                 before[..|before|-1] + [before[|before|-1].(lastMs := shot.ms)]
               else before + [Segment(shot.path, shot.ms, shot.ms)]
  {
    assert (shots + [shot])[..|shots|] == shots;
  }

  /** The clip of the stretch that is being recorded is the last one. */
  lemma LastClip(location: string, segments: seq<Segment>)
    requires segments != []
    ensures var n := |segments| - 1;
            ClipsOf(location, segments)
            == ClipsOf(location, segments[..n]) + ClipFor(location, segments[n], PrevOf(location, segments, n))
  {
  }

  lemma RecordingIsLast(s: State, location: string, shots: seq<Shot>)
    requires Tracks(s, location, shots)
    ensures var segments := Segments(shots);
            Recording(s) == if segments == [] then []
                            else ClipFor(location, segments[|segments|-1], PrevOf(location, segments, |segments| - 1))
  {
    hide Base, DirOf, Lower, Segments;
  }

  lemma AddingMovesOn(s: State)
    ensures var t := AddFile(s);
            && t.db + Moving(t) == s.db + Moving(s) + Recording(s)
            && t == s.(db := t.db, mover := t.mover)
  {
    hide Registered, MoverOf;
    AddingIsTheSameMover(s);
  }

  lemma AddingIsTheSameMover(s: State)
    ensures MoverOf(Finalize(s, true, true)) == MoverOf(s)
  {
  }

  lemma FinalizingRegisters(s: State, block: bool, alive: bool)
    ensures var t := Finalize(s, block, alive);
            && t.db + Moving(t) == s.db + Moving(s)
            && t == s.(db := t.db, mover := t.mover)
            && (block ==> t.mover.None?)
            && (s.mover.None? ==> t == s)
  {
    hide Registered;
  }

  lemma ClosingRegistersAll(s: State)
    ensures CloseAll(s) == Created().(db := s.db + Moving(s) + Recording(s))
  {
    hide AddFile, Finalize;
    AddingMovesOn(s);
    FinalizingRegisters(AddFile(s), true, true);
  }

  /** Together with the file being recorded, that is every file there ought to be. */
  lemma AgreeingIsComplete(s: State, location: string, l: Ledger)
    requires Agrees(s, location, l)
    ensures s.db + Moving(s) + Recording(s) == l.closed + ClipsOf(location, Segments(l.shots))
  {
    hide ClipsOf, ClipFor, Recording, Moving;
    var segments := Segments(l.shots);
    RecordingIsLast(s, location, l.shots);
    if segments == [] {
      Seqs.EmptyConcat(s.db + Moving(s));
    } else {
      LastClip(location, segments);
      Seqs.Associate(l.closed, ClipsOf(location, Earlier(segments)), Recording(s));
    }
  }

  lemma ClosingAgrees(s: State, location: string, l: Ledger)
    requires Agrees(s, location, l)
    ensures Agrees(CloseAll(s), location, Settle(l, location))
  {
    hide CloseAll, ClipsOf, Agrees;
    ClosingRegistersAll(s);
    AgreeingIsComplete(s, location, l);
    NothingOpen(location, CloseAll(s), Settle(l, location).closed);
  }

  lemma NothingOpen(location: string, s: State, closed: seq<Clip>)
    requires s == Created().(db := closed)
    ensures Agrees(s, location, Ledger(closed, [], false))
  {
  }

  lemma StayingTracks(s: State, location: string, shots: seq<Shot>, shot: Shot)
    requires Tracks(s, location, shots) && shot.path == s.curPath
    ensures Tracks(s.(lastMs := shot.ms), location, shots + [shot])
  {
    hide Segments, DirOf, Base;
    SegmentsOfOne(shots, shot);
    BaseOfNothing();
  }

  /** A shot of another file begins a stretch; the one before it stays as it was. */
  lemma NewStretch(location: string, shots: seq<Shot>, shot: Shot)
    requires var before := Segments(shots); before == [] || before[|before|-1].path != shot.path
    ensures var before, after := Segments(shots), Segments(shots + [shot]);
            var n := |before|;
            && |after| == n + 1 && after[n] == Segment(shot.path, shot.ms, shot.ms)
            && PrevOf(location, after, n)
               == if n == 0 || Base(before[n-1].path) == "" then None
                  else Some(Link(DirOf(location, Base(before[n-1].path)), Base(before[n-1].path)))
  {
    hide Segments, DirOf, Base;
    SegmentsOfOne(shots, shot);
  }

  lemma MovingOnTracks(s: State, location: string, shots: seq<Shot>, shot: Shot)
    requires Tracks(s, location, shots) && shot.path != s.curPath
    ensures Tracks(Follow(s, location, shot.path, shot.ms).(lastMs := shot.ms), location, shots + [shot])
  {
    hide Segments, DirOf, Base, AddFile, PrevOf;
    NewStretch(location, shots, shot);
    AddingMovesOn(s);
  }

  lemma FollowingTracks(s: State, location: string, shots: seq<Shot>, shot: Shot)
    requires Tracks(s, location, shots)
    ensures Tracks(Follow(s, location, shot.path, shot.ms).(lastMs := shot.ms), location, shots + [shot])
  {
    hide Tracks, AddFile;
    if shot.path == s.curPath {
      StayingTracks(s, location, shots, shot);
    } else {
      MovingOnTracks(s, location, shots, shot);
    }
  }

  lemma BaseOfNothing()
    ensures Base("") == ""
  {
  }

  lemma FollowingAgrees(s: State, location: string, l: Ledger, shot: Shot)
    requires Agrees(s, location, l) && l.isOpen
    ensures Agrees(Follow(s, location, shot.path, shot.ms).(lastMs := shot.ms), location, l.(shots := l.shots + [shot]))
  {
    hide Segments, DirOf, Base, AddFile, ClipsOf, Moving, Recording, Tracks;
    var t := Follow(s, location, shot.path, shot.ms).(lastMs := shot.ms);
    var segments := Segments(l.shots);
    FollowingTracks(s, location, l.shots, shot);
    SegmentsOfOne(l.shots, shot);
    TracksPath(s, location, l.shots);
    if shot.path == s.curPath {
      assert Earlier(Segments(l.shots + [shot])) == Earlier(segments);
      MovingIgnoresTheRest(s, t);
    } else {
      AgreeingIsComplete(s, location, l);
      AddingMovesOn(s);
      MovingIgnoresTheRest(AddFile(s), t);
      assert Earlier(Segments(l.shots + [shot])) == segments;
    }
  }

  lemma TracksPath(s: State, location: string, shots: seq<Shot>)
    requires Tracks(s, location, shots)
    ensures var segments := Segments(shots);
            s.curPath == if segments == [] then "" else segments[|segments|-1].path
  {
  }

  lemma MovingIgnoresTheRest(s: State, t: State)
    requires s.mover == t.mover
    ensures Moving(s) == Moving(t)
  {
  }

  lemma FinalizingAgrees(s: State, location: string, l: Ledger, block: bool, alive: bool)
    requires Agrees(s, location, l)
    ensures Agrees(Finalize(s, block, alive), location, l)
  {
    hide Segments, ClipsOf, Moving, Finalize;
    FinalizingRegisters(s, block, alive);
  }

  lemma OpeningAgrees(s: State, location: string, l: Ledger)
    requires Agrees(s, location, l)
    ensures Agrees(s.(stream := true, isRunning := true), location, l.(isOpen := true))
  {
    hide Segments, ClipsOf, DirOf, Base;
  }

  lemma StepAgrees(s: State, location: string, l: Ledger, e: Event)
    requires Agrees(s, location, l)
    ensures Agrees(Step(s, location, e), location, Enter(l, location, e))
  {
    hide CloseAll, Follow, Finalize, Tracks, Moving, ClipsOf, Segments;
    match e
    case Close => ClosingAgrees(s, location, l);
    case Open(opens) =>
      ClosingAgrees(s, location, l);
      var (t, m) := if l.isOpen then (CloseAll(s), Settle(l, location)) else (s, l);
      OpeningAgrees(t, location, m);
    case NewFrame(NoFrame(running), alive) =>
      ClosingAgrees(s, location, l);
    case NewFrame(Delivered(path, ms), alive) =>
      if l.isOpen {
        FollowingAgrees(s, location, l, Shot(path, ms));
        var t := Follow(s, location, path, ms).(lastMs := ms);
        FinalizingAgrees(t, location, l.(shots := l.shots + [Shot(path, ms)]), false, alive);
      }
  }

  lemma {:induction false} RunAgrees(s: State, location: string, l: Ledger, events: seq<Event>)
    requires Agrees(s, location, l)
    ensures Agrees(Run(s, location, events), location, EnterAll(l, location, events))
    decreases events
  {
    hide Agrees, Step, Enter;
    if events != [] {
      StepAgrees(s, location, l, events[0]);
      RunAgrees(Step(s, location, events[0]), location, Enter(l, location, events[0]), events[1..]);
    }
  }

  const NOTHING_YET := Ledger([], [], false)

  /** Whatever the moving threads do, at every moment each file is registered, being moved or being
      recorded exactly once, in the order of recording; once the stream is closed, all are registered. */
  lemma EveryFileOnce(location: string, events: seq<Event>)
    ensures var s, l := Run(Created(), location, events), EnterAll(NOTHING_YET, location, events);
            && s.db + Moving(s) + Recording(s) == l.closed + ClipsOf(location, Segments(l.shots))
            && (!l.isOpen ==> s.db == l.closed)
            && s.stream == l.isOpen
  {
    hide Run, EnterAll, Agrees, ClipsOf, Segments;
    NothingOpen(location, Created(), []);
    RunAgrees(Created(), location, NOTHING_YET, events);
    var s, l := Run(Created(), location, events), EnterAll(NOTHING_YET, location, events);
    AgreeingIsComplete(s, location, l);
    AgreeingWhenClosed(s, location, l);
  }

  lemma AgreeingWhenClosed(s: State, location: string, l: Ledger)
    requires Agrees(s, location, l)
    ensures s.stream == l.isOpen
    ensures !l.isOpen ==> s.db == l.closed
  {
    Seqs.EmptyConcat(s.db);
    Seqs.EmptyConcat(l.closed);
  }

  /** The timing of the moving threads makes no difference to what is registered in the end. */
  predicate SameButForTiming(a: seq<Event>, b: seq<Event>) {
    && |a| == |b|
    && forall i :: 0 <= i < |a| ==> a[i] == b[i] || (a[i].NewFrame? && b[i].NewFrame? && a[i].result == b[i].result)
  }

  lemma {:induction false} LedgerIgnoresTiming(location: string, l: Ledger, a: seq<Event>, b: seq<Event>)
    requires SameButForTiming(a, b)
    ensures EnterAll(l, location, a) == EnterAll(l, location, b)
    decreases a
  {
    hide Settle;
    if a != [] {
      assert forall i :: 0 <= i < |a[1..]| ==> a[1..][i] == a[i+1] && b[1..][i] == b[i+1];
      LedgerIgnoresTiming(location, Enter(l, location, a[0]), a[1..], b[1..]);
    }
  }

  lemma TimingDoesNotMatter(location: string, a: seq<Event>, b: seq<Event>)
    requires SameButForTiming(a, b)
    ensures Run(Created(), location, a + [Close]).db == Run(Created(), location, b + [Close]).db
  {
    hide Run, EnterAll, ClipsOf, Segments;
    assert SameButForTiming(a + [Close], b + [Close]);
    LedgerIgnoresTiming(location, NOTHING_YET, a + [Close], b + [Close]);
    EveryFileOnce(location, a + [Close]);
    EveryFileOnce(location, b + [Close]);
    ClosedAtTheEnd(location, NOTHING_YET, a);
  }

  lemma {:induction false} ClosedAtTheEnd(location: string, l: Ledger, events: seq<Event>)
    ensures !EnterAll(l, location, events + [Close]).isOpen
    decreases events
  {
    if events == [] {
      assert ([] + [Close])[1..] == [];
    } else {
      assert (events + [Close])[1..] == events[1..] + [Close];
      ClosedAtTheEnd(location, Enter(l, location, events[0]), events[1..]);
    }
  }

  predicate IsNamed(segment: Segment) {
    Base(segment.path) != ""
  }

  lemma {:induction false} ClipAt(location: string, segments: seq<Segment>, i: nat)
    requires i < |segments| && forall j :: 0 <= j < |segments| ==> IsNamed(segments[j])
    ensures |ClipsOf(location, segments)| == |segments|
    ensures [ClipsOf(location, segments)[i]] == ClipFor(location, segments[i], PrevOf(location, segments, i))
    decreases |segments|
  {
    hide Base, DirOf, Lower;
    var n := |segments| - 1;
    var front := segments[..n];
    if n > 0 {
      ClipAt(location, front, if i < n then i else n - 1);
    }
    assert i < n ==> front[i] == segments[i] && PrevOf(location, front, i) == PrevOf(location, segments, i);
  }

  /** Where all files have names there is one clip per stretch, with its times. The link of a clip names
      the one registered before it if and only if that file's name has no capitals. */
  lemma ChainIsLinked(location: string, segments: seq<Segment>, i: nat)
    requires i < |segments| && forall j :: 0 <= j < |segments| ==> IsNamed(segments[j])
    ensures |ClipsOf(location, segments)| == |segments|
    ensures var clip := ClipsOf(location, segments)[i];
            && clip.name == Lower(Base(segments[i].path)) && clip.dir == DirOf(location, Base(segments[i].path))
            && clip.firstMs == segments[i].firstMs && clip.lastMs == segments[i].lastMs
            && (clip.prev.None? <==> i == 0)
    ensures i > 0 ==>
      var clips, name := ClipsOf(location, segments), Base(segments[i-1].path);
      clips[i].prev == Some(Link(clips[i-1].dir, clips[i-1].name)) <==> Lower(name) == name
  {
    hide Base, DirOf, Lower, ClipsOf;
    ClipAt(location, segments, i);
    if i > 0 {
      ClipAt(location, segments, i - 1);
    }
  }

  /** Lower case moves the 26 capitals of ASCII by 32 and nothing else. */
  lemma LowerMovesCapitals(s: string, i: nat)
    requires i < |s|
    ensures Lower(s)[i] as int == s[i] as int + if 65 <= s[i] as int <= 90 then 32 else 0
  {
  }

  /** A clip is filed under its location and at most five characters of its name, all in lower case. */
  lemma DirIsLocationAndPrefix(location: string, name: string)
    ensures var n := if |name| < 5 then |name| else 5;
      DirOf(location, name) == Lower(location) + "/" + Lower(name[..n])
  {
  }

  /** A thread that is found to be done when a frame is delivered has its file registered there and then;
      one that is still alive keeps it, unless a new file has to be moved. */
  lemma FinishedThreadIsRegistered(s: State, location: string, path: string, ms: int)
    requires s.stream && s.isRunning
    ensures Step(s, location, NewFrame(Delivered(path, ms), false)).mover.None?
    ensures path == s.curPath ==>
      && Step(s, location, NewFrame(Delivered(path, ms), true)).db == s.db
      && Step(s, location, NewFrame(Delivered(path, ms), true)).mover == s.mover
    ensures path != s.curPath && s.curName != "" ==>
      && Step(s, location, NewFrame(Delivered(path, ms), true)).mover == Some(MoverOf(s))
      && Step(s, location, NewFrame(Delivered(path, ms), true)).db == s.db + Moving(s)
  {
    hide Base, DirOf, Registered;
  }
}
