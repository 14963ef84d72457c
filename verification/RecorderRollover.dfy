/** When the recorder opens, closes and changes files, stated in the frame's, the source's and the
    recorder's own fields: the exact moment of a rollover, and how long a file can last. */
module RecorderRollover {
  import opened Media
  import opened Seqs
  import opened Recorder
  import opened RecorderRuns

  // ----- One frame -----

  /** The source knows its codecs and the size of the picture, it has SPS and PPS if they are needed,
      and opening a file works. */
  predicate IsReady(s: State, src: Source) {
    && src.videoCodec.Some? && src.videoCodec.value != UnknownCodec && src.audioCodecKnown
    && (s.setup.sizeKnown || src.hasSize)
    && (src.videoCodec.value == H264 ==> src.hasSps && src.hasPps)
    && src.outcome == Opened
  }

  /** A frame that a file can begin with. */
  predicate IsKeyed(f: Frame) {
    f.media == Video && (f.keyFlag > 0 || f.hasIdr)
  }

  /** A file that has lasted too long, in location mode, or a request for a new one. */
  predicate IsOver(s: State, f: Frame) {
    && s.output.packetsWritten > 0
    && ((s.cfg.outputLocation && f.pts - s.output.firstPts > s.cfg.maxFileDurationMs) || s.requests.newFile)
  }

  function FirstPacket(hls: bool, f: Frame): Packet {
    Packet(f, if f.pts == INVALID_PTS then None else Some(if hls then f.pts else 0), true)
  }

  lemma ReopensAt(c: State, f: Frame, src: Source)
    requires !c.outputInitialized && c.saved == [] && c.setup.uri.None? && c.cfg.outputLocation
    requires c.output.firstPts == NOPTS && IsReady(c, src)
    ensures var a := OpenOut(c, f, src);
      && a.outputInitialized && a.saved == []
      && a.output == Output(NOPTS, c.output.packetsWritten, c.output.files + [File(StartingAt(f.pts), [])])
      && a.format.codec == src.videoCodec.value && !a.requests.newFile
  {
  }

  lemma StaysClosed(c: State, f: Frame, src: Source)
    requires !c.outputInitialized && c.saved == [] && c.setup.uri.None? && !c.cfg.outputLocation
    requires IsReady(c, src)
    ensures var a := OpenOut(c, f, src);
      !a.outputInitialized && a.saved == [f] && a.output == c.output
  {
    assert [] + [f] == [f];
  }

  lemma KeyedFrameIsFirst(cfg: Config, fmt: Format, out: Output, f: Frame)
    requires out.files != [] && out.files[|out.files|-1].packets == [] && out.firstPts == NOPTS && IsKeyed(f)
    ensures var r, n := WriteFrame(cfg, fmt, out, f), |out.files|;
      && |r.files| == n && r.files[..n-1] == out.files[..n-1]
      && r.files[n-1] == File(out.files[n-1].target, [FirstPacket(cfg.hls, f)])
      && r.firstPts == f.pts
  {
    var p := FirstPacket(cfg.hls, f);
    assert [] + [p] == [p];
  }

  /** One write leaves all files but the last alone and adds at most the frame to that. */
  predicate IsExtended(old_: seq<File>, new_: seq<File>, f: Frame) {
    && old_ != [] && |new_| == |old_|
    && var n := |old_| - 1;
       && new_[..n] == old_[..n] && new_[n].target == old_[n].target
       && var was, now := old_[n].packets, new_[n].packets;
          now == was || (|now| == |was| + 1 && now[..|was|] == was && now[|was|].frame == f)
  }

  lemma WriteExtends(cfg: Config, fmt: Format, out: Output, f: Frame)
    requires out.files != []
    ensures IsExtended(out.files, WriteFrame(cfg, fmt, out, f).files, f)
  {
    hide RelativePts;
  }

  /** A rollover takes place if and only if the file is over and the frame can begin another: then, in
      location mode, the frame is the first packet of a new file that starts at its pts and the others
      are left as they were; without a location the file is closed, and the frame saved until there is
      a URI. Else the open file goes on. */
  lemma RollsOverIff(s: State, f: Frame, src: Source)
    requires Inv(s) && s.outputInitialized && Healthy(s) && f.pts != NOPTS && IsReady(s, src)
    ensures var t, files := Record(s, f, src).0, s.output.files;
      if !(IsOver(s, f) && IsKeyed(f)) then
        t.outputInitialized && IsExtended(files, t.output.files, f)
      else if s.cfg.outputLocation then
        && t.outputInitialized && !t.requests.newFile && t.output.firstPts == f.pts
        && t.output.files == files + [File(StartingAt(f.pts), [FirstPacket(s.cfg.hls, f)])]
      else
        !t.outputInitialized && t.saved == [f] && t.output.files == files
  {
    hide OpenOut, WriteFrame, Inv;
    SavedIsEmpty(s);
    var c := CloseOutput(s);
    if !(IsOver(s, f) && IsKeyed(f)) {
      WriteExtends(s.cfg, s.format, s.output, f);
    } else if s.cfg.outputLocation {
      ReopensAt(c, f, src);
      var a := OpenOut(c, f, src);
      KeyedFrameIsFirst(a.cfg, a.format, a.output, f);
      var t := Record(s, f, src).0;
      assert t.output.files == t.output.files[..|a.output.files|-1] + [t.output.files[|a.output.files|-1]];
      assert a.output.files[..|a.output.files|-1] == s.output.files;
    } else {
      StaysClosed(c, f, src);
    }
  }

  lemma SavedIsEmpty(s: State)
    requires Inv(s) && s.outputInitialized
    ensures s.saved == [] && s.output.files != []
  {
  }

  /** The URI or the location, the codecs, the size and, for H.264, SPS and PPS are known. */
  predicate KnowsEnough(s: State, f: Frame, src: Source) {
    && src.videoCodec.Some? && src.audioCodecKnown
    && (s.setup.uri.Some? || s.cfg.outputLocation)
    && (s.setup.sizeKnown || src.hasSize)
    && (src.videoCodec == Some(H264) ==> s.setup.sps || src.hasSps || f.hasSps)
    && (src.videoCodec == Some(H264) ==> s.setup.pps || src.hasPps || f.hasPps)
  }

  /** A file is opened exactly when enough is known and opening works; it is named by its URI, or after
      the first frame that waited for it, and a request for it is met. Only a failure to open it for
      writing is critical. */
  predicate IsOpened(s: State, f: Frame, src: Source, t: State) {
    var known := KnowsEnough(s, f, src) && src.videoCodec != Some(UnknownCodec);
    var n := |s.output.files|;
    && t.outputInitialized == (known && src.outcome == Opened)
    && |t.output.files| == n + (if t.outputInitialized then 1 else 0) && t.output.files[..n] == s.output.files
    && (t.outputInitialized ==>
          t.output.files[n].target == if s.setup.uri.Some? then s.setup.uri.value
                                      else StartingAt(if s.saved != [] then s.saved[0].pts else f.pts))
    && t.requests == Requests(s.requests.nextUri, s.requests.newFile && !t.outputInitialized,
                              s.requests.criticalError || (known && src.outcome == IoFailed))
  }

  /** A file that is put off is opened by the first frame at which all is known, and not before; a frame
      is passed on unless opening has failed for good. */
  lemma OpensIff(s: State, f: Frame, src: Source)
    requires !s.outputInitialized && Healthy(s)
    ensures var (t, passed) := Record(s, f, src);
      IsOpened(s, f, src, t) && passed == (t.outputInitialized || !t.requests.criticalError)
  {
    hide WriteFrame, WriteAll, Submit, OpenOut, KnowsEnough;
    var a := OpenOut(s, f, src);
    OpeningIff(s, f, src);
    if a.outputInitialized {
      WriteExtends(a.cfg, a.format, a.output, f);
    }
  }

  lemma OpeningIff(s: State, f: Frame, src: Source)
    requires !s.outputInitialized
    ensures IsOpened(s, f, src, OpenOut(s, f, src))
  {
    hide StartOutput;
    if src.videoCodec.Some? && src.audioCodecKnown {
      var u := SetTarget(s, f);
      var fmt := Format(src.videoCodec.value, s.format.audioStream);
      var sized := State(s.cfg, Setup(u.uri, true, u.sps, u.pps), fmt, s.requests, s.output, false, s.saved);
      var (v, saved) := FetchSpsPps(sized.setup, s.saved, f, src);
      StartIsStart(sized, src);
      StartIsStart(State(s.cfg, v, fmt, s.requests, s.output, false, saved), src);
    }
  }

  /** What starting an output comes to. */
  predicate IsStarted(u: State, src: Source, t: State) {
    var known := u.format.codec != UnknownCodec && u.setup.uri.Some?;
    var n := |u.output.files|;
    && t.outputInitialized == (known && src.outcome == Opened)
    && |t.output.files| == n + (if t.outputInitialized then 1 else 0) && t.output.files[..n] == u.output.files
    && (t.outputInitialized ==> t.output.files[n].target == u.setup.uri.value)
    && t.requests == Requests(u.requests.nextUri, u.requests.newFile && !t.outputInitialized,
                              u.requests.criticalError || (known && src.outcome == IoFailed))
  }

  lemma StartIsStart(u: State, src: Source)
    ensures IsStarted(u, src, StartOutput(u, src))
  {
    hide WriteAll;
    if u.setup.uri.Some? {
      var fmt := Format(u.format.codec, src.audioSupported);
      var files := u.output.files + [File(u.setup.uri.value, [])];
      AllGoesToTheLastFile(u.cfg, fmt, Output(u.output.firstPts, u.output.packetsWritten, files), u.saved);
    }
  }

  lemma {:induction false} AllGoesToTheLastFile(cfg: Config, fmt: Format, out: Output, fs: seq<Frame>)
    requires out.files != []
    ensures var r, n := WriteAll(cfg, fmt, out, fs), |out.files| - 1;
      |r.files| == n + 1 && r.files[..n] == out.files[..n] && r.files[n].target == out.files[n].target
    decreases |fs|
  {
    hide WriteFrame;
    if fs != [] {
      WriteExtends(cfg, fmt, out, fs[0]);
      AllGoesToTheLastFile(cfg, fmt, WriteFrame(cfg, fmt, out, fs[0]), fs[1..]);
    }
  }

  /** A URI left behind by the caller is acted on by the next read, whatever that brings: a file that is
      open is closed with all that belongs to it, and an empty URI only does that. */
  lemma NextUriTakesOver(s: State, name: string, code: int, src: Source)
    requires Healthy(s)
    ensures var t := Step(Step(s, NextUri(name)), ReadOne(Ended(code), src));
      && t.requests == Requests(None, s.requests.newFile, s.requests.criticalError)
      && t.output.files == s.output.files
      && t.setup.uri == (if name == "" then None else Some(Named(name)))
      && (s.setup.uri.Some? ==>
            !t.outputInitialized && t.saved == [] && t.output.firstPts == NOPTS && t.output.packetsWritten == 0
            && !t.setup.sps && !t.setup.pps)
      && (s.setup.uri.None? ==> t.outputInitialized == s.outputInitialized && t.saved == s.saved)
  {
  }

  /** A restart closes the file with all that belongs to it and keeps the URI. */
  lemma RestartStartsOver(s: State)
    requires Healthy(s)
    ensures var t := Step(s, Restart);
      && t.output == Output(NOPTS, 0, s.output.files) && !t.outputInitialized && t.saved == []
      && t.setup == Setup(s.setup.uri, s.setup.sizeKnown, false, false) && t.requests == s.requests
  {
  }

  // ----- How long a file lasts -----

  /** How many of the packets the muxer has accepted. */
  function Accepted(ps: seq<Packet>): nat {
    if ps == [] then 0 else Accepted(ps[..|ps|-1]) + if ps[|ps|-1].frame.accepted then 1 else 0
  }

  lemma AcceptedOneMore(ps: seq<Packet>, p: Packet)
    ensures Accepted(ps + [p]) == Accepted(ps) + if p.frame.accepted then 1 else 0
  {
    assert (ps + [p])[..|ps|] == ps;
  }

  /** The packets written count those accepted in the open file. */
  predicate CountsAccepted(s: State) {
    if s.outputInitialized then
      s.output.files != [] && s.output.packetsWritten == Accepted(s.output.files[|s.output.files|-1].packets)
    else
      s.output.packetsWritten == 0
  }

  lemma WriteCounts(cfg: Config, fmt: Format, out: Output, f: Frame)
    requires out.files != [] && out.packetsWritten == Accepted(out.files[|out.files|-1].packets)
    ensures var r := WriteFrame(cfg, fmt, out, f);
      r.packetsWritten == Accepted(r.files[|r.files|-1].packets)
  {
    var key := IsKeyframe(fmt.codec, f);
    var first := if out.firstPts == NOPTS then f.pts else out.firstPts;
    AcceptedOneMore(out.files[|out.files|-1].packets, Packet(f, RelativePts(cfg.hls, first, f.pts), key));
  }

  lemma {:induction false} WriteAllCounts(cfg: Config, fmt: Format, out: Output, fs: seq<Frame>)
    requires out.files != [] && out.packetsWritten == Accepted(out.files[|out.files|-1].packets)
    ensures var r := WriteAll(cfg, fmt, out, fs);
      r.packetsWritten == Accepted(r.files[|r.files|-1].packets)
    decreases |fs|
  {
    hide WriteFrame, Accepted;
    if fs != [] {
      WriteCounts(cfg, fmt, out, fs[0]);
      WriteAllCounts(cfg, fmt, WriteFrame(cfg, fmt, out, fs[0]), fs[1..]);
    }
  }

  /** From its `head`-th packet on, no frame that could begin a file, and that comes once a packet has
      been accepted, lies more than the maximum behind the first. */
  predicate Lasts(cfg: Config, ps: seq<Packet>, head: nat) {
    forall j | head <= j < |ps| && j > 0 && IsKeyed(ps[j].frame) && Accepted(ps[..j]) > 0 ::
      ps[j].frame.pts - ps[0].frame.pts <= cfg.maxFileDurationMs
  }

  /** `heads` are the numbers of packets the files had once they were open. */
  predicate AllLast(cfg: Config, files: seq<File>, heads: seq<nat>) {
    && |heads| == |files|
    && forall i | 0 <= i < |heads| ::
         heads[i] <= |files[i].packets| && Lasts(cfg, files[i].packets, heads[i])
  }

  /** A step that opens a file adds the number of packets it begins with. */
  function NextHeads(heads: seq<nat>, s: State, t: State): seq<nat> {
    var n := |t.output.files|;
    if n > |s.output.files| then heads + [|t.output.files[n-1].packets|] else heads
  }

  function RunHeads(heads: seq<nat>, s: State, es: seq<Event>): seq<nat>
    requires Healthy(s)
    decreases |es|
  {
    if es == [] then heads else RunHeads(NextHeads(heads, s, Step(s, es[0])), Step(s, es[0]), es[1..])
  }

  lemma NewFileLasts(cfg: Config, files: seq<File>, heads: seq<nat>, more: seq<File>)
    requires AllLast(cfg, files, heads) && |more| == |files| + 1 && more[..|files|] == files
    ensures AllLast(cfg, more, heads + [|more[|files|].packets|])
  {
    hide Accepted, Lasts;
    NothingMore(cfg, more[|files|].packets);
    forall i | 0 <= i < |files| ensures more[i] == files[i] {
      assert more[..|files|][i] == files[i];
    }
  }

  lemma NothingMore(cfg: Config, ps: seq<Packet>)
    ensures Lasts(cfg, ps, |ps|)
  {
  }

  lemma OneMoreLasts(cfg: Config, ps: seq<Packet>, head: nat, p: Packet)
    requires Lasts(cfg, ps, head) && head <= |ps|
    requires ps != [] && IsKeyed(p.frame) && Accepted(ps) > 0 ==>
               p.frame.pts - ps[0].frame.pts <= cfg.maxFileDurationMs
    ensures Lasts(cfg, ps + [p], head)
  {
    hide Accepted, IsKeyed;
    var qs := ps + [p];
    assert qs[..|ps|] == ps;
    forall j | head <= j < |qs| && j > 0 && IsKeyed(qs[j].frame) && Accepted(qs[..j]) > 0
      ensures qs[j].frame.pts - qs[0].frame.pts <= cfg.maxFileDurationMs
    {
      if j < |ps| {
        assert qs[..j] == ps[..j];
      }
    }
  }

  lemma WrittenLasts(cfg: Config, files: seq<File>, heads: seq<nat>, more: seq<File>, f: Frame)
    requires AllLast(cfg, files, heads) && IsExtended(files, more, f)
    requires var ps := files[|files|-1].packets;
      ps != [] && IsKeyed(f) && Accepted(ps) > 0 ==> f.pts - ps[0].frame.pts <= cfg.maxFileDurationMs
    ensures AllLast(cfg, more, heads)
  {
    hide Accepted, Lasts, IsKeyed;
    var n := |files| - 1;
    var was, now := files[n].packets, more[n].packets;
    if now != was {
      assert now == was + [now[|was|]];
      OneMoreLasts(cfg, was, heads[n], now[|was|]);
    }
    forall i | 0 <= i < n ensures more[i] == files[i] {
      assert more[..n][i] == files[..n][i];
    }
  }

  /** What a step keeps. */
  ghost predicate Keeps(s: State, heads: seq<nat>) {
    Inv(s) && Healthy(s) && CountsAccepted(s) && AllLast(s.cfg, s.output.files, heads)
  }

  lemma OpeningCounts(s: State, f: Frame, src: Source)
    requires CountsAccepted(s) && !s.outputInitialized
    ensures CountsAccepted(OpenOut(s, f, src))
  {
    hide StartOutput;
    if src.videoCodec.Some? && src.audioCodecKnown {
      var u := SetTarget(s, f);
      var fmt := Format(src.videoCodec.value, s.format.audioStream);
      var sized := State(s.cfg, Setup(u.uri, true, u.sps, u.pps), fmt, s.requests, s.output, false, s.saved);
      var (v, saved) := FetchSpsPps(sized.setup, s.saved, f, src);
      StartCounts(sized, src);
      StartCounts(State(s.cfg, v, fmt, s.requests, s.output, false, saved), src);
    }
  }

  lemma StartCounts(u: State, src: Source)
    requires CountsAccepted(u) && !u.outputInitialized
    ensures CountsAccepted(StartOutput(u, src))
  {
    hide WriteAll;
    if u.setup.uri.Some? {
      var fmt := Format(u.format.codec, src.audioSupported);
      var files := u.output.files + [File(u.setup.uri.value, [])];
      WriteAllCounts(u.cfg, fmt, Output(u.output.firstPts, u.output.packetsWritten, files), u.saved);
    }
  }

  /** The frame that opens an output, or is saved for it. */
  lemma OpeningKeeps(s: State, heads: seq<nat>, f: Frame, src: Source)
    requires Keeps(s, heads) && !s.outputInitialized && f.pts != NOPTS
    ensures var t := Record(s, f, src).0;
      Keeps(t, NextHeads(heads, s, t))
  {
    hide OpenOut, Write, Inv, AllLast, IsOpened, Accepted;
    RecordKeepsInv(s, f, src);
    OpeningCounts(s, f, src);
    var a, t := OpenOut(s, f, src), Record(s, f, src).0;
    if a.outputInitialized {
      CountWrite(a, f);
    }
    OpensIff(s, f, src);
    OpenedFiles(s, f, src, t);
    if t.outputInitialized {
      NewFileLasts(s.cfg, s.output.files, heads, t.output.files);
    } else {
      assert t.output.files[..|s.output.files|] == t.output.files;
    }
  }

  lemma OpenedFiles(s: State, f: Frame, src: Source, t: State)
    requires IsOpened(s, f, src, t)
    ensures var n := |s.output.files|;
      |t.output.files| == n + (if t.outputInitialized then 1 else 0) && t.output.files[..n] == s.output.files
  {
  }

  lemma CountWrite(a: State, f: Frame)
    requires CountsAccepted(a) && a.outputInitialized
    ensures a.output.files != [] && CountsAccepted(Write(a, f))
  {
    hide WriteFrame, Accepted;
    WriteCounts(a.cfg, a.format, a.output, f);
  }

  lemma ClosingKeeps(s: State, heads: seq<nat>)
    requires Keeps(s, heads)
    ensures Keeps(CloseOutput(s), heads)
  {
    hide AllLast;
    CloseKeepsInv(s);
  }

  /** The frame that goes to the open file. */
  lemma WritingKeeps(s: State, heads: seq<nat>, f: Frame)
    requires Keeps(s, heads) && s.outputInitialized && f.pts != NOPTS && s.cfg.outputLocation
    requires !(IsOver(s, f) && IsKeyed(f))
    ensures Keeps(Write(s, f), heads)
  {
    hide WriteFrame, AllLast, FilesOk, Accepted;
    WriteKeepsInv(s, f);
    CountWrite(s, f);
    WriteExtends(s.cfg, s.format, s.output, f);
    WrittenLasts(s.cfg, s.output.files, heads, Write(s, f).output.files, f);
  }

  lemma RecordKeeps(s: State, heads: seq<nat>, f: Frame, src: Source)
    requires Keeps(s, heads) && f.pts != NOPTS && s.cfg.outputLocation
    ensures var t := Record(s, f, src).0;
      Keeps(t, NextHeads(heads, s, t))
  {
    hide OpenOut, WriteFrame, Inv, AllLast, CountsAccepted;
    if !s.outputInitialized {
      OpeningKeeps(s, heads, f, src);
    } else {
      SavedIsEmpty(s);
      if IsOver(s, f) && IsKeyed(f) {
        ClosingKeeps(s, heads);
        ReopeningIsOpening(s, f, src);
        OpeningKeeps(CloseOutput(s), heads, f, src);
      } else {
        WritingKeeps(s, heads, f);
        WriteExtends(s.cfg, s.format, s.output, f);
      }
    }
  }

  lemma ReopeningIsOpening(s: State, f: Frame, src: Source)
    requires s.outputInitialized && s.saved == [] && Healthy(s) && IsOver(s, f) && IsKeyed(f)
    ensures Record(s, f, src).0 == Record(CloseOutput(s), f, src).0
  {
    hide OpenOut, WriteFrame;
  }

  lemma StepKeeps(s: State, heads: seq<nat>, e: Event)
    requires Keeps(s, heads) && Timed(e) && s.cfg.outputLocation
    ensures Keeps(Step(s, e), NextHeads(heads, s, Step(s, e)))
  {
    hide Record, AllLast, FilesOk;
    ClosingKeeps(s, heads);
    if e.ReadOne? && e.up.Arrived? {
      var a := ApplyNextUri(s);
      assert Keeps(a, heads) && a.output.files == s.output.files;
      RecordKeeps(a, heads, e.up.frame, e.src);
    }
  }

  lemma {:induction false} RunKeeps(s: State, heads: seq<nat>, es: seq<Event>)
    requires Keeps(s, heads) && s.cfg.outputLocation && forall e | e in es :: Timed(e)
    ensures Keeps(Run(s, es), RunHeads(heads, s, es))
    decreases |es|
  {
    hide Step, Keeps, NextHeads;
    KeepsIsHealthy(s, heads);
    if es != [] {
      StepKeeps(s, heads, es[0]);
      RunKeeps(Step(s, es[0]), NextHeads(heads, s, Step(s, es[0])), es[1..]);
    }
  }

  lemma KeepsIsHealthy(s: State, heads: seq<nat>)
    requires Keeps(s, heads)
    ensures Healthy(s)
  {
  }

  /** Over every run in location mode, whatever source, muxer and caller do: once a file is open and has
      a packet, no frame that could begin another goes into it more than the maximum after its first. */
  lemma FilesDoNotOutlast(cfg: Config, es: seq<Event>)
    requires cfg.outputLocation && forall e | e in es :: Timed(e)
    ensures var s := Run(Fresh(cfg), es);
      && AllLast(cfg, s.output.files, RunHeads([], Fresh(cfg), es))
      && CountsAccepted(s)
  {
    hide Run, RunHeads, AllLast, CountsAccepted;
    NothingKept(cfg);
    RunKeeps(Fresh(cfg), [], es);
  }

  lemma NothingKept(cfg: Config)
    ensures Keeps(Fresh(cfg), [])
  {
  }

  // ----- What a file may begin with -----

  function KeyFrame(id: nat, pts: int): Frame {
    Frame(id, pts, Video, 1, true, false, false, false, true)
  }

  /** A source that does not know the size of the picture yet, and the same once it does. */
  const SIZELESS := Source(Some(ImageCodec), true, false, false, false, false, Opened)
  const SIZED := SIZELESS.(hasSize := true)

  lemma SavedWhileSizeless(s: State, f: Frame)
    requires !s.outputInitialized && !s.setup.sizeKnown && s.setup.uri.Some?
    ensures var t := Record(s, f, SIZELESS).0;
      t == s.(format := Format(ImageCodec, s.format.audioStream), saved := s.saved + [f])
  {
    hide WriteFrame, WriteAll;
  }

  lemma FirstWhileSizeless(cfg: Config, f: Frame)
    requires cfg.outputLocation
    ensures Record(Fresh(cfg), f, SIZELESS).0
         == Fresh(cfg).(setup := Setup(Some(StartingAt(f.pts)), false, false, false),
                        format := Format(ImageCodec, false), saved := [f])
  {
    hide WriteFrame, WriteAll;
    assert [] + [f] == [f];
  }

  lemma FlushedWhenSized(s: State, f: Frame)
    requires !s.outputInitialized && !s.setup.sizeKnown && s.setup.uri.Some? && s.output.files == []
    ensures var t, fmt := Record(s, f, SIZED).0, Format(ImageCodec, false);
      var out := Output(s.output.firstPts, s.output.packetsWritten, [File(s.setup.uri.value, [])]);
      t.outputInitialized && t.output == WriteFrame(s.cfg, fmt, WriteAll(s.cfg, fmt, out, s.saved), f)
  {
    hide WriteFrame, WriteAll;
    assert [] + [File(s.setup.uri.value, [])] == [File(s.setup.uri.value, [])];
  }

  lemma WritesKeyFrame(cfg: Config, fmt: Format, out: Output, target: Target, ps: seq<Packet>, f: Frame)
    requires out.files == [File(target, ps)] && f == KeyFrame(f.id, f.pts) && fmt.codec == ImageCodec
    requires f.pts != NOPTS
    ensures var r := WriteFrame(cfg, fmt, out, f);
      var first := if out.firstPts == NOPTS then f.pts else out.firstPts;
      && r.firstPts == first
      && r.files == [File(target, ps + [Packet(f, RelativePts(cfg.hls, first, f.pts), true)])]
  {
    hide RelativePts;
  }

  /** Three keyframes, the second too late for the file of the first; the size comes with the third. */
  function LateSize(max: int): seq<Event> {
    [ReadOne(Upstream.Arrived(KeyFrame(0, 0)), SIZELESS),
     ReadOne(Upstream.Arrived(KeyFrame(1, max + 1)), SIZELESS),
     ReadOne(Upstream.Arrived(KeyFrame(2, max + 2)), SIZED)]
  }

  lemma ReadIsRecord(s: State, f: Frame, src: Source)
    requires Healthy(s) && s.requests.nextUri.None?
    ensures Step(s, ReadOne(Upstream.Arrived(f), src)) == Record(s, f, src).0
  {
    hide Record;
  }

  lemma RunOfThree(s: State, a: Event, b: Event, c: Event)
    requires Healthy(s)
    ensures Run(s, [a, b, c]) == Step(Step(Step(s, a), b), c)
  {
    hide Step;
    assert [a, b, c][1..] == [b, c] && [b, c][1..] == [c] && [c][1..] == [];
    var t := Step(Step(s, a), b);
    assert Run(Step(t, c), []) == Step(t, c);
    assert Run(t, [c]) == Step(t, c);
    assert Run(Step(s, a), [b, c]) == Step(t, c);
  }

  /** The frames saved while opening is put off go into the file at once, however long they span: a
      recorder that learns the size of the picture too late begins with a file that outlasts the maximum. */
  lemma SavedFramesMayOutlast(cfg: Config)
    requires cfg.outputLocation && cfg.maxFileDurationMs >= 0
    ensures var files := Run(Fresh(cfg), LateSize(cfg.maxFileDurationMs)).output.files;
      && |files| == 1 && |files[0].packets| == 3
      && files[0].packets[0].frame == KeyFrame(0, 0)
      && files[0].packets[1].frame == KeyFrame(1, cfg.maxFileDurationMs + 1)
      && IsKeyed(files[0].packets[1].frame)
  {
    hide Run, Step, Record, WriteFrame, RelativePts;
    var max := cfg.maxFileDurationMs;
    var f, g, h := KeyFrame(0, 0), KeyFrame(1, max + 1), KeyFrame(2, max + 2);
    FirstWhileSizeless(cfg, f);
    ReadIsRecord(Fresh(cfg), f, SIZELESS);
    var a := Record(Fresh(cfg), f, SIZELESS).0;
    SavedWhileSizeless(a, g);
    ReadIsRecord(a, g, SIZELESS);
    var b := Record(a, g, SIZELESS).0;
    assert b.saved == [f, g];
    FlushedWhenSized(b, h);
    ReadIsRecord(b, h, SIZED);
    RunOfThree(Fresh(cfg), ReadOne(Upstream.Arrived(f), SIZELESS), ReadOne(Upstream.Arrived(g), SIZELESS),
               ReadOne(Upstream.Arrived(h), SIZED));
    ThreeAreWritten(cfg, f, g, h);
  }

  lemma ThreeAreWritten(cfg: Config, f: Frame, g: Frame, h: Frame)
    requires f == KeyFrame(0, 0) && g == KeyFrame(1, g.pts) && h == KeyFrame(2, h.pts)
    requires g.pts != NOPTS && h.pts != NOPTS
    ensures var fmt, out := Format(ImageCodec, false), Output(NOPTS, 0, [File(StartingAt(0), [])]);
      var files := WriteFrame(cfg, fmt, WriteAll(cfg, fmt, out, [f, g]), h).files;
      && |files| == 1 && |files[0].packets| == 3
      && files[0].packets[0].frame == f && files[0].packets[1].frame == g
  {
    hide WriteFrame, RelativePts;
    var fmt, target := Format(ImageCodec, false), StartingAt(0);
    var o0 := Output(NOPTS, 0, [File(target, [])]);
    var o1 := WriteFrame(cfg, fmt, o0, f);
    WritesKeyFrame(cfg, fmt, o0, target, [], f);
    var o2 := WriteFrame(cfg, fmt, o1, g);
    WritesKeyFrame(cfg, fmt, o1, target, o1.files[0].packets, g);
    assert [f, g][1..] == [g] && [g][1..] == [];
    assert WriteAll(cfg, fmt, o2, []) == o2;
    assert WriteAll(cfg, fmt, o1, [g]) == o2;
    assert WriteAll(cfg, fmt, o0, [f, g]) == o2;
    WritesKeyFrame(cfg, fmt, o2, target, o2.files[0].packets, h);
  }
}
