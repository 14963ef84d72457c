/** Theorems about every run of the recorder: each file starts with a keyframe at relative time 0,
    and rollover loses and repeats nothing as long as no open fails and no saved frame is dropped. */
module RecorderRuns {
  import opened Media
  import opened Seqs
  import opened Recorder

  // ----- Every file starts with a keyframe -----

  /** A packet's time counts from that of the first packet, or from 0 for HLS. */
  predicate TimedAgainst(hls: bool, first: int, p: Packet) {
    p.relPts == if p.frame.pts == INVALID_PTS then None else Some(p.frame.pts - (if hls then 0 else first))
  }

  /** The first packet is a video keyframe and all packets are timed against it. */
  ghost predicate FileOk(hls: bool, file: File) {
    file.packets != [] ==>
      && file.packets[0].key && file.packets[0].frame.media == Video
      && forall p | p in file.packets :: TimedAgainst(hls, file.packets[0].frame.pts, p)
  }

  ghost predicate FilesOk(hls: bool, files: seq<File>) {
    forall file | file in files :: FileOk(hls, file)
  }

  /** The open file has a first pts exactly when it has a packet, and it is that packet's. */
  ghost predicate OutputOk(cfg: Config, out: Output) {
    && out.files != [] && FilesOk(cfg.hls, out.files)
    && var last := out.files[|out.files|-1];
       && (out.firstPts == NOPTS <==> last.packets == [])
       && (last.packets != [] ==> last.packets[0].frame.pts == out.firstPts)
  }

  ghost predicate Inv(s: State) {
    && FilesOk(s.cfg.hls, s.output.files)
    && (s.outputInitialized ==> s.saved == [] && OutputOk(s.cfg, s.output))
    && (!s.outputInitialized ==> s.output.firstPts == NOPTS)
    && forall f | f in s.saved :: f.pts != NOPTS
  }

  lemma SubmitKeepsFilesOk(hls: bool, files: seq<File>, p: Packet)
    requires files != [] && FilesOk(hls, files)
    requires var ps := files[|files|-1].packets;
      && TimedAgainst(hls, if ps == [] then p.frame.pts else ps[0].frame.pts, p)
      && (ps == [] ==> p.key && p.frame.media == Video)
    ensures FilesOk(hls, Submit(files, p))
  {
    var last := files[|files|-1];
    assert FileOk(hls, last);
    assert FileOk(hls, last.(packets := last.packets + [p]));
  }

  lemma WriteFrameKeepsOutputOk(cfg: Config, fmt: Format, out: Output, f: Frame)
    requires OutputOk(cfg, out) && f.pts != NOPTS
    ensures OutputOk(cfg, WriteFrame(cfg, fmt, out, f))
  {
    hide FilesOk;
    var key := IsKeyframe(fmt.codec, f);
    var first := if out.firstPts == NOPTS then f.pts else out.firstPts;
    if !(out.firstPts == NOPTS && !key) {
      SubmitKeepsFilesOk(cfg.hls, out.files, Packet(f, RelativePts(cfg.hls, first, f.pts), key));
    }
  }

  lemma {:induction false} WriteAllKeepsOutputOk(cfg: Config, fmt: Format, out: Output, fs: seq<Frame>)
    requires OutputOk(cfg, out) && forall f | f in fs :: f.pts != NOPTS
    ensures OutputOk(cfg, WriteAll(cfg, fmt, out, fs))
    decreases |fs|
  {
    hide WriteFrame;
    if fs != [] {
      WriteFrameKeepsOutputOk(cfg, fmt, out, fs[0]);
      WriteAllKeepsOutputOk(cfg, fmt, WriteFrame(cfg, fmt, out, fs[0]), fs[1..]);
    }
  }

  lemma CloseKeepsInv(s: State)
    requires Inv(s)
    ensures Inv(CloseOutput(s))
  {
  }

  lemma StartKeepsInv(s: State, src: Source)
    requires Inv(s) && !s.outputInitialized
    ensures Inv(StartOutput(s, src))
  {
    hide WriteAll;
    if s.setup.uri.Some? {
      var fmt := Format(s.format.codec, src.audioSupported);
      var out := Output(s.output.firstPts, s.output.packetsWritten, s.output.files + [File(s.setup.uri.value, [])]);
      WriteAllKeepsOutputOk(s.cfg, fmt, out, s.saved);
    }
  }

  lemma OpenKeepsInv(s: State, f: Frame, src: Source)
    requires Inv(s) && f.pts != NOPTS
    ensures Inv(OpenOut(s, f, src))
  {
    hide StartOutput, FilesOk;
    if !s.outputInitialized && src.videoCodec.Some? && src.audioCodecKnown {
      var u := SetTarget(s, f);
      var fmt := Format(src.videoCodec.value, s.format.audioStream);
      var sized := State(s.cfg, Setup(u.uri, true, u.sps, u.pps), fmt, s.requests, s.output, false, s.saved);
      OpenSizedKeepsInv(sized, f, src);
    }
    hide OpenSized;
  }

  lemma OpenSizedKeepsInv(s: State, f: Frame, src: Source)
    requires Inv(s) && f.pts != NOPTS && !s.outputInitialized
    ensures Inv(OpenSized(s, f, src))
  {
    hide StartOutput, FilesOk;
    var (u, saved) := FetchSpsPps(s.setup, s.saved, f, src);
    var fetched := State(s.cfg, u, s.format, s.requests, s.output, false, saved);
    StartKeepsInv(s, src);
    StartKeepsInv(fetched, src);
  }

  lemma WriteKeepsInv(s: State, f: Frame)
    requires Inv(s) && s.outputInitialized && f.pts != NOPTS
    ensures Inv(Write(s, f))
  {
    hide WriteFrame, FilesOk;
    WriteFrameKeepsOutputOk(s.cfg, s.format, s.output, f);
  }

  lemma RecordKeepsInv(s: State, f: Frame, src: Source)
    requires Inv(s) && Healthy(s) && f.pts != NOPTS
    ensures Inv(Record(s, f, src).0)
  {
    hide OpenOut, CloseOutput, Write, Inv;
    if !s.outputInitialized {
      OpenKeepsInv(s, f, src);
      if OpenOut(s, f, src).outputInitialized {
        WriteKeepsInv(OpenOut(s, f, src), f);
      }
    } else {
      CloseKeepsInv(s);
      var a := OpenOut(CloseOutput(s), f, src);
      OpenKeepsInv(CloseOutput(s), f, src);
      if a.outputInitialized {
        WriteKeepsInv(a, f);
      }
      WriteKeepsInv(s, f);
    }
  }

  /** What can happen to the recorder. */
  datatype Event = ReadOne(up: Upstream, src: Source) | NewFile | Restart | NextUri(name: string)

  function Step(s: State, e: Event): (t: State)
    requires Healthy(s)
    ensures Healthy(t) && t.cfg == s.cfg
  {
    match e
    case ReadOne(up, src) => Read(s, up, src).0
    case NewFile => s.(requests := Requests(s.requests.nextUri, true, s.requests.criticalError))
    case Restart =>
      var c := CloseOutput(s);
      c.(setup := Setup(s.setup.uri, c.setup.sizeKnown, false, false))
    case NextUri(name) => s.(requests := Requests(Some(name), s.requests.newFile, s.requests.criticalError))
  }

  function Run(s: State, es: seq<Event>): (t: State)
    requires Healthy(s)
    ensures Healthy(t) && t.cfg == s.cfg
    decreases |es|
  {
    if es == [] then s else Run(Step(s, es[0]), es[1..])
  }

  predicate Timed(e: Event) {
    e.ReadOne? && e.up.Arrived? ==> e.up.frame.pts != NOPTS
  }

  lemma {:induction false} StepKeepsInv(s: State, e: Event)
    requires Inv(s) && Healthy(s) && Timed(e)
    ensures Inv(Step(s, e))
  {
    hide FilesOk, Record;
    CloseKeepsInv(s);
    if e.ReadOne? && e.up.Arrived? {
      var a := ApplyNextUri(s);
      assert Inv(a);
      RecordKeepsInv(a, e.up.frame, e.src);
    }
  }

  lemma {:induction false} RunKeepsInv(s: State, es: seq<Event>)
    requires Inv(s) && Healthy(s) && forall e | e in es :: Timed(e)
    ensures Inv(Run(s, es))
    decreases |es|
  {
    hide Step, Inv;
    if es != [] {
      StepKeepsInv(s, es[0]);
      RunKeepsInv(Step(s, es[0]), es[1..]);
    }
  }

  /** Whatever the source, the muxer and the caller do: no frame is saved while a file is open, every
      file that got a packet starts with a video keyframe, and all its packets are timed against it. */
  lemma EveryFileStartsWithAKeyframe(cfg: Config, es: seq<Event>)
    requires forall e | e in es :: Timed(e)
    ensures var s := Run(Fresh(cfg), es);
      && (s.outputInitialized ==> s.saved == [])
      && forall file, p | file in s.output.files && p in file.packets ::
           var first := file.packets[0];
           && first.key && first.frame.media == Video
           && TimedAgainst(cfg.hls, first.frame.pts, p)
  {
    RunKeepsInv(Fresh(cfg), es);
    hide Run, TimedAgainst;
    var s := Run(Fresh(cfg), es);
    forall file, p | file in s.output.files && p in file.packets
      ensures file.packets[0].key && file.packets[0].frame.media == Video
      ensures TimedAgainst(cfg.hls, file.packets[0].frame.pts, p)
    {
      assert FileOk(cfg.hls, file);
    }
  }

  // ----- Rollover loses nothing -----

  function Frames(ps: seq<Packet>): seq<Frame> {
    if ps == [] then [] else Frames(ps[..|ps|-1]) + [ps[|ps|-1].frame]
  }

  /** Everything submitted so far, file after file. */
  function Recorded(files: seq<File>): seq<Frame> {
    if files == [] then [] else Recorded(files[..|files|-1]) + Frames(files[|files|-1].packets)
  }

  /** A frame a recording can start with: video, and for H.264 a keyframe. */
  predicate CanBegin(codec: Codec, f: Frame) {
    f.media == Video && (codec != H264 || f.keyFlag != 0 || f.hasIdr)
  }

  /** What goes into a recording: video, text, subtitles, and audio if there is a stream for it. */
  predicate IsDue(audioOn: bool, audioStream: bool, f: Frame) {
    || f.media == Video
    || f.media == Text
    || (f.media == Metadata && f.isSubtitle)
    || (f.media == Audio && audioOn && audioStream)
  }

  predicate Started(codec: Codec, fs: seq<Frame>) {
    exists f :: f in fs && CanBegin(codec, f)
  }

  /** What ought to be recorded: every recordable frame from the first keyframe on. */
  function Reference(audioOn: bool, fmt: Format, fs: seq<Frame>): seq<Frame> {
    if fs == [] then [] else
    var f := fs[|fs|-1];
    Reference(audioOn, fmt, fs[..|fs|-1])
      + if Started(fmt.codec, fs) && IsDue(audioOn, fmt.audioStream, f) then [f] else []
  }

  lemma ReferenceStep(audioOn: bool, fmt: Format, fs: seq<Frame>, f: Frame)
    ensures Started(fmt.codec, fs + [f]) <==> Started(fmt.codec, fs) || CanBegin(fmt.codec, f)
    ensures Reference(audioOn, fmt, fs + [f]) == Reference(audioOn, fmt, fs)
      + if Started(fmt.codec, fs + [f]) && IsDue(audioOn, fmt.audioStream, f) then [f] else []
  {
    assert (fs + [f])[..|fs|] == fs;
    assert f in fs + [f];
    assert forall g :: g in fs + [f] <==> g in fs || g == f;
  }

  lemma RecordedSubmit(files: seq<File>, p: Packet)
    requires files != []
    ensures Recorded(Submit(files, p)) == Recorded(files) + [p.frame]
  {
    var init, last := files[..|files|-1], files[|files|-1];
    var after := last.(packets := last.packets + [p]);
    assert (last.packets + [p])[..|last.packets|] == last.packets;
    assert Submit(files, p)[..|files|-1] == init && Submit(files, p)[|files|-1] == after;
    Associate(Recorded(init), Frames(last.packets), [p.frame]);
  }

  lemma RecordedNewFile(files: seq<File>, t: Target)
    ensures Recorded(files + [File(t, [])]) == Recorded(files)
  {
    assert (files + [File(t, [])])[..|files|] == files;
    EmptyConcat(Recorded(files));
  }

  /** One write adds exactly the frame that ought to be recorded next. */
  lemma {:induction false} WriteFrameRecords(cfg: Config, fmt: Format, out: Output, seen: seq<Frame>, f: Frame)
    requires out.files != [] && f.pts != NOPTS
    requires out.firstPts != NOPTS <==> Started(fmt.codec, seen)
    ensures var r := WriteFrame(cfg, fmt, out, f);
      && (r.firstPts != NOPTS <==> Started(fmt.codec, seen + [f]))
      && Recorded(r.files) == Recorded(out.files)
           + if Started(fmt.codec, seen + [f]) && IsDue(cfg.audioOn, fmt.audioStream, f) then [f] else []
  {
    ReferenceStep(cfg.audioOn, fmt, seen, f);
    var key := IsKeyframe(fmt.codec, f);
    var first := if out.firstPts == NOPTS then f.pts else out.firstPts;
    RecordedSubmit(out.files, Packet(f, RelativePts(cfg.hls, first, f.pts), key));
    EmptyConcat(Recorded(out.files));
    hide Submit, Recorded, Started;
  }

  lemma {:induction false} WriteAllLast(cfg: Config, fmt: Format, out: Output, fs: seq<Frame>)
    requires out.files != [] && fs != []
    ensures WriteAll(cfg, fmt, out, fs)
         == WriteFrame(cfg, fmt, WriteAll(cfg, fmt, out, fs[..|fs|-1]), fs[|fs|-1])
    decreases |fs|
  {
    hide WriteFrame;
    if |fs| > 1 {
      var init := fs[..|fs|-1];
      assert fs[1..][..|fs|-2] == init[1..];
      WriteAllLast(cfg, fmt, WriteFrame(cfg, fmt, out, fs[0]), fs[1..]);
    } else {
      assert fs == [fs[0]] && fs[..0] == [] && fs[1..] == [];
    }
  }

  /** Flushing the saved frames to a new file records what ought to be recorded of them. */
  lemma {:induction false} WriteAllRecords(cfg: Config, fmt: Format, out: Output, fs: seq<Frame>)
    requires out.files != [] && out.firstPts == NOPTS && forall f | f in fs :: f.pts != NOPTS
    ensures var r := WriteAll(cfg, fmt, out, fs);
      && (r.firstPts != NOPTS <==> Started(fmt.codec, fs))
      && Recorded(r.files) == Recorded(out.files) + Reference(cfg.audioOn, fmt, fs)
    decreases |fs|
  {
    hide WriteFrame, Recorded, IsDue;
    if fs == [] {
      EmptyConcat(Recorded(out.files));
    } else {
      var init, f := fs[..|fs|-1], fs[|fs|-1];
      assert fs == init + [f];
      WriteAllRecords(cfg, fmt, out, init);
      WriteAllLast(cfg, fmt, out, fs);
      var mid := WriteAll(cfg, fmt, out, init);
      WriteFrameRecords(cfg, fmt, mid, init, f);
      Associate(Recorded(out.files), Reference(cfg.audioOn, fmt, init),
                if Started(fmt.codec, fs) && IsDue(cfg.audioOn, fmt.audioStream, f) then [f] else []);
    }
  }

  /** `seen` is everything that came in: it is either recorded or still saved, as far as it ought to
      be recorded at all. */
  ghost predicate Tracks(s: State, fmt: Format, seen: seq<Frame>) {
    && s.cfg.outputLocation && Healthy(s)
    && (forall f | f in s.saved :: f.pts != NOPTS)
    && if s.outputInitialized then
         && s.saved == [] && s.format == fmt
         && (s.output.firstPts != NOPTS <==> Started(fmt.codec, seen))
         && Recorded(s.output.files) == Reference(s.cfg.audioOn, fmt, seen)
       else
         && s.output.firstPts == NOPTS
         && (Started(fmt.codec, s.saved) <==> Started(fmt.codec, seen))
         && Recorded(s.output.files) + Reference(s.cfg.audioOn, fmt, s.saved) == Reference(s.cfg.audioOn, fmt, seen)
  }

  /** The source knows its codecs and opening the output works. */
  predicate GoodSource(fmt: Format, src: Source) {
    && fmt.codec != UnknownCodec && src.videoCodec == Some(fmt.codec) && src.audioCodecKnown
    && src.audioSupported == fmt.audioStream && src.outcome == Opened
  }

  predicate OpensOutput(s: State, f: Frame) {
    !s.outputInitialized || (WantsNewFile(s, f) && CanStartNewFile(f))
  }

  /** The guard under which reading a frame loses nothing: if the output has to be opened, that
      works, and no IDR frame comes in over saved frames before the source has SPS and PPS. */
  predicate LosesNothing(s: State, fmt: Format, f: Frame, src: Source) {
    OpensOutput(s, f) ==>
      && GoodSource(fmt, src)
      && (fmt.codec.H264? && !s.outputInitialized && s.saved != [] && f.hasIdr ==>
            (s.setup.sps || src.hasSps) && (s.setup.pps || src.hasPps))
  }

  lemma StartTracks(s: State, fmt: Format, src: Source, seen: seq<Frame>)
    requires Tracks(s, fmt, seen) && !s.outputInitialized && GoodSource(fmt, src)
    requires s.setup.uri.Some? && s.format.codec == fmt.codec
    ensures var t := StartOutput(s, src);
      Tracks(t, fmt, seen) && t.outputInitialized
  {
    var out := Output(s.output.firstPts, s.output.packetsWritten, s.output.files + [File(s.setup.uri.value, [])]);
    RecordedNewFile(s.output.files, s.setup.uri.value);
    WriteAllRecords(s.cfg, fmt, out, s.saved);
    hide WriteAll, Recorded, Reference, Started;
  }

  lemma OpenSizedTracks(s: State, fmt: Format, f: Frame, src: Source, seen: seq<Frame>)
    requires Tracks(s, fmt, seen) && !s.outputInitialized && LosesNothing(s, fmt, f, src)
    requires s.setup.uri.Some? && s.format.codec == fmt.codec
    ensures var t := OpenSized(s, f, src);
      && (t.outputInitialized ==> Tracks(t, fmt, seen))
      && (!t.outputInitialized ==> t.output == s.output && t.saved == s.saved + [f] && t.cfg == s.cfg)
  {
    hide StartOutput, Recorded, Reference, Started;
    var (u, saved) := FetchSpsPps(s.setup, s.saved, f, src);
    var fetched := State(s.cfg, u, s.format, s.requests, s.output, false, saved);
    if fmt.codec != H264 {
      StartTracks(s, fmt, src, seen);
    } else if u.sps && u.pps {
      assert saved == s.saved;
      StartTracks(fetched, fmt, src, seen);
    }
  }

  lemma OpenTracks(s: State, fmt: Format, f: Frame, src: Source, seen: seq<Frame>)
    requires Tracks(s, fmt, seen) && !s.outputInitialized && LosesNothing(s, fmt, f, src)
    ensures var t := OpenOut(s, f, src);
      && (t.outputInitialized ==> Tracks(t, fmt, seen))
      && (!t.outputInitialized ==> t.output == s.output && t.saved == s.saved + [f])
  {
    hide OpenSized, Recorded, Reference, Started;
    var u := SetTarget(s, f);
    var sized := State(s.cfg, Setup(u.uri, true, u.sps, u.pps), Format(fmt.codec, s.format.audioStream),
                       s.requests, s.output, false, s.saved);
    OpenSizedTracks(sized, fmt, f, src, seen);
  }

  lemma WriteTracks(s: State, fmt: Format, seen: seq<Frame>, f: Frame)
    requires Tracks(s, fmt, seen) && s.outputInitialized && f.pts != NOPTS
    ensures Tracks(Write(s, f), fmt, seen + [f])
  {
    WriteFrameRecords(s.cfg, fmt, s.output, seen, f);
    ReferenceStep(s.cfg.audioOn, fmt, seen, f);
    hide WriteFrame, Recorded, Reference, Started;
  }

  /** Saving one more frame keeps track of it. */
  lemma SaveTracks(s: State, t: State, fmt: Format, seen: seq<Frame>, f: Frame)
    requires Tracks(s, fmt, seen) && !s.outputInitialized && f.pts != NOPTS
    requires !t.outputInitialized && t.cfg == s.cfg && t.output == s.output && t.saved == s.saved + [f]
    ensures Tracks(t, fmt, seen + [f])
  {
    ReferenceStep(s.cfg.audioOn, fmt, seen, f);
    ReferenceStep(s.cfg.audioOn, fmt, s.saved, f);
    hide Recorded, Reference, Started, IsDue;
    var more := if Started(fmt.codec, seen + [f]) && IsDue(s.cfg.audioOn, fmt.audioStream, f) then [f] else [];
    Associate(Recorded(s.output.files), Reference(s.cfg.audioOn, fmt, s.saved), more);
  }

  lemma DeferTracks(s: State, fmt: Format, f: Frame, src: Source, seen: seq<Frame>)
    requires Tracks(s, fmt, seen) && !s.outputInitialized && LosesNothing(s, fmt, f, src) && f.pts != NOPTS
    ensures Tracks(Record(s, f, src).0, fmt, seen + [f])
  {
    hide OpenOut, Write, Tracks;
    OpenTracks(s, fmt, f, src, seen);
    var t := OpenOut(s, f, src);
    if t.outputInitialized {
      WriteTracks(t, fmt, seen, f);
    } else {
      SaveTracks(s, t, fmt, seen, f);
    }
  }

  /** Right after closing, the file that was open is complete and the keyframe starts over. */
  lemma {:induction false} RolloverTracks(s: State, fmt: Format, f: Frame, src: Source, seen: seq<Frame>)
    requires Tracks(s, fmt, seen) && s.outputInitialized && f.pts != NOPTS
    requires WantsNewFile(s, f) && CanStartNewFile(f) && LosesNothing(s, fmt, f, src)
    ensures Tracks(Record(s, f, src).0, fmt, seen + [f])
  {
    var c := CloseOutput(s);
    var a := OpenOut(c, f, src);
    ReopenForKeyframe(s, fmt, f, src, seen);
    ReferenceStep(s.cfg.audioOn, fmt, seen, f);
    ReferenceStep(s.cfg.audioOn, fmt, [], f);
    assert [] + [f] == [f];
    hide OpenOut, Recorded, Started, WriteFrame;
    EmptyConcat([f]);
    if a.outputInitialized {
      WriteFrameRecords(a.cfg, fmt, a.output, [], f);
    }
  }

  lemma ReopenForKeyframe(s: State, fmt: Format, f: Frame, src: Source, seen: seq<Frame>)
    requires Tracks(s, fmt, seen) && s.outputInitialized && LosesNothing(s, fmt, f, src) && OpensOutput(s, f)
    ensures var a := OpenOut(CloseOutput(s), f, src);
      && Recorded(a.output.files) == Recorded(s.output.files) && a.output.firstPts == NOPTS
      && (a.outputInitialized ==> a.format == fmt && a.saved == [])
      && (!a.outputInitialized ==> a.saved == [f])
  {
    hide Recorded, Reference, Started;
    assert [] + [f] == [f];
    forall t: Target { RecordedNewFile(s.output.files, t); }
  }

  lemma {:induction false} RecordTracks(s: State, fmt: Format, f: Frame, src: Source, seen: seq<Frame>)
    requires Tracks(s, fmt, seen) && LosesNothing(s, fmt, f, src) && f.pts != NOPTS
    ensures Tracks(Record(s, f, src).0, fmt, seen + [f])
  {
    if !s.outputInitialized {
      DeferTracks(s, fmt, f, src, seen);
    } else if WantsNewFile(s, f) && CanStartNewFile(f) {
      RolloverTracks(s, fmt, f, src, seen);
    } else {
      WriteTracks(s, fmt, seen, f);
    }
    hide Tracks, OpenOut, Write;
  }

  /** One incoming frame, preceded or not by a request for a new file. */
  datatype Input = Input(frame: Frame, src: Source, newFile: bool)

  function Requested(s: State, newFile: bool): State {
    if newFile then s.(requests := Requests(s.requests.nextUri, true, s.requests.criticalError)) else s
  }

  function RecordAll(s: State, ins: seq<Input>): (t: State)
    requires Healthy(s)
    ensures Healthy(t) && t.cfg == s.cfg
    decreases |ins|
  {
    if ins == [] then s
    else RecordAll(Record(Requested(s, ins[0].newFile), ins[0].frame, ins[0].src).0, ins[1..])
  }

  function Incoming(ins: seq<Input>): seq<Frame> {
    if ins == [] then [] else [ins[0].frame] + Incoming(ins[1..])
  }

  ghost predicate NothingLost(s: State, fmt: Format, ins: seq<Input>)
    requires Healthy(s)
    decreases |ins|
  {
    ins != [] ==>
      var r := Requested(s, ins[0].newFile);
      && ins[0].frame.pts != NOPTS && LosesNothing(r, fmt, ins[0].frame, ins[0].src)
      && NothingLost(Record(r, ins[0].frame, ins[0].src).0, fmt, ins[1..])
  }

  lemma {:induction false} RecordAllTracks(s: State, fmt: Format, ins: seq<Input>, seen: seq<Frame>)
    requires Tracks(s, fmt, seen) && Healthy(s) && NothingLost(s, fmt, ins)
    ensures Tracks(RecordAll(s, ins), fmt, seen + Incoming(ins))
    decreases |ins|
  {
    hide Record, LosesNothing;
    if ins == [] {
      EmptyConcat(seen);
    } else {
      var r, f := Requested(s, ins[0].newFile), ins[0].frame;
      assert Tracks(r, fmt, seen);
      RecordTracks(r, fmt, f, ins[0].src, seen);
      RecordAllTracks(Record(r, f, ins[0].src).0, fmt, ins[1..], seen + [f]);
      Associate(seen, [f], Incoming(ins[1..]));
    }
  }

  /** Lossless rollover: the files one after another are exactly the recordable frames from the
      first keyframe on, apart from those still waiting for the output to open. */
  lemma {:induction false} RolloverIsLossless(cfg: Config, fmt: Format, ins: seq<Input>)
    requires cfg.outputLocation && NothingLost(Fresh(cfg), fmt, ins)
    ensures var s := RecordAll(Fresh(cfg), ins);
      && Recorded(s.output.files) + Reference(cfg.audioOn, fmt, s.saved) == Reference(cfg.audioOn, fmt, Incoming(ins))
      && (s.outputInitialized ==> Recorded(s.output.files) == Reference(cfg.audioOn, fmt, Incoming(ins)))
  {
    RecordAllTracks(Fresh(cfg), fmt, ins, []);
    EmptyConcat(Incoming(ins));
    hide RecordAll, NothingLost;
    EmptyConcat(Recorded(RecordAll(Fresh(cfg), ins).output.files));
  }

  /** An IDR frame that comes in while the source lacks SPS or PPS. */
  predicate IdrTooEarly(s: State, fmt: Format, f: Frame, src: Source) {
    && !s.outputInitialized && GoodSource(fmt, src) && fmt.codec.H264?
    && (s.setup.sizeKnown || src.hasSize)
    && f.pts != NOPTS && f.media == Video && f.hasIdr
    && !((s.setup.sps || src.hasSps) && (s.setup.pps || src.hasPps))
  }

  lemma EarlyIdrOpens(s: State, fmt: Format, f: Frame, src: Source)
    requires IdrTooEarly(s, fmt, f, src) && s.cfg.outputLocation && s.output.firstPts == NOPTS
    ensures var a := OpenOut(s, f, src);
      && Recorded(a.output.files) == Recorded(s.output.files) && a.output.firstPts == NOPTS
      && (a.outputInitialized ==> a.format == fmt && a.saved == [] && a.output.files != [])
      && (!a.outputInitialized ==> a.saved == [f])
  {
    hide Recorded;
    assert [] + [f] == [f];
    forall t: Target { RecordedNewFile(s.output.files, t); }
  }

  lemma EarlyIdrRecords(s: State, fmt: Format, f: Frame, src: Source)
    requires IdrTooEarly(s, fmt, f, src) && s.cfg.outputLocation && s.output.firstPts == NOPTS && Healthy(s)
    ensures var t := Record(s, f, src).0;
      Recorded(t.output.files) + Reference(t.cfg.audioOn, fmt, t.saved) == Recorded(s.output.files) + [f]
  {
    EarlyIdrOpens(s, fmt, f, src);
    ReferenceStep(s.cfg.audioOn, fmt, [], f);
    assert [] + [f] == [f];
    hide OpenOut, Recorded, Started, WriteFrame;
    EmptyConcat([f]);
    var a := OpenOut(s, f, src);
    if a.outputInitialized {
      WriteFrameRecords(a.cfg, fmt, a.output, [], f);
      EmptyConcat(Recorded(s.output.files) + [f]);
    }
  }

  /** The guard is exact where it speaks of IDR frames: while SPS and PPS are not available from the
      source, an IDR frame keeps the record complete if and only if nothing saved was due. */
  lemma {:induction false} IdrDropsSavedFrames(s: State, fmt: Format, f: Frame, src: Source, seen: seq<Frame>)
    requires Tracks(s, fmt, seen) && IdrTooEarly(s, fmt, f, src)
    ensures var t := Record(s, f, src).0;
      var complete := Recorded(t.output.files) + Reference(t.cfg.audioOn, fmt, t.saved)
                   == Reference(t.cfg.audioOn, fmt, seen + [f]);
      complete <==> Reference(s.cfg.audioOn, fmt, s.saved) == []
  {
    EarlyIdrRecords(s, fmt, f, src);
    ReferenceStep(s.cfg.audioOn, fmt, seen, f);
    hide Record, Recorded, Reference, Started;
    var rec, due := Recorded(s.output.files), Reference(s.cfg.audioOn, fmt, s.saved);
    assert |rec + [f]| == |rec| + 1 && |rec + due + [f]| == |rec| + |due| + 1;
    if due == [] {
      EmptyConcat(rec);
    }
  }

  /** A frame with an IDR slice, and a source that has no parameter sets to give. */
  function IdrFrame(id: nat, pts: int): Frame {
    Frame(id, pts, Video, 1, true, false, false, false, true)
  }

  const BARE_SOURCE := Source(Some(H264), true, false, true, false, false, Opened)

  lemma SavedWhileBare(cfg: Config, f: Frame)
    requires cfg.outputLocation && f == IdrFrame(f.id, f.pts) && f.pts != NOPTS
    ensures var s := Record(Fresh(cfg), f, BARE_SOURCE).0;
      && s.saved == [f] && !s.outputInitialized && s.output == Output(NOPTS, 0, []) && s.cfg == cfg
      && s.setup == Setup(Some(StartingAt(f.pts)), true, false, false)
      && s.format == Format(H264, false)
  {
    assert [] + [f] == [f];
  }

  lemma DroppedWhileBare(s: State, f: Frame)
    requires !s.outputInitialized && s.output == Output(NOPTS, 0, []) && s.format == Format(H264, false)
    requires s.setup.uri.Some? && s.setup.sizeKnown && !s.setup.sps && !s.setup.pps
    requires f == IdrFrame(f.id, f.pts)
    ensures var t := Record(s, f, BARE_SOURCE).0;
      t.saved == [f] && t.output == Output(NOPTS, 0, []) && !t.outputInitialized
  {
    assert [] + [f] == [f];
  }

  lemma ReferenceOfOne(audioOn: bool, fmt: Format, f: Frame)
    requires f == IdrFrame(f.id, f.pts)
    ensures Reference(audioOn, fmt, [f]) == [f] && Started(fmt.codec, [f])
  {
    ReferenceStep(audioOn, fmt, [], f);
    assert [] + [f] == [f];
  }

  /** It happens from the start: of two IDR frames that a new recorder reads before the source has SPS
      and PPS, the first is saved and then dropped, although it is due. */
  lemma EarlyIdrLosesAFrame(cfg: Config)
    requires cfg.outputLocation
    ensures var f, g, fmt := IdrFrame(0, 0), IdrFrame(1, 40), Format(H264, false);
      var s := Record(Fresh(cfg), f, BARE_SOURCE).0;
      var t := RecordAll(Fresh(cfg), [Input(f, BARE_SOURCE, false), Input(g, BARE_SOURCE, false)]);
      && Tracks(s, fmt, [f]) && s.saved == [f] && IdrTooEarly(s, fmt, g, BARE_SOURCE)
      && Recorded(t.output.files) + Reference(cfg.audioOn, fmt, t.saved) == [g]
      && Reference(cfg.audioOn, fmt, [f, g]) == [f, g]
  {
    hide Record, Started, Reference;
    var f, g, fmt := IdrFrame(0, 0), IdrFrame(1, 40), Format(H264, false);
    var s := Record(Fresh(cfg), f, BARE_SOURCE).0;
    SavedWhileBare(cfg, f);
    DroppedWhileBare(s, g);
    ReferenceOfOne(cfg.audioOn, fmt, f);
    ReferenceOfOne(cfg.audioOn, fmt, g);
    ReferenceStep(cfg.audioOn, fmt, [f], g);
    assert [f] + [g] == [f, g] && [] + [f] == [f] && [] + [g] == [g];
    var ins := [Input(f, BARE_SOURCE, false), Input(g, BARE_SOURCE, false)];
    assert ins[1..] == [Input(g, BARE_SOURCE, false)] && ins[1..][1..] == [];
    var t := Record(s, g, BARE_SOURCE).0;
    assert RecordAll(t, []) == t && RecordAll(s, ins[1..]) == t;
  }
}
