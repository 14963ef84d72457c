/** The recorder node of stream_ffmpeg_recorder.cpp: deferred opening of the output, frames saved
    meanwhile, keyframe gating of each file, and rollover from one file to the next. ffmpeg is
    represented by its answers: what the source knows when the output is opened, whether opening
    succeeds, and whether a packet is accepted. `files` logs every packet submitted to the muxer. */
module Recorder {
  import opened Media

  /** The two "no timestamp" values of the source: AV_NOPTS_VALUE and INVALID_PTS. */
  const NOPTS: int := -0x8000_0000_0000_0000
  const INVALID_PTS: int := -1

  /** A frame, with what the bitstream scanner finds in its data. `accepted` is the muxer's answer
      when the frame's packet is submitted to it. */
  datatype Frame = Frame(
    id: nat,
    pts: int,
    media: MediaType,
    keyFlag: int,
    hasIdr: bool,
    hasSps: bool,
    hasPps: bool,
    isSubtitle: bool,
    accepted: bool)

  datatype Codec = H264 | ImageCodec | UnknownCodec

  datatype OpenOutcome = Opened | IoFailed | SetupFailed

  /** What the source answers while the output is being opened. */
  datatype Source = Source(
    videoCodec: Option<Codec>,
    audioCodecKnown: bool,
    audioSupported: bool,
    hasSize: bool,
    hasSps: bool,
    hasPps: bool,
    outcome: OpenOutcome)

  datatype Target = Named(name: string) | StartingAt(ts: int)

  datatype Packet = Packet(frame: Frame, relPts: Option<int>, key: bool)

  datatype File = File(target: Target, packets: seq<Packet>)

  datatype Config = Config(outputLocation: bool, maxFileDurationMs: int, hls: bool, audioOn: bool)

  /** What is known about the output that is, or is about to be, open. */
  datatype Setup = Setup(uri: Option<Target>, sizeKnown: bool, sps: bool, pps: bool)

  datatype Format = Format(codec: Codec, audioStream: bool)

  datatype Output = Output(firstPts: int, packetsWritten: nat, files: seq<File>)

  datatype Requests = Requests(nextUri: Option<string>, newFile: bool, criticalError: bool)

  datatype State = State(
    cfg: Config,
    setup: Setup,
    format: Format,
    requests: Requests,
    output: Output,
    outputInitialized: bool,
    saved: seq<Frame>)

  function Fresh(cfg: Config): State {
    State(cfg, Setup(None, false, false, false), Format(UnknownCodec, false),
          Requests(None, false, false), Output(NOPTS, 0, []), false, [])
  }

  // ----- Writing one frame -----

  predicate IsKeyframe(codec: Codec, f: Frame) {
    f.media == Video && (codec.H264? ==> f.keyFlag != 0 || f.hasIdr)
  }

  /** Whether a frame reaches the muxer once the file has started. */
  predicate IsRecorded(audioOn: bool, audioStream: bool, f: Frame) {
    match f.media
    case Video => true
    case Audio => audioOn && audioStream
    case Text => true
    case Metadata => f.isSubtitle
    case OtherMedia => false
  }

  function RelativePts(hls: bool, firstPts: int, pts: int): Option<int> {
    if pts == INVALID_PTS then None else Some(if hls then pts else pts - firstPts)
  }

  function Submit(files: seq<File>, p: Packet): seq<File>
    requires files != []
  {
    var last := files[|files|-1];
    files[..|files|-1] + [last.(packets := last.packets + [p])]
  }

  function WriteFrame(cfg: Config, format: Format, out: Output, f: Frame): (r: Output)
    requires out.files != []
    ensures |r.files| == |out.files|
  {
    var key := IsKeyframe(format.codec, f);
    if !IsRecorded(cfg.audioOn, format.audioStream, f) || (out.firstPts == NOPTS && !key) then out else
    var first := if out.firstPts == NOPTS then f.pts else out.firstPts;
    Output(first,
           if f.accepted then out.packetsWritten + 1 else out.packetsWritten,
           Submit(out.files, Packet(f, RelativePts(cfg.hls, first, f.pts), key)))
  }

  function WriteAll(cfg: Config, format: Format, out: Output, fs: seq<Frame>): (r: Output)
    requires out.files != []
    ensures |r.files| == |out.files|
    decreases |fs|
  {
    if fs == [] then out else WriteAll(cfg, format, WriteFrame(cfg, format, out, fs[0]), fs[1..])
  }

  // ----- Opening and closing the output -----

  function CloseOutput(s: State): State {
    State(s.cfg, Setup(None, s.setup.sizeKnown, false, false), s.format, s.requests,
          Output(NOPTS, 0, s.output.files), false, [])
  }

  function NextTs(saved: seq<Frame>, f: Frame): int {
    if saved != [] then saved[0].pts else f.pts
  }

  function SetTarget(s: State, f: Frame): Setup {
    if s.setup.uri.None? && s.cfg.outputLocation then
      Setup(Some(StartingAt(NextTs(s.saved, f))), s.setup.sizeKnown, s.setup.sps, s.setup.pps)
    else
      s.setup
  }

  /** Looks for SPS and PPS at the source, then in the frame itself. While the source has not got
      both, a frame with an IDR slice empties the list of saved frames. */
  function FetchSpsPps(u: Setup, saved: seq<Frame>, f: Frame, src: Source): (Setup, seq<Frame>) {
    var sps, pps := u.sps || src.hasSps, u.pps || src.hasPps;
    if sps && pps then (Setup(u.uri, u.sizeKnown, true, true), saved)
    else (Setup(u.uri, u.sizeKnown, sps || f.hasSps, pps || f.hasPps), if f.hasIdr then [] else saved)
  }

  /** Opens the output for real, all its parameters being known. */
  function StartOutput(s: State, src: Source): State {
    if s.format.codec.UnknownCodec? || s.setup.uri.None? || src.outcome.SetupFailed? then CloseOutput(s)
    else if src.outcome.IoFailed? then
      CloseOutput(s).(requests := Requests(s.requests.nextUri, s.requests.newFile, true))
    else
      var fmt := Format(s.format.codec, src.audioSupported);
      var out := Output(s.output.firstPts, s.output.packetsWritten, s.output.files + [File(s.setup.uri.value, [])]);
      State(s.cfg, s.setup, fmt, Requests(s.requests.nextUri, false, s.requests.criticalError),
            WriteAll(s.cfg, fmt, out, s.saved), true, [])
  }

  /** The output's parameters apart from SPS and PPS are known. */
  function OpenSized(s: State, f: Frame, src: Source): State {
    if s.format.codec != H264 then StartOutput(s, src) else
    var (u, saved) := FetchSpsPps(s.setup, s.saved, f, src);
    if u.sps && u.pps then
      StartOutput(State(s.cfg, u, s.format, s.requests, s.output, false, saved), src)
    else
      State(s.cfg, u, s.format, s.requests, s.output, false, saved + [f])
  }

  function OpenOut(s: State, f: Frame, src: Source): (t: State)
    ensures Healthy(s) ==> Healthy(t)
    ensures t.cfg == s.cfg
  {
    if s.outputInitialized then s else
    var u := SetTarget(s, f);
    if src.videoCodec.None? then s.(setup := u) else
    var fmt := Format(src.videoCodec.value, s.format.audioStream);
    if !src.audioCodecKnown then s.(setup := u, format := fmt)
    else if u.uri.None? || (!u.sizeKnown && !src.hasSize) then
      State(s.cfg, u, fmt, s.requests, s.output, false, s.saved + [f])
    else
      OpenSized(State(s.cfg, Setup(u.uri, true, u.sps, u.pps), fmt, s.requests, s.output, false, s.saved), f, src)
  }

  // ----- Reading -----

  predicate CanStartNewFile(f: Frame) {
    f.media == Video && (f.keyFlag > 0 || f.hasIdr)
  }

  predicate WantsNewFile(s: State, f: Frame) {
    && s.output.packetsWritten > 0
    && (|| (s.cfg.outputLocation && s.cfg.maxFileDurationMs < NextTs(s.saved, f) - s.output.firstPts)
        || s.requests.newFile)
  }

  function ApplyNextUri(s: State): (t: State)
    ensures Healthy(s) ==> Healthy(t)
  {
    if s.requests.nextUri.None? then s else
    var name := s.requests.nextUri.value;
    var a := s.(requests := Requests(None, s.requests.newFile, s.requests.criticalError));
    var b := if a.setup.uri.Some? then CloseOutput(a) else a;
    if name == "" then b
    else b.(setup := Setup(Some(Named(name)), b.setup.sizeKnown, b.setup.sps, b.setup.pps))
  }

  predicate Healthy(s: State) {
    s.outputInitialized ==> s.output.files != []
  }

  function Write(s: State, f: Frame): State
    requires s.output.files != []
  {
    s.(output := WriteFrame(s.cfg, s.format, s.output, f))
  }

  /** Records one frame that came in; the second result says whether it is passed on. */
  function Record(s: State, f: Frame, src: Source): (r: (State, bool))
    requires Healthy(s)
    ensures Healthy(r.0) && r.0.cfg == s.cfg
  {
    if !s.outputInitialized then
      var a := OpenOut(s, f, src);
      if a.outputInitialized then (Write(a, f), true) else (a, !a.requests.criticalError)
    else if WantsNewFile(s, f) && CanStartNewFile(f) then
      var a := OpenOut(CloseOutput(s), f, src);
      (if a.outputInitialized then Write(a, f) else a, true)
    else
      (Write(s, f), true)
  }

  datatype Upstream = Arrived(frame: Frame) | Ended(code: int)

  datatype ReadResult = Passed(frame: Frame) | Stopped(code: int)

  function Read(s: State, up: Upstream, src: Source): (State, ReadResult)
    requires Healthy(s)
  {
    var a := ApplyNextUri(s);
    match up
    case Ended(code) => (a, Stopped(code))
    case Arrived(f) =>
      var (b, passed) := Record(a, f, src);
      (b, if passed then Passed(f) else Stopped(-1))
  }

  // ----- The node -----

  class RecorderStream {
    const cfg: Config
    var uri: Option<Target>
    var nextUri: Option<string>
    var newFileRequested: bool
    var criticalError: bool
    var sizeKnown: bool
    var codec: Codec
    var audioStream: bool
    var sps: bool
    var pps: bool
    var firstPts: int
    var outputInitialized: bool
    var savedFrames: seq<Frame>
    var packetsWritten: nat
    ghost var files: seq<File>

    ghost function View(): State
      reads this
    {
      State(cfg, Setup(uri, sizeKnown, sps, pps), Format(codec, audioStream),
            Requests(nextUri, newFileRequested, criticalError),
            Output(firstPts, packetsWritten, files), outputInitialized, savedFrames)
    }

    constructor (cfg: Config)
      ensures View() == Fresh(cfg)
    {
      this.cfg := cfg;
      uri, nextUri := None, None;
      newFileRequested, criticalError, sizeKnown := false, false, false;
      codec, audioStream := UnknownCodec, false;
      sps, pps := false, false;
      firstPts := NOPTS;
      outputInitialized := false;
      savedFrames := [];
      packetsWritten := 0;
      files := [];
    }

    method WriteOut(f: Frame)
      requires files != []
      modifies this`firstPts, this`packetsWritten, this`files
      ensures View().output == WriteFrame(cfg, old(View()).format, old(View()).output, f)
    {
      var isKeyframe := false;
      if f.media == Video {
        isKeyframe := codec != H264 || f.keyFlag != 0 || f.hasIdr;
      } else if f.media == Audio {
        if !cfg.audioOn || !audioStream {
          return;
        }
      } else if f.media == Metadata {
        if !f.isSubtitle {
          return;
        }
      } else if f.media != Text {
        return;
      }
      if firstPts == NOPTS {
        if !isKeyframe {
          return;
        }
        firstPts := f.pts;
      }
      files := Submit(files, Packet(f, RelativePts(cfg.hls, firstPts, f.pts), isKeyframe));
      if f.accepted {
        packetsWritten := packetsWritten + 1;
      }
    }

    /** Empties the list of saved frames, writing each of them first if asked to. */
    method FreeSavedFrames(write: bool)
      requires write ==> files != []
      modifies this`firstPts, this`packetsWritten, this`files, this`savedFrames
      ensures savedFrames == []
      ensures var o := old(View());
        View().output == if write then WriteAll(cfg, o.format, o.output, o.saved) else o.output
      ensures !write ==> firstPts == old(firstPts) && packetsWritten == old(packetsWritten) && files == old(files)
    {
      ghost var o := View();
      while savedFrames != []
        invariant write ==> files != []
        invariant View().format == o.format
        invariant !write ==> View().output == o.output
        invariant write ==>
          WriteAll(cfg, o.format, View().output, savedFrames) == WriteAll(cfg, o.format, o.output, o.saved)
        decreases |savedFrames|
      {
        var f := savedFrames[0];
        if write {
          WriteOut(f);
        }
        savedFrames := savedFrames[1..];
      }
    }

    method CloseFile()
      modifies this
      ensures View() == CloseOutput(old(View()))
      ensures files == old(files)
    {
      hide WriteAll, WriteFrame;
      sps, pps := false, false;
      uri := None;
      FreeSavedFrames(false);
      outputInitialized := false;
      firstPts := NOPTS;
      packetsWritten := 0;
    }

    method GetSpsPps(f: Frame, src: Source)
      modifies this`sps, this`pps, this`savedFrames, this`firstPts, this`packetsWritten, this`files
      ensures var o := old(View());
        var (u, saved) := FetchSpsPps(o.setup, o.saved, f, src);
        View() == o.(setup := u, saved := saved)
    {
      hide WriteAll, WriteFrame;
      if !pps {
        pps := src.hasPps;
      }
      if !sps {
        sps := src.hasSps;
      }
      if !pps || !sps {
        if !sps && f.hasSps {
          sps := true;
        }
        if !pps && f.hasPps {
          pps := true;
        }
        if f.hasIdr {
          FreeSavedFrames(false);
        }
      }
    }

    method OpenOutput(f: Frame, src: Source)
      requires Healthy(View())
      modifies this
      ensures View() == OpenOut(old(View()), f, src)
      ensures outputInitialized ==> files != []
    {
      hide OpenSized;
      if outputInitialized {
        return;
      }
      if uri.None? && cfg.outputLocation {
        uri := Some(StartingAt(if savedFrames != [] then savedFrames[0].pts else f.pts));
      }
      if src.videoCodec.None? {
        return;
      }
      codec := src.videoCodec.value;
      if !src.audioCodecKnown {
        return;
      }
      if uri.None? || !sizeKnown {
        if uri.Some? && src.hasSize {
          sizeKnown := true;
        } else {
          savedFrames := savedFrames + [f];
          return;
        }
      }
      OpenSizedOutput(f, src);
    }

    method OpenSizedOutput(f: Frame, src: Source)
      requires !outputInitialized && sizeKnown
      modifies this
      ensures View() == OpenSized(old(View()), f, src)
      ensures outputInitialized ==> files != []
    {
      hide StartOutput;
      if codec == H264 {
        GetSpsPps(f, src);
        if !pps || !sps {
          savedFrames := savedFrames + [f];
          return;
        }
      }
      StartOut(src);
    }

    /** The muxer has accepted the header: a new file begins with what was saved. */
    method BeginFile(target: Target, src: Source)
      requires uri == Some(target) && codec != UnknownCodec && src.outcome == Opened
      modifies this
      ensures View() == StartOutput(old(View()), src)
      ensures outputInitialized && files != []
    {
      hide WriteAll, WriteFrame, CloseOutput;
      audioStream := src.audioSupported;
      files := files + [File(target, [])];
      outputInitialized := true;
      newFileRequested := false;
      FreeSavedFrames(true);
    }

    method StartOut(src: Source)
      requires !outputInitialized
      modifies this
      ensures View() == StartOutput(old(View()), src)
      ensures outputInitialized ==> files != []
    {
      hide WriteAll, WriteFrame;
      if codec == UnknownCodec || uri.None? || src.outcome.SetupFailed? {
        CloseFile();
      } else if src.outcome.IoFailed? {
        criticalError := true;
        CloseFile();
      } else {
        BeginFile(uri.value, src);
      }
    }

    /** Acts on the URI that the caller has left behind, if any: an empty one only stops. */
    method FollowNextUri()
      requires Healthy(View())
      modifies this
      ensures View() == ApplyNextUri(old(View()))
      ensures Healthy(View())
    {
      if nextUri.Some? {
        var name := nextUri.value;
        nextUri := None;
        if uri.Some? {
          CloseFile();
        }
        if name != "" {
          uri := Some(Named(name));
        }
      }
    }

    method RecordFrame(f: Frame, src: Source) returns (passed: bool)
      requires Healthy(View())
      modifies this
      ensures (View(), passed) == Record(old(View()), f, src)
      ensures Healthy(View())
    {
      hide OpenOut, WriteFrame, WriteAll;
      passed := true;
      if !outputInitialized {
        OpenOutput(f, src);
        if !outputInitialized {
          passed := !criticalError;
          return;
        }
      } else {
        var periodicReopen := cfg.outputLocation && packetsWritten > 0;
        if periodicReopen {
          var msSinceStart := (if savedFrames != [] then savedFrames[0].pts else f.pts) - firstPts;
          periodicReopen := cfg.maxFileDurationMs < msSinceStart;
        }
        var requestedReopen := newFileRequested && packetsWritten > 0;
        if periodicReopen || requestedReopen {
          if f.media == Video && (f.keyFlag > 0 || f.hasIdr) {
            CloseFile();
            OpenOutput(f, src);
            if !outputInitialized {
              return;
            }
          }
        }
      }
      WriteOut(f);
    }

    method ReadFrame(up: Upstream, src: Source) returns (r: ReadResult)
      requires Healthy(View())
      modifies this
      ensures (View(), r) == Read(old(View()), up, src)
      ensures Healthy(View())
    {
      hide ApplyNextUri, Record;
      FollowNextUri();
      match up
      case Ended(code) =>
        r := Stopped(code);
      case Arrived(f) =>
        var passed := RecordFrame(f, src);
        r := if passed then Passed(f) else Stopped(-1);
    }

    method RequestNewFile()
      modifies this`newFileRequested
      ensures View() == old(View()).(requests := Requests(old(nextUri), true, old(criticalError)))
    {
      newFileRequested := true;
    }

    /** Closes the current file and keeps its URI, so that recording starts over. */
    method Restart()
      modifies this
      ensures var c := CloseOutput(old(View()));
        View() == c.(setup := Setup(old(uri), c.setup.sizeKnown, false, false))
    {
      var saveUri := uri;
      uri := None;
      CloseFile();
      uri := saveUri;
    }

    method SetNextUri(name: string)
      modifies this`nextUri
      ensures View() == old(View()).(requests := Requests(Some(name), old(newFileRequested), old(criticalError)))
    {
      nextUri := Some(name);
    }
  }
}
