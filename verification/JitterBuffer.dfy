/** The jitter buffer of stream_jitter_buffer.cpp: a queue of future frames kept in pts order, a
    history of frames already served, replay of that history after a pause, and cloning of frames
    to fill gaps. `State` and the functions over it specify the node; class `JitterBufferStream`
    is the node itself, whose methods are proved against them. */
module JitterBuffer {
  import opened Media

  const DEFAULT_BUFFER_DURATION := 300

  datatype Frame = Frame(id: nat, pts: int, media: MediaType)

  /** What a read hands downstream: a frame that arrived, or a copy of one under an earlier pts. */
  datatype Served = Original(frame: Frame) | CloneOf(frame: Frame, clonePts: int) {
    function Pts(): int {
      match this
      case Original(f) => f.pts
      case CloneOf(_, p) => p
    }
  }

  /** The upstream answer to the "encoderDelay" query. */
  datatype Delay = NotSupported | NotYetKnown | Known(delay: nat)

  /** One result of reading the upstream node. */
  datatype Upstream = Arrived(frame: Frame, delay: Delay) | Ended(code: int)

  datatype State = State(
    bufferTime: int,
    bufferTimeWhenPaused: int,
    queue: seq<Frame>,
    past: seq<Frame>,
    jumpstart: bool,
    jumpstartFps: int,
    targetFps: int,
    lastPast: int,
    lastServed: int,
    prebufferEnd: int,
    delayKnown: bool,
    paused: bool)

  // ----- Specification of the node's operations -----

  /** Where a frame with the given pts goes: after the last frame that is not later than it. */
  function Slot(q: seq<Frame>, pts: int): (k: nat)
    ensures k <= |q|
    ensures k > 0 ==> q[k-1].pts <= pts
    ensures forall j | k <= j < |q| :: q[j].pts > pts
  {
    if q == [] || q[|q|-1].pts <= pts then |q| else Slot(q[..|q|-1], pts)
  }

  function Insert(q: seq<Frame>, f: Frame): seq<Frame> {
    var k := Slot(q, f.pts);
    q[..k] + [f] + q[k..]
  }

  /** The queue without the leading frames that are more than `keep` older than `tail`. */
  function DropOld(q: seq<Frame>, tail: int, keep: int): seq<Frame> {
    if q != [] && tail - q[0].pts > keep then DropOld(q[1..], tail, keep) else q
  }

  /** A served frame that is saved whatever the replay rate. */
  predicate StartsReplay(s: State, f: Frame) {
    || s.past == []
    || f.media != Video
    || s.lastPast == 0
    || TruncDiv(f.pts, 1000) != TruncDiv(s.lastPast, 1000)
  }

  predicate ShouldSave(s: State, f: Frame)
    requires StartsReplay(s, f) || s.jumpstartFps != 0
  {
    StartsReplay(s, f) || f.pts - s.lastPast > TruncDiv(1000, s.jumpstartFps)
  }

  /** The replay rate divides only while history is kept; a rate of 0 is then undefined in the C++. */
  predicate Playable(s: State) {
    s.jumpstart ==> s.jumpstartFps != 0
  }

  function Save(s: State, f: Frame): State {
    s.(past := s.past + [f], lastPast := if f.media == Video then f.pts else s.lastPast)
  }

  /** True when the head is too far after the last served video frame, so a clone is served first. */
  predicate NeedsClone(s: State)
    requires s.queue != []
  {
    && s.queue[0].media == Video
    && s.lastServed != 0
    && s.queue[0].pts < s.prebufferEnd
    && s.targetFps != 0
    && s.queue[0].pts - s.lastServed > TruncDiv(1000, s.targetFps)
  }

  function Generate(s: State): (State, Served)
    requires s.queue != []
  {
    var head := s.queue[0];
    if head.media != Video then
      (s, Original(head))
    else if NeedsClone(s) then
      var p := s.lastServed + TruncDiv(1000, s.targetFps);
      (s.(lastServed := p), CloneOf(head, p))
    else
      (s.(lastServed := head.pts), Original(head))
  }

  function Serve(s: State): (State, Served)
    requires s.queue != [] && Playable(s)
  {
    var tail := s.queue[|s.queue|-1].pts;
    var (g, out) := Generate(s);
    if out.CloneOf? then (g, out) else
    var popped := g.(queue := g.queue[1..]);
    if popped.jumpstart && ShouldSave(popped, out.frame) then
      var saved := Save(popped, out.frame);
      (saved.(past := DropOld(saved.past, tail, s.bufferTimeWhenPaused)), out)
    else
      (popped, out)
  }

  function Splice(s: State): State {
    if s.paused && s.past != [] then
      s.(queue := s.past + s.queue, past := [], lastPast := 0, lastServed := 0)
    else
      s
  }

  function MarkStart(s: State): State
    requires s.queue != []
  {
    if s.lastServed == 0 && !s.paused then s.(prebufferEnd := s.queue[|s.queue|-1].pts) else s
  }

  /** One attempt to get a frame out of the buffer. */
  function PollBuffer(s: State): (State, Option<Served>)
    requires Playable(s)
  {
    if s.queue == [] then (s, None) else
    var m := MarkStart(Splice(s));
    var tail := m.queue[|m.queue|-1].pts;
    if m.paused then
      (m.(queue := DropOld(m.queue, tail, m.bufferTimeWhenPaused)), None)
    else if tail - m.queue[0].pts > m.bufferTime then
      var (t, out) := Serve(m);
      (t, Some(out))
    else
      (m, None)
  }

  function LearnDelay(s: State, d: Delay): State {
    if s.delayKnown || d.NotYetKnown? then s
    else if d.NotSupported? then s.(delayKnown := true)
    else s.(delayKnown := true, bufferTime := if d.delay > s.bufferTime then d.delay else s.bufferTime)
  }

  function Arrive(s: State, f: Frame, d: Delay): State {
    var l := LearnDelay(s, d);
    l.(queue := Insert(l.queue, f))
  }

  /** A read polls the buffer only once the encoder delay is settled. */
  function Attempt(s: State): (State, Option<Served>)
    requires Playable(s)
  {
    if s.delayKnown then PollBuffer(s) else (s, None)
  }

  datatype ReadResult = Got(served: Served) | Stopped(code: int)

  /** Serve from the buffer if possible, otherwise take one more frame from upstream and retry.
      `used` counts the upstream results consumed; running out of them reads as an error. */
  function Read(s: State, up: seq<Upstream>): (State, ReadResult, nat)
    requires Playable(s)
    decreases |up|
  {
    var (p, out) := Attempt(s);
    if out.Some? then (p, Got(out.value), 0)
    else if up == [] then (p, Stopped(-1), 0)
    else if up[0].Ended? then (p, Stopped(up[0].code), 1)
    else
      var (t, r, n) := Read(Arrive(p, up[0].frame, up[0].delay), up[1..]);
      (t, r, n + 1)
  }

  function Fresh(): State {
    State(DEFAULT_BUFFER_DURATION, DEFAULT_BUFFER_DURATION, [], [], false, 2, 0, 0, 0, 0, false, false)
  }

  // ----- The node -----

  class JitterBufferStream {
    var bufferTime: int
    var bufferTimeWhenPaused: int
    var frameQueue: seq<Frame>
    var pastFrameQueue: seq<Frame>
    var jumpstartWithPastFrames: bool
    var jumpstartFps: int
    var targetFps: int
    var lastVideoPastFramePts: int
    var lastVideoServedFramePts: int
    var prebufferEndPts: int
    var determinedEncoderDelay: bool
    var paused: bool

    ghost function View(): State
      reads this
    {
      State(bufferTime, bufferTimeWhenPaused, frameQueue, pastFrameQueue, jumpstartWithPastFrames,
            jumpstartFps, targetFps, lastVideoPastFramePts, lastVideoServedFramePts,
            prebufferEndPts, determinedEncoderDelay, paused)
    }

    constructor ()
      ensures View() == State(300, 300, [], [], false, 2, 0, 0, 0, 0, false, false)
    {
      bufferTime := DEFAULT_BUFFER_DURATION;
      bufferTimeWhenPaused := DEFAULT_BUFFER_DURATION;
      frameQueue := [];
      pastFrameQueue := [];
      jumpstartWithPastFrames := false;
      jumpstartFps := 2;
      targetFps := 0;
      lastVideoPastFramePts := 0;
      lastVideoServedFramePts := 0;
      prebufferEndPts := 0;
      determinedEncoderDelay := false;
      paused := false;
    }

    /** Walks back from the end of the queue to the first frame that is not later than `f`. */
    method Append(f: Frame)
      modifies this`frameQueue
      ensures View() == old(View()).(queue := Insert(old(frameQueue), f))
    {
      var it := |frameQueue|;
      while it != 0
        invariant 0 <= it <= |frameQueue|
        invariant forall j | it <= j < |frameQueue| :: frameQueue[j].pts > f.pts
        invariant frameQueue == old(frameQueue)
      {
        it := it - 1;
        if frameQueue[it].pts <= f.pts {
          it := it + 1;
          frameQueue := frameQueue[..it] + [f] + frameQueue[it..];
          return;
        }
      }
      frameQueue := [f] + frameQueue;
      assert frameQueue == old(frameQueue)[..0] + [f] + old(frameQueue)[0..];
    }

    /** Pops the leading frames of a queue that are older than the pause window. */
    method Reduce(q: seq<Frame>, ptsTail: int) returns (r: seq<Frame>)
      ensures r == DropOld(q, ptsTail, bufferTimeWhenPaused)
    {
      r := q;
      while r != []
        invariant DropOld(r, ptsTail, bufferTimeWhenPaused) == DropOld(q, ptsTail, bufferTimeWhenPaused)
        decreases |r|
      {
        if ptsTail - r[0].pts <= bufferTimeWhenPaused {
          break;
        }
        r := r[1..];
      }
    }

    method SaveFrameForJumpstart(f: Frame) returns (saved: bool)
      requires StartsReplay(View(), f) || jumpstartFps != 0
      modifies this`pastFrameQueue, this`lastVideoPastFramePts
      ensures saved == old(ShouldSave(View(), f))
      ensures View() == if saved then Save(old(View()), f) else old(View())
    {
      var isVideo := f.media == Video;
      saved := || pastFrameQueue == []
               || !isVideo
               || lastVideoPastFramePts == 0
               || TruncDiv(f.pts, 1000) != TruncDiv(lastVideoPastFramePts, 1000)
               || f.pts - lastVideoPastFramePts > TruncDiv(1000, jumpstartFps);
      if saved {
        pastFrameQueue := pastFrameQueue + [f];
        if isVideo {
          lastVideoPastFramePts := f.pts;
        }
      }
    }

    method GenerateFrame() returns (res: Served)
      requires frameQueue != []
      modifies this`lastVideoServedFramePts
      ensures (View(), res) == Generate(old(View()))
    {
      var head := frameQueue[0];
      var diff := head.pts - lastVideoServedFramePts;
      res := Original(head);
      if head.media == Video {
        if && lastVideoServedFramePts != 0
           && head.pts < prebufferEndPts
           && targetFps != 0
           && diff > TruncDiv(1000, targetFps)
        {
          var fakeFramePts := lastVideoServedFramePts + TruncDiv(1000, targetFps);
          res := CloneOf(head, fakeFramePts);
          lastVideoServedFramePts := fakeFramePts;
        } else {
          lastVideoServedFramePts := head.pts;
        }
      }
    }

    /** Hands out a clone, or the head, which may then be kept for replay. */
    method ServeHead(ptsTail: int) returns (out: Served)
      requires Playable(View()) && frameQueue != [] && ptsTail == frameQueue[|frameQueue|-1].pts
      modifies this
      ensures (View(), out) == Serve(old(View()))
      ensures Playable(View())
    {
      hide DropOld, NeedsClone, StartsReplay, TruncDiv;
      out := GenerateFrame();
      if out.Original? {
        frameQueue := frameQueue[1..];
        if jumpstartWithPastFrames {
          var saved := SaveFrameForJumpstart(out.frame);
          if saved {
            pastFrameQueue := Reduce(pastFrameQueue, ptsTail);
          }
        }
      }
    }

    method Get() returns (out: Option<Served>)
      requires Playable(View())
      modifies this
      ensures (View(), out) == PollBuffer(old(View()))
      ensures Playable(View())
    {
      hide DropOld, Serve;
      out := None;
      if frameQueue == [] {
        return;
      }
      if paused {
        if pastFrameQueue != [] {
          frameQueue := pastFrameQueue + frameQueue;
          pastFrameQueue := [];
          lastVideoPastFramePts := 0;
          lastVideoServedFramePts := 0;
        }
      }
      var ptsHead := frameQueue[0].pts;
      var ptsTail := frameQueue[|frameQueue|-1].pts;
      var startingUp := lastVideoServedFramePts == 0 && !paused;
      if startingUp {
        prebufferEndPts := ptsTail;
      }
      if paused {
        frameQueue := Reduce(frameQueue, ptsTail);
      } else if ptsTail - ptsHead > bufferTime {
        var served := ServeHead(ptsTail);
        out := Some(served);
      }
    }

    /** Takes in one frame read from upstream, settling the encoder delay while it is unknown. */
    method Accept(f: Frame, d: Delay)
      modifies this
      ensures View() == Arrive(old(View()), f, d)
      ensures Playable(View()) == old(Playable(View()))
    {
      if !determinedEncoderDelay {
        match d
        case NotSupported =>
          determinedEncoderDelay := true;
        case NotYetKnown =>
        case Known(delay) =>
          bufferTime := if delay > bufferTime then delay else bufferTime;
          determinedEncoderDelay := true;
      }
      Append(f);
    }

    method ReadFrame(upstream: seq<Upstream>) returns (r: ReadResult, used: nat)
      requires Playable(View())
      modifies this
      ensures (View(), r, used) == Read(old(View()), upstream)
    {
      hide PollBuffer, Arrive;
      used := 0;
      while true
        invariant used <= |upstream| && Playable(View())
        invariant var (t, q, n) := Read(View(), upstream[used..]);
                  Read(old(View()), upstream) == (t, q, n + used)
        decreases |upstream| - used
      {
        if determinedEncoderDelay {
          var out := Get();
          if out.Some? {
            r := Got(out.value);
            return;
          }
        }
        if used == |upstream| {
          r := Stopped(-1);
          return;
        }
        var tmp := upstream[used];
        used := used + 1;
        assert upstream[used-1..][1..] == upstream[used..];
        if tmp.Ended? {
          r := Stopped(tmp.code);
          return;
        }
        Accept(tmp.frame, tmp.delay);
      }
    }

    method SetPaused(p: bool)
      modifies this`paused
      ensures View() == old(View()).(paused := p)
    {
      paused := p;
    }
  }
}
