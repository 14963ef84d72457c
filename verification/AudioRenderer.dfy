/** The audio renderer of stream_audio_renderer_portaudio.cpp as two threads over one queue, one mutex
    and one manual-reset event. A step is what a thread does between two points at which the other
    may come in: a critical section, a test of the running flag, a wait, or a call into PortAudio. */
module AudioRenderer {
  import opened Media
  import Seqs

  const PREBUFFER := 2

  datatype Frame = Frame(id: nat, size: nat)

  /** Where the playback thread is. `Derailed` is the path on which it has no frame, finds the flag
      cleared and goes on to play the missing frame; the protocol ends there. */
  datatype Consumer =
    | Testing
    | Locking
    | Playing(frame: Frame, needsStart: bool)
    | Undecided(needsStop: bool)
    | Waiting
    | Exited
    | Derailed

  /** How far closing has come: not begun, running flag cleared, event set. */
  datatype Closing = Open | Cleared | Signalled

  datatype State = State(
    queue: seq<Frame>,
    bytesAvailable: int,
    buffersPlayed: nat,
    event: bool,
    threadRunning: bool,
    muted: int,
    playing: bool,
    consumer: Consumer,
    closing: Closing)

  /** The renderer once its playback thread has been started. */
  function Started(): State {
    State([], 0, 0, false, true, 0, false, Testing, Open)
  }

  datatype Step =
    | Push(frame: Frame)
    | Seek
    | Mute(muted: int)
    | ClearRunning
    | SetEvent
    | Test
    | Lock
    | Play(started: bool)
    | Decide
    | Wake

  predicate IsConsumerStep(e: Step) {
    e.Test? || e.Lock? || e.Play? || e.Decide? || e.Wake?
  }

  predicate Enabled(s: State, e: Step) {
    match e
    case Push(_) => true
    case Seek => true
    case Mute(_) => true
    case ClearRunning => s.closing == Open
    case SetEvent => s.closing == Cleared
    case Test => s.consumer == Testing
    case Lock => s.consumer == Locking
    case Play(_) => s.consumer.Playing?
    case Decide => s.consumer.Undecided?
    case Wake => s.consumer == Waiting && s.event
  }

  function Threshold(playing: bool): nat {
    if playing then 0 else PREBUFFER
  }

  function Flush(s: State): State {
    s.(queue := [], bytesAvailable := 0, buffersPlayed := 0)
  }

  function Next(s: State, e: Step): State
    requires Enabled(s, e)
  {
    match e
    case Push(f) =>
      if s.muted != 0 then s
      else s.(queue := s.queue + [f], bytesAvailable := s.bytesAvailable + f.size, event := true)
    case Seek => Flush(s)
    case Mute(m) => (if m != 0 && m != s.muted then Flush(s) else s).(muted := m)
    case ClearRunning => s.(threadRunning := false, closing := Cleared)
    case SetEvent => s.(event := true, closing := Signalled)
    case Test =>
      if s.threadRunning then s.(consumer := Locking)
      else s.(consumer := Exited, playing := false)
    case Lock =>
      if |s.queue| > Threshold(s.playing) then
        var f := s.queue[0];
        s.(queue := s.queue[1..], bytesAvailable := s.bytesAvailable - f.size,
           buffersPlayed := s.buffersPlayed + 1,
           consumer := Playing(f, s.buffersPlayed == 0 && !s.playing))
      else
        s.(event := false, consumer := Undecided(s.buffersPlayed == 0 && s.playing))
    case Play(started) =>
      if s.consumer.needsStart && !started then
        s.(consumer := Exited, playing := false, threadRunning := false)
      else
        s.(consumer := Testing, playing := s.playing || s.consumer.needsStart)
    case Decide =>
      if s.threadRunning then s.(consumer := Waiting, playing := s.playing && !s.consumer.needsStop)
      else s.(consumer := Derailed)
    case Wake => s.(consumer := Testing)
  }

  // ----- The renderer -----

  class AudioStream {
    var bufferQueue: seq<Frame>
    var bytesAvailable: int
    var buffersPlayed: nat
    var event: bool
    var threadRunning: bool
    var muted: int
    var playing: bool
    ghost var consumer: Consumer
    ghost var closing: Closing

    ghost function View(): State
      reads this
    {
      State(bufferQueue, bytesAvailable, buffersPlayed, event, threadRunning, muted, playing, consumer, closing)
    }

    constructor ()
      ensures View() == Started()
    {
      bufferQueue, bytesAvailable, buffersPlayed := [], 0, 0;
      event, threadRunning, muted, playing := false, true, 0, false;
      consumer, closing := Testing, Open;
    }

    method FlushQueue()
      modifies this`bufferQueue, this`bytesAvailable
      ensures bufferQueue == [] && bytesAvailable == 0
    {
      while bufferQueue != []
        decreases |bufferQueue|
      {
        bufferQueue := bufferQueue[1..];
      }
      bytesAvailable := 0;
    }

    method PushFrame(f: Frame)
      modifies this
      ensures View() == Next(old(View()), Push(f))
    {
      if muted == 0 {
        bufferQueue := bufferQueue + [f];
        bytesAvailable := bytesAvailable + f.size;
        event := true;
      }
    }

    method SeekTo()
      modifies this
      ensures View() == Next(old(View()), Seek)
    {
      FlushQueue();
      buffersPlayed := 0;
    }

    method SetMuted(m: int)
      modifies this
      ensures View() == Next(old(View()), Mute(m))
    {
      if m != 0 && m != muted {
        FlushQueue();
        buffersPlayed := 0;
      }
      muted := m;
    }

    /** The first half of closing. */
    method StopRunning()
      requires Enabled(View(), ClearRunning)
      modifies this
      ensures View() == Next(old(View()), ClearRunning)
    {
      threadRunning := false;
      closing := Cleared;
    }

    /** The second half of closing, before the playback thread is joined. */
    method Signal()
      requires Enabled(View(), SetEvent)
      modifies this
      ensures View() == Next(old(View()), SetEvent)
    {
      event := true;
      closing := Signalled;
    }

    method TestRunning() returns (goOn: bool)
      requires Enabled(View(), Test)
      modifies this
      ensures View() == Next(old(View()), Test)
      ensures goOn <==> consumer == Locking
    {
      goOn := threadRunning;
      if goOn {
        consumer := Locking;
      } else {
        playing := false;
        threadRunning := false;
        consumer := Exited;
      }
    }

    /** The playback thread's critical section. */
    method TakeFrame() returns (f: Option<Frame>, needsStart: bool, needsStop: bool)
      requires Enabled(View(), Lock)
      modifies this
      ensures View() == Next(old(View()), Lock)
      ensures consumer == if f.Some? then Playing(f.value, needsStart) else Undecided(needsStop)
    {
      f, needsStart, needsStop := None, false, false;
      var qSize := |bufferQueue|;
      if (playing && qSize > 0) || (!playing && qSize > PREBUFFER) {
        f := Some(bufferQueue[0]);
        bufferQueue := bufferQueue[1..];
        bytesAvailable := bytesAvailable - f.value.size;
        needsStart := buffersPlayed == 0 && !playing;
        buffersPlayed := buffersPlayed + 1;
        consumer := Playing(f.value, needsStart);
      } else {
        needsStop := buffersPlayed == 0 && playing;
        event := false;
        consumer := Undecided(needsStop);
      }
    }

    /** What the thread does with the outcome of its critical section. `started` is PortAudio's answer
        if the stream has to be started. */
    method UseFrame(f: Option<Frame>, needsStart: bool, needsStop: bool, started: bool)
      requires consumer == if f.Some? then Playing(f.value, needsStart) else Undecided(needsStop)
      modifies this
      ensures View() == Next(old(View()), if f.Some? then Play(started) else Decide)
    {
      if f.None? && threadRunning {
        if needsStop {
          playing := false;
        }
        consumer := Waiting;
      } else if f.None? {
        consumer := Derailed;
      } else if needsStart && !started {
        playing := false;
        threadRunning := false;
        consumer := Exited;
      } else {
        playing := playing || needsStart;
        consumer := Testing;
      }
    }

    /** The wait is over once the event is set; a manual-reset event stays set. */
    method WakeUp()
      requires Enabled(View(), Wake)
      modifies this
      ensures View() == Next(old(View()), Wake)
    {
      consumer := Testing;
    }
  }

  // ----- All interleavings -----

  ghost predicate Possible(s: State, es: seq<Step>)
    decreases |es|
  {
    es != [] ==> Enabled(s, es[0]) && Possible(Next(s, es[0]), es[1..])
  }

  ghost function Run(s: State, es: seq<Step>): State
    requires Possible(s, es)
    decreases |es|
  {
    if es == [] then s else Run(Next(s, es[0]), es[1..])
  }

  function Bytes(q: seq<Frame>): nat {
    if q == [] then 0 else q[0].size + Bytes(q[1..])
  }

  ghost predicate Inv(s: State) {
    && s.bytesAvailable == Bytes(s.queue)
    && ((s.consumer.Undecided? || s.consumer == Waiting) && !s.event ==> |s.queue| <= Threshold(s.playing))
    && (s.closing != Open || s.consumer == Exited ==> !s.threadRunning)
    && (s.closing == Signalled && s.consumer == Waiting ==> s.event)
    && (s.consumer == Derailed ==> s.closing != Open)
    && (!s.threadRunning ==> s.closing != Open || s.consumer == Exited)
  }

  lemma {:induction false} BytesAppend(q: seq<Frame>, f: Frame)
    ensures Bytes(q + [f]) == Bytes(q) + f.size
  {
    if q == [] {
      assert [f][1..] == [];
    } else {
      assert (q + [f])[1..] == q[1..] + [f];
      BytesAppend(q[1..], f);
    }
  }

  lemma NextKeepsInv(s: State, e: Step)
    requires Inv(s) && Enabled(s, e)
    ensures Inv(Next(s, e))
  {
    if e.Push? {
      BytesAppend(s.queue, e.frame);
    }
    hide Bytes;
    assert Bytes([]) == 0 by { NoBytes(); }
    if e.Lock? && s.queue != [] {
      BytesOfHead(s.queue);
    }
  }

  lemma NoBytes()
    ensures Bytes([]) == 0
  {
  }

  lemma BytesOfHead(q: seq<Frame>)
    requires q != []
    ensures Bytes(q) == q[0].size + Bytes(q[1..])
  {
  }

  lemma {:induction false} RunKeepsInv(s: State, es: seq<Step>)
    requires Inv(s) && Possible(s, es)
    ensures Inv(Run(s, es))
    decreases |es|
  {
    hide Next, Inv;
    if es != [] {
      NextKeepsInv(s, es[0]);
      RunKeepsInv(Next(s, es[0]), es[1..]);
    }
  }

  predicate Blocked(s: State) {
    s.consumer == Waiting && !s.event
  }

  /** No lost wakeup, in every state of every interleaving: a blocked playback thread has nothing it
      would have to play. The byte count is always that of the queue, and once the renderer has been
      told to close, nobody is blocked. */
  lemma NoLostWakeup(es: seq<Step>)
    requires Possible(Started(), es)
    ensures var s := Run(Started(), es);
      && (Blocked(s) ==> |s.queue| <= if s.playing then 0 else 2)
      && s.bytesAvailable == Bytes(s.queue)
      && (s.closing == Signalled ==> !Blocked(s))
      && (s.consumer == Derailed ==> s.closing != Open)
  {
    RunKeepsInv(Started(), es);
  }

  // ----- Shutdown -----

  /** How many more steps the playback thread can take once the event has been set for closing. */
  function Rank(c: Consumer): nat {
    match c
    case Locking => 4
    case Playing(_, _) => 3
    case Undecided(_) => 3
    case Waiting => 2
    case Testing => 1
    case Exited => 0
    case Derailed => 0
  }

  predicate Done(c: Consumer) {
    c == Exited || c == Derailed
  }

  /** The playback thread can always go on, and each of its steps brings it nearer to its end. */
  lemma ShutdownProgress(s: State)
    requires Inv(s) && s.closing == Signalled && !Done(s.consumer)
    ensures exists e :: IsConsumerStep(e) && Enabled(s, e)
    ensures forall e | IsConsumerStep(e) && Enabled(s, e) :: Rank(Next(s, e).consumer) < Rank(s.consumer)
  {
    var e := match s.consumer
      case Testing => Test
      case Locking => Lock
      case Playing(_, _) => Play(true)
      case Undecided(_) => Decide
      case Waiting => Wake
      case _ => Test;
    assert IsConsumerStep(e) && Enabled(s, e);
  }

  function ConsumerSteps(es: seq<Step>): nat {
    if es == [] then 0 else (if IsConsumerStep(es[0]) then 1 else 0) + ConsumerSteps(es[1..])
  }

  /** No stuck shutdown: whatever the other threads go on doing, the playback thread is done after at
      most four steps of its own, and can take them. */
  lemma {:induction false} ShutdownIsBounded(s: State, es: seq<Step>)
    requires Inv(s) && s.closing == Signalled && Possible(s, es)
    ensures var t := Run(s, es);
      && Rank(t.consumer) + ConsumerSteps(es) <= Rank(s.consumer)
      && (ConsumerSteps(es) == Rank(s.consumer) ==> Done(t.consumer))
    decreases |es|
  {
    if es != [] {
      var t := Next(s, es[0]);
      NextKeepsInv(s, es[0]);
      assert t.closing == Signalled;
      if IsConsumerStep(es[0]) {
        assert !Done(s.consumer);
        ShutdownProgress(s);
      } else {
        assert t.consumer == s.consumer;
      }
      hide Next, Inv;
      ShutdownIsBounded(t, es[1..]);
    }
  }

  /** Without a frame to play, the thread goes on to wait exactly if it still finds itself running. */
  lemma DerailsIff(s: State)
    requires Inv(s) && s.consumer.Undecided?
    ensures Next(s, Decide).consumer == Derailed <==> s.closing != Open
  {
  }

  /** It can happen: close clears the flag between the thread's test and its decision. */
  lemma ClosingCanDerail()
    ensures var es := [Test, Lock, ClearRunning, SetEvent, Decide];
      Possible(Started(), es) && Run(Started(), es).consumer == Derailed
  {
    var s0 := Started();
    var s1 := Next(s0, Test);
    var s2 := Next(s1, Lock);
    var s3 := Next(s2, ClearRunning);
    var s4 := Next(s3, SetEvent);
    var s5 := Next(s4, Decide);
    assert Possible(s5, []) && Run(s5, []) == s5;
    assert [Decide][1..] == [];
    assert Possible(s4, [Decide]) && Run(s4, [Decide]) == s5;
    assert [SetEvent, Decide][1..] == [Decide];
    assert Possible(s3, [SetEvent, Decide]) && Run(s3, [SetEvent, Decide]) == s5;
    assert [ClearRunning, SetEvent, Decide][1..] == [SetEvent, Decide];
    assert Possible(s2, [ClearRunning, SetEvent, Decide]) && Run(s2, [ClearRunning, SetEvent, Decide]) == s5;
    assert [Lock, ClearRunning, SetEvent, Decide][1..] == [ClearRunning, SetEvent, Decide];
    assert Possible(s1, [Lock, ClearRunning, SetEvent, Decide]);
    assert Run(s1, [Lock, ClearRunning, SetEvent, Decide]) == s5;
    assert [Test, Lock, ClearRunning, SetEvent, Decide][1..] == [Lock, ClearRunning, SetEvent, Decide];
  }

  // ----- What is played -----

  /** A seek, or muting what was not muted in the same way, empties the queue. */
  predicate Flushes(muted: int, e: Step) {
    e == Seek || (e.Mute? && e.muted != 0 && e.muted != muted)
  }

  /** The frames pushed while not muted since the last flush, `before` having been pushed already. */
  function PushedSince(muted: int, before: seq<Frame>, es: seq<Step>): seq<Frame>
    decreases |es|
  {
    if es == [] then before
    else
      PushedSince(if es[0].Mute? then es[0].muted else muted,
                  if Flushes(muted, es[0]) then []
                  else if es[0].Push? && muted == 0 then before + [es[0].frame]
                  else before,
                  es[1..])
  }

  /** The frame a step of the playback thread takes from the queue. */
  function TakenBy(s: State, e: Step): seq<Frame>
    requires Enabled(s, e)
  {
    if e.Lock? && Next(s, e).consumer.Playing? then [Next(s, e).consumer.frame] else []
  }

  ghost function TakenSince(s: State, before: seq<Frame>, es: seq<Step>): seq<Frame>
    requires Possible(s, es)
    decreases |es|
  {
    if es == [] then before
    else
      TakenSince(Next(s, es[0]), if Flushes(s.muted, es[0]) then [] else before + TakenBy(s, es[0]), es[1..])
  }

  /** The playback thread takes the first frame of the queue, and does so exactly if there is one while it
      is playing, or if there are three before it starts. */
  lemma TakesIff(s: State)
    requires s.consumer == Locking
    ensures TakenBy(s, Lock) == if |s.queue| > (if s.playing then 0 else 2) then [s.queue[0]] else []
  {
  }

  lemma StepAccounts(s: State, taken: seq<Frame>, e: Step)
    requires Enabled(s, e)
    ensures var t := Next(s, e);
      && t.muted == (if e.Mute? then e.muted else s.muted)
      && (if Flushes(s.muted, e) then [] else taken + TakenBy(s, e)) + t.queue
         == if Flushes(s.muted, e) then []
            else if e.Push? && s.muted == 0 then taken + s.queue + [e.frame]
            else taken + s.queue
  {
    if e.Lock? && |s.queue| > Threshold(s.playing) {
      assert [s.queue[0]] + s.queue[1..] == s.queue;
      assert taken + [s.queue[0]] + s.queue[1..] == taken + ([s.queue[0]] + s.queue[1..]);
    }
  }

  /** Nothing is lost, repeated or reordered, in any interleaving: the frames taken to be played since
      the last flush, followed by the queue, are the frames pushed while not muted since then. */
  lemma {:induction false} TakenThenQueued(s: State, taken: seq<Frame>, es: seq<Step>)
    requires Possible(s, es)
    ensures TakenSince(s, taken, es) + Run(s, es).queue == PushedSince(s.muted, taken + s.queue, es)
    decreases |es|
  {
    hide Next, TakenBy, Flushes;
    if es != [] {
      StepAccounts(s, taken, es[0]);
      TakenThenQueued(Next(s, es[0]), if Flushes(s.muted, es[0]) then [] else taken + TakenBy(s, es[0]), es[1..]);
    }
  }

  /** From the start of the playback thread on. */
  lemma PlaysWhatWasPushed(es: seq<Step>)
    requires Possible(Started(), es)
    ensures TakenSince(Started(), [], es) + Run(Started(), es).queue == PushedSince(0, [], es)
  {
    hide Run, TakenSince, PushedSince;
    TakenThenQueued(Started(), [], es);
    assert [] + Started().queue == [];
  }

  function InHand(c: Consumer): seq<Frame> {
    if c.Playing? then [c.frame] else []
  }

  /** The frame that a step writes to the device. */
  function WrittenBy(s: State, e: Step): seq<Frame>
    requires Enabled(s, e)
  {
    if e.Play? && Next(s, e).consumer != Exited then InHand(s.consumer) else []
  }

  ghost function Taken(s: State, es: seq<Step>): seq<Frame>
    requires Possible(s, es)
    decreases |es|
  {
    if es == [] then [] else TakenBy(s, es[0]) + Taken(Next(s, es[0]), es[1..])
  }

  ghost function Written(s: State, es: seq<Step>): seq<Frame>
    requires Possible(s, es)
    decreases |es|
  {
    if es == [] then [] else WrittenBy(s, es[0]) + Written(Next(s, es[0]), es[1..])
  }

  lemma NothingAfterExit(s: State, es: seq<Step>)
    requires Possible(s, es) && s.consumer == Exited
    ensures Taken(s, es) == [] && Written(s, es) == [] && Run(s, es).consumer == Exited
    decreases |es|
  {
    if es != [] {
      assert Next(s, es[0]).consumer == Exited;
      NothingAfterExit(Next(s, es[0]), es[1..]);
    }
  }

  lemma StepWrites(s: State, e: Step)
    requires Enabled(s, e)
    ensures var t := Next(s, e);
      || InHand(s.consumer) + TakenBy(s, e) == WrittenBy(s, e) + InHand(t.consumer)
      || (s.consumer.Playing? && e.Play? && !e.started && s.consumer.needsStart && t.consumer == Exited
          && TakenBy(s, e) == [] && WrittenBy(s, e) == [])
  {
  }

  /** What has been taken is written to the device in the same order, the frame in hand excepted. Only a
      device that cannot be started loses the frame it was to be started for; the thread then ends. */
  lemma {:induction false} TakenIsWritten(s: State, es: seq<Step>)
    requires Possible(s, es)
    ensures var t := Run(s, es);
      var taken := InHand(s.consumer) + Taken(s, es);
      || taken == Written(s, es) + InHand(t.consumer)
      || (t.consumer == Exited && Written(s, es) < taken && |taken| == |Written(s, es)| + 1)
    decreases |es|
  {
    hide Next, TakenBy, WrittenBy, InHand;
    if es == [] {
      assert InHand(s.consumer) + [] == [] + InHand(s.consumer);
      return;
    }
    var e, rest := es[0], es[1..];
    var u := Next(s, e);
    StepWrites(s, e);
    if InHand(s.consumer) + TakenBy(s, e) == WrittenBy(s, e) + InHand(u.consumer) {
      TakenIsWritten(u, rest);
      Seqs.Associate(InHand(s.consumer), TakenBy(s, e), Taken(u, rest));
      Seqs.Associate(WrittenBy(s, e), InHand(u.consumer), Taken(u, rest));
      Seqs.Associate(WrittenBy(s, e), Written(u, rest), InHand(Run(u, rest).consumer));
    } else {
      NothingAfterExit(u, rest);
      OneInHand(s.consumer);
    }
  }

  lemma OneInHand(c: Consumer)
    ensures c.Playing? ==> |InHand(c)| == 1
  {
  }

  /** The device is running whenever a frame is written to it, or is about to be started. */
  ghost predicate DeviceInv(s: State) {
    && (s.consumer.Playing? ==> s.playing || s.consumer.needsStart)
    && (!s.playing && s.buffersPlayed > 0 && !Done(s.consumer) ==> s.consumer.Playing?)
    && (s.consumer.Undecided? && s.consumer.needsStop ==> s.buffersPlayed == 0)
  }

  lemma {:induction false} DeviceRuns(s: State, es: seq<Step>)
    requires Possible(s, es) && DeviceInv(s)
    ensures DeviceInv(Run(s, es))
    decreases |es|
  {
    if es != [] {
      assert DeviceInv(Next(s, es[0]));
      hide Next, DeviceInv;
      DeviceRuns(Next(s, es[0]), es[1..]);
    }
  }

  /** No frame is written to a device that is not running, in any interleaving. */
  lemma NeverPlaysOnAStoppedDevice(es: seq<Step>, started: bool)
    requires Possible(Started(), es)
    requires Enabled(Run(Started(), es), Play(started)) && WrittenBy(Run(Started(), es), Play(started)) != []
    ensures Next(Run(Started(), es), Play(started)).playing
    ensures Run(Started(), es).playing || started
  {
    DeviceRuns(Started(), es);
  }

  /** The playback thread ends only once closing has begun or the device could not be started. */
  lemma {:induction false} EndsOnlyForACause(s: State, es: seq<Step>)
    requires Possible(s, es) && !Done(s.consumer) && s.threadRunning
    requires ClearRunning !in es && Play(false) !in es
    ensures !Done(Run(s, es).consumer) && Run(s, es).threadRunning
    decreases |es|
  {
    if es != [] {
      var e := es[0];
      assert e in es && e != ClearRunning && e != Play(false);
      assert !Done(Next(s, e).consumer) && Next(s, e).threadRunning;
      hide Next, Done;
      EndsOnlyForACause(Next(s, e), es[1..]);
    }
  }

  /** A thread that found nothing to take sleeps until a frame is pushed or closing sets the event. */
  lemma {:induction false} SleepsUntilWoken(s: State, es: seq<Step>)
    requires s.consumer == Locking && TakenBy(s, Lock) == [] && Possible(s, [Lock] + es)
    requires forall e :: e in es ==> !e.Push? && !e.SetEvent?
    ensures !Run(s, [Lock] + es).event
  {
    assert ([Lock] + es)[1..] == es;
    StaysAsleep(Next(s, Lock), es);
  }

  lemma {:induction false} StaysAsleep(s: State, es: seq<Step>)
    requires !s.event && Possible(s, es)
    requires forall e :: e in es ==> !e.Push? && !e.SetEvent?
    ensures !Run(s, es).event
    decreases |es|
  {
    if es != [] {
      assert es[0] in es;
      hide Next;
      OthersNeverSet(s, es[0]);
      StaysAsleep(Next(s, es[0]), es[1..]);
    }
  }

  lemma OthersNeverSet(s: State, e: Step)
    requires Enabled(s, e) && !e.Push? && !e.SetEvent? && !s.event
    ensures !Next(s, e).event
  {
  }
}
