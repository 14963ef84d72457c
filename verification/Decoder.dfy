/** The order in which the decoder node of stream_ffmpeg_decoder.cpp hands out frames, and its precise
    seek. The codec and the source of packets are inputs: lists of the answers they give. Timestamps
    are 64-bit signed numbers that the C++ compares as unsigned ones. */
module Decoder {
  import opened Media
  import Seqs

  const INVALID_PTS: nat := 0xFFFF_FFFF_FFFF_FFFF
  const MAX_FRAMES_TO_SKIP := 30

  function Unsigned(pts: int): nat {
    pts % 0x1_0000_0000_0000_0000
  }

  /** What the codec says when asked for a frame. `Spoilt` is a frame that cannot be exported. */
  datatype Answer = Output(pts: int) | Spoilt(pts: int) | Starved | Broken

  /** What reading a packet from the source, and submitting it, comes to. */
  datatype Packet =
    | Submitted
    | Refused
    | Foreign(pts: int)
    | ReadError
    | EndOfFile(flushed: bool)

  datatype Feed = Feed(answers: seq<Answer>, packets: seq<Packet>)

  /** `own` frames were decoded here; the others belong to another medium and pass through. */
  datatype Frame = Frame(own: bool, pts: int)

  /** `Blocked` means that the list of answers ended before the call did. */
  datatype Outcome = Returned(frame: Frame) | Nothing | Failed | Blocked

  datatype State = State(
    video: bool,
    seekingTo: int,
    backward: bool,
    prevSeek: Option<int>,
    next: Option<int>,
    first: Option<int>,
    firstServed: bool,
    lastOutput: nat,
    processed: nat,
    skipped: nat,
    eof: bool,
    error: bool)

  function Created(video: bool): State {
    State(video, -1, false, None, None, None, false, 0, 0, 0, false, false)
  }

  predicate IsSeeking(s: State) {
    Unsigned(s.seekingTo) != INVALID_PTS
  }

  predicate IsLate(s: State, pts: int) {
    s.lastOutput > Unsigned(pts) && s.processed > 0
  }

  function Keep(s: State, pts: int): State {
    s.(lastOutput := Unsigned(pts), processed := s.processed + 1)
  }

  function Idle(s: State): State {
    s.(prevSeek := None, seekingTo := -1)
  }

  function Skip(s: State): (State, Outcome) {
    (s.(skipped := s.skipped + 1), if s.skipped + 1 > MAX_FRAMES_TO_SKIP then Failed else Nothing)
  }

  /** What to do with a kept output; `None` means that the codec is asked again. */
  function Place(s: State, pts: int): (State, Option<int>) {
    if !IsSeeking(s) then (s, Some(pts))
    else if Unsigned(pts) < Unsigned(s.seekingTo) then (s.(prevSeek := Some(pts)), None)
    else if Unsigned(pts) == Unsigned(s.seekingTo) || s.prevSeek.None? || !s.backward then (Idle(s), Some(pts))
    else (Idle(s.(next := Some(pts))), s.prevSeek)
  }

  function Take(s: State, answer: Answer): (State, Option<Outcome>) {
    match answer
    case Starved => (s, Some(Nothing))
    case Broken => (s, Some(Failed))
    case Spoilt(pts) =>
      if IsLate(s, pts) then var (t, outcome) := Skip(s); (t, Some(outcome))
      else (Keep(s, pts), Some(Failed))
    case Output(pts) =>
      if IsLate(s, pts) then var (t, outcome) := Skip(s); (t, Some(outcome))
      else
        var (t, frame) := Place(Keep(s, pts), pts);
        (t, if frame.None? then None else Some(Returned(Frame(true, frame.value))))
  }

  /** Asks the codec until a frame may be returned or it has none. */
  function Receive(s: State, answers: seq<Answer>): (r: (State, Outcome, seq<Answer>))
    ensures |r.2| <= |answers|
    ensures r.1 != Blocked ==> |r.2| < |answers|
    decreases |answers|
  {
    if answers == [] then (s, Blocked, answers)
    else
      var (t, outcome) := Take(s, answers[0]);
      if outcome.None? then Receive(t, answers[1..]) else (t, outcome.value, answers[1..])
  }

  function Submit(s: State, packet: Packet): (State, Outcome) {
    match packet
    case Submitted => (s, Nothing)
    case Foreign(pts) => (s, Returned(Frame(false, pts)))
    case Refused => (s, Failed)
    case ReadError => (s, Failed)
    case EndOfFile(flushed) => (s.(eof := true), if flushed then Nothing else Failed)
  }

  /** One turn of the reading loop. */
  function Turn(s: State, feed: Feed): (r: (State, Outcome, Feed))
    ensures |r.2.answers| <= |feed.answers|
    ensures r.1 == Nothing ==> |r.2.answers| < |feed.answers|
  {
    if !s.firstServed && s.first.Some? then
      (s.(first := None, firstServed := true), Returned(Frame(true, s.first.value)), feed)
    else if s.next.Some? then
      (s.(next := None), Returned(Frame(true, s.next.value)), feed)
    else
      var (t, outcome, answers) := Receive(s, feed.answers);
      if outcome != Nothing || s.eof then (t, outcome, Feed(answers, feed.packets))
      else if feed.packets == [] then (t, Blocked, Feed(answers, []))
      else
        var (u, submitted) := Submit(t, feed.packets[0]);
        (u, submitted, Feed(answers, feed.packets[1..]))
  }

  function Fail(s: State): State {
    s.(error := s.error || !s.eof)
  }

  /** One call for a frame. */
  function Read(s: State, feed: Feed): (r: (State, Outcome, Feed))
    ensures |r.2.answers| <= |feed.answers|
    decreases |feed.answers|
  {
    if s.error then (s, Nothing, feed)
    else
      var (t, outcome, left) := Turn(s, feed);
      match outcome
      case Nothing => Read(t, left)
      case Failed => (Fail(t), Failed, left)
      case Returned(_) => (t, outcome, left)
      case Blocked => (t, outcome, left)
  }

  /** Seeking, once the source has sought. */
  function Seek(s: State, offset: int, backward: bool, precise: bool): State {
    State(s.video,
          if s.video && precise then offset else s.seekingTo,
          if s.video && precise then backward else s.backward,
          None, None, None, false, s.lastOutput, 0, s.skipped, false, s.error)
  }

  lemma PlacingKeeps(s: State, pts: int)
    ensures var (t, frame) := Place(s, pts);
            && t.eof == s.eof && t.error == s.error && t.first == s.first && t.firstServed == s.firstServed
            && (frame.None? ==> t.next == s.next)
  {
    hide Unsigned;
  }

  lemma TakingKeeps(s: State, answer: Answer)
    ensures var (t, outcome) := Take(s, answer);
            && t.eof == s.eof && t.error == s.error && t.first == s.first && t.firstServed == s.firstServed
            && (outcome.None? ==> t.next == s.next)
            && outcome != Some(Blocked)
  {
    hide Unsigned, Place, IsLate;
    if answer.Output? {
      PlacingKeeps(Keep(s, answer.pts), answer.pts);
    }
  }

  lemma {:induction false} ReceivingKeeps(s: State, answers: seq<Answer>)
    ensures var (t, outcome, rest) := Receive(s, answers);
            && t.eof == s.eof && t.error == s.error && t.first == s.first && t.firstServed == s.firstServed
            && (outcome.Blocked? ==> t.next == s.next)
    decreases |answers|
  {
    hide Take;
    if answers != [] {
      TakingKeeps(s, answers[0]);
      var (t, outcome) := Take(s, answers[0]);
      if outcome.None? {
        ReceivingKeeps(t, answers[1..]);
      }
    }
  }

  class Stream {
    const isVideo: bool
    var seekingTo: int
    var seekBackward: bool
    var prevSeekFrame: Option<int>
    var nextFrameToReturn: Option<int>
    var firstFrame: Option<int>
    var firstFrameServed: bool
    var lastOutputPts: nat
    var framesProcessed: nat
    var framesSkipped: nat
    var eof: bool
    var errorOccurred: bool

    ghost function View(): State
      reads this
    {
      State(isVideo, seekingTo, seekBackward, prevSeekFrame, nextFrameToReturn, firstFrame, firstFrameServed,
            lastOutputPts, framesProcessed, framesSkipped, eof, errorOccurred)
    }

    constructor (video: bool)
      ensures View() == Created(video)
    {
      isVideo := video;
      seekingTo, seekBackward := -1, false;
      prevSeekFrame, nextFrameToReturn, firstFrame, firstFrameServed := None, None, None, false;
      lastOutputPts, framesProcessed, framesSkipped := 0, 0, 0;
      eof, errorOccurred := false, false;
    }

    method SeekTo(offset: int, backward: bool, precise: bool, sourceSought: bool)
      modifies this
      ensures View() == if sourceSought then Seek(old(View()), offset, backward, precise) else old(View())
    {
      if sourceSought {
        eof := false;
        firstFrame, prevSeekFrame, nextFrameToReturn := None, None, None;
        firstFrameServed := false;
        framesProcessed := 0;
        if isVideo && precise {
          seekingTo := offset;
          seekBackward := backward;
        }
      }
    }

    /** The code between two requests to the codec. */
    method TakeAnswer(answer: Answer) returns (outcome: Outcome, tryAgain: bool)
      modifies this
      ensures (View(), if tryAgain then None else Some(outcome)) == Take(old(View()), answer)
    {
      outcome, tryAgain := Nothing, false;
      if answer.Starved? {
        return;
      }
      if answer.Broken? {
        return Failed, false;
      }
      if lastOutputPts > Unsigned(answer.pts) && framesProcessed > 0 {
        framesSkipped := framesSkipped + 1;
        return if framesSkipped > MAX_FRAMES_TO_SKIP then Failed else Nothing, false;
      }
      lastOutputPts := Unsigned(answer.pts);
      framesProcessed := framesProcessed + 1;
      if answer.Spoilt? {
        return Failed, false;
      }
      var frameOut := answer.pts;
      if Unsigned(seekingTo) != INVALID_PTS {
        if lastOutputPts < Unsigned(seekingTo) {
          prevSeekFrame := Some(frameOut);
          return Nothing, true;
        } else if Unsigned(seekingTo) == lastOutputPts || prevSeekFrame.None? || !seekBackward {
          prevSeekFrame := None;
        } else {
          nextFrameToReturn := Some(frameOut);
          frameOut := prevSeekFrame.value;
          prevSeekFrame := None;
        }
        seekingTo := -1;
      }
      outcome := Returned(Frame(true, frameOut));
    }

    method ReceiveFrame(feed: seq<Answer>) returns (outcome: Outcome, rest: seq<Answer>)
      modifies this
      ensures (View(), outcome, rest) == Receive(old(View()), feed)
    {
      hide Take;
      rest := feed;
      while rest != []
        invariant Receive(View(), rest) == Receive(old(View()), feed)
        decreases |rest|
      {
        var answer := rest[0];
        rest := rest[1..];
        var tryAgain;
        outcome, tryAgain := TakeAnswer(answer);
        if !tryAgain {
          return;
        }
      }
      outcome := Blocked;
    }

    method SubmitPacket(packet: Packet) returns (outcome: Outcome)
      modifies this`eof
      ensures (View(), outcome) == Submit(old(View()), packet)
    {
      match packet {
        case Submitted => outcome := Nothing;
        case Foreign(pts) => outcome := Returned(Frame(false, pts));
        case Refused => outcome := Failed;
        case ReadError => outcome := Failed;
        case EndOfFile(flushed) =>
          eof := true;
          outcome := if flushed then Nothing else Failed;
      }
    }

    /** The body of the loop below. */
    method TryOnce(feed: Feed) returns (outcome: Outcome, rest: Feed)
      modifies this
      ensures (View(), outcome, rest) == Turn(old(View()), feed)
    {
      hide Receive, Submit;
      rest := feed;
      if !firstFrameServed && firstFrame.Some? {
        outcome := Returned(Frame(true, firstFrame.value));
        firstFrame, firstFrameServed := None, true;
        return;
      }
      if nextFrameToReturn.Some? {
        outcome := Returned(Frame(true, nextFrameToReturn.value));
        nextFrameToReturn := None;
        return;
      }
      ghost var before := View();
      var answers;
      outcome, answers := ReceiveFrame(feed.answers);
      ReceivingKeeps(before, feed.answers);
      rest := Feed(answers, feed.packets);
      if outcome == Nothing && !eof {
        if feed.packets == [] {
          outcome := Blocked;
        } else {
          rest := Feed(answers, feed.packets[1..]);
          outcome := SubmitPacket(feed.packets[0]);
        }
      }
    }

    method ReadFrame(feed: Feed) returns (outcome: Outcome, rest: Feed)
      modifies this
      ensures (View(), outcome, rest) == Read(old(View()), feed)
    {
      hide Turn;
      rest := feed;
      while !errorOccurred
        invariant Read(View(), rest) == Read(old(View()), feed)
        decreases |rest.answers|
      {
        outcome, rest := TryOnce(rest);
        if outcome.Returned? || outcome.Blocked? {
          return;
        }
        if outcome.Failed? {
          if !eof {
            errorOccurred := true;
          }
          return;
        }
      }
      outcome := Nothing;
    }
  }

  // ----- What a run of reads returns -----

  /** The outputs a decoder keeps: those not below the last one kept. */
  function Kept(floor: Option<nat>, answers: seq<Answer>): seq<int>
    decreases |answers|
  {
    if answers == [] then []
    else if !answers[0].Output? && !answers[0].Spoilt? then Kept(floor, answers[1..])
    else if floor.Some? && floor.value > Unsigned(answers[0].pts) then Kept(floor, answers[1..])
    else if answers[0].Spoilt? then Kept(Some(Unsigned(answers[0].pts)), answers[1..])
    else [answers[0].pts] + Kept(Some(Unsigned(answers[0].pts)), answers[1..])
  }

  /** The least index at which `kept` has reached `target`; its length if it never does. */
  function FirstFrom(target: nat, kept: seq<int>): (k: nat)
    ensures k <= |kept|
    ensures forall i :: 0 <= i < k ==> Unsigned(kept[i]) < target
    ensures k < |kept| ==> Unsigned(kept[k]) >= target
  {
    if kept == [] || Unsigned(kept[0]) >= target then 0 else 1 + FirstFrom(target, kept[1..])
  }

  /** Where a precise seek lands among the outputs kept since. */
  function Landing(target: nat, backward: bool, kept: seq<int>): (k: nat)
    ensures k <= |kept|
  {
    var k := FirstFrom(target, kept);
    if k < |kept| && backward && k > 0 && Unsigned(kept[k]) != target then k - 1 else k
  }

  function OwnPts(frames: seq<Frame>): seq<int> {
    if frames == [] then []
    else if frames[0].own then [frames[0].pts] + OwnPts(frames[1..])
    else OwnPts(frames[1..])
  }

  function Count(o: Option<int>): nat {
    if o.Some? then 1 else 0
  }

  function Work(s: State, feed: Feed): nat {
    2 * |feed.answers| + Count(s.next) + (if s.firstServed then 0 else Count(s.first))
  }

  lemma TurningIsProgress(s: State, feed: Feed)
    ensures var (t, outcome, left) := Turn(s, feed);
            && Work(t, left) <= Work(s, feed)
            && (outcome.Returned? ==> Work(t, left) < Work(s, feed))
  {
    hide Receive;
    ReceivingKeeps(s, feed.answers);
  }

  lemma {:induction false} ReadingIsProgress(s: State, feed: Feed)
    ensures Read(s, feed).1.Returned? ==> Work(Read(s, feed).0, Read(s, feed).2) < Work(s, feed)
    decreases |feed.answers|
  {
    hide Turn;
    if !s.error {
      TurningIsProgress(s, feed);
      var (t, outcome, left) := Turn(s, feed);
      if outcome.Nothing? {
        ReadingIsProgress(t, left);
      }
    }
  }

  /** Reads until a call brings no frame. */
  function Drain(s: State, feed: Feed): (r: (seq<Frame>, State, Feed))
    ensures |r.2.answers| <= |feed.answers|
    decreases Work(s, feed)
  {
    var (t, outcome, left) := Read(s, feed);
    if outcome.Returned? then
      ReadingIsProgress(s, feed);
      var (frames, end, last) := Drain(t, left);
      ([outcome.frame] + frames, end, last)
    else ([], t, left)
  }

  // ----- Every output is accounted for -----

  function Consumed<T>(all: seq<T>, rest: seq<T>): seq<T>
    requires |rest| <= |all|
  {
    all[..|all| - |rest|]
  }

  function Pending(s: State): seq<int> {
    (if !s.firstServed && s.first.Some? then [s.first.value] else [])
    + (if s.next.Some? then [s.next.value] else [])
  }

  /** `FirstFrom` and `Landing` in one pass, as the decoder goes. */
  function Land(target: nat, backward: bool, prev: Option<int>, kept: seq<int>): seq<int>
    decreases |kept|
  {
    if kept == [] then []
    else if Unsigned(kept[0]) < target then Land(target, backward, Some(kept[0]), kept[1..])
    else if Unsigned(kept[0]) == target || prev.None? || !backward then kept
    else [prev.value] + kept
  }

  function Sought(s: State, kept: seq<int>): seq<int> {
    if IsSeeking(s) then Land(Unsigned(s.seekingTo), s.backward, s.prevSeek, kept) else kept
  }

  function Coming(s: State, answers: seq<Answer>): seq<int> {
    Sought(s, Kept(if s.processed > 0 then Some(s.lastOutput) else None, answers))
  }

  /** The frames of its own that a decoder is yet to return, if the codec goes on with `answers`. */
  function Owed(s: State, answers: seq<Answer>): seq<int> {
    Pending(s) + Coming(s, answers)
  }

  function Paid(outcome: Outcome): seq<int> {
    if outcome.Returned? && outcome.frame.own then [outcome.frame.pts] else []
  }

  lemma IdleIsNotSeeking(s: State)
    ensures !IsSeeking(Idle(s))
  {
  }

  lemma PlacingPays(s: State, pts: int, more: seq<int>)
    requires Pending(s) == []
    ensures var (t, frame) := Place(s, pts);
            && t.processed == s.processed && t.lastOutput == s.lastOutput
            && (frame.None? ==> t.next.None?)
            && Sought(s, [pts] + more)
               == (if frame.Some? then [frame.value] else []) + (Pending(t) + Sought(t, more))
  {
    hide Unsigned;
    assert ([pts] + more)[1..] == more && ([pts] + more)[0] == pts;
    IdleIsNotSeeking(s);
    IdleIsNotSeeking(s.(next := Some(pts)));
    var (t, frame) := Place(s, pts);
    Seqs.EmptyConcat(Sought(t, more));
    if t.next.Some? {
      assert Pending(t) == [pts];
    } else {
      assert Pending(t) == [];
    }
  }

  lemma SkippingPays(s: State, answer: Answer, more: seq<Answer>)
    requires (answer.Output? || answer.Spoilt?) && IsLate(s, answer.pts)
    ensures Owed(s, [answer] + more) == Owed(Take(s, answer).0, more)
  {
    hide Land, Unsigned;
    assert ([answer] + more)[1..] == more;
  }

  lemma SilencePays(s: State, answer: Answer, more: seq<Answer>)
    requires answer.Starved? || answer.Broken? || (answer.Spoilt? && !IsLate(s, answer.pts))
    ensures Owed(s, [answer] + more) == Owed(Take(s, answer).0, more)
  {
    hide Land, Unsigned;
    assert ([answer] + more)[1..] == more;
  }

  lemma TakingPays(s: State, answer: Answer, more: seq<Answer>)
    requires Pending(s) == []
    ensures var (t, outcome) := Take(s, answer);
            Owed(s, [answer] + more) == (if outcome.None? then [] else Paid(outcome.value)) + Owed(t, more)
  {
    hide Land, Place, Unsigned, Sought;
    if (answer.Output? || answer.Spoilt?) && IsLate(s, answer.pts) {
      SkippingPays(s, answer, more);
    } else if answer.Output? {
      assert ([answer] + more)[1..] == more;
      var kept := Kept(Some(Unsigned(answer.pts)), more);
      var t := Keep(s, answer.pts);
      PlacingPays(t, answer.pts, kept);
      SoughtIgnoresCounts(s, t, [answer.pts] + kept);
      Seqs.EmptyConcat(Coming(s, [answer] + more));
      assert Owed(s, [answer] + more) == Sought(t, [answer.pts] + kept);
      assert Coming(Place(t, answer.pts).0, more) == Sought(Place(t, answer.pts).0, kept);
    } else {
      SilencePays(s, answer, more);
    }
  }

  lemma SoughtIgnoresCounts(s: State, t: State, kept: seq<int>)
    requires s.seekingTo == t.seekingTo && s.backward == t.backward && s.prevSeek == t.prevSeek
    ensures Sought(s, kept) == Sought(t, kept)
  {
  }

  lemma {:induction false} ReceivingPays(s: State, answers: seq<Answer>, more: seq<Answer>)
    requires Pending(s) == []
    ensures var (t, outcome, rest) := Receive(s, answers);
            && answers == Consumed(answers, rest) + rest
            && Owed(s, Consumed(answers, rest) + more) == Paid(outcome) + Owed(t, more)
    decreases |answers|
  {
    hide Take, Owed;
    var (t, outcome, rest) := Receive(s, answers);
    if answers == [] {
      assert Consumed(answers, rest) + more == more;
    } else {
      var tail := answers[1..];
      TakingKeeps(s, answers[0]);
      assert Consumed(answers, rest) + more == [answers[0]] + (Consumed(tail, rest) + more);
      TakingPays(s, answers[0], Consumed(tail, rest) + more);
      var (u, taken) := Take(s, answers[0]);
      if taken.None? {
        ReceivingPays(u, tail, more);
      } else {
        assert rest == tail;
        assert Consumed(tail, rest) + more == more;
      }
    }
  }

  lemma TurningPays(s: State, feed: Feed, more: seq<Answer>)
    ensures var (t, outcome, left) := Turn(s, feed);
            && feed.answers == Consumed(feed.answers, left.answers) + left.answers
            && Owed(s, Consumed(feed.answers, left.answers) + more) == Paid(outcome) + Owed(t, more)
            && t.error == s.error
            && (!outcome.Returned? ==> Pending(t) == [])
  {
    hide Receive, Land, Kept;
    var (t, outcome, left) := Turn(s, feed);
    if Pending(s) == [] {
      ReceivingPays(s, feed.answers, more);
      ReceivingKeeps(s, feed.answers);
      ReceivingLeavesNothing(s, feed.answers);
      SubmittingPays(Receive(s, feed.answers).0, more);
    } else {
      assert Consumed(feed.answers, left.answers) == [];
      Seqs.EmptyConcat(more);
      Seqs.Associate(Paid(outcome), Pending(t), Coming(s, more));
      assert Pending(s) == Paid(outcome) + Pending(t);
    }
  }

  lemma SubmittingPays(s: State, more: seq<Answer>)
    ensures forall packet :: Submit(s, packet).0 == s || Submit(s, packet).0 == s.(eof := true)
    ensures Owed(s.(eof := true), more) == Owed(s, more) && Pending(s.(eof := true)) == Pending(s)
  {
  }

  lemma {:induction false} ReceivingLeavesNothing(s: State, answers: seq<Answer>)
    requires Pending(s) == []
    ensures var (t, outcome, rest) := Receive(s, answers);
            !outcome.Returned? ==> Pending(t) == []
    decreases |answers|
  {
    hide Unsigned;
    if answers != [] {
      var (t, outcome) := Take(s, answers[0]);
      if outcome.None? {
        ReceivingLeavesNothing(t, answers[1..]);
      }
    }
  }

  lemma ConsumedInTwo<T>(all: seq<T>, middle: seq<T>, rest: seq<T>)
    requires |rest| <= |middle| <= |all|
    requires all == Consumed(all, middle) + middle && middle == Consumed(middle, rest) + rest
    ensures Consumed(all, rest) == Consumed(all, middle) + Consumed(middle, rest)
    ensures all == Consumed(all, rest) + rest
  {
  }

  lemma {:induction false} ReadingPays(s: State, feed: Feed, more: seq<Answer>)
    ensures var (t, outcome, left) := Read(s, feed);
            && feed.answers == Consumed(feed.answers, left.answers) + left.answers
            && Owed(s, Consumed(feed.answers, left.answers) + more) == Paid(outcome) + Owed(t, more)
            && (!outcome.Returned? && !s.error ==> Pending(t) == [])
            && (outcome.Returned? ==> !t.error)
            && (s.error ==> t == s && !outcome.Returned?)
    decreases |feed.answers|
  {
    hide Turn, Coming;
    var (t, outcome, left) := Read(s, feed);
    if s.error {
      assert Consumed(feed.answers, left.answers) + more == more;
    } else {
      var (u, first, middle) := Turn(s, feed);
      if first.Nothing? {
        ReadingPays(u, middle, more);
        TurningPays(s, feed, Consumed(middle.answers, left.answers) + more);
        ConsumedInTwo(feed.answers, middle.answers, left.answers);
        Seqs.Associate(Consumed(feed.answers, middle.answers), Consumed(middle.answers, left.answers), more);
      } else {
        TurningPays(s, feed, more);
        FailingPays(u, more);
      }
    }
  }

  lemma FailingPays(s: State, more: seq<Answer>)
    ensures Owed(Fail(s), more) == Owed(s, more) && Pending(Fail(s)) == Pending(s)
  {
  }

  lemma {:induction false} DrainingPays(s: State, feed: Feed, more: seq<Answer>)
    requires Pending(s) == [] || !s.error
    ensures var (frames, end, left) := Drain(s, feed);
            && feed.answers == Consumed(feed.answers, left.answers) + left.answers
            && Owed(s, Consumed(feed.answers, left.answers) + more) == OwnPts(frames) + Owed(end, more)
            && Pending(end) == []
    decreases Work(s, feed)
  {
    hide Read, Owed;
    var (frames, end, left) := Drain(s, feed);
    var (t, outcome, middle) := Read(s, feed);
    if outcome.Returned? {
      ReadingIsProgress(s, feed);
      ReadingPays(s, feed, Consumed(middle.answers, left.answers) + more);
      DrainingPays(t, middle, more);
      ConsumedInTwo(feed.answers, middle.answers, left.answers);
      Seqs.Associate(Consumed(feed.answers, middle.answers), Consumed(middle.answers, left.answers), more);
      assert frames[1..] == Drain(t, middle).0;
      Seqs.Associate(Paid(outcome), OwnPts(frames[1..]), Owed(end, more));
    } else {
      ReadingPays(s, feed, more);
    }
  }

  // ----- Seeking -----

  lemma LandingMovesOn(target: nat, backward: bool, early: int, kept: seq<int>)
    requires kept != [] && Unsigned(early) < target && Unsigned(kept[0]) < target
    ensures ([early] + kept)[Landing(target, backward, [early] + kept)..] == kept[Landing(target, backward, kept)..]
  {
    hide Unsigned;
    var all := [early] + kept;
    assert all[1..] == kept && all[0] == early;
    assert FirstFrom(target, all) == FirstFrom(target, kept) + 1;
    assert FirstFrom(target, kept) > 0;
    var k := Landing(target, backward, kept);
    assert Landing(target, backward, all) == k + 1;
    assert all[k+1..] == kept[k..];
  }

  /** Going output by output is the same as searching the outputs kept. */
  lemma {:induction false} LandIsLanding(target: nat, backward: bool, prev: Option<int>, kept: seq<int>)
    requires prev.Some? ==> Unsigned(prev.value) < target
    ensures var all := if prev.Some? then [prev.value] + kept else kept;
            Land(target, backward, prev, kept) == all[Landing(target, backward, all)..]
    decreases |kept|
  {
    hide Unsigned;
    if kept != [] && Unsigned(kept[0]) < target {
      LandIsLanding(target, backward, Some(kept[0]), kept[1..]);
      assert [kept[0]] + kept[1..] == kept;
      if prev.Some? {
        LandingMovesOn(target, backward, prev.value, kept);
      }
    } else if prev.Some? {
      var all := [prev.value] + kept;
      assert all[1..] == kept && all[0] == prev.value;
      assert FirstFrom(target, all) == 1;
    }
  }

  /** The frames of its own medium that reading on returns. */
  function Played(s: State, feed: Feed): seq<int> {
    OwnPts(Drain(s, feed).0)
  }

  /** The outputs that reading on keeps, counting from a decoder that has kept none yet. */
  function Decoded(s: State, feed: Feed): seq<int> {
    Kept(None, Consumed(feed.answers, Drain(s, feed).2.answers))
  }

  lemma {:induction false} FreshSeekPays(s: State, offset: int, backward: bool, precise: bool, feed: Feed)
    ensures var t := Seek(s, offset, backward, precise);
            Played(t, feed) == if IsSeeking(t) then Land(Unsigned(t.seekingTo), t.backward, None, Decoded(t, feed))
                               else Decoded(t, feed)
  {
    hide Drain, Unsigned, Land, Kept;
    var t := Seek(s, offset, backward, precise);
    DrainingPays(t, feed, []);
    var answers := Consumed(feed.answers, Drain(t, feed).2.answers);
    Seqs.EmptyConcat(answers);
    NothingIsOwedAtTheEnd(Drain(t, feed).1);
    Seqs.EmptyConcat(Played(t, feed));
    Seqs.EmptyConcat(Coming(t, answers));
    assert Pending(t) == [];
  }

  lemma NothingIsOwedAtTheEnd(s: State)
    requires Pending(s) == []
    ensures Owed(s, []) == []
  {
  }

  /** After a precise seek the frames returned are the outputs kept from then on, without gap or
      repeat, from the landing on. */
  lemma PreciseSeek(s: State, offset: int, backward: bool, feed: Feed)
    requires s.video && Unsigned(offset) != INVALID_PTS
    ensures var t := Seek(s, offset, backward, true);
            Played(t, feed) == Decoded(t, feed)[Landing(Unsigned(offset), backward, Decoded(t, feed))..]
  {
    hide Drain, Unsigned, Land, FirstFrom;
    var t := Seek(s, offset, backward, true);
    FreshSeekPays(s, offset, backward, true, feed);
    LandIsLanding(Unsigned(offset), backward, None, Decoded(t, feed));
  }

  /** A seek that is not precise leaves an unfinished precise seek standing: frames before its target
      are still dropped. All outputs are returned, whatever they are, if and only if there is none. */
  lemma RoughSeek(s: State, offset: int, backward: bool)
    ensures var t := Seek(s, offset, backward, false);
            (forall feed :: Played(t, feed) == Decoded(t, feed))
            <==> !IsSeeking(s) || Unsigned(s.seekingTo) == 0 || s.error
  {
    hide Drain, Unsigned, Land, FirstFrom;
    var t := Seek(s, offset, backward, false);
    if !IsSeeking(s) || Unsigned(s.seekingTo) == 0 {
      forall feed ensures Played(t, feed) == Decoded(t, feed) {
        FreshSeekPays(s, offset, backward, false, feed);
        LandIsLanding(Unsigned(t.seekingTo), t.backward, None, Decoded(t, feed));
        LandsAtOnce(Unsigned(t.seekingTo), Decoded(t, feed));
      }
    } else if s.error {
      forall feed ensures Played(t, feed) == Decoded(t, feed) {
        FailedDecoderIsSilent(t, feed);
      }
    } else {
      StaleTargetDropsFrames(t);
    }
  }

  lemma LandsAtOnce(target: nat, kept: seq<int>)
    ensures target == 0 ==> FirstFrom(target, kept) == 0
  {
  }

  lemma FailedDecoderIsSilent(s: State, feed: Feed)
    requires s.error
    ensures Played(s, feed) == [] && Decoded(s, feed) == []
  {
  }

  lemma StaleTargetDropsFrames(s: State)
    requires IsSeeking(s) && Unsigned(s.seekingTo) > 0 && !s.error && s.processed == 0 && Pending(s) == []
    ensures var feed := Feed([Output(0)], []); Played(s, feed) == [] && Decoded(s, feed) == [0]
  {
    var feed := Feed([Output(0)], []);
    assert Unsigned(0) == 0;
    var t := Keep(s, 0).(prevSeek := Some(0));
    assert Take(s, Output(0)) == (t, None);
    assert Receive(t, []) == (t, Blocked, []);
    assert feed.answers[1..] == [];
    assert Receive(s, feed.answers) == (t, Blocked, []);
    assert Turn(s, feed) == (t, Blocked, Feed([], []));
    assert Consumed(feed.answers, []) == [Output(0)];
    assert [Output(0)][1..] == [];
    assert Kept(Some(0), []) == [];
  }

  /** On outputs in order, all are kept. */
  lemma {:induction false} InOrderAllAreKept(floor: Option<nat>, answers: seq<Answer>)
    requires forall a :: a in answers ==> a.Output? || a.Starved?
    requires forall i, j :: 0 <= i < j < |answers| && answers[i].Output? && answers[j].Output? ==>
      Unsigned(answers[i].pts) <= Unsigned(answers[j].pts)
    requires floor.Some? ==> forall a :: a in answers && a.Output? ==> floor.value <= Unsigned(a.pts)
    ensures Kept(floor, answers) == Outputs(answers)
    decreases |answers|
  {
    hide Unsigned;
    if answers != [] {
      InOrderAllAreKept(if answers[0].Output? then Some(Unsigned(answers[0].pts)) else floor, answers[1..]);
    }
  }

  function Outputs(answers: seq<Answer>): seq<int> {
    if answers == [] then []
    else if answers[0].Output? then [answers[0].pts] + Outputs(answers[1..])
    else Outputs(answers[1..])
  }

  predicate InOrder(floor: nat, kept: seq<int>) {
    && (forall i :: 0 <= i < |kept| ==> floor <= Unsigned(kept[i]))
    && (forall i, j :: 0 <= i < j < |kept| ==> Unsigned(kept[i]) <= Unsigned(kept[j]))
  }

  lemma PrependInOrder(floor: nat, pts: int, later: seq<int>)
    requires floor <= Unsigned(pts) && InOrder(Unsigned(pts), later)
    ensures InOrder(floor, [pts] + later) && InOrder(floor, later)
  {
    hide Unsigned;
    var kept := [pts] + later;
    assert kept[0] == pts;
    assert forall i :: 0 < i < |kept| ==> kept[i] == later[i-1];
  }

  /** Whatever the outputs, what is kept never goes back. */
  lemma {:induction false} KeptIsInOrder(floor: Option<nat>, answers: seq<Answer>)
    ensures InOrder(if floor.Some? then floor.value else 0, Kept(floor, answers))
    decreases |answers|
  {
    hide Unsigned, InOrder;
    if answers == [] {
      NothingIsInOrder(if floor.Some? then floor.value else 0);
    } else {
      var tail := answers[1..];
      if !answers[0].Output? && !answers[0].Spoilt? {
        KeptIsInOrder(floor, tail);
      } else if floor.Some? && floor.value > Unsigned(answers[0].pts) {
        KeptIsInOrder(floor, tail);
      } else {
        KeptIsInOrder(Some(Unsigned(answers[0].pts)), tail);
        PrependInOrder(if floor.Some? then floor.value else 0, answers[0].pts,
                       Kept(Some(Unsigned(answers[0].pts)), tail));
      }
    }
  }

  lemma NothingIsInOrder(floor: nat)
    ensures InOrder(floor, [])
  {
  }
}
