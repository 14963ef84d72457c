/** What reading a decoder takes in and why it stops: the frames of other media pass through it in
    order, packets are read one at a time and only when the codec is out of frames, and reading goes on
    until the input ends or something in it is fatal. Said in terms of the answers and packets alone. */
module DecoderFlow {
  import opened Media
  import opened Decoder
  import Seqs

  /** The timestamps of the frames of other media among packets, in order. */
  function ForeignPts(packets: seq<Packet>): seq<int> {
    if packets == [] then []
    else (if packets[0].Foreign? then [packets[0].pts] else []) + ForeignPts(packets[1..])
  }

  /** The timestamps of the frames returned that were not decoded here. */
  function PassedPts(frames: seq<Frame>): seq<int> {
    if frames == [] then []
    else (if frames[0].own then [] else [frames[0].pts]) + PassedPts(frames[1..])
  }

  function Pictures(answers: seq<Answer>): nat {
    if answers == [] then 0
    else (if answers[0].Output? || answers[0].Spoilt? then 1 else 0) + Pictures(answers[1..])
  }

  function Pauses(answers: seq<Answer>): nat {
    if answers == [] then 0 else (if answers[0] == Starved then 1 else 0) + Pauses(answers[1..])
  }

  predicate IsFatal(packet: Packet) {
    packet == Refused || packet == ReadError || packet == EndOfFile(false)
  }

  /** The answers can be gone through: nothing breaks, and what cannot be exported is late anyway. */
  predicate Runs(floor: Option<nat>, answers: seq<Answer>)
    decreases |answers|
  {
    answers == [] ||
    match answers[0]
    case Starved => Runs(floor, answers[1..])
    case Broken => false
    case Spoilt(pts) => floor.Some? && floor.value > Unsigned(pts) && Runs(floor, answers[1..])
    case Output(pts) => Runs(Raised(floor, pts), answers[1..])
  }

  function Raised(floor: Option<nat>, pts: int): Option<nat> {
    if floor.Some? && floor.value > Unsigned(pts) then floor else Some(Unsigned(pts))
  }

  function FloorAfter(floor: Option<nat>, answers: seq<Answer>): Option<nat>
    decreases |answers|
  {
    if answers == [] then floor
    else FloorAfter(if answers[0].Output? then Raised(floor, answers[0].pts) else floor, answers[1..])
  }

  /** The last timestamp kept; none counts before anything has been kept since a seek. */
  function FloorOf(s: State): Option<nat> {
    if s.processed > 0 then Some(s.lastOutput) else None
  }

  /** Answers after which the codec is given up: it breaks, a frame that is not late cannot be exported,
      or a late one is one too many. */
  predicate IsFatalAnswer(floor: Option<nat>, answer: Answer, skipped: nat) {
    match answer
    case Broken => true
    case Starved => false
    case Spoilt(pts) => floor.None? || floor.value <= Unsigned(pts) || skipped > 30
    case Output(pts) => floor.Some? && floor.value > Unsigned(pts) && skipped > 30
  }

  /** All answers but the last can be gone through, and the last is fatal. */
  predicate Fails(floor: Option<nat>, answers: seq<Answer>, skipped: nat) {
    && answers != [] && Runs(floor, answers[..|answers|-1])
    && IsFatalAnswer(FloorAfter(floor, answers[..|answers|-1]), answers[|answers|-1], skipped)
  }

  // ----- One request to the codec -----

  lemma {:induction false} ReceivingFlows(s: State, answers: seq<Answer>) returns (used: seq<Answer>)
    ensures var (t, outcome, rest) := Receive(s, answers);
      && answers == used + rest
      && t.eof == s.eof && t.error == s.error
      && t.processed + t.skipped == s.processed + s.skipped + Pictures(used)
      && s.skipped <= t.skipped <= s.skipped + 1
      && (outcome.Blocked? ==> rest == [])
      && (outcome.Returned? ==> outcome.frame.own)
      && (outcome.Failed? ==> Fails(FloorOf(s), used, t.skipped))
      && (!outcome.Failed? ==> Runs(FloorOf(s), used) && FloorOf(t) == FloorAfter(FloorOf(s), used))
      && (!outcome.Failed? ==> Pauses(used) + t.skipped == s.skipped + if outcome.Nothing? then 1 else 0)
      && (outcome.Failed? ==> s.skipped <= Pauses(used) + t.skipped <= s.skipped + 1)
      && (!outcome.Failed? && t.skipped > s.skipped ==> t.skipped <= 30)
    decreases |answers|
  {
    hide Take;
    if answers == [] {
      used := [];
      return;
    }
    var first, tail := answers[0], answers[1..];
    TakingKeeps(s, first);
    TakingFlows(s, first);
    var (u, taken) := Take(s, first);
    if taken.None? {
      var later := ReceivingFlows(u, tail);
      used := [first] + later;
      assert used[1..] == later && used[0] == first;
      if later != [] {
        assert used[..|used|-1][1..] == later[..|later|-1];
      }
    } else {
      used := [first];
      assert used[1..] == [] && used[..0] == [];
    }
  }

  lemma TakingFlows(s: State, answer: Answer)
    ensures var (t, outcome) := Take(s, answer);
      && t.processed + t.skipped == s.processed + s.skipped + Pictures([answer])
      && s.skipped <= t.skipped <= s.skipped + 1
      && (outcome.None? ==> answer.Output? && t.skipped == s.skipped)
      && (outcome.None? || !outcome.value.Failed? ==>
            && Runs(FloorOf(s), [answer]) && FloorOf(t) == FloorAfter(FloorOf(s), [answer])
            && Pauses([answer]) + t.skipped == s.skipped + (if outcome == Some(Nothing) then 1 else 0)
            && (t.skipped > s.skipped ==> t.skipped <= 30))
      && (outcome == Some(Failed) ==> IsFatalAnswer(FloorOf(s), answer, t.skipped) && Pauses([answer]) == 0)
      && (outcome.Some? && outcome.value.Returned? ==> outcome.value.frame.own)
  {
    hide Unsigned, Place;
    assert [answer][1..] == [];
    if answer.Output? {
      PlacingKeepsCounts(Keep(s, answer.pts), answer.pts);
    }
  }

  lemma PlacingKeepsCounts(s: State, pts: int)
    ensures var t := Place(s, pts).0;
      t.processed == s.processed && t.skipped == s.skipped && t.lastOutput == s.lastOutput
  {
    hide Unsigned;
  }

  // ----- Everything taken in -----

  /** What a decoder has taken in, `used` from the codec and `taken` from the source, on the way from one
      state to another, handing out `frames`. */
  ghost predicate Flows(s: State, used: seq<Answer>, taken: seq<Packet>, frames: seq<Frame>, t: State) {
    && PassedPts(frames) == ForeignPts(taken)
    && t.processed + t.skipped == s.processed + s.skipped + Pictures(used)
    && s.skipped <= t.skipped
    && (s.eof ==> taken == [])
    && (t.eof <==> s.eof || exists p :: p in taken && p.EndOfFile?)
    && (forall i :: 0 <= i < |taken| - 1 ==> !taken[i].EndOfFile?)
  }

  ghost predicate NothingFatal(s: State, used: seq<Answer>, taken: seq<Packet>, t: State) {
    && Runs(FloorOf(s), used)
    && (forall p :: p in taken ==> !IsFatal(p))
    && (t.skipped > s.skipped ==> t.skipped <= 30)
  }

  /** One packet for each time the codec had no frame, `owing` packets excepted. */
  ghost predicate Fed(s: State, used: seq<Answer>, taken: seq<Packet>, t: State, owing: nat) {
    !t.eof ==> Pauses(used) + (t.skipped - s.skipped) == |taken| + owing
  }

  ghost predicate GoesOn(s: State, used: seq<Answer>, taken: seq<Packet>, t: State) {
    NothingFatal(s, used, taken, t) && FloorOf(t) == FloorAfter(FloorOf(s), used) && Fed(s, used, taken, t, 0)
  }

  /** Why a decoder stops reading. */
  datatype Cause = OutOfAnswers | OutOfPackets | BadAnswer | BadPacket

  ghost predicate Stops(s: State, used: seq<Answer>, taken: seq<Packet>, t: State, left: Feed, cause: Cause) {
    match cause
    case OutOfAnswers => left.answers == [] && NothingFatal(s, used, taken, t) && Fed(s, used, taken, t, 0)
    case OutOfPackets =>
      left.packets == [] && !t.eof && NothingFatal(s, used, taken, t) && Fed(s, used, taken, t, 1)
    case BadAnswer =>
      && Fails(FloorOf(s), used, t.skipped) && (forall p :: p in taken ==> !IsFatal(p))
      && (Fed(s, used, taken, t, 0) || Fed(s, used, taken, t, 1))
    case BadPacket =>
      && taken != [] && IsFatal(taken[|taken|-1])
      && NothingFatal(s, used, taken[..|taken|-1], t) && Fed(s, used, taken, t, 0)
  }

  function FramesOf(outcome: Outcome): seq<Frame> {
    if outcome.Returned? then [outcome.frame] else []
  }

  lemma SubmittingFlows(s: State, packet: Packet)
    requires !s.eof
    ensures var (t, outcome) := Submit(s, packet);
      && t == s.(eof := packet.EndOfFile?)
      && PassedPts(FramesOf(outcome)) == ForeignPts([packet])
      && outcome != Blocked && (outcome == Failed <==> IsFatal(packet))
  {
    assert [packet][1..] == [];
    var outcome := Submit(s, packet).1;
    if outcome.Returned? {
      assert [outcome.frame][1..] == [];
    }
  }

  lemma NoneIsNone()
    ensures PassedPts([]) == [] && ForeignPts([]) == [] && Pictures([]) == 0 && Pauses([]) == 0
    ensures forall floor :: Runs(floor, []) && FloorAfter(floor, []) == floor
  {
  }

  lemma OwnPassesNothing(frame: Frame)
    requires frame.own
    ensures PassedPts([frame]) == []
  {
    assert [frame][1..] == [];
  }

  /** The codec was asked, and no packet was read. */
  lemma NoPacketFlows(s: State, used: seq<Answer>, frames: seq<Frame>, t: State)
    requires PassedPts(frames) == [] && t.eof == s.eof && s.skipped <= t.skipped
    requires t.processed + t.skipped == s.processed + s.skipped + Pictures(used)
    ensures Flows(s, used, [], frames, t)
    ensures Runs(FloorOf(s), used) && (t.skipped > s.skipped ==> t.skipped <= 30) ==> NothingFatal(s, used, [], t)
    ensures forall n: nat :: t.eof || Pauses(used) + t.skipped == s.skipped + n ==> Fed(s, used, [], t, n)
  {
    hide Unsigned, Runs, FloorAfter, Fails, IsFatal, PassedPts, Pictures, Pauses;
  }

  /** The codec had nothing, and a packet was read. */
  lemma OnePacketFlows(s: State, used: seq<Answer>, m: State, packet: Packet)
    requires m.eof == s.eof == false && s.skipped <= m.skipped
    requires m.processed + m.skipped == s.processed + s.skipped + Pictures(used)
    requires Runs(FloorOf(s), used) && FloorOf(m) == FloorAfter(FloorOf(s), used)
    requires (m.skipped > s.skipped ==> m.skipped <= 30) && Pauses(used) + m.skipped == s.skipped + 1
    ensures var (t, outcome) := Submit(m, packet);
      && t.error == m.error && Flows(s, used, [packet], FramesOf(outcome), t) && outcome != Blocked
      && (outcome == Failed ==> forall left :: Stops(s, used, [packet], t, left, BadPacket))
      && (outcome != Failed ==> GoesOn(s, used, [packet], t))
  {
    hide Submit, Unsigned, Runs, FloorAfter, Fails, IsFatal, PassedPts, ForeignPts, Pictures, Pauses;
    SubmittingFlows(m, packet);
    assert packet in [packet];
    assert [packet][..0] == [];
  }

  lemma TurningFlows(s: State, feed: Feed) returns (used: seq<Answer>, taken: seq<Packet>, cause: Cause)
    ensures var (t, outcome, left) := Turn(s, feed);
      && feed.answers == used + left.answers && feed.packets == taken + left.packets
      && t.error == s.error && Flows(s, used, taken, FramesOf(outcome), t)
      && (outcome.Returned? || outcome.Nothing? ==> GoesOn(s, used, taken, t))
      && (outcome.Failed? || outcome.Blocked? ==> Stops(s, used, taken, t, left, cause))
      && (outcome.Failed? ==> cause.BadAnswer? || cause.BadPacket?)
      && (outcome.Blocked? ==> cause.OutOfAnswers? || cause.OutOfPackets?)
  {
    hide Receive, Submit, Unsigned, Runs, FloorAfter, Fails, IsFatal, PassedPts, ForeignPts, Pictures, Pauses;
    hide Flows, NothingFatal, Fed;
    NoneIsNone();
    used, taken, cause := [], [], BadAnswer;
    Seqs.EmptyConcat(feed.answers);
    Seqs.EmptyConcat(feed.packets);
    if Pending(s) != [] {
      var (t, outcome, left) := Turn(s, feed);
      OwnPassesNothing(outcome.frame);
      NoPacketFlows(s, [], FramesOf(outcome), t);
    } else {
      used := ReceivingFlows(s, feed.answers);
      var (m, outcome, answers) := Receive(s, feed.answers);
      if outcome.Nothing? && !s.eof && feed.packets != [] {
        taken, cause := [feed.packets[0]], BadPacket;
        OnePacketFlows(s, used, m, feed.packets[0]);
      } else {
        if outcome.Returned? { OwnPassesNothing(outcome.frame); }
        NoPacketFlows(s, used, FramesOf(outcome), m);
        cause := if outcome.Failed? then BadAnswer else if outcome.Blocked? then OutOfAnswers else OutOfPackets;
        assert Turn(s, feed).0 == m;
      }
    }
  }

  // ----- Putting it together -----

  lemma {:induction false} PauseCountsAdd(a: seq<Answer>, b: seq<Answer>)
    ensures Pauses(a + b) == Pauses(a) + Pauses(b) && Pictures(a + b) == Pictures(a) + Pictures(b)
  {
    if a == [] {
      Seqs.EmptyConcat(b);
    } else {
      Seqs.ConcatTail(a, b);
      PauseCountsAdd(a[1..], b);
    }
  }

  lemma {:induction false} ForeignPtsAdd(a: seq<Packet>, b: seq<Packet>)
    ensures ForeignPts(a + b) == ForeignPts(a) + ForeignPts(b)
  {
    if a == [] {
      Seqs.EmptyConcat(b);
      Seqs.EmptyConcat(ForeignPts(b));
    } else {
      Seqs.ConcatTail(a, b);
      ForeignPtsAdd(a[1..], b);
      Seqs.Associate(if a[0].Foreign? then [a[0].pts] else [], ForeignPts(a[1..]), ForeignPts(b));
    }
  }

  lemma {:induction false} PassedPtsAdd(a: seq<Frame>, b: seq<Frame>)
    ensures PassedPts(a + b) == PassedPts(a) + PassedPts(b)
  {
    if a == [] {
      Seqs.EmptyConcat(b);
      Seqs.EmptyConcat(PassedPts(b));
    } else {
      Seqs.ConcatTail(a, b);
      PassedPtsAdd(a[1..], b);
      Seqs.Associate(if a[0].own then [] else [a[0].pts], PassedPts(a[1..]), PassedPts(b));
    }
  }

  lemma {:induction false} RunsAdd(floor: Option<nat>, a: seq<Answer>, b: seq<Answer>)
    requires Runs(floor, a)
    ensures Runs(floor, a + b) <==> Runs(FloorAfter(floor, a), b)
    ensures FloorAfter(floor, a + b) == FloorAfter(FloorAfter(floor, a), b)
    decreases |a|
  {
    hide Unsigned, Raised;
    if a == [] {
      Seqs.EmptyConcat(b);
    } else {
      Seqs.ConcatTail(a, b);
      RunsAdd(if a[0].Output? then Raised(floor, a[0].pts) else floor, a[1..], b);
      LateIsNoRaise(floor, a[0]);
    }
  }

  lemma LateIsNoRaise(floor: Option<nat>, answer: Answer)
    ensures forall tail :: Runs(floor, [answer] + tail) ==>
      (answer.Output? && Runs(Raised(floor, answer.pts), tail)) || (!answer.Output? && Runs(floor, tail))
  {
    hide Unsigned;
    assert forall tail :: ([answer] + tail)[1..] == tail;
  }

  lemma FlowsAdd(s: State, a: seq<Answer>, p: seq<Packet>, f: seq<Frame>, m: State,
                 b: seq<Answer>, q: seq<Packet>, g: seq<Frame>, t: State)
    requires Flows(s, a, p, f, m) && Flows(m, b, q, g, t)
    ensures Flows(s, a + b, p + q, f + g, t)
  {
    hide PassedPts, ForeignPts, Pictures;
    PauseCountsAdd(a, b);
    ForeignPtsAdd(p, q);
    PassedPtsAdd(f, g);
    assert m.eof ==> p + q == p;
  }

  lemma GoingOnAdds(s: State, a: seq<Answer>, p: seq<Packet>, m: State, b: seq<Answer>, q: seq<Packet>, t: State)
    requires GoesOn(s, a, p, m) && (m.eof ==> t.eof) && s.skipped <= m.skipped <= t.skipped
    ensures NothingFatal(m, b, q, t) ==> NothingFatal(s, a + b, p + q, t)
    ensures forall n :: Fed(m, b, q, t, n) ==> Fed(s, a + b, p + q, t, n)
    ensures FloorAfter(FloorOf(s), a + b) == FloorAfter(FloorOf(m), b)
    ensures Fails(FloorOf(m), b, t.skipped) ==> Fails(FloorOf(s), a + b, t.skipped)
  {
    hide Runs, FloorAfter, Pauses, IsFatal, FloorOf, IsFatalAnswer;
    PauseCountsAdd(a, b);
    RunsAdd(FloorOf(s), a, b);
    if b != [] {
      var front := b[..|b|-1];
      assert (a + b)[..|a + b|-1] == a + front;
      RunsAdd(FloorOf(s), a, front);
    }
  }

  lemma StoppingAdds(s: State, a: seq<Answer>, p: seq<Packet>, m: State,
                     b: seq<Answer>, q: seq<Packet>, t: State, left: Feed, cause: Cause)
    requires GoesOn(s, a, p, m) && (m.eof ==> t.eof) && s.skipped <= m.skipped <= t.skipped
    requires Stops(m, b, q, t, left, cause)
    ensures Stops(s, a + b, p + q, t, left, cause)
  {
    hide NothingFatal, Fed, Fails, FloorAfter, FloorOf, IsFatal;
    GoingOnAdds(s, a, p, m, b, q, t);
    if cause.BadPacket? {
      var front := q[..|q|-1];
      GoingOnAdds(s, a, p, m, b, front, t);
      assert (p + q)[..|p + q|-1] == p + front;
    }
    if cause.BadAnswer? {
      NothingFatalIn(s, a, p, m);
    }
  }

  lemma NothingFatalIn(s: State, a: seq<Answer>, p: seq<Packet>, m: State)
    requires NothingFatal(s, a, p, m)
    ensures forall x :: x in p ==> !IsFatal(x)
  {
  }

  lemma {:induction false} ReadingFlows(s: State, feed: Feed)
    returns (used: seq<Answer>, taken: seq<Packet>, cause: Cause)
    requires !s.error
    ensures var (t, outcome, left) := Read(s, feed);
      && feed.answers == used + left.answers && feed.packets == taken + left.packets
      && Flows(s, used, taken, FramesOf(outcome), t)
      && (outcome.Returned? ==> GoesOn(s, used, taken, t) && !t.error)
      && (!outcome.Returned? ==> Stops(s, used, taken, t, left, cause))
      && (!outcome.Returned? ==> (t.error <==> !t.eof && (cause.BadAnswer? || cause.BadPacket?)))
    decreases |feed.answers|
  {
    hide Turn, Flows, GoesOn, Stops;
    used, taken, cause := TurningFlows(s, feed);
    var (m, outcome, middle) := Turn(s, feed);
    if outcome.Nothing? {
      var b, q, why := ReadingFlows(m, middle);
      var (t, last, left) := Read(m, middle);
      FlowIsForward(s, used, taken, FramesOf(outcome), m);
      FlowIsForward(m, b, q, FramesOf(last), t);
      FlowsAdd(s, used, taken, [], m, b, q, FramesOf(last), t);
      Seqs.EmptyConcat(FramesOf(last));
      GoingOnTwice(s, used, taken, m, b, q, t);
      if !last.Returned? { StoppingAdds(s, used, taken, m, b, q, t, left, why); }
      Seqs.Associate(used, b, left.answers);
      Seqs.Associate(taken, q, left.packets);
      used, taken, cause := used + b, taken + q, why;
    } else if outcome.Failed? {
      FailingFlows(s, used, taken, m, middle, cause);
    }
  }

  lemma FlowIsForward(s: State, used: seq<Answer>, taken: seq<Packet>, frames: seq<Frame>, t: State)
    requires Flows(s, used, taken, frames, t)
    ensures s.skipped <= t.skipped && (s.eof ==> t.eof)
  {
  }

  lemma FailingFlows(s: State, used: seq<Answer>, taken: seq<Packet>, t: State, left: Feed, cause: Cause)
    ensures forall frames :: Flows(s, used, taken, frames, t) ==> Flows(s, used, taken, frames, Fail(t))
    ensures Stops(s, used, taken, t, left, cause) ==> Stops(s, used, taken, Fail(t), left, cause)
  {
    hide Runs, FloorAfter, Pauses, PassedPts, ForeignPts, Pictures, Fails;
  }

  lemma GoingOnTwice(s: State, a: seq<Answer>, p: seq<Packet>, m: State, b: seq<Answer>, q: seq<Packet>, t: State)
    requires GoesOn(s, a, p, m) && (m.eof ==> t.eof) && s.skipped <= m.skipped <= t.skipped
    ensures GoesOn(m, b, q, t) ==> GoesOn(s, a + b, p + q, t)
  {
    hide NothingFatal, Fed, FloorAfter, FloorOf;
    GoingOnAdds(s, a, p, m, b, q, t);
  }

  /** Reading on: all that is taken in, what of it passes through, and why reading stops. */
  lemma {:induction false} DrainingFlows(s: State, feed: Feed)
    returns (used: seq<Answer>, taken: seq<Packet>, cause: Cause)
    requires !s.error
    ensures var (frames, end, left) := Drain(s, feed);
      && feed.answers == used + left.answers && feed.packets == taken + left.packets
      && Flows(s, used, taken, frames, end)
      && Stops(s, used, taken, end, left, cause)
      && (end.error <==> !end.eof && (cause.BadAnswer? || cause.BadPacket?))
    decreases Work(s, feed)
  {
    hide Read, Flows, GoesOn, Stops, Work;
    used, taken, cause := ReadingFlows(s, feed);
    var (m, outcome, middle) := Read(s, feed);
    if outcome.Returned? {
      ReadingIsProgress(s, feed);
      var b, q, why := DrainingFlows(m, middle);
      var (frames, t, left) := Drain(m, middle);
      FlowIsForward(s, used, taken, FramesOf(outcome), m);
      FlowIsForward(m, b, q, frames, t);
      FlowsAdd(s, used, taken, FramesOf(outcome), m, b, q, frames, t);
      StoppingAdds(s, used, taken, m, b, q, t, left, why);
      Seqs.Associate(used, b, left.answers);
      Seqs.Associate(taken, q, left.packets);
      used, taken, cause := used + b, taken + q, why;
    }
  }

  // ----- The theorems -----

  /** A 64-bit timestamp as the C++ compares it: negative ones are later than all others. */
  lemma NegativeIsLate(pts: int)
    requires -0x8000_0000_0000_0000 <= pts < 0x8000_0000_0000_0000
    ensures Unsigned(pts) == if pts < 0 then pts + 0x1_0000_0000_0000_0000 else pts
    ensures Unsigned(pts) == INVALID_PTS <==> pts == -1
  {
    hide Unsigned;
    UnsignedIs(pts);
  }

  lemma UnsignedIs(pts: int)
    requires -0x1_0000_0000_0000_0000 <= pts < 0x1_0000_0000_0000_0000
    ensures Unsigned(pts) == if pts < 0 then pts + 0x1_0000_0000_0000_0000 else pts
  {
    if pts < 0 {
      DivIs(pts + 0x1_0000_0000_0000_0000, 0x1_0000_0000_0000_0000, 0, pts + 0x1_0000_0000_0000_0000);
    }
  }

  /** The frames of other media that reading on returns are those among the packets read, in order and
      none missing. */
  lemma OtherMediaPassThrough(s: State, feed: Feed) returns (taken: seq<Packet>)
    ensures var (frames, end, left) := Drain(s, feed);
      feed.packets == taken + left.packets && PassedPts(frames) == ForeignPts(taken)
  {
    if s.error {
      taken := [];
      assert Drain(s, feed).0 == [];
    } else {
      hide Drain, PassedPts, ForeignPts, Stops;
      var used, packets, cause := DrainingFlows(s, feed);
      taken := packets;
    }
  }

  /** After any seek of a decoder that has not failed, reading takes one packet for every time the codec
      has no frame or gives one that is too old, up to the end of the file and never beyond it. */
  lemma SeekingReadsOn(s: State, offset: int, backward: bool, precise: bool, feed: Feed)
    returns (used: seq<Answer>, taken: seq<Packet>)
    requires !s.error
    ensures var (frames, end, left) := Drain(Seek(s, offset, backward, precise), feed);
      && feed.answers == used + left.answers && feed.packets == taken + left.packets
      && (forall i :: 0 <= i < |taken| - 1 ==> !taken[i].EndOfFile?)
      && ((forall p :: p in taken ==> !p.EndOfFile?) ==>
            |taken| <= Pauses(used) + (end.skipped - s.skipped) <= |taken| + 1)
  {
    hide Drain, PassedPts, ForeignPts, Pauses, Runs, FloorAfter;
    var cause;
    used, taken, cause := DrainingFlows(Seek(s, offset, backward, precise), feed);
  }

  /** Reading goes on until the answers or the packets run out, or the last of them is fatal: so nothing
      before is. The decoder has failed exactly if something fatal came before the end of the file. */
  lemma ReadingStopsForACause(s: State, feed: Feed) returns (used: seq<Answer>, taken: seq<Packet>)
    requires !s.error
    ensures var (frames, end, left) := Drain(s, feed);
      && feed.answers == used + left.answers && feed.packets == taken + left.packets
      && (|| (Runs(FloorOf(s), used) && (forall p :: p in taken ==> !IsFatal(p)) && !end.error
              && (end.skipped > s.skipped ==> end.skipped <= 30)
              && (left.answers == [] || (left.packets == [] && !end.eof)))
          || (Fails(FloorOf(s), used, end.skipped) && (forall p :: p in taken ==> !IsFatal(p))
              && (end.error <==> !end.eof))
          || (Runs(FloorOf(s), used) && taken != [] && IsFatal(taken[|taken|-1])
              && (end.skipped > s.skipped ==> end.skipped <= 30)
              && (forall p :: p in taken[..|taken|-1] ==> !IsFatal(p)) && (end.error <==> !end.eof)))
  {
    hide Drain, Flows, Fed, Runs, Fails, FloorAfter;
    var cause;
    used, taken, cause := DrainingFlows(s, feed);
  }
}
