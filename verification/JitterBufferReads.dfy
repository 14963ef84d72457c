/** What each poll of the jitter buffer serves and when, how the encoder delay is settled, and what a
    read takes from upstream: in terms of the node's fields and of what came in. */
module JitterBufferReads {
  import opened Media
  import opened JitterBuffer
  import opened JitterBufferOrder
  import opened JitterBufferGaps
  import Replay = JitterBufferReplay

  // ----- What a poll serves -----

  /** The head is video and further after the last video served than the target rate allows, while the
      prebuffer is being served. */
  ghost predicate IsGap(s: State, head: Frame) {
    && head.media == Video && s.lastServed != 0 && head.pts < s.prebufferEnd
    && (|| (s.targetFps > 0 && s.targetFps * (head.pts - s.lastServed) > 1000)
        || (s.targetFps < 0 && -s.targetFps * (s.lastServed - head.pts + 1) <= 1000))
  }

  lemma GapIff(s: State)
    requires s.queue != []
    ensures NeedsClone(s) <==> IsGap(s, s.queue[0])
  {
    var d := s.queue[0].pts - s.lastServed;
    if s.targetFps != 0 {
      Replay.TruncatedInterval(s.targetFps);
      Replay.OverInterval(d, if s.targetFps > 0 then s.targetFps else -s.targetFps);
    }
    hide TruncDiv;
  }

  /** A poll of an unpaused node serves exactly when its delay is settled and the queue spans more than
      the buffer time. It serves the head, or a clone of it exactly when there is a gap to fill. */
  lemma PollServesExactly(s: State)
    requires Playable(s) && !s.paused
    ensures var (t, o) := Step(s, Poll);
      && (o != [] <==> s.delayKnown && s.queue != [] && s.queue[|s.queue|-1].pts - s.queue[0].pts > s.bufferTime)
      && (o != [] ==>
            o == [if IsGap(s, s.queue[0])
                  then CloneOf(s.queue[0], s.lastServed + TruncDiv(1000, s.targetFps))
                  else Original(s.queue[0])])
  {
    hide PollBuffer, NeedsClone, IsGap, TruncDiv;
    if s.queue == [] {
      EmptyPoll(s);
    } else {
      PollCases(s);
      GapIff(s);
    }
  }

  /** The prebuffer ends with the frame that is last in the queue when video begins to be served; from
      then on its end stays where it is. Nothing served of a medium other than video begins it. */
  lemma PrebufferEndsWithTheQueue(s: State)
    requires Playable(s) && !s.paused && s.delayKnown && s.queue != []
    ensures var (t, o) := Step(s, Poll);
      && t.prebufferEnd == (if s.lastServed == 0 then s.queue[|s.queue|-1].pts else s.prebufferEnd)
      && t.lastServed == (if o != [] && s.queue[0].media == Video then o[0].Pts() else s.lastServed)
  {
    hide NeedsClone, DropOld, ShouldSave, TruncDiv;
    ServeShape(MarkStart(s));
  }

  // ----- The encoder delay -----

  /** The first answer upstream gives that is not "not yet known". */
  function FirstAnswer(es: seq<Event>): Delay {
    if es == [] then NotYetKnown
    else if es[0].Arrival? && es[0].delay != NotYetKnown then es[0].delay
    else FirstAnswer(es[1..])
  }

  lemma StepKeepsDelay(s: State, e: Event)
    requires Playable(s)
    ensures var (t, o) := Step(s, e);
      && (s.delayKnown ==> t.delayKnown && t.bufferTime == s.bufferTime)
      && (!s.delayKnown && !e.Arrival? ==> !t.delayKnown && t.bufferTime == s.bufferTime && o == [])
  {
    hide Insert, DropOld;
    if e.Poll? && s.delayKnown && s.queue != [] {
      ServeShape(MarkStart(Splice(s)));
    }
    hide Serve;
  }

  lemma {:induction false} SettledDelayStays(s: State, es: seq<Event>)
    requires Playable(s) && s.delayKnown
    ensures Run(s, es).0.delayKnown && Run(s, es).0.bufferTime == s.bufferTime
    decreases |es|
  {
    hide Step;
    if es != [] {
      StepKeepsDelay(s, es[0]);
      SettledDelayStays(Step(s, es[0]).0, es[1..]);
    }
  }

  /** Over a whole run the first definite answer decides: a known delay raises the buffer time to it and
      nothing else changes it. Until then nothing is served. */
  lemma {:induction false} FirstAnswerDecides(s: State, es: seq<Event>)
    requires Playable(s) && !s.delayKnown
    ensures var (t, out) := Run(s, es);
      var a := FirstAnswer(es);
      && (t.delayKnown <==> a != NotYetKnown)
      && (a.Known? ==> t.bufferTime >= a.delay && t.bufferTime >= s.bufferTime)
      && (t.bufferTime != s.bufferTime ==> a.Known? && a.delay == t.bufferTime)
      && (a == NotYetKnown ==> out == [])
    decreases |es|
  {
    hide Step, Insert;
    if es == [] {
      return;
    }
    var e := es[0];
    var (s1, o1) := Step(s, e);
    StepKeepsDelay(s, e);
    if e.Arrival? {
      ArrivalAnswers(s, e);
    }
    if s1.delayKnown {
      SettledDelayStays(s1, es[1..]);
    } else {
      FirstAnswerDecides(s1, es[1..]);
    }
  }

  lemma ArrivalAnswers(s: State, e: Event)
    requires Playable(s) && !s.delayKnown && e.Arrival?
    ensures var (t, o) := Step(s, e);
      && o == [] && (t.delayKnown <==> e.delay != NotYetKnown)
      && (e.delay.Known? ==> t.bufferTime >= e.delay.delay && t.bufferTime >= s.bufferTime)
      && (t.bufferTime != s.bufferTime ==> e.delay.Known? && e.delay.delay == t.bufferTime)
  {
    hide Insert;
  }

  // ----- Reads -----

  predicate AllArrived(up: seq<Upstream>) {
    forall u | u in up :: u.Arrived?
  }

  lemma ReadGoesOn(s: State, f: Frame, d: Delay)
    requires Playable(s)
    ensures Playable(Attempt(s).0) && Playable(Arrive(Attempt(s).0, f, d))
  {
    hide PollBuffer, Insert;
    assert Playable(Step(s, Poll).0);
  }

  /** A read uses up a prefix of what upstream gives. All of it is frames, but for the end that a
      failing read reports with its own code; running out of input reads as -1. */
  lemma {:induction false} ReadUsesAPrefix(s: State, up: seq<Upstream>)
    requires Playable(s)
    ensures var (t, r, n) := Read(s, up);
      && n <= |up|
      && (r.Got? ==> AllArrived(up[..n]))
      && (r.Stopped? ==> || (n == |up| && AllArrived(up) && r.code == -1)
                         || (n > 0 && AllArrived(up[..n-1]) && up[n-1] == Ended(r.code)))
    decreases |up|
  {
    hide Attempt, Arrive;
    var (p, out) := Attempt(s);
    if out.None? && up != [] && up[0].Arrived? {
      ReadGoesOn(s, up[0].frame, up[0].delay);
      ReadUsesAPrefix(Arrive(p, up[0].frame, up[0].delay), up[1..]);
      var n := Read(s, up).2;
      assert up[..n] == [up[0]] + up[1..][..n-1];
      assert up == [up[0]] + up[1..];
      if n > 1 {
        assert up[..n-1] == [up[0]] + up[1..][..n-2];
        assert up[n-1] == up[1..][n-2];
      }
    }
  }

  /** It takes in no more than it has to: with one frame less it would not have served anything. */
  lemma {:induction false} ReadTakesNoMoreThanItMust(s: State, up: seq<Upstream>, k: nat)
    requires Playable(s) && Read(s, up).1.Got? && k < Read(s, up).2 <= |up|
    ensures Read(s, up[..k]).1 == Stopped(-1)
    decreases |up|
  {
    hide Attempt, Arrive;
    if k > 0 {
      var p := Attempt(s).0;
      ReadGoesOn(s, up[0].frame, up[0].delay);
      ReadTakesNoMoreThanItMust(Arrive(p, up[0].frame, up[0].delay), up[1..], k - 1);
      assert up[..k][1..] == up[1..][..k-1];
    }
  }

  /** A read that serves nothing has left nothing that could be served: the node is paused, its delay is
      unsettled, or its queue spans no more than the buffer time. */
  lemma {:induction false} FailedReadLeavesNothingDue(s: State, up: seq<Upstream>)
    requires Playable(s) && Read(s, up).1.Stopped?
    ensures var t := Read(s, up).0;
      || t.paused || !t.delayKnown || t.queue == []
      || t.queue[|t.queue|-1].pts - t.queue[0].pts <= t.bufferTime
    decreases |up|
  {
    hide Arrive, DropOld, NeedsClone, ShouldSave;
    var (p, out) := Attempt(s);
    if up != [] && up[0].Arrived? {
      ReadGoesOn(s, up[0].frame, up[0].delay);
      FailedReadLeavesNothingDue(Arrive(p, up[0].frame, up[0].delay), up[1..]);
    }
  }
}
