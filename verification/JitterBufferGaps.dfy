/** Gap filling by the jitter buffer: in every run served video stays in order, clones included, and
    gaps stay within one target interval; and for which rates the cloning of one head ends. */
module JitterBufferGaps {
  import opened Media
  import opened Seqs
  import opened JitterBuffer
  import opened JitterBufferOrder

  function Interval(s: State): int
    requires s.targetFps != 0
  {
    TruncDiv(1000, s.targetFps)
  }

  function PtsIfVideo(x: Served): seq<int> {
    if x.frame.media == Video then [x.Pts()] else []
  }

  function VideoPts(out: seq<Served>): seq<int> {
    if out == [] then [] else PtsIfVideo(out[0]) + VideoPts(out[1..])
  }

  predicate Ascending(ps: seq<int>) {
    forall i | 0 < i < |ps| :: ps[i-1] <= ps[i]
  }

  /** `floor` is the pts of the last video frame served: nothing earlier can be served any more. */
  ghost predicate AboveFloor(s: State, max: Option<int>, floor: Option<int>) {
    && (s.lastServed != 0 ==> floor == Some(s.lastServed))
    && (floor.Some? ==> s.delayKnown && max.Some? && floor.value < max.value - s.bufferTime)
    && (floor.Some? ==> forall f | f in s.queue :: f.pts >= floor.value)
  }

  function NextFloor(floor: Option<int>, out: seq<Served>): Option<int> {
    var v := VideoPts(out);
    if v == [] then floor else Some(v[|v|-1])
  }

  /** Everything a poll of an unpaused buffer can do. */
  lemma PollCases(s: State)
    requires Playable(s) && s.queue != [] && !s.paused
    ensures var (t, o) := PollBuffer(s);
      && (o.Some? <==> s.queue[|s.queue|-1].pts - s.queue[0].pts > s.bufferTime)
      && t.bufferTime == s.bufferTime && t.delayKnown == s.delayKnown && !t.paused
      && t.targetFps == s.targetFps && Playable(t)
      && (s.lastServed != 0 ==> t.prebufferEnd == s.prebufferEnd)
      && (o.None? ==> t.queue == s.queue && t.lastServed == s.lastServed)
      && (o.Some? ==> o.value.frame == s.queue[0])
      && (o.Some? ==> t.lastServed == if s.queue[0].media == Video then o.value.Pts() else s.lastServed)
      && (o.Some? && o.value.Original? ==> t.queue == s.queue[1..])
      && (o.Some? && o.value.CloneOf? ==> t == s.(lastServed := o.value.clonePts))
      && (o.Some? ==> (o.value.CloneOf? <==> NeedsClone(s)))
      && (NeedsClone(s) && o.Some? ==> o.value == CloneOf(s.queue[0], s.lastServed + Interval(s)))
  {
  }

  lemma HeadIsLeast(s: State, max: Option<int>)
    requires Inv(s, max) && s.queue != []
    ensures Playable(s) && s.bufferTime >= 0
    ensures max == Some(s.queue[|s.queue|-1].pts)
    ensures forall f | f in s.queue :: s.queue[0].pts <= f.pts
    ensures forall f | f in s.queue[1..] :: f in s.queue
  {
    SortedParts(s.past, s.queue);
  }

  lemma PollKeepsFloor(s: State, max: Option<int>, floor: Option<int>)
    requires Inv(s, max) && AboveFloor(s, max, floor) && !s.paused && s.delayKnown && Playable(s)
    ensures var (t, o) := Step(s, Poll);
      && AboveFloor(t, max, NextFloor(floor, o)) && t.targetFps == s.targetFps
      && |VideoPts(o)| <= 1
      && (VideoPts(o) != [] && floor.Some? && s.targetFps >= 0 ==> VideoPts(o)[0] >= floor.value)
  {
    hide PollBuffer, Inv, NeedsClone;
    if s.queue == [] {
      assert PollBuffer(s) == (s, None) by { EmptyPoll(s); }
      return;
    }
    HeadIsLeast(s, max);
    PollCases(s);
    var (t, o) := Step(s, Poll);
    if o != [] {
      CloneAboveServed(s);
      var head := s.queue[0];
      assert o == [o[0]] && VideoPts(o[1..]) == [];
      assert VideoPts(o) == if head.media == Video then [o[0].Pts()] else [];
      assert head in s.queue;
      assert o[0].Pts() <= head.pts;
    } else {
      assert PollBuffer(s).1.None? && t.queue == s.queue && t.lastServed == s.lastServed;
      assert NextFloor(floor, o) == floor;
    }
  }

  lemma EmptyPoll(s: State)
    requires Playable(s) && s.queue == []
    ensures PollBuffer(s) == (s, None)
  {
  }

  lemma CloneAboveServed(s: State)
    requires s.queue != []
    ensures NeedsClone(s) ==> s.lastServed + Interval(s) < s.queue[0].pts
    ensures NeedsClone(s) ==> s.lastServed != 0 && s.queue[0].media == Video
    ensures NeedsClone(s) && s.targetFps >= 0 ==> Interval(s) >= 0
  {
  }

  lemma ArrivalKeepsFloor(s: State, max: Option<int>, floor: Option<int>, f: Frame, d: Delay)
    requires AboveFloor(s, max, floor)
    requires s.delayKnown && max.Some? ==> f.pts >= max.value - s.bufferTime
    ensures AboveFloor(Arrive(s, f, d), MaxPts(max, f.pts), floor)
  {
    var k := Slot(s.queue, f.pts);
    assert s.queue == s.queue[..k] + s.queue[k..];
    hide Slot;
  }

  lemma StepKeepsFloor(s: State, max: Option<int>, floor: Option<int>, e: Event)
    requires Inv(s, max) && AboveFloor(s, max, floor) && !s.paused && s.targetFps >= 0 && Playable(s)
    requires e.SetPaused? ==> !e.paused
    requires e.Arrival? && s.delayKnown && max.Some? ==> e.frame.pts >= max.value - s.bufferTime
    ensures var (t, o) := Step(s, e);
      && AboveFloor(t, MaxAfter(max, e), NextFloor(floor, o)) && !t.paused && t.targetFps == s.targetFps
      && |VideoPts(o)| <= 1
      && (VideoPts(o) != [] && floor.Some? ==> VideoPts(o)[0] >= floor.value)
  {
    hide PollBuffer, Insert, Inv;
    match e
    case Arrival(f, d) =>
      ArrivalKeepsFloor(s, max, floor, f, d);
    case Poll =>
      if s.delayKnown {
        PollKeepsFloor(s, max, floor);
        if s.queue == [] { EmptyPoll(s); } else { PollCases(s); }
      }
    case SetPaused(p) =>
  }

  /** What a node itself knows of the last video frame served. */
  function FloorOf(s: State): Option<int> {
    if s.lastServed != 0 then Some(s.lastServed) else None
  }

  lemma PausedPollKeepsFloor(s: State, max: Option<int>)
    requires Playable(s) && AboveFloor(s, max, FloorOf(s)) && s.paused && s.queue != []
    ensures var (t, o) := PollBuffer(s);
      o.None? && AboveFloor(t, max, FloorOf(t))
  {
    hide DropOld;
    var m := Splice(s);
    var k := DropOldIsSuffix(m.queue, m.queue[|m.queue|-1].pts, m.bufferTimeWhenPaused);
    assert forall f | f in m.queue[k..] :: f in m.queue;
  }

  lemma UnpausedPollKeepsFloor(s: State, max: Option<int>)
    requires Inv(s, max) && AboveFloor(s, max, FloorOf(s)) && !s.paused && s.delayKnown && s.queue != []
    ensures var t := PollBuffer(s).0;
      AboveFloor(t, max, FloorOf(t))
  {
    hide PollBuffer, Inv, NeedsClone;
    HeadIsLeast(s, max);
    PollCases(s);
    CloneAboveServed(s);
    var o := PollBuffer(s).1;
    assert s.queue[0] in s.queue;
    assert o.Some? ==> o.value.Pts() <= s.queue[0].pts;
  }

  /** Nothing earlier than what was served last can be in the queue: any step, paused or not, and any
      target rate keep it so. */
  lemma StepKeepsOwnFloor(s: State, max: Option<int>, e: Event)
    requires Inv(s, max) && AboveFloor(s, max, FloorOf(s))
    requires e.Arrival? && s.delayKnown && max.Some? ==> e.frame.pts >= max.value - s.bufferTime
    ensures var t := Step(s, e).0;
      AboveFloor(t, MaxAfter(max, e), FloorOf(t))
  {
    hide PollBuffer, Insert, Inv;
    match e
    case Arrival(f, d) =>
      ArrivalKeepsFloor(s, max, FloorOf(s), f, d);
    case Poll =>
      InvIsPlayable(s, max);
      if s.delayKnown {
        if s.queue == [] {
          EmptyPoll(s);
        } else if s.paused {
          PausedPollKeepsFloor(s, max);
        } else {
          UnpausedPollKeepsFloor(s, max);
        }
      }
    case SetPaused(p) =>
  }

  lemma InvIsPlayable(s: State, max: Option<int>)
    requires Inv(s, max)
    ensures Playable(s)
  {
  }

  lemma {:induction false} RunKeepsOwnFloor(s: State, max: Option<int>, es: seq<Event>)
    requires Inv(s, max) && AboveFloor(s, max, FloorOf(s)) && Timely(s, max, es)
    ensures var t := Run(s, es).0;
      AboveFloor(t, MaxOf(max, es), FloorOf(t))
    decreases |es|
  {
    hide Inv, Step, AboveFloor, FloorOf;
    InvIsPlayable(s, max);
    if es != [] {
      StepKeepsInv(s, max, es[0]);
      StepKeepsOwnFloor(s, max, es[0]);
      RunKeepsOwnFloor(Step(s, es[0]).0, MaxAfter(max, es[0]), es[1..]);
    }
  }

  /** Every state a new node can reach, across pauses and replays, has its floor. */
  lemma ReachableStatesHaveAFloor(s: State, es: seq<Event>)
    requires Configured(s) && Timely(s, None, es)
    ensures var t, max := Run(s, es).0, MaxOf(None, es);
      Inv(t, max) && AboveFloor(t, max, FloorOf(t))
  {
    hide Run, Timely;
    RunKeepsInv(s, None, es);
    RunKeepsOwnFloor(s, None, es);
  }

  lemma {:induction false} VideoPtsAppend(a: seq<Served>, b: seq<Served>)
    ensures VideoPts(a + b) == VideoPts(a) + VideoPts(b)
  {
    hide PtsIfVideo;
    if a == [] {
      EmptyConcat(b);
      EmptyConcat(VideoPts(b));
    } else {
      ConcatTail(a, b);
      VideoPtsAppend(a[1..], b);
      Associate(PtsIfVideo(a[0]), VideoPts(a[1..]), VideoPts(b));
    }
  }

  lemma NothingAscends()
    ensures VideoPts([]) == [] && Ascending([])
  {
  }

  lemma AscendingJoin(a: seq<int>, b: seq<int>)
    requires |a| <= 1 && Ascending(b) && (a != [] && b != [] ==> b[0] >= a[0])
    ensures Ascending(a + b) && (a != [] ==> (a + b)[0] == a[0]) && (a == [] ==> a + b == b)
  {
    var c := a + b;
    forall i | 0 < i < |c| ensures c[i-1] <= c[i] {
      if i > |a| {
        assert b[i-1-|a|] <= b[i-|a|];
      }
    }
  }

  /** All video served by an unpaused run, clones included, is in pts order. */
  lemma {:induction false} VideoIsServedInOrder(s: State, max: Option<int>, floor: Option<int>, es: seq<Event>)
    requires Inv(s, max) && AboveFloor(s, max, floor) && !s.paused && s.targetFps >= 0 && Playable(s)
    requires Timely(s, max, es) && Unpaused(es)
    ensures var v := VideoPts(Run(s, es).1);
      && Ascending(v) && (v != [] && floor.Some? ==> v[0] >= floor.value)
    decreases |es|
  {
    hide Inv, Step, AboveFloor, Ascending, VideoPts, MaxAfter;
    if es == [] {
      NothingAscends();
      return;
    }
    var e := es[0];
    assert e in es && (forall x | x in es[1..] :: x in es);
    StepKeepsInv(s, max, e);
    StepKeepsFloor(s, max, floor, e);
    var (s1, o1) := Step(s, e);
    var floor1 := NextFloor(floor, o1);
    VideoIsServedInOrder(s1, MaxAfter(max, e), floor1, es[1..]);
    VideoPtsAppend(o1, Run(s1, es[1..]).1);
    AscendingJoin(VideoPts(o1), VideoPts(Run(s1, es[1..]).1));
  }

  /** From any state a new node can reach, an unpaused run serves video in pts order. */
  lemma ReachableVideoIsInOrder(s: State, before: seq<Event>, es: seq<Event>)
    requires Configured(s) && Timely(s, None, before) && s.targetFps >= 0
    requires Timely(Run(s, before).0, MaxOf(None, before), es) && Unpaused(es) && !Run(s, before).0.paused
    ensures Ascending(VideoPts(Run(Run(s, before).0, es).1))
  {
    hide Run, Timely, Ascending, Inv, AboveFloor;
    var t := Run(s, before).0;
    ReachableStatesHaveAFloor(s, before);
    RunKeepsRate(s, before);
    VideoIsServedInOrder(t, MaxOf(None, before), FloorOf(t), es);
  }

  lemma {:induction false} RunKeepsRate(s: State, es: seq<Event>)
    requires Playable(s)
    ensures Run(s, es).0.targetFps == s.targetFps
    decreases |es|
  {
    hide Step;
    if es != [] {
      StepKeepsRate(s, es[0]);
      RunKeepsRate(Step(s, es[0]).0, es[1..]);
    }
  }

  lemma StepKeepsRate(s: State, e: Event)
    requires Playable(s)
    ensures Step(s, e).0.targetFps == s.targetFps
  {
    hide DropOld, Insert, NeedsClone, ShouldSave;
  }

  /** A clone is always earlier than the frame it copies. */
  lemma CloneIsBelowItsFrame(s: State)
    requires Playable(s)
    ensures var o := PollBuffer(s).1;
      o.Some? && o.value.CloneOf? ==> o.value.clonePts < o.value.frame.pts
  {
    if s.queue != [] && !s.paused {
      PollCases(s);
      hide PollBuffer;
    }
  }

  /** Until the prebuffer is used up, one poll serves video at most one interval after what was served
      last. */
  lemma GapsAreFilled(s: State, max: Option<int>, floor: Option<int>)
    requires Inv(s, max) && AboveFloor(s, max, floor) && !s.paused && s.delayKnown
    requires s.targetFps >= 1 && s.lastServed != 0
    ensures var o := PollBuffer(s).1;
      && (o.Some? && o.value.frame.media == Video && o.value.Pts() < s.prebufferEnd ==>
            floor.Some? && o.value.Pts() - floor.value <= Interval(s))
  {
    hide PollBuffer;
    if s.queue == [] {
      EmptyPoll(s);
    } else {
      PollCases(s);
    }
  }

  /** Consecutive pts, `prev` before the first, are no further apart than `interval` while below `end`. */
  predicate GapsWithin(prev: Option<int>, v: seq<int>, end: int, interval: int) {
    && (v != [] && v[0] < end && prev.Some? ==> v[0] - prev.value <= interval)
    && (forall i | 0 < i < |v| && v[i] < end :: v[i] - v[i-1] <= interval)
  }

  lemma GapsJoin(prev: Option<int>, x: int, rest: seq<int>, end: int, interval: int)
    requires GapsWithin(Some(x), rest, end, interval)
    requires x < end && prev.Some? ==> x - prev.value <= interval
    ensures GapsWithin(prev, [x] + rest, end, interval)
  {
    var v := [x] + rest;
    forall i | 0 < i < |v| && v[i] < end ensures v[i] - v[i-1] <= interval {
      assert v[i] == rest[i-1];
      assert i > 1 ==> v[i-1] == rest[i-2];
    }
  }

  /** One step of an unpaused node: what it serves follows on what was served last. */
  lemma StepFillsGap(s: State, max: Option<int>, e: Event)
    requires Inv(s, max) && AboveFloor(s, max, FloorOf(s)) && Playable(s) && !s.paused && s.targetFps >= 1
    requires e.SetPaused? ==> !e.paused
    ensures var (t, o) := Step(s, e);
      var v := VideoPts(o);
      && |v| <= 1
      && t.lastServed == (if v == [] then s.lastServed else v[0])
      && (s.lastServed != 0 ==> t.prebufferEnd == s.prebufferEnd)
      && (v != [] && s.lastServed != 0 && v[0] < s.prebufferEnd ==> v[0] - s.lastServed <= Interval(s))
  {
    hide PollBuffer, Insert, Inv;
    if e.Poll? && s.delayKnown {
      if s.lastServed != 0 {
        GapsAreFilled(s, max, FloorOf(s));
      }
      if s.queue == [] {
        EmptyPoll(s);
      } else {
        PollCases(s);
        var (t, o) := Step(s, e);
        if o != [] {
          assert o[1..] == [];
          EmptyConcat(PtsIfVideo(o[0]));
          assert VideoPts(o) == PtsIfVideo(o[0]);
        } else {
          assert (t, None) == PollBuffer(s);
        }
      }
    }
  }

  /** From any state an unpaused run fills every gap: whatever video it serves before the end of the
      prebuffer comes at most one target interval after the video served before it. A pts of 0 is left
      out because the node takes it to mean that nothing has been served. */
  lemma {:induction false} RunFillsGaps(s: State, max: Option<int>, es: seq<Event>)
    requires Inv(s, max) && AboveFloor(s, max, FloorOf(s)) && Playable(s) && !s.paused && s.targetFps >= 1
    requires Timely(s, max, es) && Unpaused(es) && 0 !in VideoPts(Run(s, es).1)
    ensures var (t, out) := Run(s, es);
      && GapsWithin(FloorOf(s), VideoPts(out), t.prebufferEnd, Interval(s))
      && (s.lastServed != 0 ==> t.prebufferEnd == s.prebufferEnd)
    decreases |es|
  {
    hide Inv, Step, AboveFloor, VideoPts, GapsWithin, TruncDiv;
    if es == [] {
      NoGaps(s);
      return;
    }
    var e := es[0];
    StepKeepsInv(s, max, e);
    StepKeepsFloor(s, max, FloorOf(s), e);
    StepKeepsOwnFloor(s, max, e);
    StepFillsGap(s, max, e);
    var (s1, o1) := Step(s, e);
    var rest := VideoPts(Run(s1, es[1..]).1);
    VideoPtsAppend(o1, Run(s1, es[1..]).1);
    RunFillsGaps(s1, MaxAfter(max, e), es[1..]);
    if VideoPts(o1) == [] {
      EmptyConcat(rest);
    } else {
      var x := VideoPts(o1)[0];
      assert VideoPts(o1) == [x] && ([x] + rest)[0] == x;
      GapsJoin(FloorOf(s), x, rest, Run(s, es).0.prebufferEnd, Interval(s));
    }
  }

  lemma NoGaps(s: State)
    requires s.targetFps != 0
    ensures VideoPts([]) == [] && GapsWithin(FloorOf(s), [], s.prebufferEnd, Interval(s))
  {
  }

  /** Once video with a positive pts has been served, the bound holds frame by frame with no more to
      ask of the timestamps. */
  lemma ServedGapsAreFilled(s: State, max: Option<int>, es: seq<Event>)
    requires Inv(s, max) && AboveFloor(s, max, Some(s.lastServed)) && !s.paused && Playable(s)
    requires s.targetFps >= 1 && s.lastServed > 0 && Timely(s, max, es) && Unpaused(es)
    ensures var v := VideoPts(Run(s, es).1);
      forall i | 0 <= i < |v| && v[i] < s.prebufferEnd ::
        v[i] - (if i == 0 then s.lastServed else v[i-1]) <= Interval(s)
  {
    hide Inv, Run, Timely, AboveFloor, Ascending, VideoPts, TruncDiv;
    var v := VideoPts(Run(s, es).1);
    VideoIsServedInOrder(s, max, Some(s.lastServed), es);
    AscendingFrom(v);
    RunFillsGaps(s, max, es);
  }

  lemma {:induction false} AscendingFrom(v: seq<int>)
    requires Ascending(v)
    ensures forall x | x in v :: x >= v[0]
  {
    if |v| > 1 {
      var front := v[..|v|-1];
      AscendingFrom(front);
      assert v == front + [v[|v|-1]];
      assert front[|v|-2] in front;
      assert v[|v|-2] <= v[|v|-1];
    }
  }

  /** Positive timestamps all through: the queue, the history and what was served last. */
  ghost predicate Positive(s: State) {
    && s.lastServed >= 0
    && (forall f | f in s.queue :: f.pts > 0)
    && (forall f | f in s.past :: f.pts > 0)
  }

  lemma StepKeepsPositive(s: State, max: Option<int>, e: Event)
    requires Inv(s, max) && Playable(s) && !s.paused && s.targetFps >= 1 && Positive(s)
    requires e.SetPaused? ==> !e.paused
    requires e.Arrival? ==> e.frame.pts > 0
    ensures var (t, o) := Step(s, e);
      Positive(t) && forall x | x in VideoPts(o) :: x > 0
  {
    hide Inv, Insert, PollBuffer;
    match e
    case Arrival(f, d) =>
      InsertMembers(s.queue, f);
    case Poll =>
      if s.delayKnown {
        if s.queue == [] {
          EmptyPoll(s);
        } else {
          ServePositive(s);
        }
      }
    case SetPaused(p) =>
  }

  lemma InsertMembers(q: seq<Frame>, f: Frame)
    ensures forall x | x in Insert(q, f) :: x in q || x == f
  {
    hide Insert;
    InsertKeepsFrames(q, f);
    forall x | x in Insert(q, f) ensures x in q || x == f {
      assert x in multiset(Insert(q, f));
    }
  }

  lemma ServePositive(s: State)
    requires Playable(s) && !s.paused && s.targetFps >= 1 && Positive(s) && s.delayKnown && s.queue != []
    ensures var (t, o) := Step(s, Poll);
      Positive(t) && forall x | x in VideoPts(o) :: x > 0
  {
    hide PollBuffer, NeedsClone, TruncDiv;
    PollCases(s);
    CloneAboveServed(s);
    PastComesFromQueue(s);
    var (t, o) := Step(s, Poll);
    assert s.queue[0] in s.queue;
    if o == [] {
      assert (t, None) == PollBuffer(s);
    } else {
      assert o[1..] == [];
      EmptyConcat(PtsIfVideo(o[0]));
      assert VideoPts(o) == PtsIfVideo(o[0]);
      assert o[0].Pts() > 0;
      assert forall f | f in t.queue :: f in s.queue;
    }
  }

  lemma PastComesFromQueue(s: State)
    requires Playable(s) && !s.paused && s.queue != []
    ensures forall f | f in PollBuffer(s).0.past :: f in s.past || f == s.queue[0]
  {
    hide Serve, DropOld;
    var m := MarkStart(s);
    ServeShape(m);
    var kept := m.past + [m.queue[0]];
    var k := DropOldIsSuffix(kept, m.queue[|m.queue|-1].pts, m.bufferTimeWhenPaused);
    assert Splice(s) == s;
    var t := PollBuffer(s).0;
    assert t.past == m.past || t.past == Kept(m);
    assert Kept(m) == kept[k..];
    assert PollBuffer(s).0 == t;
    forall f | f in t.past ensures f in s.past || f == s.queue[0] {
      if t.past != m.past {
        assert f in kept;
      }
    }
  }

  lemma {:induction false} RunKeepsPositive(s: State, max: Option<int>, es: seq<Event>)
    requires Inv(s, max) && Playable(s) && !s.paused && s.targetFps >= 1 && Positive(s)
    requires AboveFloor(s, max, FloorOf(s)) && Timely(s, max, es) && Unpaused(es)
    requires forall f | f in Arrivals(es) :: f.pts > 0
    ensures 0 !in VideoPts(Run(s, es).1)
    decreases |es|
  {
    hide Inv, Step, AboveFloor, VideoPts, Positive;
    if es == [] {
      NothingAscends();
      return;
    }
    var e := es[0];
    assert e.Arrival? ==> e.frame in Arrivals(es);
    StepKeepsInv(s, max, e);
    StepKeepsFloor(s, max, FloorOf(s), e);
    StepKeepsOwnFloor(s, max, e);
    StepKeepsPositive(s, max, e);
    var (s1, o1) := Step(s, e);
    RunKeepsPositive(s1, MaxAfter(max, e), es[1..]);
    VideoPtsAppend(o1, Run(s1, es[1..]).1);
  }

  /** The whole of an unpaused run of a new node, with positive timestamps: all video it serves before
      the end of its prebuffer is at most one target interval apart. */
  lemma NewNodeFillsGaps(s: State, es: seq<Event>)
    requires Configured(s) && s.targetFps >= 1 && Timely(s, None, es) && Unpaused(es)
    requires forall f | f in Arrivals(es) :: f.pts > 0
    ensures var (t, out) := Run(s, es);
      GapsWithin(None, VideoPts(out), t.prebufferEnd, Interval(s))
  {
    hide Run, Timely, VideoPts, GapsWithin, TruncDiv, Arrivals;
    RunKeepsPositive(s, None, es);
    RunFillsGaps(s, None, es);
  }

  /** Cloning moves towards the head exactly for target rates of 1 to 1000 frames a second. */
  lemma CloningProgressesIff(s: State)
    requires Playable(s) && s.queue != [] && !s.paused && NeedsClone(s)
    requires s.queue[|s.queue|-1].pts - s.queue[0].pts > s.bufferTime
    ensures var t := PollBuffer(s).0;
      t.queue == s.queue && (t.lastServed > s.lastServed <==> 1 <= s.targetFps <= 1000)
  {
    PollCases(s);
    hide PollBuffer;
  }

  /** Polls the buffer n times in a row. */
  function PollTimes(s: State, n: nat): (State, seq<Served>)
    requires Playable(s)
    decreases n
  {
    if n == 0 then (s, []) else
    var (t, o) := Step(s, Poll);
    var (u, rest) := PollTimes(t, n - 1);
    (u, o + rest)
  }

  /** The k clones that fill the gap in front of a frame, one interval apart. */
  function Clones(f: Frame, after: int, interval: int, k: nat): seq<Served>
    decreases k
  {
    if k == 0 then [] else [CloneOf(f, after + interval)] + Clones(f, after + interval, interval, k - 1)
  }

  /** With a sane rate the clones of one head come to an end and the head itself is served. */
  lemma {:induction false} ClonesEndWithTheirHead(s: State) returns (n: nat)
    requires Playable(s) && s.queue != [] && !s.paused && s.delayKnown
    requires s.queue[|s.queue|-1].pts - s.queue[0].pts > s.bufferTime && 1 <= s.targetFps <= 1000
    ensures PollTimes(s, n + 1).1
         == Clones(s.queue[0], s.lastServed, Interval(s), n) + [Original(s.queue[0])]
    decreases if s.queue[0].pts > s.lastServed then s.queue[0].pts - s.lastServed else 0
  {
    hide PollBuffer;
    PollCases(s);
    var head, step := s.queue[0], Interval(s);
    var (t, o) := Step(s, Poll);
    if NeedsClone(s) {
      CloningProgressesIff(s);
      var m := ClonesEndWithTheirHead(t);
      n := m + 1;
      assert o == [CloneOf(head, s.lastServed + step)];
      assert Clones(head, s.lastServed, step, n) == o + Clones(head, t.lastServed, step, m);
    } else {
      n := 0;
      assert PollTimes(t, 0).1 == [];
    }
  }

  /** With a rate beyond 1000 (or below -1000) the same clone is served for ever. */
  lemma {:induction false} TooHighRateNeverReachesTheHead(s: State, n: nat)
    requires Playable(s) && s.queue != [] && !s.paused && s.delayKnown && NeedsClone(s)
    requires s.queue[|s.queue|-1].pts - s.queue[0].pts > s.bufferTime
    requires s.targetFps > 1000 || s.targetFps < -1000
    ensures PollTimes(s, n) == (s, seq(n, i => CloneOf(s.queue[0], s.lastServed)))
  {
    hide PollBuffer;
    PollCases(s);
    if n > 0 {
      assert Interval(s) == 0;
      var (t, o) := Step(s, Poll);
      assert t == s && o == [CloneOf(s.queue[0], s.lastServed)];
      TooHighRateNeverReachesTheHead(s, n - 1);
      assert o + seq(n - 1, i => CloneOf(s.queue[0], s.lastServed)) == seq(n, i => CloneOf(s.queue[0], s.lastServed));
    }
  }

  // ----- Whether cloning ends -----

  /** A node about to serve its head, or a clone of it. */
  predicate IsServing(s: State) {
    && Playable(s) && s.queue != [] && !s.paused && s.delayKnown
    && s.queue[|s.queue|-1].pts - s.queue[0].pts > s.bufferTime
  }

  /** At a rate of -1 to -1000 each clone is earlier than the one before; one of them meets the pts 0,
      which the node takes to mean that nothing has been served. */
  predicate MeetsZero(s: State) {
    -1000 <= s.targetFps < 0 && s.lastServed > 0 && s.lastServed % -Interval(s) == 0
  }

  lemma NegativeInterval(fps: int)
    requires -1000 <= fps < 0
    ensures -1000 <= TruncDiv(1000, fps) <= -1
  {
    hide TruncDiv;
    QuotientBounds(-fps);
    TruncNegative(-fps);
  }

  lemma QuotientBounds(d: nat)
    requires 1 <= d <= 1000
    ensures 1 <= 1000 / d <= 1000
  {
  }

  lemma TruncNegative(d: int)
    requires d > 0
    ensures TruncDiv(1000, -d) == -(1000 / d)
  {
  }

  lemma StepTowardsZero(x: int, d: nat)
    requires d > 0 && x != 0
    ensures x > 0 && x % d == 0 <==> x == d || (x > d && (x - d) % d == 0)
  {
    if 0 < x < d {
      DivIs(x, d, 0, x);
    } else if x == d {
      DivIs(x, d, 1, 0);
    } else if x > d {
      OneStepLess(x, d);
    }
  }

  lemma OneStepLess(x: nat, d: nat)
    requires 0 < d < x
    ensures (x - d) % d == x % d
  {
    var q, r := x / d, x % d;
    assert x - d == (q - 1) * d + r;
    DivIs(x - d, d, q - 1, r);
  }

  /** A clone at a negative rate: the next state is as before but for an earlier last pts. */
  lemma BackwardClone(s: State)
    requires IsServing(s) && NeedsClone(s) && -1000 <= s.targetFps < 0
    ensures var (t, o) := Step(s, Poll);
      && o == [CloneOf(s.queue[0], s.lastServed + Interval(s))]
      && t == s.(lastServed := s.lastServed + Interval(s))
      && IsServing(t) && (t.lastServed != 0 ==> NeedsClone(t)) && (t.lastServed == 0 ==> !NeedsClone(t))
      && (MeetsZero(s) <==> t.lastServed == 0 || MeetsZero(t))
  {
    hide PollBuffer, TruncDiv, MeetsZero;
    PollCases(s);
    NegativeInterval(s.targetFps);
    ZeroIsMet(s, s.(lastServed := s.lastServed + Interval(s)));
  }

  lemma ZeroIsMet(s: State, t: State)
    requires -1000 <= s.targetFps < 0 && s.lastServed != 0 && t == s.(lastServed := s.lastServed + Interval(s))
    ensures MeetsZero(s) <==> t.lastServed == 0 || MeetsZero(t)
  {
    hide TruncDiv;
    NegativeInterval(s.targetFps);
    StepTowardsZero(s.lastServed, -Interval(s));
  }

  /** Without meeting 0 a negative rate serves clones for ever. */
  lemma {:induction false} BackwardNeverReachesTheHead(s: State, n: nat)
    requires IsServing(s) && NeedsClone(s) && -1000 <= s.targetFps < 0 && !MeetsZero(s)
    ensures forall x | x in PollTimes(s, n).1 :: x.CloneOf?
    decreases n
  {
    hide Step, MeetsZero, IsServing, NeedsClone;
    if n > 0 {
      BackwardClone(s);
      BackwardNeverReachesTheHead(Step(s, Poll).0, n - 1);
    }
  }

  /** Meeting it, it serves the head after all. */
  lemma {:induction false} BackwardReachesTheHead(s: State) returns (n: nat)
    requires IsServing(s) && NeedsClone(s) && MeetsZero(s)
    ensures Original(s.queue[0]) in PollTimes(s, n).1
    decreases s.lastServed
  {
    hide Step, IsServing, NeedsClone, TruncDiv;
    BackwardClone(s);
    NegativeInterval(s.targetFps);
    var t := Step(s, Poll).0;
    var m;
    if t.lastServed == 0 {
      m := 1;
      HeadIsServedAtOnce(t);
    } else {
      m := BackwardReachesTheHead(t);
    }
    n := m + 1;
  }

  lemma HeadIsServedAtOnce(s: State)
    requires IsServing(s) && !NeedsClone(s)
    ensures Original(s.queue[0]) in PollTimes(s, 1).1
  {
    hide PollBuffer, NeedsClone;
    PollCases(s);
    var (t, o) := Step(s, Poll);
    assert o == [Original(s.queue[0])];
    assert PollTimes(t, 0) == (t, []);
    assert PollTimes(s, 1).1 == o + [];
  }

  /** For every rate: polling reaches the head if and only if no clone is due, the rate is 1 to 1000, or
      it is -1 to -1000 and the clones meet the pts 0. */
  lemma HeadIsReachedIff(s: State)
    requires IsServing(s)
    ensures (exists n :: Original(s.queue[0]) in PollTimes(s, n).1)
       <==> !NeedsClone(s) || 1 <= s.targetFps <= 1000 || MeetsZero(s)
  {
    hide PollTimes, MeetsZero, NeedsClone;
    if !NeedsClone(s) {
      HeadIsServedAtOnce(s);
    } else if 1 <= s.targetFps <= 1000 {
      var n := ClonesEndWithTheirHead(s);
      assert Original(s.queue[0]) in PollTimes(s, n + 1).1;
    } else if MeetsZero(s) {
      var n := BackwardReachesTheHead(s);
    } else {
      forall n ensures Original(s.queue[0]) !in PollTimes(s, n).1 {
        NoHeadIn(s, n);
      }
    }
  }

  lemma NoHeadIn(s: State, n: nat)
    requires IsServing(s) && NeedsClone(s) && !(1 <= s.targetFps <= 1000) && !MeetsZero(s)
    ensures Original(s.queue[0]) !in PollTimes(s, n).1
  {
    hide PollTimes, MeetsZero;
    if -1000 <= s.targetFps < 0 {
      BackwardNeverReachesTheHead(s, n);
    } else {
      TooHighRateNeverReachesTheHead(s, n);
    }
  }

  /** Three frames in order, the first of which settles the delay. */
  lemma ThreeArrive(s: State, f: Frame, g: Frame, h: Frame)
    requires s.queue == [] && f.pts <= g.pts <= h.pts
    ensures Arrive(Arrive(Arrive(s, f, NotSupported), g, NotSupported), h, NotSupported)
         == s.(delayKnown := true, queue := [f, g, h])
  {
    hide Insert;
    InsertAtTheEnd([], f);
    InsertAtTheEnd([f], g);
    InsertAtTheEnd([f, g], h);
    assert [] + [f] == [f] && [f] + [g] == [f, g] && [f, g] + [h] == [f, g, h];
  }

  lemma InsertAtTheEnd(q: seq<Frame>, f: Frame)
    requires q == [] || q[|q|-1].pts <= f.pts
    ensures Insert(q, f) == q + [f]
  {
  }

  lemma FourEvents(s: State, a: Event, b: Event, c: Event, d: Event)
    requires Playable(s)
    ensures Run(s, [a, b, c, d]).0 == Step(Step(Step(Step(s, a).0, b).0, c).0, d).0
  {
    hide Step;
    assert [a, b, c, d][1..] == [b, c, d] && [b, c, d][1..] == [c, d] && [c, d][1..] == [d];
    var t := Step(Step(Step(s, a).0, b).0, c).0;
    assert Run(t, [d]).0 == Step(t, d).0;
    assert Run(Step(s, a).0, [b, c, d]).0 == Step(t, d).0;
  }

  lemma ThreeInOrderAreTimely(s: State, f: Frame, g: Frame, h: Frame)
    requires Playable(s) && s.bufferTime >= 0 && f.pts <= g.pts <= h.pts
    ensures Timely(s, None, [Arrival(f, NotSupported), Arrival(g, NotSupported), Arrival(h, NotSupported), Poll])
  {
    hide PollBuffer, Insert;
    var a, b, c := Arrival(f, NotSupported), Arrival(g, NotSupported), Arrival(h, NotSupported);
    assert [a, b, c, Poll][1..] == [b, c, Poll] && [b, c, Poll][1..] == [c, Poll] && [c, Poll][1..] == [Poll];
    var s1 := Step(s, a).0;
    var s2 := Step(s1, b).0;
    var s3 := Step(s2, c).0;
    assert Timely(s3, Some(h.pts), [Poll]);
    assert Timely(s2, Some(g.pts), [c, Poll]);
    assert Timely(s1, Some(f.pts), [b, c, Poll]);
  }

  const STUCK_RUN := [Arrival(Frame(0, 100, Video), NotSupported), Arrival(Frame(1, 200, Video), NotSupported),
                      Arrival(Frame(2, 1000, Video), NotSupported), Poll]

  /** A new node at 2000 frames a second, fed with three frames in order and polled once, is in such a
      state: from then on it serves one clone for ever. */
  lemma TooHighRateGetsStuck(n: nat)
    ensures var s := Fresh().(targetFps := 2000);
      var t := Run(s, STUCK_RUN).0;
      && Configured(s) && Timely(s, None, STUCK_RUN) && IsServing(t)
      && PollTimes(t, n).1 == seq(n, i => CloneOf(Frame(1, 200, Video), 100))
  {
    hide PollTimes, Run, Timely, Arrive;
    var s := Fresh().(targetFps := 2000);
    var f, g, h := Frame(0, 100, Video), Frame(1, 200, Video), Frame(2, 1000, Video);
    var ready := s.(delayKnown := true, queue := [f, g, h]);
    var t := s.(delayKnown := true, queue := [g, h], lastServed := 100, prebufferEnd := 1000);
    ThreeArrive(s, f, g, h);
    assert PollBuffer(ready) == (t, Some(Original(f)));
    FourEvents(s, Arrival(f, NotSupported), Arrival(g, NotSupported), Arrival(h, NotSupported), Poll);
    ThreeInOrderAreTimely(s, f, g, h);
    TooHighRateNeverReachesTheHead(t, n);
  }
}
