/** Order and loss theorems of the jitter buffer, over every run of its node. */
module JitterBufferOrder {
  import opened Media
  import opened Seqs
  import opened JitterBuffer

  /** What can happen to the node: a frame comes in, a read polls the buffer, a pause is toggled. */
  datatype Event = Arrival(frame: Frame, delay: Delay) | Poll | SetPaused(paused: bool)

  function Step(s: State, e: Event): (r: (State, seq<Served>))
    requires Playable(s)
    ensures Playable(r.0)
  {
    match e
    case Arrival(f, d) => (Arrive(s, f, d), [])
    case Poll =>
      var (t, out) := Attempt(s);
      (t, if out.Some? then [out.value] else [])
    case SetPaused(p) => (s.(paused := p), [])
  }

  /** The state after a run and everything served during it. */
  function Run(s: State, es: seq<Event>): (r: (State, seq<Served>))
    requires Playable(s)
    ensures Playable(r.0)
    decreases |es|
  {
    if es == [] then (s, []) else
    var (s1, out) := Step(s, es[0]);
    var (s2, rest) := Run(s1, es[1..]);
    (s2, out + rest)
  }

  /** The events of one call of ReadFrame. */
  function ReadEvents(s: State, up: seq<Upstream>): seq<Event>
    requires Playable(s)
    decreases |up|
  {
    var (p, out) := Attempt(s);
    if out.Some? || up == [] || up[0].Ended? then [Poll]
    else [Poll, Arrival(up[0].frame, up[0].delay)] + ReadEvents(Arrive(p, up[0].frame, up[0].delay), up[1..])
  }

  /** A call of ReadFrame is a run of these events: what holds of runs holds of reads. */
  lemma {:induction false} ReadIsARun(s: State, up: seq<Upstream>)
    requires Playable(s)
    ensures var (t, r, n) := Read(s, up);
      Run(s, ReadEvents(s, up)) == (t, if r.Got? then [r.served] else [])
    decreases |up|
  {
    hide PollBuffer, Insert, LearnDelay;
    var (p, out) := Attempt(s);
    assert Step(s, Poll).0 == p;
    if out.Some? || up == [] || up[0].Ended? {
      assert Run(p, []) == (p, []);
      assert Step(s, Poll).1 + [] == Step(s, Poll).1;
      assert Run(s, [Poll]) == Step(s, Poll);
    } else {
      var f, d := up[0].frame, up[0].delay;
      var q := Step(p, Arrival(f, d)).0;
      assert q == Arrive(p, f, d);
      ReadIsARun(q, up[1..]);
      var rest := ReadEvents(q, up[1..]);
      assert ([Poll, Arrival(f, d)] + rest)[1..] == [Arrival(f, d)] + rest;
      assert ([Arrival(f, d)] + rest)[1..] == rest;
      assert [] + Run(q, rest).1 == Run(q, rest).1;
      assert Run(p, [Arrival(f, d)] + rest) == Run(q, rest);
    }
  }

  function Arrivals(es: seq<Event>): seq<Frame> {
    if es == [] then []
    else (if es[0].Arrival? then [es[0].frame] else []) + Arrivals(es[1..])
  }

  function OriginalOf(x: Served): seq<Frame> {
    if x.Original? then [x.frame] else []
  }

  function Originals(out: seq<Served>): seq<Frame> {
    if out == [] then [] else OriginalOf(out[0]) + Originals(out[1..])
  }

  predicate Unpaused(es: seq<Event>) {
    forall e | e in es :: e.SetPaused? ==> !e.paused
  }

  ghost predicate Sorted(q: seq<Frame>) {
    forall i, j | 0 <= i <= j < |q| :: q[i].pts <= q[j].pts
  }

  function MaxPts(max: Option<int>, pts: int): Option<int> {
    if max.Some? && max.value > pts then max else Some(pts)
  }

  function MaxAfter(max: Option<int>, e: Event): Option<int> {
    if e.Arrival? then MaxPts(max, e.frame.pts) else max
  }

  /** Bounded lateness: once the delay is known, a frame is at most `bufferTime` behind the latest
      pts seen. Nothing is asked of frames that come in before that. */
  ghost predicate Timely(s: State, max: Option<int>, es: seq<Event>)
    requires Playable(s)
    decreases |es|
  {
    es != [] ==>
      && (es[0].Arrival? && s.delayKnown && max.Some? ==> es[0].frame.pts >= max.value - s.bufferTime)
      && Timely(Step(s, es[0]).0, MaxAfter(max, es[0]), es[1..])
  }

  function MaxOf(max: Option<int>, es: seq<Event>): Option<int>
    decreases |es|
  {
    if es == [] then max else MaxOf(MaxAfter(max, es[0]), es[1..])
  }

  /** The invariant of every reachable state, `max` being the latest pts seen so far. */
  ghost predicate Inv(s: State, max: Option<int>) {
    && s.bufferTime >= 0 && s.bufferTimeWhenPaused >= 0 && Playable(s)
    && Sorted(s.past + s.queue)
    && (max.None? ==> s.queue == [] && s.past == [])
    && (max.Some? ==> s.queue != [] && s.queue[|s.queue|-1].pts == max.value)
    && (max.Some? ==> forall h | h in s.past :: h.pts < max.value - s.bufferTime)
    && (!s.delayKnown ==> s.past == [])
  }

  // ----- Sorted queues -----

  lemma SortedParts(a: seq<Frame>, b: seq<Frame>)
    ensures Sorted(a + b) <==> Sorted(a) && Sorted(b) && (forall x, y | x in a && y in b :: x.pts <= y.pts)
  {
    var c := a + b;
    if Sorted(c) {
      assert forall i | 0 <= i < |a| :: c[i] == a[i];
      assert forall i | 0 <= i < |b| :: c[|a| + i] == b[i];
    }
  }

  lemma SortedSplit(q: seq<Frame>, k: nat)
    requires Sorted(q) && k <= |q|
    ensures Sorted(q[..k]) && Sorted(q[k..])
    ensures forall x | x in q[k..] :: x in q
    ensures k > 0 ==> forall x | x in q[..k] :: x.pts <= q[k-1].pts
  {
  }

  lemma InsertSplits(q: seq<Frame>, f: Frame) returns (a: seq<Frame>, b: seq<Frame>)
    ensures q == a + b && Insert(q, f) == a + ([f] + b)
    ensures forall x | x in b :: x.pts > f.pts
    ensures Sorted(q) ==> Sorted(a) && Sorted(b) && forall x | x in a :: x.pts <= f.pts
  {
    hide Slot, Sorted;
    var k := Slot(q, f.pts);
    a, b := q[..k], q[k..];
    Associate(a, [f], b);
    if Sorted(q) {
      SortedSplit(q, k);
    }
  }

  lemma InsertKeepsSorted(q: seq<Frame>, f: Frame)
    requires Sorted(q)
    ensures Sorted(Insert(q, f))
    ensures forall x | x in Insert(q, f) :: x in q || x == f
  {
    hide Sorted, Insert;
    var a, b := InsertSplits(q, f);
    SingletonSorted(f);
    SortedParts([f], b);
    SortedParts(a, [f] + b);
  }

  lemma SingletonSorted(f: Frame)
    ensures Sorted([f])
  {
  }

  lemma InsertTail(q: seq<Frame>, f: Frame)
    ensures |Insert(q, f)| == |q| + 1
    ensures Insert(q, f)[|q|].pts == if q != [] && q[|q|-1].pts > f.pts then q[|q|-1].pts else f.pts
  {
  }

  lemma {:induction false} DropOldIsSuffix(q: seq<Frame>, tail: int, keep: int) returns (k: nat)
    ensures k <= |q| && DropOld(q, tail, keep) == q[k..]
    ensures forall i | 0 <= i < k :: tail - q[i].pts > keep
    ensures k < |q| ==> tail - q[k].pts <= keep
  {
    k := 0;
    if q != [] && tail - q[0].pts > keep {
      var n := DropOldIsSuffix(q[1..], tail, keep);
      assert q[1..][n..] == q[n+1..];
      k := n + 1;
      forall i | 0 <= i < k ensures tail - q[i].pts > keep {
        if i > 0 { assert q[i] == q[1..][i-1]; }
      }
    }
  }

  // ----- Every step keeps the invariant -----

  lemma ArriveKeepsInv(s: State, max: Option<int>, f: Frame, d: Delay)
    requires Inv(s, max)
    requires s.delayKnown && max.Some? ==> f.pts >= max.value - s.bufferTime
    ensures Inv(Arrive(s, f, d), MaxPts(max, f.pts))
  {
    hide Sorted, Insert;
    SortedParts(s.past, s.queue);
    InsertKeepsSorted(s.queue, f);
    InsertTail(s.queue, f);
    SortedParts(s.past, Insert(s.queue, f));
  }

  lemma SpliceKeepsInv(s: State, max: Option<int>)
    requires Inv(s, max)
    ensures Inv(Splice(s), max)
  {
    if s.paused && s.past != [] {
      assert [] + (s.past + s.queue) == s.past + s.queue;
    }
  }

  /** Serving either hands out a clone and leaves both queues alone, or hands out the head. */
  lemma ServeShape(s: State)
    requires s.queue != [] && Playable(s)
    ensures var (t, out) := Serve(s);
      && t.bufferTime == s.bufferTime && t.bufferTimeWhenPaused == s.bufferTimeWhenPaused
      && Playable(t) && t.delayKnown == s.delayKnown
      && t.paused == s.paused && t.targetFps == s.targetFps && t.prebufferEnd == s.prebufferEnd
      && out.frame == s.queue[0]
      && (out.CloneOf? ==> t == s.(lastServed := out.clonePts))
      && (out.Original? ==> t.queue == s.queue[1..])
      && (out.Original? ==> t.past == s.past || t.past == Kept(s))
  {
  }

  /** The history after the head of the queue has been added to it. */
  function Kept(s: State): seq<Frame>
    requires s.queue != []
  {
    DropOld(s.past + [s.queue[0]], s.queue[|s.queue|-1].pts, s.bufferTimeWhenPaused)
  }

  lemma PopKeepsSorted(s: State)
    requires s.queue != [] && Sorted(s.past + s.queue)
    ensures Sorted(s.past + s.queue[1..]) && Sorted(Kept(s) + s.queue[1..])
    ensures forall h | h in Kept(s) :: h in s.past || h == s.queue[0]
  {
    hide Sorted;
    var head, rest := s.queue[0], s.queue[1..];
    assert s.past + s.queue == (s.past + [head]) + rest;
    SortedParts(s.past + [head], rest);
    SortedParts(s.past, [head]);
    SortedParts(s.past, rest);
    var k := DropOldIsSuffix(s.past + [head], s.queue[|s.queue|-1].pts, s.bufferTimeWhenPaused);
    SortedSplit(s.past + [head], k);
    SortedParts(Kept(s), rest);
  }

  lemma ServeKeepsInv(s: State, max: Option<int>)
    requires Inv(s, max) && s.queue != [] && s.delayKnown
    requires s.queue[|s.queue|-1].pts - s.queue[0].pts > s.bufferTime
    ensures Inv(Serve(s).0, max)
  {
    ServeShape(s);
    PopKeepsSorted(s);
    hide Serve, Kept, Sorted;
    assert max.Some?;
  }

  lemma PauseKeepsInv(m: State, max: Option<int>)
    requires Inv(m, max) && m.past == [] && m.queue != []
    ensures Inv(m.(queue := DropOld(m.queue, m.queue[|m.queue|-1].pts, m.bufferTimeWhenPaused)), max)
  {
    hide Sorted;
    var k := DropOldIsSuffix(m.queue, max.value, m.bufferTimeWhenPaused);
    SortedParts(m.past, m.queue);
    SortedSplit(m.queue, k);
    SortedParts(m.past, m.queue[k..]);
  }

  lemma PollKeepsInv(s: State, max: Option<int>)
    requires Inv(s, max) && s.delayKnown
    ensures Inv(PollBuffer(s).0, max)
  {
    hide Serve, Sorted;
    if s.queue != [] {
      SpliceKeepsInv(s, max);
      var m := MarkStart(Splice(s));
      assert Inv(m, max);
      if m.paused {
        PauseKeepsInv(m, max);
      } else if max.value - m.queue[0].pts > m.bufferTime {
        ServeKeepsInv(m, max);
      }
    }
  }

  lemma StepKeepsInv(s: State, max: Option<int>, e: Event)
    requires Inv(s, max)
    requires e.Arrival? && s.delayKnown && max.Some? ==> e.frame.pts >= max.value - s.bufferTime
    ensures Inv(Step(s, e).0, MaxAfter(max, e)) && Playable(Step(s, e).0)
  {
    hide PollBuffer, Arrive;
    match e
    case Arrival(f, d) => ArriveKeepsInv(s, max, f, d);
    case Poll => if s.delayKnown { PollKeepsInv(s, max); }
    case SetPaused(p) =>
  }

  /** Main invariant: it holds in every state of every timely run, across pauses and replays. */
  lemma {:induction false} RunKeepsInv(s: State, max: Option<int>, es: seq<Event>)
    requires Inv(s, max) && Timely(s, max, es)
    ensures Inv(Run(s, es).0, MaxOf(max, es))
    decreases |es|
  {
    hide Attempt, Arrive, Sorted;
    if es != [] {
      StepKeepsInv(s, max, es[0]);
      RunKeepsInv(Step(s, es[0]).0, MaxAfter(max, es[0]), es[1..]);
    }
  }

  // ----- An unpaused run sorts its input -----

  /** The simple form: sort everything that came in, each frame after the equal ones before it. */
  function SortFrom(q: seq<Frame>, fs: seq<Frame>): seq<Frame>
    decreases |fs|
  {
    if fs == [] then q else SortFrom(Insert(q, fs[0]), fs[1..])
  }

  lemma SlotIsUnique(q: seq<Frame>, pts: int, k: nat)
    requires k <= |q| && (k > 0 ==> q[k-1].pts <= pts)
    requires forall j | k <= j < |q| :: q[j].pts > pts
    ensures Slot(q, pts) == k
  {
  }

  lemma InsertAfterServed(out: seq<Frame>, q: seq<Frame>, f: Frame)
    requires forall x | x in out :: x.pts <= f.pts
    ensures Insert(out + q, f) == out + Insert(q, f)
  {
    hide Slot;
    var k := Slot(q, f.pts);
    ConcatSlices(out, q, k);
    assert forall j | |out| + k <= j < |out + q| :: (out + q)[j] == q[j - |out|];
    SlotIsUnique(out + q, f.pts, |out| + k);
    Associate(out, q[..k], [f]);
    Associate(out, q[..k] + [f], q[k..]);
  }

  /** The frames served so far can no longer be overtaken. */
  ghost predicate Settled(out: seq<Frame>, s: State, max: Option<int>) {
    && (out != [] ==> s.delayKnown && max.Some?)
    && forall x | x in out :: x.pts < max.value - s.bufferTime
  }

  lemma PollMovesHead(s: State, max: Option<int>)
    requires Inv(s, max) && s.delayKnown && !s.paused
    ensures var (t, o) := PollBuffer(s);
      && t.bufferTime == s.bufferTime && t.delayKnown && !t.paused
      && (o.None? || o.value.CloneOf? ==> t.queue == s.queue)
      && (o.Some? ==> s.queue != [] && o.value.frame == s.queue[0] && s.queue[0].pts < max.value - s.bufferTime)
      && (o.Some? && o.value.Original? ==> t.queue == s.queue[1..])
  {
    if s.queue != [] {
      ServeShape(MarkStart(s));
    }
    hide Serve, Sorted;
  }

  lemma ArrivalSorts(s: State, max: Option<int>, out: seq<Frame>, f: Frame, d: Delay)
    requires Inv(s, max) && !s.paused && Settled(out, s, max)
    requires s.delayKnown && max.Some? ==> f.pts >= max.value - s.bufferTime
    ensures Settled(out, Arrive(s, f, d), MaxPts(max, f.pts))
    ensures out + Arrive(s, f, d).queue == SortFrom(out + s.queue, [f])
  {
    hide Inv;
    InsertAfterServed(out, s.queue, f);
    assert SortFrom(Insert(out + s.queue, f), []) == Insert(out + s.queue, f);
  }

  lemma AttemptSorts(s: State, max: Option<int>, out: seq<Frame>)
    requires Inv(s, max) && !s.paused && Settled(out, s, max)
    ensures var (t, o) := Step(s, Poll);
      && !t.paused && Settled(out + Originals(o), t, max)
      && out + Originals(o) + t.queue == out + s.queue
  {
    if s.delayKnown { PollMovesHead(s, max); }
    hide PollBuffer, Inv;
    var (t, o) := Step(s, Poll);
    if o != [] && o[0].Original? {
      assert Originals(o) == [s.queue[0]];
      assert out + [s.queue[0]] + s.queue[1..] == out + s.queue;
    } else {
      assert Originals(o) == [];
      assert out + [] == out;
    }
  }

  lemma StepSorts(s: State, max: Option<int>, out: seq<Frame>, e: Event)
    requires Inv(s, max) && !s.paused && Settled(out, s, max)
    requires e.SetPaused? ==> !e.paused
    requires e.Arrival? && s.delayKnown && max.Some? ==> e.frame.pts >= max.value - s.bufferTime
    ensures var (t, o) := Step(s, e);
      && !t.paused && Settled(out + Originals(o), t, MaxAfter(max, e))
      && out + Originals(o) + t.queue == SortFrom(out + s.queue, Arrivals([e]))
  {
    match e
    case Arrival(f, d) =>
      ArrivalSorts(s, max, out, f, d);
      hide Inv, Attempt, Settled;
      assert Arrivals([e]) == [f];
      assert out + Originals([]) == out;
    case Poll =>
      AttemptSorts(s, max, out);
      hide Inv, Attempt, Settled;
      assert Arrivals([e]) == [];
    case SetPaused(p) =>
      assert Arrivals([e]) == [];
      assert out + Originals([]) == out;
  }

  lemma {:induction false} SortFromAppend(q: seq<Frame>, a: seq<Frame>, b: seq<Frame>)
    ensures SortFrom(q, a + b) == SortFrom(SortFrom(q, a), b)
    decreases |a|
  {
    hide Insert;
    if a == [] {
      EmptyConcat(b);
    } else {
      ConcatTail(a, b);
      SortFromAppend(Insert(q, a[0]), a[1..], b);
    }
  }

  lemma {:induction false} OriginalsAppend(a: seq<Served>, b: seq<Served>)
    ensures Originals(a + b) == Originals(a) + Originals(b)
  {
    hide OriginalOf;
    if a == [] {
      EmptyConcat(b);
      EmptyConcat(Originals(b));
    } else {
      ConcatTail(a, b);
      OriginalsAppend(a[1..], b);
      Associate(OriginalOf(a[0]), Originals(a[1..]), Originals(b));
    }
  }

  /** An unpaused run that is still to come, `out` having been served already. */
  ghost predicate Sorting(s: State, max: Option<int>, out: seq<Frame>, es: seq<Event>) {
    Inv(s, max) && Timely(s, max, es) && Unpaused(es) && !s.paused && Settled(out, s, max)
  }

  lemma SortingStep(s: State, max: Option<int>, out: seq<Frame>, es: seq<Event>)
    requires Sorting(s, max, out, es) && es != []
    ensures Playable(s)
    ensures var (s1, o1) := Step(s, es[0]);
      && Sorting(s1, MaxAfter(max, es[0]), out + Originals(o1), es[1..])
      && out + Originals(o1) + s1.queue == SortFrom(out + s.queue, Arrivals([es[0]]))
  {
    StepKeepsInv(s, max, es[0]);
    StepSorts(s, max, out, es[0]);
    hide Step, Inv, Settled, Originals, SortFrom, Insert, Arrivals;
  }

  lemma RunOnce(s: State, es: seq<Event>)
    requires Playable(s) && es != []
    ensures var s1 := Step(s, es[0]).0;
      && Run(s, es).0 == Run(s1, es[1..]).0
      && Originals(Run(s, es).1) == Originals(Step(s, es[0]).1) + Originals(Run(s1, es[1..]).1)
      && Arrivals(es) == Arrivals([es[0]]) + Arrivals(es[1..])
  {
    hide Step;
    OriginalsAppend(Step(s, es[0]).1, Run(Step(s, es[0]).0, es[1..]).1);
  }

  /** Refinement: what an unpaused run has served (clones aside) followed by what it still holds
      is the stable sort of what it started with and everything that came in. */
  lemma {:induction false} RunSorts(s: State, max: Option<int>, out: seq<Frame>, es: seq<Event>)
    requires Sorting(s, max, out, es) && Playable(s)
    ensures out + Originals(Run(s, es).1) + Run(s, es).0.queue == SortFrom(out + s.queue, Arrivals(es))
    decreases |es|
  {
    hide Step, Sorting, Insert, MaxAfter;
    if es == [] {
      assert out + Originals([]) + s.queue == out + s.queue;
      return;
    }
    SortingStep(s, max, out, es);
    var (s1, o1) := Step(s, es[0]);
    RunSorts(s1, MaxAfter(max, es[0]), out + Originals(o1), es[1..]);
    RunOnce(s, es);
    SortFromAppend(out + s.queue, Arrivals([es[0]]), Arrivals(es[1..]));
    assert out + Originals(Run(s, es).1) == out + Originals(o1) + Originals(Run(s1, es[1..]).1);
  }

  // ----- What the stable sort means -----

  /** The frames with one given pts, in order of appearance. */
  function WithPts(q: seq<Frame>, pts: int): seq<Frame> {
    if q == [] then [] else IfPts(q[0], pts) + WithPts(q[1..], pts)
  }

  function IfPts(f: Frame, pts: int): seq<Frame> {
    if f.pts == pts then [f] else []
  }

  lemma {:induction false} WithPtsAppend(a: seq<Frame>, b: seq<Frame>, pts: int)
    ensures WithPts(a + b, pts) == WithPts(a, pts) + WithPts(b, pts)
  {
    hide IfPts;
    if a == [] {
      EmptyConcat(b);
      EmptyConcat(WithPts(b, pts));
    } else {
      ConcatTail(a, b);
      WithPtsAppend(a[1..], b, pts);
      Associate(IfPts(a[0], pts), WithPts(a[1..], pts), WithPts(b, pts));
    }
  }

  lemma {:induction false} WithPtsNone(q: seq<Frame>, pts: int)
    requires forall x | x in q :: x.pts != pts
    ensures WithPts(q, pts) == []
  {
    if q != [] {
      WithPtsNone(q[1..], pts);
    }
  }

  lemma InsertIsStable(q: seq<Frame>, f: Frame, pts: int)
    ensures WithPts(Insert(q, f), pts) == WithPts(q, pts) + WithPts([f], pts)
  {
    hide Slot, Insert;
    var a, b := InsertSplits(q, f);
    WithPtsAppend(a, b, pts);
    WithPtsAppend(a, [f] + b, pts);
    WithPtsAppend([f], b, pts);
    if f.pts == pts {
      WithPtsNone(b, pts);
      EmptyConcat(WithPts(a, pts));
      EmptyConcat(WithPts([f], pts));
    } else {
      assert WithPts([f], pts) == [];
      EmptyConcat(WithPts(b, pts));
      EmptyConcat(WithPts(q, pts));
    }
  }

  lemma InsertKeepsFrames(q: seq<Frame>, f: Frame)
    ensures multiset(Insert(q, f)) == multiset(q) + multiset{f}
  {
    var k := Slot(q, f.pts);
    assert q == q[..k] + q[k..];
  }

  lemma {:induction false} SortFromIsSorted(q: seq<Frame>, fs: seq<Frame>)
    requires Sorted(q)
    ensures Sorted(SortFrom(q, fs))
    decreases |fs|
  {
    hide Sorted, Insert;
    if fs != [] {
      InsertKeepsSorted(q, fs[0]);
      SortFromIsSorted(Insert(q, fs[0]), fs[1..]);
    }
  }

  lemma {:induction false} SortFromIsPermutation(q: seq<Frame>, fs: seq<Frame>)
    ensures multiset(SortFrom(q, fs)) == multiset(q) + multiset(fs)
    decreases |fs|
  {
    hide Insert;
    if fs != [] {
      assert fs == [fs[0]] + fs[1..];
      InsertKeepsFrames(q, fs[0]);
      SortFromIsPermutation(Insert(q, fs[0]), fs[1..]);
    }
  }

  lemma {:induction false} SortFromIsStable(q: seq<Frame>, fs: seq<Frame>, pts: int)
    ensures WithPts(SortFrom(q, fs), pts) == WithPts(q, pts) + WithPts(fs, pts)
    decreases |fs|
  {
    hide Insert;
    if fs == [] {
      return;
    }
    var f, rest := fs[0], fs[1..];
    InsertIsStable(q, f, pts);
    SortFromIsStable(Insert(q, f), rest, pts);
    assert WithPts([f], pts) == if f.pts == pts then [f] else [];
    Associate(WithPts(q, pts), WithPts([f], pts), WithPts(rest, pts));
  }

  // ----- The theorems -----

  /** A new node that has been configured but has not read anything yet. */
  ghost predicate Configured(s: State) {
    && s.bufferTime >= 0 && s.bufferTimeWhenPaused >= 0 && Playable(s)
    && s == Fresh().(bufferTime := s.bufferTime, bufferTimeWhenPaused := s.bufferTimeWhenPaused,
                     jumpstart := s.jumpstart, jumpstartFps := s.jumpstartFps, targetFps := s.targetFps)
  }

  ghost predicate IsLargestPts(fs: seq<Frame>, p: int) {
    (forall f | f in fs :: f.pts <= p) && exists f | f in fs :: f.pts == p
  }

  lemma {:induction false} MaxOfBounds(max: Option<int>, es: seq<Event>)
    ensures MaxOf(max, es).None? <==> max.None? && Arrivals(es) == []
    ensures max.Some? ==> max.value <= MaxOf(max, es).value
    ensures forall f | f in Arrivals(es) :: f.pts <= MaxOf(max, es).value
    decreases |es|
  {
    if es != [] {
      MaxOfBounds(MaxAfter(max, es[0]), es[1..]);
    }
  }

  lemma {:induction false} MaxOfIsAttained(max: Option<int>, es: seq<Event>)
    ensures MaxOf(max, es) == max || exists f :: f in Arrivals(es) && MaxOf(max, es) == Some(f.pts)
    decreases |es|
  {
    if es != [] {
      var max1 := MaxAfter(max, es[0]);
      MaxOfIsAttained(max1, es[1..]);
      if MaxOf(max1, es[1..]) != max1 {
        var g :| g in Arrivals(es[1..]) && MaxOf(max1, es[1..]) == Some(g.pts);
        assert g in Arrivals(es);
      } else if max1 != max {
        assert es[0].frame in Arrivals(es);
      }
    }
  }

  /** Every reachable state, across pauses and replays: history followed by queue is in order, the
      queue ends with the latest pts seen, and the history is out of reach of late frames. */
  lemma ReachableStatesAreOrdered(s: State, es: seq<Event>)
    requires Configured(s) && Timely(s, None, es)
    ensures var t := Run(s, es).0;
      && Sorted(t.past + t.queue)
      && (Arrivals(es) == [] <==> t.queue == [])
      && (Arrivals(es) != [] ==> IsLargestPts(Arrivals(es), t.queue[|t.queue|-1].pts))
      && (Arrivals(es) != [] ==> forall h | h in t.past :: h.pts < t.queue[|t.queue|-1].pts - t.bufferTime)
  {
    hide Run, Timely;
    RunKeepsInv(s, None, es);
    MaxOfBounds(None, es);
    MaxOfIsAttained(None, es);
  }

  /** From any reachable state, an unpaused run serves its frames (clones aside) in pts order. */
  lemma UnpausedRunServesInOrder(s: State, max: Option<int>, es: seq<Event>)
    requires Inv(s, max) && Timely(s, max, es) && Unpaused(es) && !s.paused
    ensures Sorted(Originals(Run(s, es).1))
  {
    SortedParts(s.past, s.queue);
    hide Run, Timely, Sorted;
    RunSorts(s, max, [], es);
    assert [] + s.queue == s.queue;
    SortFromIsSorted(s.queue, Arrivals(es));
    var o, q := Originals(Run(s, es).1), Run(s, es).0.queue;
    assert [] + o == o;
    SortedParts(o, q);
  }

  /** Nothing is lost, repeated or reordered by an unpaused run. */
  lemma UnpausedRunIsStableSort(s: State, es: seq<Event>)
    requires Configured(s) && Timely(s, None, es) && Unpaused(es)
    ensures Originals(Run(s, es).1) + Run(s, es).0.queue == SortFrom([], Arrivals(es))
  {
    RunSorts(s, None, [], es);
    assert [] + s.queue == s.queue == [];
    assert [] + Originals(Run(s, es).1) == Originals(Run(s, es).1);
  }
}
