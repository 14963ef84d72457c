/** What a pause brings back, what the history holds, when a poll serves what, and what a read takes
    in: the jitter buffer in terms of the node's fields alone. */
module JitterBufferReplay {
  import opened Media
  import opened Seqs
  import opened JitterBuffer
  import opened JitterBufferOrder

  // ----- Replay -----

  /** Where the replay of `all` starts: everything before is further behind the last frame than the
      pause window, and the frame there is not. */
  ghost predicate StartsAt(all: seq<Frame>, keep: int, k: nat)
    requires all != []
  {
    && k <= |all|
    && (forall i | 0 <= i < k :: all[|all|-1].pts - all[i].pts > keep)
    && (k < |all| ==> all[|all|-1].pts - all[k].pts <= keep)
  }

  lemma PausedPoll(s: State)
    requires Playable(s) && s.paused && s.queue != []
    ensures var all := s.past + s.queue;
      PollBuffer(s) == (s.(queue := DropOld(all, all[|all|-1].pts, s.bufferTimeWhenPaused), past := [],
                           lastPast := if s.past == [] then s.lastPast else 0,
                           lastServed := if s.past == [] then s.lastServed else 0), None)
  {
    hide DropOld, Serve;
    EmptyConcat(s.queue);
  }

  /** A poll of a paused node serves nothing and puts the whole history back in front of the queue, less
      the frames in front that are older than the pause window. */
  lemma PausedPollReplays(s: State) returns (k: nat)
    requires Playable(s) && s.paused && s.delayKnown && s.queue != []
    ensures var all := s.past + s.queue;
      && StartsAt(all, s.bufferTimeWhenPaused, k)
      && Step(s, Poll) == (s.(queue := all[k..], past := [],
                              lastPast := if s.past == [] then s.lastPast else 0,
                              lastServed := if s.past == [] then s.lastServed else 0), [])
  {
    hide DropOld, PollBuffer;
    var all := s.past + s.queue;
    k := DropOldIsSuffix(all, all[|all|-1].pts, s.bufferTimeWhenPaused);
    PausedPoll(s);
  }

  lemma WindowMembers(all: seq<Frame>, keep: int, k: nat)
    requires all != [] && Sorted(all) && StartsAt(all, keep, k)
    ensures forall f :: f in all[k..] <==> f in all && all[|all|-1].pts - f.pts <= keep
  {
    assert all == all[..k] + all[k..];
    assert forall i | k <= i < |all| :: all[k].pts <= all[i].pts;
  }

  /** In a reachable paused state the queue after a poll is exactly the part of history and queue that
      lies within the pause window. */
  lemma ReplayIsTheWindow(s: State, max: Option<int>)
    requires Inv(s, max) && s.paused && s.delayKnown && s.queue != []
    ensures Playable(s)
    ensures forall f ::
      f in Step(s, Poll).0.queue <==> f in s.past + s.queue && max.value - f.pts <= s.bufferTimeWhenPaused
  {
    var k := PausedPollReplays(s);
    hide Step;
    WindowMembers(s.past + s.queue, s.bufferTimeWhenPaused, k);
  }

  lemma PausedPollStays(s: State, max: Option<int>)
    requires Inv(s, max) && s.paused && s.delayKnown && s.queue != []
    ensures Playable(s)
    ensures var t := Step(s, Poll).0.(paused := false);
      Inv(t, max) && Settled([], t, max)
  {
    StepKeepsInv(s, max, Poll);
    var k := PausedPollReplays(s);
    hide Step, Sorted;
  }

  lemma TwoStepsFirst(s: State, a: Event, b: Event, es: seq<Event>)
    requires Playable(s)
    ensures var t := Step(Step(s, a).0, b).0;
      && Run(s, [a, b] + es).0 == Run(t, es).0
      && Run(s, [a, b] + es).1 == Step(s, a).1 + (Step(Step(s, a).0, b).1 + Run(t, es).1)
  {
    hide Step;
    assert ([a, b] + es)[1..] == [b] + es && ([b] + es)[1..] == es;
    assert Run(Step(s, a).0, [b] + es).0 == Run(Step(Step(s, a).0, b).0, es).0;
  }

  /** After a pause with a poll in it, an unpaused run serves history and queue from the window on and
      whatever comes in, sorted, none of it lost or repeated. */
  lemma ReplayServesTheHistory(s: State, max: Option<int>, es: seq<Event>) returns (k: nat)
    requires Inv(s, max) && s.paused && s.delayKnown && s.queue != [] && Playable(s)
    requires Unpaused(es) && Timely(Step(s, Poll).0.(paused := false), max, es)
    ensures var all := s.past + s.queue;
      var (t, out) := Run(s, [Poll, SetPaused(false)] + es);
      && StartsAt(all, s.bufferTimeWhenPaused, k)
      && Originals(out) + t.queue == SortFrom(all[k..], Arrivals(es))
  {
    k := PausedPollReplays(s);
    PausedPollStays(s, max);
    TwoStepsFirst(s, Poll, SetPaused(false), es);
    EmptyConcat(Run(Step(s, Poll).0.(paused := false), es).1);
    hide Step, Run, Timely, Inv, Settled, SortFrom, Originals;
    var t := s.(queue := (s.past + s.queue)[k..], past := [], paused := false,
                lastPast := if s.past == [] then s.lastPast else 0,
                lastServed := if s.past == [] then s.lastServed else 0);
    RunSorts(t, max, [], es);
    EmptyConcat(t.queue);
    EmptyConcat(Originals(Run(t, es).1));
  }

  // ----- What the history holds -----

  /** A frame is saved when nothing is, when it is not video, when no video (or video at pts 0) was the
      last saved, when its second differs from that of the last saved, or when the rate allows it. */
  ghost predicate IsDueForHistory(s: State, f: Frame) {
    || s.past == []
    || f.media != Video
    || s.lastPast == 0
    || TruncDiv(f.pts, 1000) != TruncDiv(s.lastPast, 1000)
    || (s.jumpstartFps > 0 && s.jumpstartFps * (f.pts - s.lastPast) > 1000)
    || (s.jumpstartFps < 0 && -s.jumpstartFps * (s.lastPast - f.pts + 1) <= 1000)
  }

  /** Dividing by the rate and multiplying by it compare alike. */
  lemma OverInterval(d: int, fps: nat)
    requires fps > 0
    ensures d > 1000 / fps <==> fps * d > 1000
    ensures d >= -(1000 / fps) + 1 <==> fps * (1 - d) <= 1000
  {
    var q, r := 1000 / fps, 1000 % fps;
    assert 1000 == q * fps + r;
    if d > q { Widen(q + 1, d, fps); } else { Widen(d, q, fps); }
    if 1 - d <= q { Widen(1 - d, q, fps); } else { Widen(q + 1, 1 - d, fps); }
  }

  lemma TruncatedInterval(fps: int)
    requires fps != 0
    ensures TruncDiv(1000, fps) == if fps > 0 then 1000 / fps else -(1000 / -fps)
  {
  }

  lemma SavedIff(s: State, f: Frame)
    requires s.jumpstartFps != 0
    ensures ShouldSave(s, f) <==> IsDueForHistory(s, f)
  {
    var fps, d := s.jumpstartFps, f.pts - s.lastPast;
    TruncatedInterval(fps);
    OverInterval(d, if fps > 0 then fps else -fps);
    hide TruncDiv;
  }

  /** A frame served to downstream leaves the queue, and joins the history exactly if it is due there;
      the history then loses what is older than the pause window, from the front. */
  lemma ServedFrameIsSavedIff(s: State) returns (k: nat)
    requires Playable(s) && s.delayKnown && !s.paused && Step(s, Poll).1 != []
    requires Step(s, Poll).1[0].Original?
    ensures s.queue != []
    ensures var t, f := Step(s, Poll).0, s.queue[0];
      var saved := s.past + [f];
      && Step(s, Poll).1 == [Original(f)]
      && t.queue == s.queue[1..]
      && k <= |saved|
      && t.past == (if s.jumpstart && IsDueForHistory(s, f) then saved[k..] else s.past)
      && t.lastPast == (if s.jumpstart && IsDueForHistory(s, f) && f.media == Video then f.pts else s.lastPast)
      && (forall i | 0 <= i < k :: s.queue[|s.queue|-1].pts - saved[i].pts > s.bufferTimeWhenPaused)
      && (k < |saved| ==> s.queue[|s.queue|-1].pts - saved[k].pts <= s.bufferTimeWhenPaused)
  {
    hide DropOld, IsDueForHistory, TruncDiv, ShouldSave, NeedsClone;
    var f := s.queue[0];
    k := DropOldIsSuffix(s.past + [f], s.queue[|s.queue|-1].pts, s.bufferTimeWhenPaused);
    SaveOfHead(s);
    if s.jumpstart {
      SavedIff(s, f);
    }
  }

  lemma SaveOfHead(s: State)
    requires Playable(s) && s.queue != [] && !s.paused && PollBuffer(s).1.Some?
    requires PollBuffer(s).1.value.Original?
    ensures var t, f := PollBuffer(s).0, s.queue[0];
      && PollBuffer(s).1 == Some(Original(f))
      && t.queue == s.queue[1..]
      && t.past == (if s.jumpstart && ShouldSave(s, f) then Kept(s) else s.past)
      && t.lastPast == (if s.jumpstart && ShouldSave(s, f) && f.media == Video then f.pts else s.lastPast)
  {
    hide DropOld, TruncDiv;
  }

  /** A pause now would bring back `f` itself or, for video, a video frame of the same second that is at
      most one interval of the replay rate before it. */
  ghost predicate Replayed(s: State, f: Frame) {
    if f.media == Video then exists h :: h in s.past && StandsFor(s.jumpstartFps, h, f) else f in s.past
  }

  ghost predicate StandsFor(fps: int, h: Frame, f: Frame) {
    && h.media == Video && h.pts <= f.pts && fps * (f.pts - h.pts) <= 1000
    && TruncDiv(h.pts, 1000) == TruncDiv(f.pts, 1000)
  }

  /** Within the pause window; for video, with one interval to spare. */
  ghost predicate IsRecent(s: State, max: Option<int>, f: Frame) {
    && max.Some?
    && (if f.media == Video then s.jumpstartFps * (s.bufferTimeWhenPaused - (max.value - f.pts)) >= 1000
        else max.value - f.pts <= s.bufferTimeWhenPaused)
  }

  ghost predicate AllReplayed(s: State, max: Option<int>, fs: seq<Frame>) {
    && (fs != [] ==> max.Some?)
    && forall f | f in fs && IsRecent(s, max, f) :: Replayed(s, f)
  }

  ghost predicate Keeping(s: State) {
    s.jumpstart && s.jumpstartFps >= 1 && !s.paused
  }

  /** The last video frame saved is in the history unless it is older than the pause window. */
  ghost predicate LastIsKept(s: State, max: Option<int>) {
    s.lastPast != 0 ==>
      || (exists h :: h in s.past && h.media == Video && h.pts == s.lastPast)
      || (max.Some? && max.value - s.lastPast > s.bufferTimeWhenPaused)
  }

  lemma TooOldToMatter(fps: int, keep: int, max: int, h: int, f: int)
    requires fps >= 1 && fps * (f - h) <= 1000 && max - h > keep
    ensures fps * (keep - (max - f)) < 1000
  {
    assert fps * (keep - (max - f)) == fps * (f - h) - fps * (max - h - keep);
    assert fps * (max - h - keep) >= 1;
  }

  /** What the trimmed history has lost is too old to stand for a recent frame. */
  lemma TrimmedHistory(s: State, t: State, max: Option<int>, f: Frame, k: nat)
    requires k <= |s.past + [f]| && t.past == (s.past + [f])[k..] && max.Some?
    requires forall i | 0 <= i < k :: max.value - (s.past + [f])[i].pts > s.bufferTimeWhenPaused
    ensures forall h | h in s.past + [f] :: h in t.past || max.value - h.pts > s.bufferTimeWhenPaused
  {
    assert s.past + [f] == (s.past + [f])[..k] + t.past;
  }

  lemma StillReplayed(s: State, t: State, max: Option<int>, f: Frame)
    requires Replayed(s, f) && IsRecent(t, max, f) && t.jumpstartFps == s.jumpstartFps >= 1
    requires t.bufferTimeWhenPaused == s.bufferTimeWhenPaused
    requires forall h | h in s.past :: h in t.past || max.value - h.pts > s.bufferTimeWhenPaused
    ensures Replayed(t, f)
  {
    hide TruncDiv;
    if f.media == Video {
      var h :| h in s.past && StandsFor(s.jumpstartFps, h, f);
      if h !in t.past {
        TooOldToMatter(s.jumpstartFps, s.bufferTimeWhenPaused, max.value, h.pts, f.pts);
      }
    }
  }

  lemma SavedFrameIsReplayed(s: State, t: State, max: Option<int>, f: Frame)
    requires Inv(s, max) && Keeping(s) && IsRecent(t, max, f)
    requires t.jumpstartFps == s.jumpstartFps && t.bufferTimeWhenPaused == s.bufferTimeWhenPaused
    requires f in t.past || max.value - f.pts > s.bufferTimeWhenPaused
    ensures Replayed(t, f)
  {
    hide TruncDiv, Inv;
    if f.media == Video {
      if f in t.past {
        assert StandsFor(t.jumpstartFps, f, f);
      } else {
        TooOldToMatter(s.jumpstartFps, s.bufferTimeWhenPaused, max.value, f.pts, f.pts);
      }
    }
  }

  lemma SkippedFrameIsReplayed(s: State, max: Option<int>, f: Frame)
    requires Inv(s, max) && Keeping(s) && LastIsKept(s, max) && IsRecent(s, max, f)
    requires s.queue != [] && f == s.queue[0] && !IsDueForHistory(s, f)
    ensures Replayed(s, f)
  {
    hide TruncDiv;
    SortedParts(s.past, s.queue);
    assert f in s.queue;
    assert forall h | h in s.past :: h.pts <= f.pts;
    if h :| h in s.past && h.media == Video && h.pts == s.lastPast {
      assert StandsFor(s.jumpstartFps, h, f);
    } else {
      TooOldToMatter(s.jumpstartFps, s.bufferTimeWhenPaused, max.value, s.lastPast, f.pts);
    }
  }

  lemma SameSettings(s: State, e: Event)
    requires Playable(s)
    ensures var t := Step(s, e).0;
      && t.bufferTimeWhenPaused == s.bufferTimeWhenPaused && t.jumpstart == s.jumpstart
      && t.jumpstartFps == s.jumpstartFps && t.targetFps == s.targetFps
      && t.paused == if e.SetPaused? then e.paused else s.paused
  {
    hide DropOld, Insert, NeedsClone, ShouldSave, TruncDiv;
    if e.Poll? && s.queue != [] {
      var m := MarkStart(Splice(s));
      ServeShape(m);
    }
  }

  /** A poll that serves no frame of its own leaves the history alone. */
  lemma NoFrameNoHistory(s: State)
    requires Playable(s) && !s.paused
    requires Originals(Step(s, Poll).1) == []
    ensures Step(s, Poll).0.past == s.past && Step(s, Poll).0.lastPast == s.lastPast
  {
    hide DropOld, NeedsClone, ShouldSave;
    if Step(s, Poll).1 != [] {
      assert OriginalOf(Step(s, Poll).1[0]) == [];
    }
  }

  lemma StillRecent(s: State, t: State, max: Option<int>, later: Option<int>, f: Frame)
    requires t.jumpstartFps == s.jumpstartFps >= 1 && t.bufferTimeWhenPaused == s.bufferTimeWhenPaused
    requires max.Some? && later.Some? && max.value <= later.value && IsRecent(t, later, f)
    ensures IsRecent(s, max, f)
  {
    var keep := s.bufferTimeWhenPaused;
    Widen(keep - (later.value - f.pts), keep - (max.value - f.pts), s.jumpstartFps);
  }

  lemma SameHistory(s: State, t: State, max: Option<int>, later: Option<int>, fs: seq<Frame>)
    requires Keeping(s) && LastIsKept(s, max) && AllReplayed(s, max, fs)
    requires t.past == s.past && t.lastPast == s.lastPast && t.jumpstartFps == s.jumpstartFps
    requires t.bufferTimeWhenPaused == s.bufferTimeWhenPaused
    requires max.Some? ==> later.Some? && max.value <= later.value
    ensures LastIsKept(t, later) && AllReplayed(t, later, fs)
  {
    hide IsRecent, StandsFor;
    forall f | f in fs && IsRecent(t, later, f) ensures Replayed(t, f) {
      StillRecent(s, t, max, later, f);
    }
  }

  lemma ServeKeepsHistory(s: State, max: Option<int>, fs: seq<Frame>)
    requires Inv(s, max) && Keeping(s) && LastIsKept(s, max) && AllReplayed(s, max, fs) && Playable(s)
    requires Originals(Step(s, Poll).1) != []
    ensures var (t, o) := Step(s, Poll);
      LastIsKept(t, max) && AllReplayed(t, max, fs + Originals(o))
  {
    ServesOnlyWhenKnown(s);
    SameSettings(s, Poll);
    HasQueue(s, max);
    var k := ServedFrameIsSavedIff(s);
    hide Step, Replayed, IsRecent, IsDueForHistory, Inv, StandsFor;
    var (t, o) := Step(s, Poll);
    var f := s.queue[0];
    assert Originals(o) == [f];
    if IsDueForHistory(s, f) {
      TrimmedHistory(s, t, max, f, k);
      DueKeepsHistory(s, t, max, fs, f);
    } else {
      SameHistory(s, t, max, max, fs);
      forall x | x in fs + [f] && IsRecent(t, max, x) ensures Replayed(t, x) {
        if x == f {
          StillRecent(s, t, max, max, f);
          SkippedFrameIsReplayed(s, max, f);
          NothingTrimmed(s, t, f);
        }
      }
    }
  }

  lemma NothingTrimmed(s: State, t: State, f: Frame)
    requires t.past == s.past && t.jumpstartFps == s.jumpstartFps && Replayed(s, f)
    ensures Replayed(t, f)
  {
  }

  lemma HasQueue(s: State, max: Option<int>)
    requires Inv(s, max) && s.queue != []
    ensures max == Some(s.queue[|s.queue|-1].pts)
  {
  }

  lemma ServesOnlyWhenKnown(s: State)
    requires Playable(s) && !s.paused && Originals(Step(s, Poll).1) != []
    ensures s.delayKnown && s.queue != [] && Step(s, Poll).1 != [] && Step(s, Poll).1[0].Original?
    ensures Originals(Step(s, Poll).1) == [Step(s, Poll).1[0].frame]
  {
    hide Serve;
    var o := Step(s, Poll).1;
    assert |o| <= 1;
    assert Originals(o[1..]) == [];
  }

  lemma DueKeepsHistory(s: State, t: State, max: Option<int>, fs: seq<Frame>, f: Frame)
    requires Inv(s, max) && Keeping(s) && LastIsKept(s, max) && AllReplayed(s, max, fs) && max.Some?
    requires t.jumpstartFps == s.jumpstartFps && t.bufferTimeWhenPaused == s.bufferTimeWhenPaused
    requires t.lastPast == if f.media == Video then f.pts else s.lastPast
    requires forall h | h in s.past + [f] :: h in t.past || max.value - h.pts > s.bufferTimeWhenPaused
    ensures LastIsKept(t, max) && AllReplayed(t, max, fs + [f])
  {
    hide Replayed, IsRecent, Inv;
    assert f in s.past + [f];
    assert forall h | h in s.past :: h in s.past + [f];
    forall x | x in fs + [f] && IsRecent(t, max, x) ensures Replayed(t, x) {
      if x in fs {
        StillRecent(s, t, max, max, x);
        StillReplayed(s, t, max, x);
      } else {
        SavedFrameIsReplayed(s, t, max, f);
      }
    }
  }

  lemma PollKeepsHistory(s: State, max: Option<int>, fs: seq<Frame>)
    requires Inv(s, max) && Keeping(s) && LastIsKept(s, max) && AllReplayed(s, max, fs)
    ensures Playable(s)
    ensures var (t, o) := Step(s, Poll);
      Keeping(t) && LastIsKept(t, max) && AllReplayed(t, max, fs + Originals(o))
  {
    SameSettings(s, Poll);
    var (t, o) := Step(s, Poll);
    hide Step, Replayed, IsRecent, IsDueForHistory, Inv;
    if Originals(o) == [] {
      NoFrameNoHistory(s);
      SameHistory(s, t, max, max, fs);
      assert fs + Originals(o) == fs;
    } else {
      ServeKeepsHistory(s, max, fs);
    }
  }

  lemma StepKeepsHistory(s: State, max: Option<int>, fs: seq<Frame>, e: Event)
    requires Inv(s, max) && Keeping(s) && LastIsKept(s, max) && AllReplayed(s, max, fs)
    requires e.SetPaused? ==> !e.paused
    ensures Playable(s)
    ensures var (t, o) := Step(s, e);
      Keeping(t) && LastIsKept(t, MaxAfter(max, e)) && AllReplayed(t, MaxAfter(max, e), fs + Originals(o))
  {
    if e.Poll? {
      PollKeepsHistory(s, max, fs);
    } else {
      SameSettings(s, e);
      var (t, o) := Step(s, e);
      assert o == [] && t.past == s.past && t.lastPast == s.lastPast;
      hide Step, Inv, Replayed, IsRecent, LastIsKept;
      assert fs + Originals(o) == fs;
      SameHistory(s, t, max, MaxAfter(max, e), fs);
    }
  }

  /** The history of an unpaused run: whatever it has served recently enough, a pause would bring back,
      video at no less than the replay rate. */
  lemma {:induction false} HistoryHoldsWhatWasServed(s: State, max: Option<int>, fs: seq<Frame>, es: seq<Event>)
    requires Inv(s, max) && Keeping(s) && LastIsKept(s, max) && AllReplayed(s, max, fs)
    requires Unpaused(es) && Playable(s) && Timely(s, max, es)
    ensures var (t, out) := Run(s, es);
      Keeping(t) && LastIsKept(t, MaxOf(max, es)) && AllReplayed(t, MaxOf(max, es), fs + Originals(out))
    decreases |es|
  {
    hide Step, Inv, Keeping, LastIsKept, AllReplayed, Originals;
    if es == [] {
      assert Originals([]) == [] by { NoOriginals(); }
      EmptyConcat(fs);
      return;
    }
    var e := es[0];
    assert e in es && (forall x | x in es[1..] :: x in es);
    StepKeepsInv(s, max, e);
    StepKeepsHistory(s, max, fs, e);
    var (s1, o1) := Step(s, e);
    var rest := Run(s1, es[1..]).1;
    HistoryHoldsWhatWasServed(s1, MaxAfter(max, e), fs + Originals(o1), es[1..]);
    OriginalsAppend(o1, rest);
    Associate(fs, Originals(o1), Originals(rest));
  }

  lemma NoOriginals()
    ensures Originals([]) == []
  {
  }

  /** The same for a new node: everything recent that it has served, it could replay. */
  lemma NewNodeCanReplay(s: State, es: seq<Event>)
    requires Configured(s) && s.jumpstart && s.jumpstartFps >= 1 && Timely(s, None, es) && Unpaused(es)
    ensures var (t, out) := Run(s, es);
      forall f | f in Originals(out) && IsRecent(t, MaxOf(None, es), f) :: Replayed(t, f)
  {
    hide Run, Timely, Originals, Replayed, IsRecent;
    HistoryHoldsWhatWasServed(s, None, [], es);
    EmptyConcat(Originals(Run(s, es).1));
  }
}
