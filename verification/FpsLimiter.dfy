/** The frame rate limiter of stream_api.cpp with its clock taken from the frames' timestamps. The
    C++ computes in single precision; here the weighted accumulator, which only ever takes whole
    values, is an integer and rates are exact. Timestamps are milliseconds and not negative. */
module FpsLimiter {

  datatype State = State(
    size: nat,
    desiredFps: real,
    timestampAsDiff: bool,
    secondIntervals: bool,
    framesAccepted: nat,
    framesRejected: nat,
    acc: nat,
    prev: nat)

  function RoundDiv(dividend: nat, divisor: nat): nat
    requires divisor > 0
  {
    (dividend + divisor / 2) / divisor
  }

  /** An accumulator of size 0 never leaves 0. */
  predicate Sane(s: State) {
    s.size == 0 ==> s.acc == 0
  }

  function Elapsed(from: nat, to: nat): nat {
    if from > to then 0 else to - from
  }

  function NextAcc(s: State, elapsed: nat): nat
    requires Sane(s)
  {
    if s.acc == 0 then elapsed * s.size else elapsed + RoundDiv(s.acc * (s.size - 1), s.size)
  }

  /** The weighted rate is above the desired one; an empty accumulator stands for an infinite rate. */
  predicate TooFast(s: State, acc: nat) {
    s.desiredFps != 0.0
    && if acc == 0 then s.size > 0 else (s.size * 1000) as real / acc as real > s.desiredFps
  }

  /** Frames of one clock second are accepted at most every 1000 / desiredFps milliseconds. */
  predicate TooSoon(s: State, pts: nat, elapsed: nat) {
    s.prev / 1000 == pts / 1000 && s.desiredFps != 0.0 && elapsed as real < 1000.0 / s.desiredFps
  }

  function Accept(s: State, pts: nat, acc: nat): State {
    s.(framesAccepted := s.framesAccepted + 1, prev := pts, acc := acc)
  }

  function Reject(s: State): State {
    s.(framesRejected := s.framesRejected + 1)
  }

  function Report(s: State, pts: nat): (r: (State, bool))
    requires Sane(s)
    ensures Sane(r.0)
  {
    var elapsed := if s.timestampAsDiff then pts else Elapsed(s.prev, pts);
    if s.framesAccepted == 0 then (Accept(s, pts, s.acc), true)
    else if s.secondIntervals then
      if TooSoon(s, pts, elapsed) then (Reject(s), false) else (Accept(s, pts, s.acc), true)
    else if TooFast(s, NextAcc(s, elapsed)) then (Reject(s), false)
    else (Accept(s, pts, NextAcc(s, elapsed)), true)
  }

  class Limiter {
    const size: nat
    const desiredFps: real
    var timestampAsDiff: bool
    var secondIntervals: bool
    var framesAccepted: nat
    var framesRejected: nat
    var accumulator: nat
    var prevFrameTime: nat

    ghost function View(): State
      reads this
    {
      State(size, desiredFps, timestampAsDiff, secondIntervals, framesAccepted, framesRejected,
            accumulator, prevFrameTime)
    }

    constructor (frameInterval: nat, limit: real)
      ensures View() == State(frameInterval, limit, false, false, 0, 0, 0, 0)
    {
      size, desiredFps := frameInterval, limit;
      timestampAsDiff, secondIntervals := false, false;
      framesAccepted, framesRejected, accumulator, prevFrameTime := 0, 0, 0, 0;
    }

    method UseSecondIntervals(on: bool)
      modifies this`secondIntervals
      ensures View() == old(View()).(secondIntervals := on)
    {
      secondIntervals := on;
    }

    /** The accumulator if the frame is accepted, and whether it stands for too high a rate. */
    method Weigh(timeElapsed: nat) returns (acc: nat, tooFast: bool)
      requires Sane(View())
      ensures acc == NextAcc(View(), timeElapsed) && tooFast == TooFast(View(), acc)
    {
      hide RoundDiv;
      acc := accumulator;
      if acc == 0 {
        acc := timeElapsed * size;
      } else {
        acc := timeElapsed + RoundDiv(acc * (size - 1), size);
      }
      tooFast := desiredFps != 0.0
        && if acc == 0 then size > 0 else (size * 1000) as real / acc as real > desiredFps;
    }

    method CheckSecond(pts: nat, timeElapsed: nat) returns (tooSoon: bool)
      ensures tooSoon == TooSoon(View(), pts, timeElapsed)
    {
      tooSoon := && prevFrameTime / 1000 == pts / 1000
                 && desiredFps != 0.0
                 && timeElapsed as real < 1000.0 / desiredFps;
    }

    method ReportFrame(pts: nat) returns (accepted: bool)
      requires Sane(View())
      modifies this
      ensures (View(), accepted) == Report(old(View()), pts)
      ensures Sane(View())
    {
      hide NextAcc, TooFast, TooSoon;
      var rejectFrame := false;
      if framesAccepted > 0 {
        var timeElapsed := pts;
        if !timestampAsDiff {
          timeElapsed := if prevFrameTime > pts then 0 else pts - prevFrameTime;
        }
        if secondIntervals {
          rejectFrame := CheckSecond(pts, timeElapsed);
        } else {
          var acc;
          acc, rejectFrame := Weigh(timeElapsed);
          if !rejectFrame {
            StaysSane(View(), timeElapsed);
            accumulator := acc;
          }
        }
      }
      if rejectFrame {
        framesRejected := framesRejected + 1;
      } else {
        framesAccepted := framesAccepted + 1;
        prevFrameTime := pts;
      }
      accepted := !rejectFrame;
    }
  }

  lemma StaysSane(s: State, elapsed: nat)
    requires Sane(s)
    ensures s.size == 0 ==> NextAcc(s, elapsed) == 0
  {
  }

  // ----- Runs -----

  function Run(s: State, ps: seq<nat>): (t: State)
    requires Sane(s)
    ensures Sane(t)
    decreases |ps|
  {
    if ps == [] then s else Run(Report(s, ps[0]).0, ps[1..])
  }

  predicate Ascending(ps: seq<nat>) {
    forall i, j | 0 <= i < j < |ps| :: ps[i] <= ps[j]
  }

  /** No frame is earlier than the last one accepted. */
  predicate After(s: State, ps: seq<nat>) {
    Ascending(ps) && forall p | p in ps :: s.prev <= p
  }

  lemma AfterStep(s: State, ps: seq<nat>)
    requires Sane(s) && After(s, ps) && ps != []
    ensures After(Report(s, ps[0]).0, ps[1..])
  {
    forall p | p in ps[1..] ensures ps[0] <= p && p in ps {
      var i :| 0 <= i < |ps| - 1 && ps[1..][i] == p;
      assert ps[0] <= ps[i+1];
    }
    hide TooSoon, TooFast, NextAcc;
  }

  /** Every frame reported is counted once. */
  lemma {:induction false} EveryFrameIsCounted(s: State, ps: seq<nat>)
    requires Sane(s)
    ensures var t := Run(s, ps);
      t.framesAccepted + t.framesRejected == s.framesAccepted + s.framesRejected + |ps|
    decreases |ps|
  {
    hide TooSoon, TooFast, NextAcc;
    if ps != [] {
      EveryFrameIsCounted(Report(s, ps[0]).0, ps[1..]);
    }
  }

  // ----- The long-run rate of the weighted mode -----

  /** Weighted mode with a positive limit; an accumulator, once set, stands for a rate within it. */
  ghost predicate Weighted(s: State) {
    && s.size > 0 && s.desiredFps > 0.0 && !s.timestampAsDiff && !s.secondIntervals
    && (s.acc > 0 ==> WithinRate(s.size, s.acc, s.desiredFps))
  }

  /** `size` frames in `acc` milliseconds are no more than `fps` frames a second. */
  ghost predicate WithinRate(size: nat, acc: nat, fps: real) {
    fps * acc as real >= 1000.0 * size as real
  }

  lemma RoundDivBounds(a: nat, n: nat)
    requires n > 0
    ensures n * RoundDiv(a, n) <= a + n / 2
    ensures a + n / 2 < n * RoundDiv(a, n) + n
  {
  }

  lemma RateBound(size: nat, acc: nat, fps: real)
    requires size > 0 && acc > 0 && fps > 0.0
    ensures (size * 1000) as real / acc as real > fps <==> 1000.0 * size as real > fps * acc as real
  {
    var q := (size * 1000) as real / acc as real;
    assert q * acc as real == 1000.0 * size as real;
    if q > fps {
      assert (q - fps) * acc as real > 0.0;
    } else {
      assert (fps - q) * acc as real >= 0.0;
    }
  }

  lemma {:induction false} ProductAsReal(a: nat, b: nat)
    ensures (a * b) as real == a as real * b as real
    decreases a
  {
    if a > 0 {
      ProductAsReal(a - 1, b);
      assert a * b == (a - 1) * b + b;
      assert a as real * b as real == (a - 1) as real * b as real + b as real;
    }
  }

  lemma CancelPositive(n: real, y: real)
    requires n > 0.0 && n * y >= 0.0
    ensures y >= 0.0
  {
  }

  lemma Nonnegative(x: real, y: real)
    requires x >= 0.0 && y >= 0.0
    ensures x * y >= 0.0
  {
  }

  lemma ShareOf(a: real, n: real, fps: real)
    requires fps > 0.0 && fps * a >= 1000.0 * n
    ensures a >= 1000.0 / fps * n
  {
    var share := 1000.0 / fps;
    assert share * fps == 1000.0;
    assert fps * (a - share * n) == fps * a - share * fps * n;
    CancelPositive(fps, a - share * n);
  }

  /** The accumulator loses at least one frame's share less a rounding error of a half... */
  lemma DecayAtLeast(n: real, a: real, x: real, share: real)
    requires n > 0.0 && a >= share * n
    requires 2.0 * (n * x) <= 2.0 * (a * n) - 2.0 * a + n
    ensures a - x >= share - 0.5
  {
    var y := 2.0 * (a - x) - (2.0 * share - 1.0);
    assert n * y == 2.0 * (a * n) - 2.0 * (n * x) - 2.0 * (share * n) + n;
    CancelPositive(n, y);
  }

  /** ... and keeps at least the share of all the others less that error. */
  lemma RestAtLeast(n: real, a: real, x: real, share: real)
    requires n >= 1.0 && a >= share * n
    requires 2.0 * (n * x) >= 2.0 * (a * n) - 2.0 * a - n
    ensures x >= share * (n - 1.0) - 0.5
  {
    var z := 2.0 * x - (2.0 * (share * (n - 1.0)) - 1.0);
    var d := a - share * n;
    Nonnegative(n - 1.0, d);
    assert n * z == 2.0 * (n * x) - 2.0 * (n * (share * (n - 1.0))) + n;
    assert (n - 1.0) * d == a * n - a - n * (share * (n - 1.0));
    CancelPositive(n, z);
  }

  lemma RoundingAsReal(size: nat, acc: nat, r: nat)
    requires size > 0
    requires size * r <= acc * (size - 1) + size / 2 && acc * (size - 1) + size / 2 < size * r + size
    ensures var n, a, x := size as real, acc as real, r as real;
      && 2.0 * (n * x) <= 2.0 * (a * n) - 2.0 * a + n
      && 2.0 * (n * x) >= 2.0 * (a * n) - 2.0 * a - n
  {
    ProductAsReal(size, r);
    ProductAsReal(acc, size);
    var sr, ac := size * r, acc * size;
    assert acc * (size - 1) == ac - acc;
    assert 2 * sr <= 2 * ac - 2 * acc + size;
    assert 2 * sr >= 2 * ac - 2 * acc - size;
  }

  lemma DecayRounding(size: nat, acc: nat)
    requires size > 0
    ensures var n, a, x := size as real, acc as real, RoundDiv(acc * (size - 1), size) as real;
      && 2.0 * (n * x) <= 2.0 * (a * n) - 2.0 * a + n
      && 2.0 * (n * x) >= 2.0 * (a * n) - 2.0 * a - n
  {
    hide RoundDiv;
    RoundDivBounds(acc * (size - 1), size);
    RoundingAsReal(size, acc, RoundDiv(acc * (size - 1), size));
  }

  lemma DecayBounds(n: real, a: real, x: real, fps: real)
    requires n >= 1.0 && fps > 0.0 && fps * a >= 1000.0 * n
    requires 2.0 * (n * x) <= 2.0 * (a * n) - 2.0 * a + n
    requires 2.0 * (n * x) >= 2.0 * (a * n) - 2.0 * a - n
    ensures a - x >= 1000.0 / fps - 0.5 && x >= 1000.0 / fps * (n - 1.0) - 0.5
  {
    ShareOf(a, n, fps);
    DecayAtLeast(n, a, x, 1000.0 / fps);
    RestAtLeast(n, a, x, 1000.0 / fps);
  }

  /** How far the accumulator of a limiter decays before the elapsed time is added. */
  lemma NextAccBounds(s: State, elapsed: nat)
    requires Weighted(s) && s.acc > 0
    ensures var next, share := NextAcc(s, elapsed), 1000.0 / s.desiredFps;
      && share - 0.5 <= elapsed as real + s.acc as real - next as real
      && next as real >= elapsed as real + share * (s.size as real - 1.0) - 0.5
  {
    hide RoundDiv;
    DecayRounding(s.size, s.acc);
    DecayBounds(s.size as real, s.acc as real, RoundDiv(s.acc * (s.size - 1), s.size) as real, s.desiredFps);
  }

  lemma TooFastIff(s: State, acc: nat)
    requires Weighted(s)
    ensures TooFast(s, acc) <==> acc == 0 || !WithinRate(s.size, acc, s.desiredFps)
  {
    if acc > 0 {
      RateBound(s.size, acc, s.desiredFps);
    }
  }

  /** A weighted limiter only ever stores an accumulator within the desired rate. */
  lemma ReportKeepsWeighted(s: State, pts: nat)
    requires Weighted(s) && Sane(s)
    ensures Weighted(Report(s, pts).0)
  {
    hide NextAcc, TooFast, WithinRate;
    TooFastIff(s, NextAcc(s, Elapsed(s.prev, pts)));
  }

  /** One accepted frame takes its share of the elapsed time out of the account. */
  lemma {:induction false} AcceptedFrameCosts(s: State, pts: nat)
    requires Weighted(s) && Sane(s) && s.framesAccepted > 0 && s.acc > 0 && s.prev <= pts
    ensures var (t, accepted) := Report(s, pts);
      && Weighted(t) && t.acc > 0 && t.desiredFps == s.desiredFps && t.size == s.size
      && t.framesAccepted == s.framesAccepted + (if accepted then 1 else 0)
      && (!accepted ==> t.prev == s.prev && t.acc == s.acc)
      && (accepted ==> t.prev == pts)
      && (accepted ==> 1000.0 / s.desiredFps - 0.5 <= (pts - s.prev) as real + s.acc as real - t.acc as real)
  {
    hide NextAcc, TooFast;
    var next := NextAcc(s, pts - s.prev);
    NextAccBounds(s, pts - s.prev);
    TooFastIff(s, next);
  }

  /** A frame that comes late enough after the last accepted one is accepted. */
  lemma {:induction false} LateFrameIsAccepted(s: State, pts: nat)
    requires Weighted(s) && Sane(s) && s.framesAccepted > 0 && s.acc > 0 && s.prev <= pts
    requires (pts - s.prev) as real >= 1000.0 / s.desiredFps + 0.5
    ensures Report(s, pts).1
  {
    hide NextAcc, TooFast;
    var next := NextAcc(s, pts - s.prev);
    var f, n := s.desiredFps, s.size as real;
    var share := 1000.0 / f;
    NextAccBounds(s, pts - s.prev);
    TooFastIff(s, next);
    assert share + share * (n - 1.0) == share * n;
    assert f * share == 1000.0;
    CancelPositive(f, share);
    PositiveProduct(share, n);
    ScaleUp(f, share * n, next as real);
    assert f * (share * n) == 1000.0 * n;
  }

  lemma PositiveProduct(x: real, y: real)
    requires x >= 0.0 && x != 0.0 && y > 0.0
    ensures x * y > 0.0
  {
  }

  lemma ScaleUp(f: real, x: real, y: real)
    requires f > 0.0 && x <= y
    ensures f * x <= f * y
  {
    Nonnegative(f, y - x);
    assert f * (y - x) == f * y - f * x;
  }

  /** What has been paid for: k shares of time, up to what the accumulator holds at the two ends. */
  ghost predicate Paid(s: State, t: State, share: real) {
    && t.framesAccepted >= s.framesAccepted && t.prev >= s.prev
    && (t.framesAccepted - s.framesAccepted) as real * share
         <= (t.prev - s.prev) as real + s.acc as real - t.acc as real
  }

  lemma PaidStep(s: State, u: State, t: State, share: real)
    requires Paid(u, t, share) && u.prev >= s.prev
    requires u.framesAccepted == s.framesAccepted ==> u.prev == s.prev && u.acc == s.acc
    requires u.framesAccepted == s.framesAccepted || u.framesAccepted == s.framesAccepted + 1
    requires u.framesAccepted != s.framesAccepted ==>
      share <= (u.prev - s.prev) as real + s.acc as real - u.acc as real
    ensures Paid(s, t, share)
  {
    OneMoreShare(t.framesAccepted - u.framesAccepted, share);
  }

  /** Long-run rate: k more accepted frames take k times 1000 / desiredFps - 1/2 milliseconds; and a
      set accumulator never stands for more than the desired rate. */
  lemma {:induction false} LongRunRate(s: State, ps: seq<nat>)
    requires Weighted(s) && Sane(s) && s.framesAccepted > 0 && s.acc > 0 && After(s, ps)
    ensures var t := Run(s, ps);
      && Paid(s, t, 1000.0 / s.desiredFps - 0.5)
      && t.acc > 0 && WithinRate(s.size, t.acc, s.desiredFps)
    decreases |ps|
  {
    if ps != [] {
      assert ps[0] in ps && s.prev <= ps[0];
      AcceptedFrameCosts(s, ps[0]);
      AfterStep(s, ps);
      hide Report, After, Weighted, WithinRate, Paid;
      var u := Report(s, ps[0]).0;
      LongRunRate(u, ps[1..]);
      PaidStep(s, u, Run(u, ps[1..]), 1000.0 / s.desiredFps - 0.5);
    }
  }

  lemma OneMoreShare(k: nat, share: real)
    ensures (k + 1) as real * share == k as real * share + share
  {
  }

  // ----- At most desiredFps frames per clock second -----

  /** The frames accepted in one clock second. */
  function AcceptedIn(s: State, ps: seq<nat>, second: nat): nat
    requires Sane(s)
    decreases |ps|
  {
    if ps == [] then 0 else
    var (t, accepted) := Report(s, ps[0]);
    (if accepted && ps[0] / 1000 == second then 1 else 0) + AcceptedIn(t, ps[1..], second)
  }

  ghost predicate BySecond(s: State) {
    s.secondIntervals && !s.timestampAsDiff && s.desiredFps > 0.0
  }

  /** `c` frames were accepted in this second so far, and they took their time. */
  ghost predicate Spaced(s: State, second: nat, c: nat) {
    && BySecond(s) && s.framesAccepted > 0 && c >= 1
    && s.prev / 1000 == second
    && s.desiredFps * (s.prev - 1000 * second) as real >= 1000.0 * (c - 1) as real
  }

  lemma SpacedStep(s: State, pts: nat, second: nat, c: nat)
    requires Spaced(s, second, c) && Sane(s) && s.prev <= pts && pts / 1000 == second
    ensures var (t, accepted) := Report(s, pts);
      Spaced(t, second, if accepted then c + 1 else c)
  {
    var e := pts - s.prev;
    if !TooSoon(s, pts, e) {
      var f := s.desiredFps;
      assert f * (1000.0 / f) == 1000.0;
      ScaleUp(f, 1000.0 / f, e as real);
      assert f * (pts - 1000 * second) as real == f * (s.prev - 1000 * second) as real + f * e as real;
    }
  }

  lemma {:induction false} NoMoreInSecond(s: State, ps: seq<nat>, second: nat)
    requires Sane(s) && forall p | p in ps :: p / 1000 > second
    ensures AcceptedIn(s, ps, second) == 0
    decreases |ps|
  {
    if ps != [] {
      assert ps[0] in ps && forall p | p in ps[1..] :: p in ps;
      NoMoreInSecond(Report(s, ps[0]).0, ps[1..], second);
    }
    hide Report;
  }

  lemma SpacedBound(s: State, second: nat, c: nat)
    requires Spaced(s, second, c)
    ensures 1000.0 * (c - 1) as real <= 999.0 * s.desiredFps
  {
    ScaleUp(s.desiredFps, (s.prev - 1000 * second) as real, 999.0);
  }

  lemma {:induction false} SpacedRun(s: State, ps: seq<nat>, second: nat, c: nat)
    requires Spaced(s, second, c) && Sane(s) && After(s, ps)
    ensures 1000.0 * (c + AcceptedIn(s, ps, second) - 1) as real <= 999.0 * s.desiredFps
    decreases |ps|
  {
    if ps == [] || ps[0] / 1000 > second {
      if ps != [] {
        forall p | p in ps ensures p / 1000 > second {
          assert p >= ps[0];
        }
        NoMoreInSecond(s, ps, second);
      }
      assert AcceptedIn(s, ps, second) == 0;
      SpacedBound(s, second, c);
    } else {
      assert ps[0] in ps;
      assert ps[0] / 1000 == second;
      SpacedStep(s, ps[0], second, c);
      AfterStep(s, ps);
      var (t, accepted) := Report(s, ps[0]);
      assert t.desiredFps == s.desiredFps;
      hide Report, Spaced;
      SpacedRun(t, ps[1..], second, if accepted then c + 1 else c);
    }
  }

  /** In no clock second are more frames accepted than the desired rate allows. */
  lemma {:induction false} AtMostRatePerSecond(s: State, ps: seq<nat>, second: nat)
    requires BySecond(s) && Sane(s) && After(s, ps)
    requires s.framesAccepted == 0 || s.prev / 1000 < second
    ensures 1000.0 * (AcceptedIn(s, ps, second) - 1) as real <= 999.0 * s.desiredFps
    ensures AcceptedIn(s, ps, second) as real < s.desiredFps + 1.0
    decreases |ps|
  {
    if ps != [] {
      assert ps[0] in ps;
      AfterStep(s, ps);
      var (t, accepted) := Report(s, ps[0]);
      assert BySecond(t) && t.framesAccepted > 0 && t.desiredFps == s.desiredFps;
      if ps[0] / 1000 > second {
        forall p | p in ps ensures p / 1000 > second {
          assert p >= ps[0];
        }
        NoMoreInSecond(s, ps, second);
      } else if ps[0] / 1000 == second {
        assert accepted && t.prev == ps[0];
        Nonnegative(s.desiredFps, (ps[0] - 1000 * second) as real);
        SpacedRun(t, ps[1..], second, 1);
      } else {
        AtMostRatePerSecond(t, ps[1..], second);
      }
    }
  }

  // ----- Limiters that agree -----

  function Decisions(s: State, ps: seq<nat>): seq<bool>
    requires Sane(s)
    decreases |ps|
  {
    if ps == [] then [] else
    var (t, accepted) := Report(s, ps[0]);
    [accepted] + Decisions(t, ps[1..])
  }

  lemma {:induction false} SameFromHereOn(a: State, b: State, ps: seq<nat>)
    requires Sane(a) && Sane(b) && BySecond(a) && BySecond(b) && a.desiredFps == b.desiredFps
    requires a.prev == b.prev && a.framesAccepted > 0 && b.framesAccepted > 0
    ensures Decisions(a, ps) == Decisions(b, ps) && Run(a, ps).prev == Run(b, ps).prev
    decreases |ps|
  {
    if ps != [] {
      SameFromHereOn(Report(a, ps[0]).0, Report(b, ps[0]).0, ps[1..]);
    }
  }

  /** Two limiters, whatever happened to them before, agree from the first frame of a second on. */
  lemma LimitersSynchronise(a: State, b: State, ps: seq<nat>)
    requires Sane(a) && Sane(b) && BySecond(a) && BySecond(b) && a.desiredFps == b.desiredFps
    requires ps != []
    requires a.framesAccepted == 0 || a.prev / 1000 != ps[0] / 1000
    requires b.framesAccepted == 0 || b.prev / 1000 != ps[0] / 1000
    ensures Decisions(a, ps) == Decisions(b, ps) && Run(a, ps).prev == Run(b, ps).prev
  {
    SameFromHereOn(Report(a, ps[0]).0, Report(b, ps[0]).0, ps[1..]);
  }

  lemma {:induction false} PrevStaysBehind(s: State, ps: seq<nat>, bound: nat)
    requires Sane(s) && BySecond(s) && s.prev <= bound && forall p | p in ps :: p <= bound
    ensures var t := Run(s, ps);
      BySecond(t) && t.prev <= bound && t.desiredFps == s.desiredFps
    decreases |ps|
  {
    if ps != [] {
      assert ps[0] in ps && forall p | p in ps[1..] :: p in ps;
      PrevStaysBehind(Report(s, ps[0]).0, ps[1..], bound);
    }
  }

  lemma SliceBelow(stream: seq<nat>, i: nat, m: nat)
    requires Ascending(stream) && i < m <= |stream|
    ensures forall p | p in stream[i..m] :: p <= stream[m-1]
  {
    forall p | p in stream[i..m] ensures p <= stream[m-1] {
      var k :| 0 <= k < m - i && stream[i..m][k] == p;
      assert p == stream[i + k];
    }
  }

  /** One stream, two fresh limiters started at different frames: from the first frame of the next
      second on they make the same decisions. */
  lemma {:induction false} LateStarterCatchesUp(s: State, stream: seq<nat>, i: nat, j: nat, m: nat)
    requires Sane(s) && BySecond(s) && s.framesAccepted == 0 && s.prev == 0 && Ascending(stream)
    requires i <= j < m < |stream| && stream[m-1] / 1000 < stream[m] / 1000
    ensures var a, b := Run(s, stream[i..m]), Run(s, stream[j..m]);
      && Decisions(a, stream[m..]) == Decisions(b, stream[m..])
      && Run(a, stream[m..]).prev == Run(b, stream[m..]).prev
  {
    SliceBelow(stream, i, m);
    SliceBelow(stream, j, m);
    PrevStaysBehind(s, stream[i..m], stream[m-1]);
    PrevStaysBehind(s, stream[j..m], stream[m-1]);
    LimitersSynchronise(Run(s, stream[i..m]), Run(s, stream[j..m]), stream[m..]);
  }

  // ----- Exactly which frames are accepted -----

  lemma RateAsProduct(fps: real, elapsed: real)
    requires fps > 0.0
    ensures elapsed < 1000.0 / fps <==> fps * elapsed < 1000.0
  {
    ShareAsProduct(fps, 1000.0 / fps, elapsed);
  }

  lemma ShareAsProduct(fps: real, share: real, elapsed: real)
    requires fps > 0.0 && fps * share == 1000.0
    ensures elapsed < share <==> fps * elapsed < 1000.0
  {
    var d := elapsed - share;
    assert fps * d == fps * elapsed - 1000.0;
    if d < 0.0 {
      PositiveProduct(fps, -d);
      assert fps * -d == -(fps * d);
    } else {
      Nonnegative(fps, d);
    }
  }

  lemma ScaleUpStrictly(f: real, x: real, y: real)
    requires f > 0.0 && x < y
    ensures f * x < f * y
  {
    PositiveProduct(f, y - x);
    assert f * (y - x) == f * y - f * x;
  }

  /** The first frame is accepted, and without a limit every frame is. */
  lemma FirstAndUnlimitedAreAccepted(s: State, pts: nat)
    requires Sane(s) && (s.framesAccepted == 0 || s.desiredFps == 0.0)
    ensures Report(s, pts).1
  {
  }

  /** By clock seconds a frame is accepted exactly if it is in another second than the last one accepted
      or at least 1000 / desiredFps milliseconds after it. */
  lemma InSecondAcceptedIff(s: State, pts: nat)
    requires BySecond(s) && Sane(s) && s.framesAccepted > 0 && s.prev <= pts
    ensures Report(s, pts).1
       <==> s.prev / 1000 != pts / 1000 || s.desiredFps * (pts - s.prev) as real >= 1000.0
  {
    RateAsProduct(s.desiredFps, (pts - s.prev) as real);
  }

  /** The timestamp of the last frame accepted among the first k. */
  function LastAccepted(before: nat, ps: seq<nat>, decisions: seq<bool>, k: nat): nat
    requires k <= |ps| == |decisions|
  {
    if k == 0 then before
    else if decisions[k-1] then ps[k-1]
    else LastAccepted(before, ps, decisions, k - 1)
  }

  lemma {:induction false} LastAcceptedTail(before: nat, ps: seq<nat>, decisions: seq<bool>, k: nat)
    requires 1 <= k <= |ps| == |decisions|
    ensures LastAccepted(before, ps, decisions, k)
         == LastAccepted(if decisions[0] then ps[0] else before, ps[1..], decisions[1..], k - 1)
    decreases k
  {
    if k > 1 && !decisions[k-1] {
      LastAcceptedTail(before, ps, decisions, k - 1);
    }
  }

  lemma {:induction false} OneDecisionEach(s: State, ps: seq<nat>)
    requires Sane(s)
    ensures |Decisions(s, ps)| == |ps|
    decreases |ps|
  {
    hide Report;
    if ps != [] {
      OneDecisionEach(Report(s, ps[0]).0, ps[1..]);
    }
  }

  lemma ReportKeepsBySecond(s: State, pts: nat)
    requires BySecond(s) && Sane(s) && s.framesAccepted > 0
    ensures var (t, accepted) := Report(s, pts);
      && BySecond(t) && t.framesAccepted > 0 && t.desiredFps == s.desiredFps
      && t.prev == if accepted then pts else s.prev
  {
    hide TooSoon;
  }

  lemma AfterTheFirst(s: State, ps: seq<nat>)
    requires After(s, ps) && ps != []
    ensures s.prev <= ps[0]
  {
    assert ps[0] in ps;
  }

  lemma NoneAccepted(before: nat, ps: seq<nat>, decisions: seq<bool>)
    requires |ps| == |decisions|
    ensures LastAccepted(before, ps, decisions, 0) == before
  {
  }

  /** Every decision of a run by clock seconds: the k-th frame is accepted exactly if the last one
      accepted before it is in another second or at least 1000 / desiredFps milliseconds back. */
  lemma {:induction false} EveryDueFrameIsAccepted(s: State, ps: seq<nat>, k: nat)
    requires BySecond(s) && Sane(s) && s.framesAccepted > 0 && After(s, ps) && k < |ps|
    ensures var d := Decisions(s, ps);
      && |d| == |ps|
      && var last := LastAccepted(s.prev, ps, d, k);
         last <= ps[k] &&
         (d[k] <==> last / 1000 != ps[k] / 1000 || s.desiredFps * (ps[k] - last) as real >= 1000.0)
    decreases k
  {
    hide Report, BySecond, After, LastAccepted;
    OneDecisionEach(s, ps);
    AfterStep(s, ps);
    ReportKeepsBySecond(s, ps[0]);
    AfterTheFirst(s, ps);
    if k == 0 {
      InSecondAcceptedIff(s, ps[0]);
      NoneAccepted(s.prev, ps, Decisions(s, ps));
    } else {
      var d := Decisions(s, ps);
      var t := Report(s, ps[0]).0;
      assert d[1..] == Decisions(t, ps[1..]) && d[0] == Report(s, ps[0]).1;
      EveryDueFrameIsAccepted(t, ps[1..], k - 1);
      LastAcceptedTail(s.prev, ps, d, k);
      assert ps[1..][k-1] == ps[k] && d[1..][k-1] == d[k];
    }
  }

  /** Weighted mode with an empty accumulator: the frame is accepted exactly if the time since the last
      one allows the rate. */
  lemma SecondFrameAcceptedIff(s: State, pts: nat)
    requires Weighted(s) && Sane(s) && s.framesAccepted > 0 && s.acc == 0 && s.prev <= pts
    ensures var (t, accepted) := Report(s, pts);
      && (accepted <==> s.desiredFps * (pts - s.prev) as real >= 1000.0)
      && t.acc == if accepted then s.size * (pts - s.prev) else 0
  {
    hide RoundDiv;
    var e := pts - s.prev;
    if e == 0 {
      assert s.desiredFps * e as real == 0.0;
    } else {
      ProductPositive(e, s.size);
      TooFastIff(s, e * s.size);
      ProductAsReal(e, s.size);
      CancelSize(s.desiredFps, e as real, s.size as real);
      assert s.desiredFps * (e as real * s.size as real) == s.desiredFps * e as real * s.size as real;
    }
  }

  lemma ProductPositive(a: nat, b: nat)
    requires a > 0 && b > 0
    ensures a * b > 0
  {
  }

  lemma CancelSize(f: real, e: real, n: real)
    requires n > 0.0
    ensures f * e * n >= 1000.0 * n <==> f * e >= 1000.0
  {
    if f * e >= 1000.0 {
      ScaleUp(n, 1000.0, f * e);
    } else {
      ScaleUpStrictly(n, f * e, 1000.0);
    }
  }

  /** `q` is `a / n`, give or take a half. */
  ghost predicate IsNearest(q: nat, a: nat, n: nat) {
    2 * a - n - 1 < 2 * (n * q) <= 2 * a + n
  }

  lemma RoundedIsNearest(a: nat, n: nat)
    requires n > 0
    ensures IsNearest(RoundDiv(a, n), a, n)
  {
    hide RoundDiv;
    RoundDivBounds(a, n);
  }

  /** Weighted mode with a set accumulator: it decays by one part in `size`, rounded, takes in the time
      since the last frame accepted, and the frame is accepted exactly if that allows the rate. */
  lemma WeightedAcceptedIff(s: State, pts: nat) returns (rest: nat)
    requires Weighted(s) && Sane(s) && s.framesAccepted > 0 && s.acc > 0 && s.prev <= pts
    ensures IsNearest(rest, s.acc * (s.size - 1), s.size)
    ensures var (t, accepted) := Report(s, pts);
      && (accepted <==> rest + (pts - s.prev) > 0
                        && s.desiredFps * (rest + (pts - s.prev)) as real >= 1000.0 * s.size as real)
      && t.acc == if accepted then rest + (pts - s.prev) else s.acc
  {
    hide RoundDiv, TooFast, IsNearest;
    rest := RoundDiv(s.acc * (s.size - 1), s.size);
    RoundedIsNearest(s.acc * (s.size - 1), s.size);
    TooFastIff(s, pts - s.prev + rest);
  }

  /** A timestamp given as a difference counts as the time since the last frame accepted, and a frame
      earlier than that one as no time at all. */
  lemma TimeCountsFromTheLastFrame(s: State, pts: nat)
    requires Sane(s) && !s.secondIntervals && !s.timestampAsDiff && s.framesAccepted > 0
    ensures var (d, u) := (Report(s.(timestampAsDiff := true), pts), Report(s, s.prev + pts));
      d.1 == u.1 && d.0.acc == u.0.acc
    ensures pts <= s.prev ==>
      Report(s, pts).1 == Report(s, s.prev).1 && Report(s, pts).0.acc == Report(s, s.prev).0.acc
  {
    hide RoundDiv;
  }
}
