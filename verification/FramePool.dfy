/** The frame pool of frame_allocator.cpp: an intrusive list of free frames, a count of outstanding
    ones, shrinking, and a destruction that waits for the last outstanding frame. Each call is one
    atomic step, registering a new frame (which takes no lock in the source) included. */
module FramePool {
  import opened Media

  const DESIRED_COUNT := 5
  const REDUCTION_TIME_THRESHOLD := 2000

  // ----- The pool on values -----

  /** `free` from the head of the list on, `out` what callers hold, `gone` what has been freed. */
  datatype Pool<!T(==)> = Pool(free: seq<T>, out: set<T>, gone: seq<T>, pending: bool, alive: bool)

  function Reduce<T>(p: Pool<T>, stale: bool): (Pool<T>, bool) {
    if |p.free| > DESIRED_COUNT && stale then
      (p.(free := p.free[1..], gone := p.gone + [p.free[0]]), true)
    else (p, false)
  }

  function Take<T>(p: Pool<T>, stale: bool): (Pool<T>, Option<T>) {
    if p.free == [] then (p, None) else
    (Reduce(p.(free := p.free[1..], out := p.out + {p.free[0]}), stale).0, Some(p.free[0]))
  }

  function Enroll<T>(p: Pool<T>, f: T): Pool<T> {
    p.(out := p.out + {f})
  }

  function Finish<T>(p: Pool<T>): Pool<T> {
    p.(gone := p.gone + p.free, free := [], alive := false)
  }

  function GiveBack<T>(p: Pool<T>, f: T, stale: bool): Pool<T> {
    var (q, reduced) := Reduce(p, stale);
    var r := if reduced then q.(gone := q.gone + [f], out := q.out - {f})
             else q.(free := [f] + q.free, out := q.out - {f});
    if r.pending && r.out == {} then Finish(r) else r
  }

  function Dismiss<T>(p: Pool<T>): Pool<T> {
    if p.out != {} then p.(pending := true) else Finish(p)
  }

  // ----- The pool on the heap -----

  class PooledFrame {
    var next: PooledFrame?
    var refcount: int
    var pooled: bool
    ghost var released: bool

    constructor ()
      ensures refcount == 0 && next == null && !pooled && !released
    {
      next, refcount, pooled := null, 0, false;
      released := false;
    }

    /** Cuts the frame off its pool; taking and dropping a reference then runs its destructor. */
    method Release()
      requires refcount <= 0 && !released
      modifies this
      ensures released && !pooled && next == old(next)
    {
      pooled := false;
      refcount := refcount + 1;
      refcount := refcount - 1;
      if refcount <= 0 {
        released := true;
      }
    }
  }

  /** The list that starts at `head` leads through exactly the frames `fs`. */
  ghost predicate ListOf(head: PooledFrame?, fs: seq<PooledFrame>)
    reads fs
    decreases |fs|
  {
    if fs == [] then head == null
    else
      assert forall f | f in fs[1..] :: f in fs;
      head == fs[0] && ListOf(head.next, fs[1..])
  }

  lemma HeadOf(head: PooledFrame?, fs: seq<PooledFrame>)
    requires ListOf(head, fs)
    ensures head == null <==> fs == []
    ensures head != null ==> head == fs[0] && forall f | f in fs[1..] :: f in fs
  {
  }

  lemma DistinctTail(fs: seq<PooledFrame>)
    requires fs != [] && forall i, j | 0 <= i < j < |fs| :: fs[i] != fs[j]
    ensures fs[0] !in fs[1..] && fs[0] in fs && forall f | f in fs[1..] :: f in fs
  {
  }

  class FrameAllocator {
    var freeList: PooledFrame?
    var freeListCount: int
    var allocListCount: int
    var freed: bool
    var lastAllocEvent: nat
    ghost var free: seq<PooledFrame>
    ghost var out: set<PooledFrame>
    ghost var gone: seq<PooledFrame>
    ghost var alive: bool

    ghost function View(): Pool<PooledFrame>
      reads this
    {
      Pool(free, out, gone, freed, alive)
    }

    ghost predicate Valid()
      reads this, free, out, gone
    {
      && ListOf(freeList, free) && Counted() && Apart()
      && (forall f | f in free :: f.refcount == 0 && f.pooled && !f.released)
      && (forall f | f in out :: f.pooled && !f.released)
      && forall f | f in gone :: f.released
    }

    ghost predicate Counted()
      reads this
    {
      freeListCount == |free| && allocListCount == |out|
    }

    ghost predicate Apart()
      reads this
    {
      && (forall i, j | 0 <= i < j < |free| :: free[i] != free[j])
      && (forall f | f in free :: f !in out && f !in gone)
      && forall f | f in out :: f !in gone
    }

    constructor ()
      ensures Valid() && View() == Pool([], {}, [], false, true)
    {
      freeList, freeListCount, allocListCount, freed, lastAllocEvent := null, 0, 0, false, 0;
      free, out, gone, alive := [], {}, [], true;
    }

    ghost predicate Stale(now: nat)
      reads this`lastAllocEvent
    {
      now >= lastAllocEvent && now - lastAllocEvent > 2000
    }

    /** Frees the first free frame if there are more than wanted and none was made for a while. */
    method ReduceList(now: nat) returns (reduced: bool)
      requires Valid()
      modifies this, if free == [] then {} else {free[0]}
      ensures Valid() && (View(), reduced) == Reduce(old(View()), old(Stale(now)))
      ensures lastAllocEvent == old(lastAllocEvent)
    {
      var elapsed := if lastAllocEvent > now then 0 else now - lastAllocEvent;
      if freeListCount > DESIRED_COUNT && elapsed > REDUCTION_TIME_THRESHOLD && freeList != null {
        DistinctTail(free);
        var f := freeList;
        var next := f.next;
        f.Release();
        freeList := next;
        freeListCount := freeListCount - 1;
        gone := gone + [f];
        free := free[1..];
        return true;
      }
      return false;
    }

    method TakeHead() returns (res: PooledFrame)
      requires Valid() && freeList != null
      modifies this, free[0]
      ensures Valid() && free == old(free)[1..] && out == old(out) + {res} && res == old(free)[0]
      ensures gone == old(gone) && freed == old(freed) && alive == old(alive)
      ensures lastAllocEvent == old(lastAllocEvent) && res.refcount == 0
    {
      DistinctTail(free);
      res := freeList;
      freeList := res.next;
      freeListCount := freeListCount - 1;
      allocListCount := allocListCount + 1;
      res.next := null;
      out := out + {res};
      free := free[1..];
    }

    method Get(now: nat) returns (res: PooledFrame?)
      requires Valid()
      modifies this, free
      ensures Valid()
      ensures var (p, r) := Take(old(View()), old(Stale(now)));
        View() == p && res == if r.Some? then r.value else null
      ensures res != null ==> res.refcount == 0 && res in out && res in old(free)
      ensures lastAllocEvent == old(lastAllocEvent)
    {
      hide ListOf;
      res := null;
      if freeList != null {
        HeadOf(freeList, free);
        res := TakeHead();
        var _ := ReduceList(now);
      } else {
        HeadOf(freeList, free);
      }
    }

    method Register(f: PooledFrame, now: nat)
      requires Valid() && f !in free && f !in out && f !in gone && !f.released
      modifies this, f
      ensures Valid() && View() == Enroll(old(View()), f)
      ensures f.refcount == old(f.refcount) && lastAllocEvent == now
    {
      f.pooled := true;
      lastAllocEvent := now;
      allocListCount := allocListCount + 1;
      out := out + {f};
    }

    /** Frees every frame of the list; the pool is gone after that. */
    method FreeAll()
      requires Valid() && alive && out == {}
      modifies this, free
      ensures Valid() && View() == Finish(old(View()))
    {
      ghost var before := View();
      while freeList != null
        invariant Valid() && alive && out == {} && freed == before.pending
        invariant |free| <= |before.free| && free == before.free[|before.free| - |free|..]
        invariant gone == before.gone + before.free[..|before.free| - |free|]
        decreases |free|
      {
        FreeHead();
      }
      HeadOf(freeList, free);
      alive := false;
    }

    method FreeHead()
      requires Valid() && freeList != null
      modifies this, free[0]
      ensures Valid() && free == old(free)[1..] && gone == old(gone) + [old(free)[0]]
      ensures out == old(out) && freed == old(freed) && alive == old(alive)
      ensures lastAllocEvent == old(lastAllocEvent)
    {
      DistinctTail(free);
      var f := freeList;
      var next := f.next;
      f.Release();
      freeList := next;
      freeListCount := freeListCount - 1;
      gone := gone + [f];
      free := free[1..];
    }

    method Destroy()
      requires Valid() && alive
      modifies this, free
      ensures Valid() && View() == Dismiss(old(View()))
    {
      if allocListCount != 0 {
        freed := true;
        return;
      }
      FreeAll();
    }

    /** The frame goes back to the head of the list, or is freed if the list has just been reduced. */
    method PutBack(f: PooledFrame, reduced: bool)
      requires Valid() && f in out && f.refcount <= 0
      modifies this, f
      ensures Valid() && out == old(out) - {f} && freed == old(freed) && alive == old(alive)
      ensures reduced ==> gone == old(gone) + [f] && free == old(free)
      ensures !reduced ==> free == [f] + old(free) && gone == old(gone)
    {
      if reduced {
        f.Release();
        gone := gone + [f];
      } else {
        f.next := freeList;
        f.refcount := 0;
        freeList := f;
        freeListCount := freeListCount + 1;
        free := [f] + free;
        assert free[1..] == old(free);
      }
      allocListCount := allocListCount - 1;
      out := out - {f};
    }

    method Return(f: PooledFrame, now: nat)
      requires Valid() && alive && f in out && f.refcount <= 0
      modifies this, free, f
      ensures Valid() && View() == GiveBack(old(View()), f, old(Stale(now)))
    {
      var reduced := ReduceList(now);
      PutBack(f, reduced);
      if freed && allocListCount == 0 {
        Destroy();
      }
    }
  }

  /** A frame from the pool or, if it has none, a new one; its reference count always starts at 1. */
  method AllocFrame(fa: FrameAllocator, now: nat) returns (f: PooledFrame)
    requires fa.Valid()
    modifies fa, fa.free
    ensures fa.Valid() && f.refcount == 1 && f in fa.out
    ensures old(fa.free) != [] ==>
      f == old(fa.free)[0] && fa.View() == Take(old(fa.View()), old(fa.Stale(now))).0
    ensures old(fa.free) == [] ==> fresh(f) && fa.View() == Enroll(old(fa.View()), f)
  {
    hide ListOf, Reduce;
    var res := fa.Get(now);
    if res == null {
      f := new PooledFrame();
      f.refcount := 1;
      fa.Register(f, now);
    } else {
      f := res;
      assert f.refcount == 0;
      f.refcount := 1;
    }
  }

  /** Drops one reference; the last one sends the frame back to its pool. */
  method UnrefFrame(fa: FrameAllocator, f: PooledFrame, now: nat)
    requires fa.Valid() && fa.alive && f in fa.out
    modifies fa, fa.free, f
    ensures fa.Valid()
    ensures old(f.refcount) > 1 ==> fa.View() == old(fa.View()) && f.refcount == old(f.refcount) - 1
    ensures old(f.refcount) <= 1 ==> fa.View() == GiveBack(old(fa.View()), f, old(fa.Stale(now)))
  {
    f.refcount := f.refcount - 1;
    if f.refcount <= 0 {
      fa.Return(f, now);
    }
  }

  // ----- Whole runs -----

  datatype Call<T(==)> = Taking(stale: bool) | Enrolling(f: T) | Returning(f: T, stale: bool) | Dismissing

  ghost predicate Legal<T>(p: Pool<T>, c: Call<T>) {
    p.alive && match c
      case Enrolling(f) => f !in p.free && f !in p.out && f !in p.gone
      case Returning(f, _) => f in p.out
      case _ => true
  }

  function Step<T>(p: Pool<T>, c: Call<T>): Pool<T> {
    match c
    case Taking(stale) => Take(p, stale).0
    case Enrolling(f) => Enroll(p, f)
    case Returning(f, stale) => GiveBack(p, f, stale)
    case Dismissing => Dismiss(p)
  }

  /** In how many places a frame is: on the free list, outstanding, or freed (that often). */
  ghost function Places<T>(p: Pool<T>, x: T): nat {
    multiset(p.free)[x] + (if x in p.out then 1 else 0) + multiset(p.gone)[x]
  }

  ghost predicate Consistent<T>(p: Pool<T>) {
    && (p.alive && p.pending ==> p.out != {})
    && (!p.alive ==> p.out == {} && p.free == [])
  }

  lemma ReduceConserves<T>(p: Pool<T>, stale: bool, x: T)
    ensures Places(Reduce(p, stale).0, x) == Places(p, x)
  {
    if |p.free| > DESIRED_COUNT {
      assert p.free == [p.free[0]] + p.free[1..];
    }
  }

  lemma TakeConserves<T>(p: Pool<T>, stale: bool, x: T)
    requires forall y :: Places(p, y) <= 1
    ensures Places(Take(p, stale).0, x) == Places(p, x)
  {
    if p.free != [] {
      var f, rest := p.free[0], p.free[1..];
      assert p.free == [f] + rest;
      assert Places(p, f) <= 1;
      hide Reduce;
      ReduceConserves(p.(free := rest, out := p.out + {f}), stale, x);
    }
  }

  lemma GiveBackConserves<T>(p: Pool<T>, f: T, stale: bool, x: T)
    requires f in p.out && Places(p, f) <= 1
    ensures Places(GiveBack(p, f, stale), x) == Places(p, x)
  {
    hide Reduce, Finish;
    var q := Reduce(p, stale).0;
    ReduceConserves(p, stale, x);
    ReduceConserves(p, stale, f);
    ReduceKeepsOut(p, stale);
    FinishConserves(q.(gone := q.gone + [f], out := q.out - {f}), x);
    FinishConserves(q.(free := [f] + q.free, out := q.out - {f}), x);
  }

  lemma ReduceKeepsOut<T>(p: Pool<T>, stale: bool)
    ensures Reduce(p, stale).0.out == p.out && Reduce(p, stale).0.pending == p.pending
  {
  }

  /** Conservation: a call moves frames about, and only enrolling brings one in. A frame that callers
      hold is neither free nor freed. */
  lemma StepConserves<T>(p: Pool<T>, c: Call<T>, x: T)
    requires Legal(p, c) && (forall y :: Places(p, y) <= 1)
    ensures Places(Step(p, c), x) == Places(p, x) + (if c == Enrolling(x) then 1 else 0)
  {
    hide Take, GiveBack, Finish;
    match c
    case Taking(stale) => TakeConserves(p, stale, x);
    case Enrolling(f) =>
    case Returning(f, stale) => GiveBackConserves(p, f, stale, x);
    case Dismissing => FinishConserves(p, x);
  }

  lemma FinishConserves<T>(p: Pool<T>, x: T)
    ensures Places(Finish(p), x) == Places(p, x)
  {
  }

  /** The pool goes away in exactly two ways: destroyed with nothing outstanding, or at the return
      that brings the outstanding frames to none while a destruction waits. */
  lemma CompletesExactlyWhen<T>(p: Pool<T>, c: Call<T>)
    requires Legal(p, c) && Consistent(p)
    ensures Consistent(Step(p, c))
    ensures !Step(p, c).alive <==>
      || (c.Dismissing? && p.out == {})
      || (c.Returning? && p.pending && p.out == {c.f})
    ensures c.Dismissing? && p.out != {} ==> Step(p, c).pending && Step(p, c).alive
  {
    if c.Returning? {
      assert p.out - {c.f} == {} <==> p.out == {c.f};
    }
  }

  ghost predicate LegalRun<T>(p: Pool<T>, cs: seq<Call<T>>)
    decreases |cs|
  {
    cs != [] ==> Legal(p, cs[0]) && LegalRun(Step(p, cs[0]), cs[1..])
  }

  function Run<T>(p: Pool<T>, cs: seq<Call<T>>): Pool<T>
    decreases |cs|
  {
    if cs == [] then p else Run(Step(p, cs[0]), cs[1..])
  }

  function TimesEnrolled<T>(cs: seq<Call<T>>, x: T): nat {
    if cs == [] then 0 else (if cs[0] == Enrolling(x) then 1 else 0) + TimesEnrolled(cs[1..], x)
  }

  lemma {:induction false} RunConserves<T>(p: Pool<T>, cs: seq<Call<T>>, x: T)
    requires LegalRun(p, cs) && Consistent(p) && (forall y :: Places(p, y) <= 1)
    ensures Consistent(Run(p, cs)) && (forall y :: Places(Run(p, cs), y) <= 1)
    ensures Places(Run(p, cs), x) == Places(p, x) + TimesEnrolled(cs, x)
    decreases |cs|
  {
    hide Step, Consistent, Places;
    if cs != [] {
      var q := Step(p, cs[0]);
      CompletesExactlyWhen(p, cs[0]);
      StepConserves(p, cs[0], x);
      forall y ensures Places(q, y) <= 1 {
        StepConserves(p, cs[0], y);
        if cs[0] == Enrolling(y) {
          EnrolledIsNew(p, cs[0], y);
        }
      }
      RunConserves(q, cs[1..], x);
    }
  }

  lemma EnrolledIsNew<T>(p: Pool<T>, c: Call<T>, y: T)
    requires Legal(p, c) && c == Enrolling(y)
    ensures Places(p, y) == 0
  {
  }

  /** Over any run of a new pool, each enrolled frame is in exactly one place, every other in none:
      none is freed twice, freed while outstanding, or lost. Once the pool is gone all are freed. */
  lemma EachFrameIsFreedAtMostOnce<T>(cs: seq<Call<T>>, x: T)
    requires LegalRun(Pool([], {}, [], false, true), cs)
    ensures var p := Run(Pool([], {}, [], false, true), cs);
      && Places(p, x) == TimesEnrolled(cs, x) <= 1
      && multiset(p.gone)[x] <= 1
      && (multiset(p.gone)[x] == 1 ==> x !in p.out && x !in p.free)
      && (!p.alive ==> multiset(p.gone)[x] == TimesEnrolled(cs, x))
      && (p.alive && p.pending ==> p.out != {})
  {
    var p0: Pool<T> := Pool([], {}, [], false, true);
    assert forall y :: Places(p0, y) == 0;
    RunConserves(p0, cs, x);
  }

  // ----- Which frames move -----

  /** What a call frees, in order: one free frame if more than five remain on the list and none was made
      for a while, with it the frame being returned, and at the end of the pool all the others. */
  lemma StepFrees<T>(p: Pool<T>, c: Call<T>)
    requires Legal(p, c) && Consistent(p)
    ensures var q := Step(p, c);
      && p.gone <= q.gone
      && q.gone[|p.gone|..] == match c
           case Taking(stale) => if |p.free| > 6 && stale then [p.free[1]] else []
           case Enrolling(_) => []
           case Returning(f, stale) =>
             (if |p.free| > 5 && stale then [p.free[0], f] else [])
             + (if p.pending && p.out == {f}
                then (if |p.free| > 5 && stale then p.free[1..] else [f] + p.free) else [])
           case Dismissing => if p.out == {} then p.free else []
  {
    if c.Returning? {
      assert p.out - {c.f} == {} <==> p.out == {c.f};
    }
  }

  /** The frame returned last is the first to be handed out again, and taking it undoes the return. */
  lemma TakeUndoesReturn<T>(p: Pool<T>, f: T)
    requires f in p.out && !(p.pending && p.out == {f})
    ensures Take(GiveBack(p, f, false), false) == (p, Some(f))
  {
    assert p.out - {f} == {} <==> p.out == {f};
    assert p.out - {f} + {f} == p.out;
    assert ([f] + p.free)[1..] == p.free;
  }

  /** And returning a frame undoes taking it. */
  lemma ReturnUndoesTake<T>(p: Pool<T>)
    requires p.free != [] && p.free[0] !in p.out && Consistent(p)
    ensures var (q, f) := Take(p, false);
      f == Some(p.free[0]) && GiveBack(q, p.free[0], false) == p
  {
    var f := p.free[0];
    assert p.out + {f} - {f} == p.out;
    assert [f] + p.free[1..] == p.free;
  }
}
