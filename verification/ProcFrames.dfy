/** Kernel stacks and page tables of processes over whole runs: kalloc by fork and exec, kfree by
    wait, by exec and by a fork that fails. A page table stands for its root frame. */
module ProcFrames {
  import opened Optional
  import opened ProcTable
  import opened ExitWait

  /** A frame in use: as an entry's stack, as its page table, or as the one its exec is building. */
  datatype Use = Stack(i: nat) | Space(i: nat) | Image(i: nat)

  predicate InUse(s: State, u: Use) {
    u.i < |s.procs| == |s.tasks| &&
    match u
    case Stack(i) => s.procs[i].kstack != 0
    case Space(i) => i in s.mapped
    case Image(i) => s.tasks[i].Loading?
  }

  function FrameOf(s: State, u: Use): nat
    requires InUse(s, u)
  {
    match u
    case Stack(i) => s.procs[i].kstack
    case Space(i) => s.procs[i].pgdir
    case Image(i) => s.tasks[i].f
  }

  predicate UsedAs(s: State, u: Use, f: nat) { InUse(s, u) && FrameOf(s, u) == f }

  /** Every frame is free, once, or in one use; none is both and none is lost. */
  ghost predicate FramesOk(s: State, pool: set<nat>) {
    && 0 !in pool
    && (forall f | f in s.free :: f in pool && s.free[f] == 1)
    && (forall u, f | UsedAs(s, u, f) :: f in pool && f !in s.free)
    && (forall u, v, f | UsedAs(s, u, f) && UsedAs(s, v, f) :: u == v)
    && (forall f | f in pool :: f in s.free || exists u :: UsedAs(s, u, f))
  }

  // ------------------------------------------------------------------
  // The three things a step can do to the frames

  lemma SameFrames(s: State, t: State, pool: set<nat>)
    requires FramesOk(s, pool) && t.free == s.free && (forall u, f :: UsedAs(t, u, f) <==> UsedAs(s, u, f))
    ensures FramesOk(t, pool)
  {
    forall f | f in pool && f !in t.free ensures exists u :: UsedAs(t, u, f) {
      var u :| UsedAs(s, u, f);
      assert UsedAs(t, u, f);
    }
  }

  /** kalloc gives frame f the use u. */
  lemma TakeFrame(s: State, t: State, pool: set<nat>, u: Use, f: nat)
    requires FramesOk(s, pool) && f in s.free && t.free == s.free - multiset{f}
    requires forall v, g :: UsedAs(t, v, g) <==> UsedAs(s, v, g) || (v == u && g == f)
    ensures FramesOk(t, pool)
  {
    forall g | g in pool && g !in t.free ensures exists v :: UsedAs(t, v, g) {
      if g == f {
        assert UsedAs(t, u, f);
      } else {
        var v :| UsedAs(s, v, g);
        assert UsedAs(t, v, g);
      }
    }
  }

  /** kfree ends the use u of frame f. */
  lemma GiveFrame(s: State, t: State, pool: set<nat>, u: Use, f: nat)
    requires FramesOk(s, pool) && UsedAs(s, u, f) && t.free == s.free + multiset{f}
    requires forall v, g :: UsedAs(t, v, g) <==> UsedAs(s, v, g) && v != u
    ensures FramesOk(t, pool)
  {
    forall g | g in pool && g !in t.free ensures exists v :: UsedAs(t, v, g) {
      var v :| UsedAs(s, v, g);
      assert UsedAs(t, v, g);
    }
  }

  // ------------------------------------------------------------------
  // Steps

  predicate MovesFrames(e: Event) {
    e.ForkStack? || e.ForkCopy? || e.ForkFail? || e.ExecLoad? || e.ExecSwap? || e.ExecFail? || e.WaitReap?
  }

  lemma StillUses(s: State, e: Event, u: Use, f: nat)
    requires Inv(s) && Enabled(s, e) && !MovesFrames(e)
    ensures UsedAs(Next(s, e), u, f) <==> UsedAs(s, u, f)
  {
    if e.Exit? && u.i < |s.procs| { ExitedAt(s, e, u.i); }
  }

  lemma OtherFrames(s: State, e: Event, pool: set<nat>)
    requires Inv(s) && FramesOk(s, pool) && Enabled(s, e) && !MovesFrames(e)
    ensures FramesOk(Next(s, e), pool)
  {
    var t := Next(s, e);
    forall u, f ensures UsedAs(t, u, f) <==> UsedAs(s, u, f) { StillUses(s, e, u, f); }
    SameFrames(s, t, pool);
  }

  lemma StackFrames(s: State, e: Event, pool: set<nat>)
    requires Inv(s) && FramesOk(s, pool) && Enabled(s, e) && e.ForkStack?
    ensures FramesOk(Next(s, e), pool)
  {
    var t, i := Next(s, e), s.tasks[e.p].i;
    assert TaskOk(s, e.p);
    forall v, g ensures UsedAs(t, v, g) <==> UsedAs(s, v, g) || (v == Stack(i) && g == e.f) {}
    TakeFrame(s, t, pool, Stack(i), e.f);
  }

  lemma CopyFrames(s: State, e: Event, pool: set<nat>)
    requires Inv(s) && FramesOk(s, pool) && Enabled(s, e) && e.ForkCopy?
    ensures FramesOk(Next(s, e), pool)
  {
    var t, i := Next(s, e), s.tasks[e.p].i;
    assert TaskOk(s, e.p);
    forall v, g ensures UsedAs(t, v, g) <==> UsedAs(s, v, g) || (v == Space(i) && g == e.f) {}
    TakeFrame(s, t, pool, Space(i), e.f);
  }

  lemma LoadFrames(s: State, e: Event, pool: set<nat>)
    requires Inv(s) && FramesOk(s, pool) && Enabled(s, e) && e.ExecLoad?
    ensures FramesOk(Next(s, e), pool)
  {
    var t := Next(s, e);
    forall v, g ensures UsedAs(t, v, g) <==> UsedAs(s, v, g) || (v == Image(e.p) && g == e.f) {}
    TakeFrame(s, t, pool, Image(e.p), e.f);
  }

  lemma FailFrames(s: State, e: Event, pool: set<nat>)
    requires Inv(s) && FramesOk(s, pool) && Enabled(s, e) && (e.ForkFail? || e.ExecFail?)
    ensures FramesOk(Next(s, e), pool)
  {
    var t := Next(s, e);
    assert TaskOk(s, e.p);
    if e.ForkFail? && s.tasks[e.p].Forking? {
      forall v, g ensures UsedAs(t, v, g) <==> UsedAs(s, v, g) {}
      SameFrames(s, t, pool);
    } else {
      var u := if e.ExecFail? then Image(e.p) else Stack(s.tasks[e.p].i);
      forall v, g ensures UsedAs(t, v, g) <==> UsedAs(s, v, g) && v != u {}
      GiveFrame(s, t, pool, u, FrameOf(s, u));
    }
  }

  /** exec first drops the old page table, then the new one takes its place. */
  lemma SwapFrames(s: State, e: Event, pool: set<nat>)
    requires Inv(s) && FramesOk(s, pool) && Enabled(s, e) && e.ExecSwap?
    ensures FramesOk(Next(s, e), pool)
  {
    var p, was, f, t := e.p, s.procs[e.p].pgdir, s.tasks[e.p].f, Next(s, e);
    assert StockOk(s, p);
    var m := s.(mapped := s.mapped - {p}, free := s.free + multiset{was});
    forall v, g ensures UsedAs(m, v, g) <==> UsedAs(s, v, g) && v != Space(p) {}
    GiveFrame(s, m, pool, Space(p), was);
    forall v, g ensures UsedAs(t, v, g) <==> if v == Space(p) then g == f else UsedAs(m, v, g) && v != Image(p) {}
    MoveFrame(m, t, pool, Image(p), Space(p), f);
  }

  /** A frame passes from one use to another. */
  lemma MoveFrame(s: State, t: State, pool: set<nat>, u: Use, w: Use, f: nat)
    requires FramesOk(s, pool) && UsedAs(s, u, f) && u != w && !InUse(s, w) && t.free == s.free
    requires forall v, g :: UsedAs(t, v, g) <==> if v == w then g == f else UsedAs(s, v, g) && v != u
    ensures FramesOk(t, pool)
  {
    forall g | g in pool && g !in t.free ensures exists v :: UsedAs(t, v, g) {
      if g == f {
        assert UsedAs(t, w, f);
      } else {
        var v :| UsedAs(s, v, g);
        assert UsedAs(t, v, g);
      }
    }
  }

  /** wait frees the stack, then the page table. */
  lemma ReapFrames(s: State, e: Event, pool: set<nat>)
    requires Inv(s) && FramesOk(s, pool) && Enabled(s, e) && e.WaitReap?
    ensures FramesOk(Next(s, e), pool)
  {
    var c, k, d, t := e.c, s.procs[e.c].kstack, s.procs[e.c].pgdir, Next(s, e);
    assert StockOk(s, c);
    var m := s.(procs := s.procs[c := s.procs[c].(kstack := 0)], free := s.free + multiset{k});
    forall v, g ensures UsedAs(m, v, g) <==> UsedAs(s, v, g) && v != Stack(c) {}
    GiveFrame(s, m, pool, Stack(c), k);
    assert TaskOk(s, c);
    forall v, g ensures UsedAs(t, v, g) <==> UsedAs(m, v, g) && v != Space(c) {}
    GiveFrame(m, t, pool, Space(c), d);
  }

  lemma StepKeepsFrames(s: State, e: Event, pool: set<nat>)
    requires Inv(s) && FramesOk(s, pool) && Enabled(s, e)
    ensures FramesOk(Next(s, e), pool)
  {
    match e
    case ForkStack(_, _) => StackFrames(s, e, pool);
    case ForkCopy(_, _) => CopyFrames(s, e, pool);
    case ForkFail(_) => FailFrames(s, e, pool);
    case ExecLoad(_, _) => LoadFrames(s, e, pool);
    case ExecSwap(_) => SwapFrames(s, e, pool);
    case ExecFail(_) => FailFrames(s, e, pool);
    case WaitReap(_, _) => ReapFrames(s, e, pool);
    case _ => OtherFrames(s, e, pool);
  }

  // ------------------------------------------------------------------
  // Runs

  lemma {:induction false} RunKeepsFrames(s: State, es: seq<Event>, pool: set<nat>)
    requires Inv(s) && FramesOk(s, pool) && Possible(s, es)
    ensures Inv(After(s, es)) && FramesOk(After(s, es), pool)
    decreases |es|
  {
    if es != [] {
      StepKeepsInv(s, es[0]);
      StepKeepsFrames(s, es[0], pool);
      RunKeepsFrames(Next(s, es[0]), es[1..], pool);
    }
  }

  /** After userinit: init holds two frames and every other frame of the pool is free. */
  ghost predicate InitialFrames(s: State, pool: set<nat>) {
    && Initial(s) && 0 !in pool
    && s.procs[s.ini].kstack != s.procs[s.ini].pgdir && {s.procs[s.ini].kstack, s.procs[s.ini].pgdir} <= pool
    && s.free == multiset(pool - {s.procs[s.ini].kstack, s.procs[s.ini].pgdir})
  }

  lemma InitialOk(s: State, pool: set<nat>)
    requires InitialFrames(s, pool)
    ensures Inv(s) && FramesOk(s, pool)
  {
    InitialInv(s);
    forall f | f in pool && f !in s.free ensures exists u :: UsedAs(s, u, f) {
      assert UsedAs(s, if f == s.procs[s.ini].kstack then Stack(s.ini) else Space(s.ini), f);
    }
  }

  /** In every run: each process in being has a stack and a page table; no two uses share a frame,
      no frame in use is free, no frame was freed twice, and none is lost. */
  lemma FramesConserved(s: State, es: seq<Event>, pool: set<nat>)
    requires InitialFrames(s, pool) && Possible(s, es)
    ensures var t := After(s, es);
      && (forall i | 0 <= i < |t.procs| && Complete(t.procs[i]) :: InUse(t, Stack(i)) && InUse(t, Space(i)))
      && (forall u, v | InUse(t, u) && InUse(t, v) && u != v :: FrameOf(t, u) != FrameOf(t, v))
      && (forall u | InUse(t, u) :: FrameOf(t, u) in pool && FrameOf(t, u) !in t.free)
      && (forall f :: t.free[f] <= 1)
      && (forall f | f in pool && f !in t.free :: exists u :: InUse(t, u) && FrameOf(t, u) == f)
  {
    var t := After(s, es);
    InitialOk(s, pool);
    RunKeepsFrames(s, es, pool);
    forall i | 0 <= i < |t.procs| && Complete(t.procs[i]) ensures InUse(t, Stack(i)) && InUse(t, Space(i)) {
      assert StockOk(t, i);
    }
    forall u, v | InUse(t, u) && InUse(t, v) && u != v ensures FrameOf(t, u) != FrameOf(t, v) {
      assert UsedAs(t, u, FrameOf(t, u)) && UsedAs(t, v, FrameOf(t, v));
    }
    forall u | InUse(t, u) ensures FrameOf(t, u) in pool && FrameOf(t, u) !in t.free {
      assert UsedAs(t, u, FrameOf(t, u));
    }
    forall f | f in pool && f !in t.free ensures exists u :: InUse(t, u) && FrameOf(t, u) == f {
      var u :| UsedAs(t, u, f);
      assert InUse(t, u) && FrameOf(t, u) == f;
    }
  }

  // ------------------------------------------------------------------
  // When a frame is freed

  predicate Reaps(e: Event, i: nat) { e.WaitReap? && e.c == i }

  /** Entry i is the process it was, with its stack, and with its page table unless it called exec. */
  predicate Holds(s: State, t: State, i: nat, execs: bool) {
    && i < |s.procs| == |t.procs| && Complete(t.procs[i]) && t.procs[i].pid == s.procs[i].pid
    && t.procs[i].kstack == s.procs[i].kstack && (!execs ==> t.procs[i].pgdir == s.procs[i].pgdir)
  }

  predicate IsFork(e: Event) { e.ForkStack? || e.ForkCopy? || e.ForkLink? || e.ForkRun? || e.ForkFail? }

  lemma ForkHolds(s: State, e: Event, i: nat)
    requires Inv(s) && Enabled(s, e) && i < |s.procs| && Complete(s.procs[i]) && IsFork(e)
    ensures Holds(s, Next(s, e), i, false)
  {
    assert TaskOk(s, e.p);
  }

  lemma StepHolds(s: State, e: Event, i: nat)
    requires Inv(s) && Enabled(s, e) && i < |s.procs| && Complete(s.procs[i]) && !Reaps(e, i)
    ensures Holds(s, Next(s, e), i, e == ExecSwap(i))
  {
    if IsFork(e) {
      ForkHolds(s, e, i);
    } else if e.Exit? {
      ExitedAt(s, e, i);
    }
  }

  lemma {:induction false} RunHolds(s: State, es: seq<Event>, i: nat)
    requires Inv(s) && Possible(s, es) && i < |s.procs| && Complete(s.procs[i])
    requires forall k | 0 <= k < |es| :: !Reaps(es[k], i)
    ensures Holds(s, After(s, es), i, ExecSwap(i) in es)
    decreases |es|
  {
    if es != [] {
      StepHolds(s, es[0], i);
      StepKeepsInv(s, es[0]);
      RunHolds(Next(s, es[0]), es[1..], i);
    }
  }

  /** The stack and the page table of a process in being are two frames, and neither is free. */
  predicate TwoHeld(s: State, i: nat) {
    i < |s.procs| && s.procs[i].kstack !in s.free && s.procs[i].pgdir !in s.free
      && s.procs[i].kstack != s.procs[i].pgdir
  }

  lemma HoldsTwo(s: State, i: nat, pool: set<nat>)
    requires Inv(s) && FramesOk(s, pool) && i < |s.procs| && Complete(s.procs[i])
    ensures TwoHeld(s, i)
  {
    assert StockOk(s, i);
    assert UsedAs(s, Stack(i), s.procs[i].kstack) && UsedAs(s, Space(i), s.procs[i].pgdir);
  }

  /** From any reachable state on, until wait returns process i, its stack is the same frame and its
      page table too unless i calls exec, and neither is free. */
  lemma HeldUntilReaped(s: State, es: seq<Event>, fs: seq<Event>, i: nat, pool: set<nat>)
    requires InitialFrames(s, pool) && Possible(s, es) && Possible(After(s, es), fs)
    requires i < |After(s, es).procs| && Complete(After(s, es).procs[i]) && forall k | 0 <= k < |fs| :: !Reaps(fs[k], i)
    ensures Holds(After(s, es), After(After(s, es), fs), i, ExecSwap(i) in fs)
    ensures TwoHeld(After(After(s, es), fs), i)
  {
    InitialOk(s, pool);
    RunKeepsFrames(s, es, pool);
    HeldFrom(After(s, es), fs, i, pool);
  }

  lemma HeldFrom(s: State, es: seq<Event>, i: nat, pool: set<nat>)
    requires Inv(s) && FramesOk(s, pool) && Possible(s, es) && i < |s.procs| && Complete(s.procs[i])
    requires forall k | 0 <= k < |es| :: !Reaps(es[k], i)
    ensures Holds(s, After(s, es), i, ExecSwap(i) in es) && TwoHeld(After(s, es), i)
  {
    RunHolds(s, es, i);
    RunKeepsFrames(s, es, pool);
    HoldsTwo(After(s, es), i, pool);
  }

  /** The wait that returns process i frees its stack and its page table, two frames in use until then, once each. */
  lemma FreedByWait(s: State, es: seq<Event>, p: nat, i: nat, pool: set<nat>)
    requires InitialFrames(s, pool) && Possible(s, es) && Enabled(After(s, es), WaitReap(p, i))
    ensures TwoHeld(After(s, es), i)
    ensures var a, t := After(s, es), Next(After(s, es), WaitReap(p, i));
      forall f :: t.free[f] == if f == a.procs[i].kstack || f == a.procs[i].pgdir then 1 else a.free[f]
  {
    InitialOk(s, pool);
    RunKeepsFrames(s, es, pool);
    HoldsTwo(After(s, es), i, pool);
  }
}
