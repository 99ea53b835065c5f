/** No zombie is ever beyond reach: whatever a run has done, it can go on to a wait that returns it. */
module ZombieReaping {
  import opened Optional
  import opened ProcTable
  import opened ExitWait

  lemma Then(s: State, e: Event, es: seq<Event>)
    requires Enabled(s, e) && Possible(Next(s, e), es)
    ensures Possible(s, [e] + es) && After(s, [e] + es) == After(Next(s, e), es)
  {
    assert ([e] + es)[0] == e && ([e] + es)[1..] == es;
  }

  lemma OneStep(s: State, e: Event)
    requires Enabled(s, e)
    ensures Possible(s, [e]) && After(s, [e]) == Next(s, e)
  {
    Then(s, e, []);
    assert [e] + [] == [e];
  }

  lemma {:induction false} RunAppend(s: State, es: seq<Event>, more: seq<Event>)
    requires Possible(s, es) && Possible(After(s, es), more)
    ensures Possible(s, es + more) && After(s, es + more) == After(After(s, es), more)
    decreases |es|
  {
    if es == [] {
      assert es + more == more;
    } else {
      RunAppend(Next(s, es[0]), es[1..], more);
      Then(s, es[0], es[1..] + more);
      Regroup(es, more);
    }
  }

  lemma Regroup(es: seq<Event>, more: seq<Event>)
    requires es != []
    ensures [es[0]] + (es[1..] + more) == es + more
  {
  }

  // ------------------------------------------------------------------
  // Whoever sleeps, sleeps on something, and whoever runs does not

  predicate ChanOk(x: Slot) { (x.state == SLEEPING ==> x.chan.Some?) && (x.state == RUNNING ==> x.chan == None) }

  ghost predicate ChansOk(s: State) { forall i | 0 <= i < |s.procs| :: ChanOk(s.procs[i]) }

  lemma SameTable(s: State, e: Event)
    requires Enabled(s, e)
    ensures |Next(s, e).procs| == |s.procs|
  {
  }

  /** A step of fork changes neither channels nor flags, and puts nobody to sleep or on a processor. */
  predicate Untouched(x: Slot, y: Slot) {
    && y.chan == x.chan && y.killed == x.killed
    && (y.state == x.state || (y.state != SLEEPING && y.state != RUNNING))
  }

  lemma FillsSlot(s: State, e: Event, i: nat)
    requires Enabled(s, e) && (e.ForkStack? || e.ForkCopy? || e.ForkFail?) && i < |s.procs|
    ensures |Next(s, e).procs| == |s.procs| && Untouched(s.procs[i], Next(s, e).procs[i])
  {
  }

  lemma ForksSlot(s: State, e: Event, i: nat)
    requires Enabled(s, e) && (e.ForkAlloc? || e.ForkLink? || e.ForkRun?) && i < |s.procs|
    ensures |Next(s, e).procs| == |s.procs| && Untouched(s.procs[i], Next(s, e).procs[i])
  {
  }

  lemma ExitKeepsChan(s: State, p: nat, i: nat)
    requires Enabled(s, Exit(p))
    requires i < |s.procs| == |Next(s, Exit(p)).procs| && ChanOk(s.procs[i])
    ensures ChanOk(Next(s, Exit(p)).procs[i])
  {
  }

  lemma StepKeepsChan(s: State, e: Event, i: nat)
    requires Enabled(s, e) && i < |s.procs| == |Next(s, e).procs| && ChanOk(s.procs[i])
    ensures ChanOk(Next(s, e).procs[i])
  {
    if e.Exit? {
      ExitKeepsChan(s, e.p, i);
    } else if e.ForkStack? || e.ForkCopy? || e.ForkFail? {
      FillsSlot(s, e, i);
    } else if e.ForkAlloc? || e.ForkLink? || e.ForkRun? {
      ForksSlot(s, e, i);
    }
  }

  lemma StepKeepsChans(s: State, e: Event)
    requires ChansOk(s) && Enabled(s, e)
    ensures ChansOk(Next(s, e))
  {
    var t := Next(s, e);
    SameTable(s, e);
    forall i | 0 <= i < |t.procs| ensures ChanOk(t.procs[i]) {
      StepKeepsChan(s, e, i);
    }
  }

  lemma {:induction false} RunKeepsChans(s: State, es: seq<Event>)
    requires ChansOk(s) && Possible(s, es)
    ensures ChansOk(After(s, es))
    decreases |es|
  {
    if es != [] {
      StepKeepsChans(s, es[0]);
      RunKeepsChans(Next(s, es[0]), es[1..]);
    }
  }

  /** In every run, whoever sleeps is on a channel and whoever runs is on none. */
  lemma OnlySleepersOnChannels(s: State, es: seq<Event>, i: nat)
    requires Initial(s) && Possible(s, es) && i < |After(s, es).procs|
    ensures After(s, es).procs[i].state == SLEEPING ==> After(s, es).procs[i].chan.Some?
    ensures After(s, es).procs[i].state == RUNNING ==> After(s, es).procs[i].chan == None
  {
    RunKeepsChans(s, es);
    assert ChanOk(After(s, es).procs[i]);
  }

  // ------------------------------------------------------------------
  // The parent of a zombie gets to wait

  /** Entry c holds the zombie z, whose parent p is alive. */
  ghost predicate Zombie(s: State, c: nat, p: nat, z: Slot) {
    Inv(s) && c < |s.procs| && s.procs[c] == z && z.state == ZOMBIE && z.parent == Some(p) && Live(s, p)
  }

  lemma ParentScheduled(s: State, c: nat, p: nat, z: Slot) returns (es: seq<Event>)
    requires Zombie(s, c, p, z) && s.procs[p].state == RUNNABLE
    ensures Possible(s, es) && Zombie(After(s, es), c, p, z) && Runs(After(s, es), p)
  {
    es := [Schedule(p)];
    OneStep(s, Schedule(p));
    StepKeepsInv(s, Schedule(p));
  }

  lemma ParentWoken(s: State, c: nat, p: nat, z: Slot) returns (e: Event)
    requires Zombie(s, c, p, z) && ChansOk(s) && s.procs[p].state == SLEEPING
    ensures Enabled(s, e) && Zombie(Next(s, e), c, p, z) && Next(s, e).procs[p].state == RUNNABLE
  {
    assert SleeperOk(s, p) && ZombieChild(s.procs, c, p);
    e := Wakeup(s.procs[p].chan.value.n);
    StepKeepsInv(s, e);
  }

  /** It is no sleeper in wait, so it can run again. */
  lemma ParentRuns(s: State, c: nat, p: nat, z: Slot) returns (es: seq<Event>)
    requires Zombie(s, c, p, z) && ChansOk(s)
    ensures Possible(s, es) && Zombie(After(s, es), c, p, z) && Runs(After(s, es), p)
  {
    if s.procs[p].state == RUNNING {
      es := [];
    } else if s.procs[p].state == RUNNABLE {
      es := ParentScheduled(s, c, p, z);
    } else {
      var e := ParentWoken(s, c, p, z);
      var more := ParentScheduled(Next(s, e), c, p, z);
      Then(s, e, more);
      es := [e] + more;
    }
  }

  /** Whatever it was doing, it can finish. */
  lemma ParentFinishes(s: State, c: nat, p: nat, z: Slot) returns (es: seq<Event>)
    requires Zombie(s, c, p, z) && Runs(s, p)
    ensures Possible(s, es) && Zombie(After(s, es), c, p, z) && Runs(After(s, es), p) && MayWait(After(s, es).tasks[p])
  {
    assert TaskOk(s, p);
    match s.tasks[p]
    case Normal => es := [];
    case InWait => es := [];
    case Loading(_) => es := FinishWith(s, c, p, z, ExecFail(p));
    case Forking(_) => es := FinishWith(s, c, p, z, ForkFail(p));
    case Stacked(_) => es := FinishWith(s, c, p, z, ForkFail(p));
    case Linked(_) => es := FinishWith(s, c, p, z, ForkRun(p));
    case Copied(_) =>
      var e := ForkLink(p);
      StepKeepsInv(s, e);
      var more := FinishWith(Next(s, e), c, p, z, ForkRun(p));
      Then(s, e, more);
      es := [e] + more;
  }

  lemma FinishWith(s: State, c: nat, p: nat, z: Slot, e: Event) returns (es: seq<Event>)
    requires Zombie(s, c, p, z) && Runs(s, p) && Enabled(s, e)
      && (e == ExecFail(p) || e == ForkFail(p) || e == ForkRun(p))
    ensures Possible(s, es) && Zombie(After(s, es), c, p, z) && Runs(After(s, es), p) && MayWait(After(s, es).tasks[p])
  {
    assert TaskOk(s, p);
    StepKeepsInv(s, e);
    OneStep(s, e);
    es := [e];
  }

  lemma ReapedFirst(s: State, c: nat, p: nat, z: Slot, lo: nat)
    requires Zombie(s, c, p, z) && Runs(s, p) && MayWait(s.tasks[p]) && lo < c && FirstZombie(s.procs, p, lo)
    ensures Enabled(s, WaitReap(p, lo)) && Zombie(Next(s, WaitReap(p, lo)), c, p, z)
    ensures Runs(Next(s, WaitReap(p, lo)), p) && MayWait(Next(s, WaitReap(p, lo)).tasks[p])
    ensures forall d | 0 <= d < lo + 1 :: !ZombieChild(Next(s, WaitReap(p, lo)).procs, d, p)
  {
    StepKeepsInv(s, WaitReap(p, lo));
    forall d | 0 <= d < lo + 1 ensures !ZombieChild(Next(s, WaitReap(p, lo)).procs, d, p) {
      assert d < lo ==> !ZombieChild(s.procs, d, p);
    }
  }

  /** wait takes the first zombie child; the zombies before c go first. */
  lemma {:induction false} ParentReaps(s: State, c: nat, p: nat, z: Slot, lo: nat) returns (es: seq<Event>)
    requires Zombie(s, c, p, z) && Runs(s, p) && MayWait(s.tasks[p])
    requires lo <= c && forall d | 0 <= d < lo :: !ZombieChild(s.procs, d, p)
    ensures Possible(s, es) && Waited(After(s, es).log, z.pid)
    decreases c - lo
  {
    if ZombieChild(s.procs, lo, p) {
      var e := WaitReap(p, lo);
      if lo == c {
        OneStep(s, e);
        assert Next(s, e).log[|s.log|].1 == z.pid;
        es := [e];
      } else {
        ReapedFirst(s, c, p, z, lo);
        var more := ParentReaps(Next(s, e), c, p, z, lo + 1);
        Then(s, e, more);
        es := [e] + more;
      }
    } else {
      es := ParentReaps(s, c, p, z, lo + 1);
    }
  }

  /** Every run that leaves a zombie can go on to a wait that returns it: its parent is alive, is
      not asleep in wait, can finish the fork or exec it is in, and finds it after the zombies
      before it. */
  lemma EveryZombieCanBeReaped(s: State, es: seq<Event>, c: nat) returns (more: seq<Event>)
    requires Initial(s) && Possible(s, es) && c < |After(s, es).procs| && After(s, es).procs[c].state == ZOMBIE
    ensures Possible(s, es + more) && Waited(After(s, es + more).log, After(s, es).procs[c].pid)
  {
    InitialInv(s);
    RunKeepsInv(s, es);
    RunKeepsChans(s, es);
    var t := After(s, es);
    assert ParentOk(t, c);
    var p, z := t.procs[c].parent.value, t.procs[c];
    var a := ParentRuns(t, c, p, z);
    var b := ParentFinishes(After(t, a), c, p, z);
    var r := ParentReaps(After(After(t, a), b), c, p, z, 0);
    RunAppend(After(t, a), b, r);
    RunAppend(t, a, b + r);
    RunAppend(s, es, a + (b + r));
    more := a + (b + r);
  }
}
