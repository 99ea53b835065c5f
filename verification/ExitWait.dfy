/** What exit and wait promise over whole runs of the process table machine. */
module ExitWait {
  import opened Optional
  import opened ProcTable

  /** Whether p has a child or a zombie child depends only on the entries that changed. */
  lemma ChildrenBut(a: seq<Slot>, b: seq<Slot>, i: nat, p: nat)
    requires |a| == |b| && i < |a| && (forall c | 0 <= c < |a| && c != i :: a[c] == b[c])
    ensures !ZombieChild(b, i, p) && !HasZombie(a, p) ==> !HasZombie(b, p)
    ensures !ChildOf(a, i, p) && (exists c :: ChildOf(a, c, p)) ==> (exists c :: ChildOf(b, c, p))
  {
    if HasZombie(b, p) && !ZombieChild(b, i, p) {
      var c :| ZombieChild(b, c, p);
      assert ZombieChild(a, c, p);
    }
    if !ChildOf(a, i, p) && exists c :: ChildOf(a, c, p) {
      var c :| ChildOf(a, c, p);
      assert ChildOf(b, c, p);
    }
  }

  /** A step that changes one entry, no zombie, keeps the zombies. */
  lemma KeptZombies(s: State, t: State, i: nat)
    requires |s.procs| == |t.procs| && i < |s.procs|
      && (forall c | 0 <= c < |s.procs| && c != i :: s.procs[c] == t.procs[c])
    requires s.procs[i].state != ZOMBIE
    ensures forall x | ZombieWith(s.procs, x) :: ZombieWith(t.procs, x)
  {
    forall x | ZombieWith(s.procs, x) ensures ZombieWith(t.procs, x) {
      var c :| 0 <= c < |s.procs| && s.procs[c].state == ZOMBIE && s.procs[c].pid == x;
      assert t.procs[c] == s.procs[c];
    }
  }

  // ------------------------------------------------------------------
  // fork

  lemma AllocSlot(s: State, e: Event, x: nat)
    requires Inv(s) && Enabled(s, e) && e.ForkAlloc? && x < |s.procs| == |Next(s, e).procs| == |Next(s, e).tasks|
    ensures ParentOk(Next(s, e), x) && StockOk(Next(s, e), x)
  {
    assert ParentOk(s, x) && StockOk(s, x);
  }

  lemma AllocTask(s: State, e: Event, x: nat)
    requires Inv(s) && Enabled(s, e) && e.ForkAlloc? && x < |s.procs| == |Next(s, e).procs| == |Next(s, e).tasks|
    ensures TaskOk(Next(s, e), x) && SleeperOk(Next(s, e), x)
  {
    assert TaskOk(s, x) && SleeperOk(s, x) && StockOk(s, e.c);
    ChildrenBut(s.procs, Next(s, e).procs, e.c, x);
  }

  lemma AllocPid(s: State, e: Event, x: nat)
    requires Inv(s) && Enabled(s, e) && e.ForkAlloc? && x < |s.procs| == |Next(s, e).procs|
    ensures PidOk(Next(s, e), x)
  {
    var t := Next(s, e);
    assert PidOk(s, x) && PidOk(s, s.ini);
    forall d | 0 <= d < |t.procs| && t.procs[d].state != UNUSED && t.procs[d].pid == t.procs[x].pid
      && t.procs[x].state != UNUSED
      ensures d == x
    {
      assert PidOk(s, d);
    }
  }

  lemma AllocKeepsInv(s: State, e: Event)
    requires Inv(s) && Enabled(s, e) && e.ForkAlloc?
    ensures Inv(Next(s, e))
  {
    var t := Next(s, e);
    forall c | 0 <= c < |t.procs|
      ensures ParentOk(t, c) && PidOk(t, c) && TaskOk(t, c) && SleeperOk(t, c) && StockOk(t, c)
    {
      AllocSlot(s, e, c);
      AllocTask(s, e, c);
      AllocPid(s, e, c);
    }
    forall q | 0 <= q < |s.tasks| ensures !Fills(s.tasks[q], e.c) { assert TaskOk(s, q); }
    AllocLog(s, e);
  }

  lemma AllocLog(s: State, e: Event)
    requires Inv(s) && Enabled(s, e) && e.ForkAlloc?
    ensures s.ini < |Next(s, e).procs| && LogOk(Next(s, e))
  {
    KeptZombies(s, Next(s, e), e.c);
  }

  lemma LinkKeepsInv(s: State, e: Event)
    requires Inv(s) && Enabled(s, e) && e.ForkLink?
    ensures Inv(Next(s, e))
  {
    var t, i := Next(s, e), s.tasks[e.p].i;
    assert TaskOk(s, e.p);
    forall c | 0 <= c < |t.procs|
      ensures ParentOk(t, c) && PidOk(t, c) && TaskOk(t, c) && SleeperOk(t, c) && StockOk(t, c)
    {
      LinkSlot(s, e, c);
      LinkTask(s, e, c);
    }
    LinkLog(s, e);
    assert Fills(s.tasks[e.p], i);
    forall p, j | 0 <= p < |t.tasks| && Fills(t.tasks[p], j) ensures Fills(s.tasks[p], j) {}
  }

  lemma LinkSlot(s: State, e: Event, x: nat)
    requires Inv(s) && Enabled(s, e) && e.ForkLink? && x < |s.procs| == |Next(s, e).procs| == |Next(s, e).tasks|
    ensures ParentOk(Next(s, e), x) && PidOk(Next(s, e), x)
  {
    var i := s.tasks[e.p].i;
    assert TaskOk(s, e.p) && ParentOk(s, x) && PidOk(s, x) && PidOk(s, i);
  }

  lemma LinkTask(s: State, e: Event, x: nat)
    requires Inv(s) && Enabled(s, e) && e.ForkLink? && x < |s.procs| == |Next(s, e).procs| == |Next(s, e).tasks|
    ensures TaskOk(Next(s, e), x) && SleeperOk(Next(s, e), x) && StockOk(Next(s, e), x)
  {
    var t, i := Next(s, e), s.tasks[e.p].i;
    assert TaskOk(s, e.p) && TaskOk(s, x) && SleeperOk(s, x) && StockOk(s, x) && PidOk(s, i);
    ChildrenBut(s.procs, t.procs, i, x);
    if x != e.p && Filling(s.tasks[x]) {
      assert Fills(s.tasks[x], s.tasks[x].i) && Fills(s.tasks[e.p], i);
      assert PidOk(s, s.tasks[x].i);
    }
  }

  lemma LinkLog(s: State, e: Event)
    requires Inv(s) && Enabled(s, e) && e.ForkLink?
    ensures s.ini < |Next(s, e).procs| && LogOk(Next(s, e))
  {
    var t, i := Next(s, e), s.tasks[e.p].i;
    assert TaskOk(s, e.p);
    KeptZombies(s, t, i);
    forall k | 0 <= k < |t.log| ensures t.log[k].1 != s.procs[i].pid {
      assert Waited(s.log, s.log[k].1);
    }
  }

  lemma RunSlot(s: State, e: Event, x: nat)
    requires Inv(s) && Enabled(s, e) && e.ForkRun? && x < |s.procs| == |Next(s, e).procs| == |Next(s, e).tasks|
    ensures ParentOk(Next(s, e), x) && PidOk(Next(s, e), x)
  {
    assert TaskOk(s, e.p) && ParentOk(s, x) && PidOk(s, x) && PidOk(s, s.tasks[e.p].i);
  }

  lemma RunTask(s: State, e: Event, x: nat)
    requires Inv(s) && Enabled(s, e) && e.ForkRun? && x < |s.procs| == |Next(s, e).procs| == |Next(s, e).tasks|
    ensures TaskOk(Next(s, e), x) && SleeperOk(Next(s, e), x) && StockOk(Next(s, e), x)
  {
    var t, i := Next(s, e), s.tasks[e.p].i;
    assert TaskOk(s, e.p) && TaskOk(s, x) && SleeperOk(s, x) && StockOk(s, x);
    ChildrenBut(s.procs, t.procs, i, x);
    if x != e.p && Filling(s.tasks[x]) {
      assert Fills(s.tasks[x], s.tasks[x].i) && Fills(s.tasks[e.p], i);
    }
    if ChildOf(s.procs, i, x) { assert ChildOf(t.procs, i, x); }
  }

  lemma RunKeepsOk(s: State, e: Event)
    requires Inv(s) && Enabled(s, e) && e.ForkRun?
    ensures Inv(Next(s, e))
  {
    var t, i := Next(s, e), s.tasks[e.p].i;
    assert TaskOk(s, e.p);
    forall c | 0 <= c < |t.procs|
      ensures ParentOk(t, c) && PidOk(t, c) && TaskOk(t, c) && SleeperOk(t, c) && StockOk(t, c)
    {
      RunSlot(s, e, c);
      RunTask(s, e, c);
    }
    KeptZombies(s, t, i);
    forall p, j | 0 <= p < |t.tasks| && Fills(t.tasks[p], j) ensures Fills(s.tasks[p], j) {}
  }

  /** A fork that fails gives its entry back; nobody else knew of it. */
  lemma FailSlot(s: State, e: Event, x: nat)
    requires Inv(s) && Enabled(s, e) && e.ForkFail? && x < |s.procs| == |Next(s, e).procs| == |Next(s, e).tasks|
    ensures ParentOk(Next(s, e), x) && PidOk(Next(s, e), x)
  {
    assert TaskOk(s, e.p) && ParentOk(s, x) && PidOk(s, x);
  }

  lemma FailTask(s: State, e: Event, x: nat)
    requires Inv(s) && Enabled(s, e) && e.ForkFail? && x < |s.procs| == |Next(s, e).procs| == |Next(s, e).tasks|
    ensures TaskOk(Next(s, e), x) && SleeperOk(Next(s, e), x) && StockOk(Next(s, e), x)
  {
    var t, i := Next(s, e), s.tasks[e.p].i;
    assert TaskOk(s, e.p) && TaskOk(s, x) && SleeperOk(s, x) && StockOk(s, x);
    ChildrenBut(s.procs, t.procs, i, x);
    if x != e.p && Filling(s.tasks[x]) {
      assert Fills(s.tasks[x], s.tasks[x].i) && Fills(s.tasks[e.p], i);
    }
  }

  lemma FailKeepsInv(s: State, e: Event)
    requires Inv(s) && Enabled(s, e) && e.ForkFail?
    ensures Inv(Next(s, e))
  {
    var t, i := Next(s, e), s.tasks[e.p].i;
    assert TaskOk(s, e.p);
    forall c | 0 <= c < |t.procs|
      ensures ParentOk(t, c) && PidOk(t, c) && TaskOk(t, c) && SleeperOk(t, c) && StockOk(t, c)
    {
      FailSlot(s, e, c);
      FailTask(s, e, c);
    }
    KeptZombies(s, t, i);
    forall p, j | 0 <= p < |t.tasks| && Fills(t.tasks[p], j) ensures Fills(s.tasks[p], j) {}
  }

  // ------------------------------------------------------------------
  // wait

  lemma ReapSlot(s: State, e: Event, x: nat)
    requires Inv(s) && Enabled(s, e) && e.WaitReap? && x < |s.procs| == |Next(s, e).procs| == |Next(s, e).tasks|
    ensures ParentOk(Next(s, e), x) && PidOk(Next(s, e), x)
  {
    assert ParentOk(s, x) && PidOk(s, x);
  }

  lemma ReapTask(s: State, e: Event, x: nat)
    requires Inv(s) && Enabled(s, e) && e.WaitReap? && x < |s.procs| == |Next(s, e).procs| == |Next(s, e).tasks|
    ensures TaskOk(Next(s, e), x) && SleeperOk(Next(s, e), x) && StockOk(Next(s, e), x)
  {
    var t := Next(s, e);
    assert TaskOk(s, x) && SleeperOk(s, x) && StockOk(s, x);
    ChildrenBut(s.procs, t.procs, e.c, x);
  }

  /** What the log says afterwards: the process waited for is new to it. */
  lemma ReapWaited(s: State, e: Event, x: nat)
    requires Inv(s) && Enabled(s, e) && e.WaitReap?
    ensures Waited(Next(s, e).log, x) <==> Waited(s.log, x) || x == s.procs[e.c].pid
    ensures !Waited(s.log, s.procs[e.c].pid)
  {
    var l, pid, n := Next(s, e).log, s.procs[e.c].pid, |s.log|;
    assert l[n] == (s.procs[e.p].pid, pid);
    if Waited(s.log, x) { var k :| 0 <= k < n && s.log[k].1 == x; assert l[k].1 == x; }
  }

  /** The process waited for leaves the zombies and enters the log. */
  lemma ReapExited(s: State, e: Event, x: nat)
    requires Inv(s) && Enabled(s, e) && e.WaitReap? && x in s.exited
    ensures Waited(Next(s, e).log, x) || ZombieWith(Next(s, e).procs, x)
  {
    var t := Next(s, e);
    ReapWaited(s, e, x);
    if !Waited(t.log, x) {
      var c :| 0 <= c < |s.procs| && s.procs[c].state == ZOMBIE && s.procs[c].pid == x;
      assert t.procs[c] == s.procs[c];
    }
  }

  lemma ReapLog(s: State, e: Event)
    requires Inv(s) && Enabled(s, e) && e.WaitReap?
    ensures s.ini < |Next(s, e).procs| && LogOk(Next(s, e))
  {
    var t, pid, n := Next(s, e), s.procs[e.c].pid, |s.log|;
    assert PidOk(s, e.c) && ParentOk(s, e.c);
    ReapWaited(s, e, pid);
    assert t.log[n] == (s.procs[e.p].pid, pid);
    forall k | 0 <= k < n ensures t.log[k] == s.log[k] && s.log[k].1 != pid {}
    forall x | x in t.exited ensures Waited(t.log, x) || ZombieWith(t.procs, x) { ReapExited(s, e, x); }
    forall c | 0 <= c < |t.procs| && t.procs[c].state != UNUSED ensures !Waited(t.log, t.procs[c].pid) {
      assert t.procs[c] == s.procs[c];
      ReapWaited(s, e, t.procs[c].pid);
    }
  }

  lemma ReapKeepsInv(s: State, e: Event)
    requires Inv(s) && Enabled(s, e) && e.WaitReap?
    ensures Inv(Next(s, e))
  {
    var t := Next(s, e);
    forall c | 0 <= c < |t.procs|
      ensures ParentOk(t, c) && PidOk(t, c) && TaskOk(t, c) && SleeperOk(t, c) && StockOk(t, c)
    {
      ReapSlot(s, e, c);
      ReapTask(s, e, c);
    }
    ReapLog(s, e);
    assert ParentOk(s, e.c);
    forall p, j | 0 <= p < |t.tasks| && Fills(t.tasks[p], j) ensures Fills(s.tasks[p], j) {}
  }

  // ------------------------------------------------------------------
  // exit

  /** What exit by p makes of entry i. */
  lemma ExitedAt(s: State, e: Event, i: nat)
    requires Enabled(s, e) && e.Exit? && i < |s.procs|
    ensures |Next(s, e).procs| == |s.procs| && Next(s, e).procs[i].pid == s.procs[i].pid
    ensures Next(s, e).procs[i].parent == if s.procs[i].parent == Some(e.p) then Some(s.ini) else s.procs[i].parent
    ensures i != e.p ==>
      || Next(s, e).procs[i].state == s.procs[i].state
      || (s.procs[i].state == SLEEPING && Next(s, e).procs[i].state == RUNNABLE)
    ensures i == e.p ==> Next(s, e).procs[i].state == ZOMBIE
    ensures Next(s, e).procs[i].chan == s.procs[i].chan && Next(s, e).procs[i].killed == s.procs[i].killed
    ensures Next(s, e).procs[i].kstack == s.procs[i].kstack && Next(s, e).procs[i].pgdir == s.procs[i].pgdir
    ensures i != e.p && Next(s, e).procs[i].state == SLEEPING && s.procs[i].chan.Some? ==>
      s.procs[i].chan.value != ProcChan(s.procs[e.p].parent.value)
        && (HasZombie(s.procs, e.p) ==> s.procs[i].chan.value != ProcChan(s.ini))
  {
  }

  lemma ExitParent(s: State, e: Event, x: nat)
    requires Inv(s) && Enabled(s, e) && e.Exit? && x < |s.procs| == |Next(s, e).procs|
    ensures ParentOk(Next(s, e), x)
  {
    assert ParentOk(s, x) && ParentOk(s, e.p);
    ExitedAt(s, e, x);
    ExitedAt(s, e, s.ini);
    if s.procs[x].parent.Some? && s.procs[x].parent.value < |s.procs| { ExitedAt(s, e, s.procs[x].parent.value); }
  }

  lemma ExitTask(s: State, e: Event, x: nat)
    requires Inv(s) && Enabled(s, e) && e.Exit? && x < |s.procs| == |Next(s, e).procs| == |Next(s, e).tasks|
    ensures TaskOk(Next(s, e), x) && StockOk(Next(s, e), x)
  {
    assert TaskOk(s, x) && StockOk(s, x) && StockOk(s, e.p);
    ExitedAt(s, e, x);
    if Filling(s.tasks[x]) { ExitedAt(s, e, s.tasks[x].i); }
  }

  lemma ExitPid(s: State, e: Event, x: nat)
    requires Inv(s) && Enabled(s, e) && e.Exit? && x < |s.procs| == |Next(s, e).procs|
    ensures PidOk(Next(s, e), x)
  {
    var t := Next(s, e);
    assert PidOk(s, x) && PidOk(s, e.p);
    ExitedAt(s, e, x);
    forall d | 0 <= d < |t.procs| && t.procs[d].state != UNUSED && t.procs[d].pid == t.procs[x].pid
      && t.procs[x].state != UNUSED
      ensures d == x
    {
      ExitedAt(s, e, d);
    }
  }

  /** Whoever still sleeps in wait after an exit has no zombie child. */
  lemma ExitSleeper(s: State, e: Event, x: nat)
    requires Inv(s) && Enabled(s, e) && e.Exit? && x < |s.procs| == |Next(s, e).procs| == |Next(s, e).tasks|
    ensures SleeperOk(Next(s, e), x)
  {
    var t := Next(s, e);
    assert SleeperOk(s, x);
    ExitedAt(s, e, x);
    if AsleepInWait(t, x) {
      forall c: nat ensures !ZombieChild(t.procs, c, x) {
        if ZombieChild(t.procs, c, x) {
          ExitedAt(s, e, c);
          if s.procs[c].parent == Some(e.p) {
            assert ParentOk(s, e.p);
            assert ZombieChild(s.procs, c, e.p);
          } else if c != e.p { assert ZombieChild(s.procs, c, x); }
        }
      }
      var c :| ChildOf(s.procs, c, x);
      ExitedAt(s, e, c);
      assert ChildOf(t.procs, c, x);
    }
  }

  lemma ExitLog(s: State, e: Event)
    requires Inv(s) && Enabled(s, e) && e.Exit?
    ensures s.ini < |Next(s, e).procs| && LogOk(Next(s, e))
  {
    var t := Next(s, e);
    ExitedAt(s, e, s.ini);
    ExitedAt(s, e, e.p);
    assert PidOk(s, e.p);
    forall x | x in t.exited
      ensures x < t.nextpid && (Waited(t.log, x) || ZombieWith(t.procs, x))
    {
      if !Waited(t.log, x) && x != s.procs[e.p].pid {
        var c :| 0 <= c < |s.procs| && s.procs[c].state == ZOMBIE && s.procs[c].pid == x;
        ExitedAt(s, e, c);
        assert t.procs[c].state == ZOMBIE && t.procs[c].pid == x;
      }
    }
    forall c | 0 <= c < |t.procs| && t.procs[c].state != UNUSED ensures !Waited(t.log, t.procs[c].pid) {
      ExitedAt(s, e, c);
    }
  }

  lemma ExitKeepsInv(s: State, e: Event)
    requires Inv(s) && Enabled(s, e) && e.Exit?
    ensures Inv(Next(s, e))
  {
    var t := Next(s, e);
    ExitedAt(s, e, s.ini);
    forall c | 0 <= c < |t.procs|
      ensures ParentOk(t, c) && PidOk(t, c) && TaskOk(t, c) && SleeperOk(t, c) && StockOk(t, c)
    {
      ExitParent(s, e, c);
      ExitTask(s, e, c);
      ExitPid(s, e, c);
      ExitSleeper(s, e, c);
    }
    ExitLog(s, e);
    forall i | 0 <= i < |t.procs| && t.procs[i].state == UNUSED ensures t.procs[i].parent == None { ExitedAt(s, e, i); }
  }

  // ------------------------------------------------------------------
  // Runs

  lemma StepKeepsInv(s: State, e: Event)
    requires Inv(s) && Enabled(s, e)
    ensures Inv(Next(s, e))
  {
    match e
    case ForkAlloc(_, _) => AllocKeepsInv(s, e);
    case ForkLink(_) => LinkKeepsInv(s, e);
    case ForkRun(_) => RunKeepsOk(s, e);
    case ForkFail(_) => FailKeepsInv(s, e);
    case Exit(_) => ExitKeepsInv(s, e);
    case WaitReap(_, _) => ReapKeepsInv(s, e);
    case _ => CalmKeepsInv(s, e);
  }

  ghost predicate Possible(s: State, es: seq<Event>)
    decreases |es|
  {
    es == [] || (Enabled(s, es[0]) && Possible(Next(s, es[0]), es[1..]))
  }

  ghost function After(s: State, es: seq<Event>): State
    requires Possible(s, es)
    decreases |es|
  {
    if es == [] then s else After(Next(s, es[0]), es[1..])
  }

  /** userinit: the first process alone in the table. */
  ghost predicate Initial(s: State) {
    && s.ini < |s.procs| == |s.tasks| && s.nextpid == 2 && s.mapped == {s.ini}
    && s.procs[s.ini].kstack != 0
    && s.procs[s.ini] == Slot(RUNNABLE, 1, None, None, false, s.procs[s.ini].kstack, s.procs[s.ini].pgdir)
    && (forall i | 0 <= i < |s.procs| && i != s.ini :: s.procs[i] == EMPTY)
    && (forall i | 0 <= i < |s.tasks| :: s.tasks[i] == Normal)
    && s.born == map[] && s.exited == {} && s.log == []
  }

  lemma InitialInv(s: State)
    requires Initial(s)
    ensures Inv(s)
  {
  }

  lemma {:induction false} RunKeepsInv(s: State, es: seq<Event>)
    requires Inv(s) && Possible(s, es)
    ensures Inv(After(s, es))
    decreases |es|
  {
    if es != [] {
      StepKeepsInv(s, es[0]);
      RunKeepsInv(Next(s, es[0]), es[1..]);
    }
  }

  /** In every run, a process that exited is either still a zombie or was returned by wait, and
      by only one wait, made by the parent it was born to or by init. */
  lemma WaitedOnce(s: State, es: seq<Event>)
    requires Initial(s) && Possible(s, es)
    ensures var t := After(s, es);
      && (forall x | x in t.exited ::
            Waited(t.log, x) != ZombieWith(t.procs, x))
      && (forall j, k | 0 <= j < k < |t.log| :: t.log[j].1 != t.log[k].1)
      && t.ini < |t.procs|
      && (forall k | 0 <= k < |t.log| :: t.log[k].1 in t.exited
            && (t.log[k].0 == t.procs[t.ini].pid || (t.log[k].1 in t.born && t.log[k].0 == t.born[t.log[k].1])))
  {
    InitialInv(s);
    RunKeepsInv(s, es);
  }

  /** In every run, nobody sleeps in wait who has a zombie child. */
  lemma NoParentAsleep(s: State, es: seq<Event>, p: nat, c: nat)
    requires Initial(s) && Possible(s, es) && p < |After(s, es).procs| == |After(s, es).tasks|
    requires After(s, es).procs[p].state == SLEEPING && After(s, es).tasks[p] == InWait
    ensures !ZombieChild(After(s, es).procs, c, p)
  {
    InitialInv(s);
    RunKeepsInv(s, es);
    assert SleeperOk(After(s, es), p);
  }

  /** In every run, each zombie has a live parent to wait for it. */
  lemma ZombieHasParent(s: State, es: seq<Event>, c: nat)
    requires Initial(s) && Possible(s, es) && c < |After(s, es).procs| && After(s, es).procs[c].state == ZOMBIE
    ensures After(s, es).procs[c].parent.Some? && Live(After(s, es), After(s, es).procs[c].parent.value)
  {
    InitialInv(s);
    RunKeepsInv(s, es);
    assert ParentOk(After(s, es), c);
  }

  lemma {:induction false} FirstOf(procs: seq<Slot>, p: nat, c: nat)
    requires ZombieChild(procs, c, p)
    ensures exists d :: FirstZombie(procs, p, d)
  {
    if d :| 0 <= d < c && ZombieChild(procs, d, p) {
      FirstOf(procs, p, d);
    } else {
      assert FirstZombie(procs, p, c);
    }
  }

  ghost predicate Reaps(s: State, p: nat, c: nat) { Enabled(s, WaitReap(p, c)) }

  /** Whoever looks for its children in wait does one thing: it reaps, fails or goes to sleep. */
  lemma WaitDecides(s: State, p: nat)
    requires |s.tasks| == |s.procs| && Runs(s, p) && MayWait(s.tasks[p])
    ensures (exists c :: Reaps(s, p, c)) <==> !(Enabled(s, WaitFail(p)) || Enabled(s, WaitSleep(p)))
    ensures !(Enabled(s, WaitFail(p)) && Enabled(s, WaitSleep(p)))
  {
    if c :| ZombieChild(s.procs, c, p) {
      FirstOf(s.procs, p, c);
      var d :| FirstZombie(s.procs, p, d);
      assert Reaps(s, p, d);
    }
    if c :| Reaps(s, p, c) { assert ZombieChild(s.procs, c, p); }
  }

  /** What may end the sleep of process p in a step: a wakeup of its channel, a child that exits and
      hands itself or a zombie to it, or a kill of p itself. */
  ghost predicate MayWake(s: State, e: Event, p: nat)
    requires p < |s.procs| == |s.tasks|
  {
    || (e.Wakeup? && s.procs[p].chan == Some(OtherChan(e.n)))
    || (e.Kill? && e.c == p)
    || (e.Exit? && e.p < |s.procs| && s.tasks[p] == InWait
        && (s.procs[e.p].parent == Some(p) || (p == s.ini && HasZombie(s.procs, e.p))))
  }

  lemma ExitWakes(s: State, e: Event, p: nat)
    requires Inv(s) && Enabled(s, e) && e.Exit? && p < |s.procs| && s.procs[p].state == SLEEPING
    ensures p < |Next(s, e).procs| && (Next(s, e).procs[p].state != SLEEPING <==> MayWake(s, e, p))
  {
    assert SleeperOk(s, p);
  }

  /** In every run, whoever sleeps goes on sleeping unless the step is meant for it, and is woken if
      it is. */
  lemma SleepersStayAsleep(s: State, es: seq<Event>, e: Event, p: nat)
    requires Initial(s) && Possible(s, es) && Enabled(After(s, es), e)
    requires p < |After(s, es).procs| && After(s, es).procs[p].state == SLEEPING
    ensures p < |Next(After(s, es), e).procs| && p < |After(s, es).tasks| == |After(s, es).procs|
    ensures Next(After(s, es), e).procs[p].state != SLEEPING <==> MayWake(After(s, es), e, p)
  {
    InitialInv(s);
    RunKeepsInv(s, es);
    var t := After(s, es);
    if e.Exit? {
      ExitWakes(t, e, p);
    } else {
      OthersWake(t, e, p);
    }
  }

  /** In every run, whoever runs goes on running unless it exits, sleeps or yields, and nobody else but
      the one the scheduler picks begins to. */
  lemma WhoRuns(s: State, es: seq<Event>, e: Event, p: nat)
    requires Initial(s) && Possible(s, es) && Enabled(After(s, es), e) && p < |After(s, es).procs|
    ensures p < |Next(After(s, es), e).procs|
    ensures Next(After(s, es), e).procs[p].state == RUNNING <==>
      e == Schedule(p) || (After(s, es).procs[p].state == RUNNING && !Leaves(e, p))
  {
    InitialInv(s);
    RunKeepsInv(s, es);
    var t := After(s, es);
    if e.Exit? {
      ExitedAt(t, e, p);
    } else if !IsCalm(e) || IsFill(e) {
      ForkRuns(t, e, p);
    } else {
      CalmRuns(t, e, p);
    }
  }

  /** Process p gives up the processor. */
  predicate Leaves(e: Event, p: nat) { (e.Exit? || e.WaitSleep? || e.Sleep? || e.Yield?) && e.p == p }

  lemma CalmRuns(s: State, e: Event, p: nat)
    requires Enabled(s, e) && IsCalm(e) && !IsFill(e) && p < |s.procs|
    ensures p < |Next(s, e).procs|
    ensures Next(s, e).procs[p].state == RUNNING <==> e == Schedule(p) || (s.procs[p].state == RUNNING && !Leaves(e, p))
  {
  }

  lemma ForkRuns(s: State, e: Event, p: nat)
    requires Inv(s) && Enabled(s, e) && (!IsCalm(e) || IsFill(e)) && !e.Exit? && p < |s.procs|
    ensures p < |Next(s, e).procs| && (Next(s, e).procs[p].state == RUNNING <==> s.procs[p].state == RUNNING)
  {
    if !e.ForkAlloc? && !e.WaitReap? { assert TaskOk(s, e.p); }
  }

  lemma OthersWake(s: State, e: Event, p: nat)
    requires Inv(s) && Enabled(s, e) && !e.Exit? && p < |s.procs| && s.procs[p].state == SLEEPING
    ensures p < |Next(s, e).procs| && (Next(s, e).procs[p].state != SLEEPING <==> MayWake(s, e, p))
  {
    if !IsCalm(e) || IsFill(e) { ForkSleeps(s, e, p); }
  }

  lemma ForkSleeps(s: State, e: Event, p: nat)
    requires Inv(s) && Enabled(s, e) && (!IsCalm(e) || IsFill(e)) && !e.Exit? && p < |s.procs|
    ensures p < |Next(s, e).procs| && (s.procs[p].state == SLEEPING ==> Next(s, e).procs[p].state == SLEEPING)
  {
    if !e.ForkAlloc? && !e.WaitReap? { assert TaskOk(s, e.p); }
  }
}
