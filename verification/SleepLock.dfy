/** acquiresleep and releasesleep of sleeplock.c on top of sleep and wakeup: any number of
    processes, any number of sleep locks, any interleaving. */
module SleepLock {
  import opened Optional
  import W = SleepWakeup

  /** Sleep lock l is guarded by spin lock Lk(l) and slept on at channel Chan(l); code outside
      this file uses other locks and channels. */
  function Lk(l: nat): nat { 2 * l + 1 }
  function Chan(l: nat): nat { 2 * l + 1 }
  predicate Foreign(n: nat) { n % 2 == 0 }

  /** What a process is doing with sleep locks. */
  datatype Task =
    | Idle
    | Enter(l: nat)     // acquiresleep: about to acquire the spin lock
    | Test(l: nat)      // about to test `locked`
    | InSleep(l: nat)   // inside sleep
    | Took(l: nat)      // locked is set, about to release the spin lock
    | Leave(l: nat)     // releasesleep: about to acquire the spin lock
    | Clear(l: nat)     // about to clear `locked`
    | Waking(l: nat)    // inside wakeup
    | Woke(l: nat)      // about to release the spin lock

  /** `locked` and `pid` are the fields of the sleep locks; `owners` records who has taken
      which lock and not given it back. */
  datatype State = State(w: W.State, locked: set<nat>, pid: map<nat, nat>, owners: set<(nat, nat)>, tasks: seq<Task>)

  datatype Event =
    | Other(e: W.Event)
    | AcqCall(p: nat, l: nat)
    | AcqLock(p: nat)
    | AcqSleep(p: nat)
    | SleepStep(e: W.Event)
    | AcqTake(p: nat)
    | AcqUnlock(p: nat)
    | RelCall(p: nat, l: nat)
    | RelLock(p: nat)
    | RelClear(p: nat)
    | WakeStep(e: W.Event)
    | RelUnlock(p: nat)

  function By(v: Event): nat {
    match v
    case Other(e) => e.p
    case SleepStep(e) => e.p
    case WakeStep(e) => e.p
    case _ => v.p
  }

  /** Steps of other code keep to their own locks and channels. */
  predicate Apart(e: W.Event) {
    match e
    case Acquire(_, k) => Foreign(k)
    case Release(_, k) => Foreign(k)
    case CallSleep(_, c, k) => Foreign(c) && Foreign(k)
    case CallWakeup(_, c) => Foreign(c)
    case DirectScan(_, c) => Foreign(c)
    case _ => true
  }

  predicate InSleepStep(e: W.Event) {
    e.LockTable? || e.ReleaseLk? || e.Mark? || e.SwitchOut? || e.SwitchIn? || e.Tidy? || e.TakeLk?
  }

  predicate InWakeStep(e: W.Event) { e.WakeLock? || e.Scan? || e.WakeUnlock? }

  /** The step of the sleep and wakeup machine that an event takes, if any. */
  function Below(s: State, v: Event): Option<W.Event>
    requires By(v) < |s.tasks|
  {
    var t := s.tasks[By(v)];
    match v
    case Other(e) => Some(e)
    case AcqLock(p) => if t.Enter? then Some(W.Acquire(p, Lk(t.l))) else None
    case AcqSleep(p) => if t.Test? then Some(W.CallSleep(p, Chan(t.l), Lk(t.l))) else None
    case SleepStep(e) => Some(e)
    case AcqUnlock(p) => if t.Took? then Some(W.Release(p, Lk(t.l))) else None
    case RelLock(p) => if t.Leave? then Some(W.Acquire(p, Lk(t.l))) else None
    case RelClear(p) => if t.Clear? then Some(W.CallWakeup(p, Chan(t.l))) else None
    case WakeStep(e) => Some(e)
    case RelUnlock(p) => if t.Woke? then Some(W.Release(p, Lk(t.l))) else None
    case _ => None
  }

  predicate Enabled(s: State, v: Event) {
    && By(v) < |s.tasks| == |s.w.procs|
    && (Below(s, v).Some? ==> W.Enabled(s.w, Below(s, v).value))
    && var t, pc := s.tasks[By(v)], s.w.procs[By(v)].pc;
    match v
    case Other(e) => t == Idle && Apart(e)
    case AcqCall(_, _) => t == Idle && pc == W.Outside
    case AcqLock(_) => t.Enter?
    case AcqSleep(_) => t.Test? && t.l in s.locked
    case SleepStep(e) => t.InSleep? && InSleepStep(e)
    case AcqTake(_) => t.Test? && t.l !in s.locked
    case AcqUnlock(_) => t.Took?
    case RelCall(p, l) => t == Idle && pc == W.Outside && (p, l) in s.owners
    case RelLock(_) => t.Leave?
    case RelClear(_) => t.Clear?
    case WakeStep(e) => t.Waking? && InWakeStep(e)
    case RelUnlock(_) => t.Woke?
  }

  function Task'(s: State, v: Event, w': W.State): Task
    requires Enabled(s, v) && |w'.procs| == |s.tasks|
  {
    var t, out := s.tasks[By(v)], w'.procs[By(v)].pc == W.Outside;
    match v
    case Other(e) => Idle
    case AcqCall(_, l) => Enter(l)
    case AcqLock(_) => Test(t.l)
    case AcqSleep(_) => InSleep(t.l)
    case SleepStep(_) => if out then Test(t.l) else t
    case AcqTake(_) => Took(t.l)
    case AcqUnlock(_) => Idle
    case RelCall(_, l) => Leave(l)
    case RelLock(_) => Clear(t.l)
    case RelClear(_) => Waking(t.l)
    case WakeStep(_) => if out then Woke(t.l) else t
    case RelUnlock(_) => Idle
  }

  function W'(s: State, v: Event): (w': W.State)
    requires Enabled(s, v)
    ensures |w'.procs| == |s.w.procs|
  {
    if Below(s, v).Some? then W.Next(s.w, Below(s, v).value) else s.w
  }

  function Next(s: State, v: Event): State
    requires Enabled(s, v)
  {
    var p, t, w' := By(v), s.tasks[By(v)], W'(s, v);
    var tasks := s.tasks[p := Task'(s, v, w')];
    if v.AcqTake? then State(w', s.locked + {t.l}, s.pid[t.l := p], s.owners + {(p, t.l)}, tasks)
    else if v.RelClear? then State(w', s.locked - {t.l}, s.pid - {t.l}, s.owners - {(p, t.l)}, tasks)
    else State(w', s.locked, s.pid, s.owners, tasks)
  }

  // ------------------------------------------------------------------
  // The invariant

  ghost predicate TaskOk(s: State, p: nat)
    requires p < |s.tasks| == |s.w.procs|
  {
    var pc := s.w.procs[p].pc;
    match s.tasks[p]
    case Idle => true
    case Enter(_) => pc == W.Outside
    case Test(l) => pc == W.Outside && W.Holds(s.w, p, Lk(l))
    case InSleep(l) => Asleep(pc, l)
    case Took(l) => pc == W.Outside && W.Holds(s.w, p, Lk(l)) && (p, l) in s.owners
    case Leave(l) => pc == W.Outside && (p, l) in s.owners
    case Clear(l) => pc == W.Outside && W.Holds(s.w, p, Lk(l)) && (p, l) in s.owners
    case Waking(l) =>
      W.Holds(s.w, p, Lk(l)) && (pc == W.WakeCalled(Chan(l)) || pc == W.WakeScan(Chan(l)) || pc == W.WakeDone)
    case Woke(l) => pc == W.Outside && W.Holds(s.w, p, Lk(l))
  }

  predicate Asleep(pc: W.Pc, l: nat) {
    match pc
    case Called(c, k) => c == Chan(l) && k == Lk(l)
    case HoldsBoth(c, k) => c == Chan(l) && k == Lk(l)
    case HoldsTable(c, k) => c == Chan(l) && k == Lk(l)
    case Marked(c, k) => c == Chan(l) && k == Lk(l)
    case Off(c, k) => c == Chan(l) && k == Lk(l)
    case Back(c, k) => c == Chan(l) && k == Lk(l)
    case Relock(k) => k == Lk(l)
    case _ => false
  }

  /** `locked` is set exactly for the locks that are owned, and `pid` names the owner. */
  ghost predicate OwnersOk(s: State) {
    && (forall p, l | (p, l) in s.owners :: l in s.locked && l in s.pid && s.pid[l] == p)
    && (forall l | l in s.locked :: l in s.pid && (s.pid[l], l) in s.owners)
  }

  /** A releaser of l has cleared `locked` and is on its way to scan for the sleepers. */
  ghost predicate Coming(s: State, q: nat, l: nat) {
    q < |s.tasks| == |s.w.procs| && s.tasks[q] == Waking(l)
      && (s.w.procs[q].pc.WakeCalled? || s.w.procs[q].pc.WakeScan?)
  }

  /** Whoever waits for l does so while l is locked or a releaser is coming to wake it. */
  ghost predicate NoneStuck(s: State) {
    forall p, l | W.Waiting(s.w, p, Chan(l), Lk(l)) :: l in s.locked || exists q :: Coming(s, q, l)
  }

  ghost predicate Inv(s: State) {
    && |s.tasks| == |s.w.procs| && W.Inv(s.w)
    && (forall p | 0 <= p < |s.tasks| :: TaskOk(s, p))
    && OwnersOk(s) && NoneStuck(s)
  }

  lemma TaskOfOther(s: State, v: Event, p: nat)
    requires Inv(s) && Enabled(s, v) && p < |s.tasks| && p != By(v)
    ensures TaskOk(Next(s, v), p)
  {
    var t := Next(s, v);
    assert TaskOk(s, p) && TaskOk(s, By(v));
    if Below(s, v).Some? && s.tasks[p] != Idle {
      W.OthersKeep(s.w, Below(s, v).value, p, Lk(s.tasks[p].l));
    }
    if v.RelClear? && s.tasks[p] != Idle && (p, s.tasks[p].l) in s.owners {
      assert s.pid[s.tasks[p].l] == p;
    }
  }

  lemma TaskOfSelf(s: State, v: Event)
    requires Inv(s) && Enabled(s, v)
    ensures TaskOk(Next(s, v), By(v))
  {
    var p := By(v);
    assert TaskOk(s, p) && W.ProcOk(s.w, p);
    if v.WakeStep? { W.SelfKeeps(s.w, v.e, Lk(s.tasks[p].l)); }
    if v.RelClear? { W.SelfKeeps(s.w, Below(s, v).value, Lk(s.tasks[p].l)); }
  }

  lemma OwnersStep(s: State, v: Event)
    requires Inv(s) && Enabled(s, v)
    ensures OwnersOk(Next(s, v))
  {
    assert TaskOk(s, By(v));
  }

  /** The releaser of l reaches its scan or is still coming. */
  lemma StillComing(s: State, v: Event, q: nat, l: nat)
    requires Inv(s) && Enabled(s, v) && Coming(s, q, l)
    ensures Coming(Next(s, v), q, l) || (v.WakeStep? && v.e == W.Scan(q) && s.w.procs[q].pc == W.WakeScan(Chan(l)))
  {
    assert TaskOk(s, q) && W.ProcOk(s.w, q);
    if q != By(v) && Below(s, v).Some? {
      W.OthersKeep(s.w, Below(s, v).value, q, Lk(l));
    }
  }

  lemma NotStuck(s: State, v: Event, p: nat, l: nat)
    requires Inv(s) && Enabled(s, v) && W.Waiting(Next(s, v).w, p, Chan(l), Lk(l))
    ensures l in Next(s, v).locked || exists q :: Coming(Next(s, v), q, l)
  {
    var t, b := Next(s, v), By(v);
    assert TaskOk(s, b);
    if Below(s, v).Some? {
      W.WaitingBegins(s.w, Below(s, v).value, p, Chan(l), Lk(l));
    }
    if l !in t.locked {
      if l in s.locked {
        assert Coming(t, b, l);
      } else {
        assert W.Waiting(s.w, p, Chan(l), Lk(l));
        var q :| Coming(s, q, l);
        StillComing(s, v, q, l);
        if !Coming(t, q, l) {
          assert TaskOk(s, q);
          W.ScanWakesAll(s.w, v.e, q, Chan(l), Lk(l), p);
        }
      }
    }
  }

  lemma StepKeepsInv(s: State, v: Event)
    requires Inv(s) && Enabled(s, v)
    ensures Inv(Next(s, v))
  {
    var t := Next(s, v);
    if Below(s, v).Some? { W.StepKeepsInv(s.w, Below(s, v).value); }
    forall p | 0 <= p < |t.tasks| ensures TaskOk(t, p) {
      if p == By(v) { TaskOfSelf(s, v); } else { TaskOfOther(s, v, p); }
    }
    OwnersStep(s, v);
    forall p, l | W.Waiting(t.w, p, Chan(l), Lk(l)) ensures l in t.locked || exists q :: Coming(t, q, l) {
      NotStuck(s, v, p, l);
    }
  }

  // ------------------------------------------------------------------
  // Runs

  predicate Possible(s: State, vs: seq<Event>)
    decreases |vs|
  {
    vs == [] || (Enabled(s, vs[0]) && Possible(Next(s, vs[0]), vs[1..]))
  }

  function After(s: State, vs: seq<Event>): State
    requires Possible(s, vs)
    decreases |vs|
  {
    if vs == [] then s else After(Next(s, vs[0]), vs[1..])
  }

  predicate Initial(s: State) {
    && W.Initial(s.w) && s.locked == {} && s.pid == map[] && s.owners == {}
    && |s.tasks| == |s.w.procs| && forall p | 0 <= p < |s.tasks| :: s.tasks[p] == Idle
  }

  lemma {:induction false} RunKeepsInv(s: State, vs: seq<Event>)
    requires Inv(s) && Possible(s, vs)
    ensures Inv(After(s, vs))
    decreases |vs|
  {
    if vs != [] {
      StepKeepsInv(s, vs[0]);
      RunKeepsInv(Next(s, vs[0]), vs[1..]);
    }
  }

  /** In every run a sleep lock has at most one owner, and `locked` is set exactly while it has one. */
  lemma MutualExclusion(s: State, vs: seq<Event>, p: nat, q: nat, l: nat)
    requires Initial(s) && Possible(s, vs)
    ensures (p, l) in After(s, vs).owners && (q, l) in After(s, vs).owners ==> p == q
    ensures l in After(s, vs).locked <==> exists o :: (o, l) in After(s, vs).owners
  {
    RunKeepsInv(s, vs);
    var t := After(s, vs);
    if l in t.locked { assert (t.pid[l], l) in t.owners; }
  }

  /** In every run nobody sleeps for a free lock, unless its releaser is about to wake it. */
  lemma NoStuckSleeper(s: State, vs: seq<Event>, p: nat, l: nat)
    requires Initial(s) && Possible(s, vs) && p < |After(s, vs).tasks| == |After(s, vs).w.procs|
    requires
      || (After(s, vs).tasks[p] == InSleep(l) && After(s, vs).w.procs[p].run == W.Sleeping)
      || W.Waiting(After(s, vs).w, p, Chan(l), Lk(l))
    ensures l in After(s, vs).locked || exists q :: Coming(After(s, vs), q, l)
  {
    RunKeepsInv(s, vs);
    var t := After(s, vs);
    assert W.Waiting(t.w, p, Chan(l), Lk(l)) by { assert TaskOk(t, p) && W.ProcOk(t.w, p); }
  }

  /** In every run a process that tests the lock takes it exactly if nobody owns it, and sleeps exactly
      if somebody does. */
  lemma TestDecides(s: State, vs: seq<Event>, p: nat)
    requires Initial(s) && Possible(s, vs) && p < |After(s, vs).tasks| && After(s, vs).tasks[p].Test?
    ensures Enabled(After(s, vs), AcqSleep(p)) <==> exists o :: (o, After(s, vs).tasks[p].l) in After(s, vs).owners
    ensures Enabled(After(s, vs), AcqTake(p)) <==> !Enabled(After(s, vs), AcqSleep(p))
  {
    RunKeepsInv(s, vs);
    var t := After(s, vs);
    assert TaskOk(t, p);
    MutualExclusion(s, vs, p, p, t.tasks[p].l);
  }
}
