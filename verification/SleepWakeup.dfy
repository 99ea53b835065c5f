/** sleep and wakeup of proc.c as a machine whose steps are the lock operations and the state
    changes between them, taken by any number of processes in any order. */
module SleepWakeup {
  import opened Optional

  const TABLE: nat := 0   // ptable.lock; the other spin locks have other numbers

  datatype RunState = Running | Sleeping | Runnable

  /** Where a process is: outside these routines, inside sleep(chan, lk) or inside wakeup(chan). */
  datatype Pc =
    | Outside
    | Called(chan: nat, lk: nat)       // about to acquire ptable.lock
    | HoldsBoth(chan: nat, lk: nat)    // about to release lk
    | HoldsTable(chan: nat, lk: nat)   // about to set chan and SLEEPING
    | Marked(chan: nat, lk: nat)       // in sched, still holding ptable.lock
    | Off(chan: nat, lk: nat)          // switched out
    | Back(chan: nat, lk: nat)         // switched in again, holding ptable.lock
    | Relock(lk: nat)                  // about to reacquire lk
    | WakeCalled(chan: nat)            // about to acquire ptable.lock
    | WakeScan(chan: nat)              // about to scan the table
    | WakeDone                         // about to release ptable.lock

  datatype Proc = Proc(pc: Pc, run: RunState, chan: Option<nat>)

  /** `held` maps each spin lock that is held to its holder. */
  datatype State = State(held: map<nat, nat>, procs: seq<Proc>)

  datatype Event =
    | Acquire(p: nat, k: nat)
    | Release(p: nat, k: nat)
    | CallSleep(p: nat, chan: nat, k: nat)
    | LockTable(p: nat)
    | ReleaseLk(p: nat)
    | Mark(p: nat)
    | SwitchOut(p: nat)
    | SwitchIn(p: nat)
    | Tidy(p: nat)
    | TakeLk(p: nat)
    | CallWakeup(p: nat, chan: nat)
    | WakeLock(p: nat)
    | Scan(p: nat)
    | WakeUnlock(p: nat)
    | DirectScan(p: nat, chan: nat)     // wakeup1 by a holder of ptable.lock
    | KillWake(p: nat, victim: nat)     // kill by a holder of ptable.lock

  predicate Holds(s: State, p: nat, k: nat) { k in s.held && s.held[k] == p }

  predicate Free(s: State, k: nat) { k !in s.held }

  predicate Enabled(s: State, e: Event) {
    e.p < |s.procs| && var pc := s.procs[e.p].pc;
    match e
    case Acquire(_, k) => pc == Outside && Free(s, k)
    case Release(p, k) => pc == Outside && Holds(s, p, k)
    case CallSleep(p, _, k) => pc == Outside && Holds(s, p, k)
    case LockTable(_) => pc.Called? && Free(s, TABLE)
    case ReleaseLk(_) => pc.HoldsBoth?
    case Mark(_) => pc.HoldsTable?
    case SwitchOut(_) => pc.Marked?
    case SwitchIn(p) => pc.Off? && s.procs[p].run == Runnable && Free(s, TABLE)
    case Tidy(_) => pc.Back?
    case TakeLk(_) => pc.Relock? && Free(s, pc.lk)
    case CallWakeup(_, _) => pc == Outside
    case WakeLock(_) => pc.WakeCalled? && Free(s, TABLE)
    case Scan(_) => pc.WakeScan?
    case WakeUnlock(_) => pc == WakeDone
    case DirectScan(p, _) => pc == Outside && Holds(s, p, TABLE)
    case KillWake(p, victim) => pc == Outside && Holds(s, p, TABLE) && victim < |s.procs|
  }

  /** wakeup1: every process asleep on chan becomes runnable. */
  function Woken(procs: seq<Proc>, chan: nat): (r: seq<Proc>)
    ensures |r| == |procs|
  {
    seq(|procs|, i requires 0 <= i < |procs| => Wake(procs[i], chan))
  }

  function Wake(q: Proc, chan: nat): Proc {
    if q.run == Sleeping && q.chan == Some(chan) then Proc(q.pc, Runnable, q.chan) else q
  }

  function At(s: State, p: nat, pc: Pc): seq<Proc>
    requires p < |s.procs|
  {
    s.procs[p := Proc(pc, s.procs[p].run, s.procs[p].chan)]
  }

  function Next(s: State, e: Event): State
    requires Enabled(s, e)
  {
    var q := s.procs[e.p];
    match e
    case Acquire(p, k) => State(s.held[k := p], s.procs)
    case Release(p, k) => State(s.held - {k}, s.procs)
    case CallSleep(p, c, k) => State(s.held, At(s, p, if k == TABLE then HoldsTable(c, k) else Called(c, k)))
    case LockTable(p) => State(s.held[TABLE := p], At(s, p, HoldsBoth(q.pc.chan, q.pc.lk)))
    case ReleaseLk(p) => State(s.held - {q.pc.lk}, At(s, p, HoldsTable(q.pc.chan, q.pc.lk)))
    case Mark(p) => State(s.held, s.procs[p := Proc(Marked(q.pc.chan, q.pc.lk), Sleeping, Some(q.pc.chan))])
    case SwitchOut(p) => State(s.held - {TABLE}, At(s, p, Off(q.pc.chan, q.pc.lk)))
    case SwitchIn(p) => State(s.held[TABLE := p], s.procs[p := Proc(Back(q.pc.chan, q.pc.lk), Running, q.chan)])
    case Tidy(p) =>
      if q.pc.lk == TABLE then State(s.held, s.procs[p := Proc(Outside, q.run, None)])
      else State(s.held - {TABLE}, s.procs[p := Proc(Relock(q.pc.lk), q.run, None)])
    case TakeLk(p) => State(s.held[q.pc.lk := p], At(s, p, Outside))
    case CallWakeup(p, c) => State(s.held, At(s, p, WakeCalled(c)))
    case WakeLock(p) => State(s.held[TABLE := p], At(s, p, WakeScan(q.pc.chan)))
    case Scan(p) => State(s.held, Woken(At(s, p, WakeDone), q.pc.chan))
    case WakeUnlock(p) => State(s.held - {TABLE}, At(s, p, Outside))
    case DirectScan(p, c) => State(s.held, Woken(s.procs, c))
    case KillWake(p, v) =>
      if s.procs[v].run == Sleeping then State(s.held, s.procs[v := Proc(s.procs[v].pc, Runnable, s.procs[v].chan)])
      else s
  }

  // ------------------------------------------------------------------
  // The invariant

  ghost predicate ProcOk(s: State, p: nat)
    requires p < |s.procs|
  {
    var q := s.procs[p];
    match q.pc
    case Called(_, k) => q.run == Running && Holds(s, p, k) && k != TABLE
    case HoldsBoth(_, k) => q.run == Running && Holds(s, p, k) && Holds(s, p, TABLE) && k != TABLE
    case HoldsTable(_, _) => q.run == Running && Holds(s, p, TABLE)
    case Marked(c, _) => Holds(s, p, TABLE) && q.run == Sleeping && q.chan == Some(c)
    case Off(c, _) => q.chan == Some(c) && q.run != Running
    case Back(_, _) => q.run == Running && Holds(s, p, TABLE)
    case WakeScan(_) => q.run == Running && Holds(s, p, TABLE)
    case WakeDone => q.run == Running && Holds(s, p, TABLE)
    case _ => q.run == Running
  }

  ghost predicate Inv(s: State) {
    forall p | 0 <= p < |s.procs| :: ProcOk(s, p)
  }

  /** Process p called sleep(chan, lk) and has not been woken since. */
  predicate Waiting(s: State, p: nat, chan: nat, lk: nat) {
    p < |s.procs| && var q := s.procs[p];
    || q.pc == Called(chan, lk) || q.pc == HoldsBoth(chan, lk) || q.pc == HoldsTable(chan, lk)
    || q.pc == Marked(chan, lk)
    || (q.pc == Off(chan, lk) && q.run == Sleeping)
  }

  lemma StepKeepsInv(s: State, e: Event)
    requires Inv(s) && Enabled(s, e)
    ensures Inv(Next(s, e))
  {
    var t := Next(s, e);
    forall p | 0 <= p < |t.procs| ensures ProcOk(t, p) {
      assert ProcOk(s, p) && ProcOk(s, e.p);
    }
  }

  /** A step moves no other process and takes no lock away from one. */
  lemma OthersKeep(s: State, e: Event, p: nat, k: nat)
    requires Inv(s) && Enabled(s, e) && p != e.p
    ensures p < |s.procs| ==> Next(s, e).procs[p].pc == s.procs[p].pc
    ensures Holds(s, p, k) ==> Holds(Next(s, e), p, k)
  {
    assert ProcOk(s, e.p);
  }

  /** A step keeps the locks of its own process, but for the ones it releases. */
  lemma SelfKeeps(s: State, e: Event, k: nat)
    requires Inv(s) && Enabled(s, e) && Holds(s, e.p, k) && k != TABLE
    requires !e.Release? && !e.ReleaseLk?
    ensures Holds(Next(s, e), e.p, k)
  {
  }

  /** Waiting begins only with a call of sleep. */
  lemma WaitingBegins(s: State, e: Event, p: nat, chan: nat, lk: nat)
    requires Inv(s) && Enabled(s, e) && Waiting(Next(s, e), p, chan, lk)
    ensures Waiting(s, p, chan, lk) || e == CallSleep(p, chan, lk)
  {
  }

  // ------------------------------------------------------------------
  // Runs

  predicate Possible(s: State, es: seq<Event>)
    decreases |es|
  {
    es == [] || (Enabled(s, es[0]) && Possible(Next(s, es[0]), es[1..]))
  }

  function After(s: State, es: seq<Event>): State
    requires Possible(s, es)
    decreases |es|
  {
    if es == [] then s else After(Next(s, es[0]), es[1..])
  }

  /** No lock held, every process running outside these routines. */
  predicate Initial(s: State) {
    s.held == map[] && forall p | 0 <= p < |s.procs| :: s.procs[p] == Proc(Outside, Running, None)
  }

  lemma {:induction false} RunKeepsInv(s: State, es: seq<Event>)
    requires Inv(s) && Possible(s, es)
    ensures Inv(After(s, es))
    decreases |es|
  {
    if es != [] {
      StepKeepsInv(s, es[0]);
      RunKeepsInv(Next(s, es[0]), es[1..]);
    }
  }

  /** The scan of wakeup(chan) or wakeup1(chan) by q. */
  predicate Scans(s: State, e: Event, q: nat, chan: nat)
    requires Enabled(s, e)
  {
    (e == Scan(q) && s.procs[q].pc == WakeScan(chan)) || e == DirectScan(q, chan)
  }

  lemma ScanWakesAll(s: State, e: Event, q: nat, chan: nat, lk: nat, p: nat)
    requires Inv(s) && Enabled(s, e) && Scans(s, e, q, chan) && Holds(s, q, lk)
    ensures !Waiting(Next(s, e), p, chan, lk)
    ensures Waiting(s, p, chan, lk) ==> Next(s, e).procs[p].run == Runnable
  {
    assert ProcOk(s, q);
    if p < |s.procs| { assert ProcOk(s, p); }
  }

  /** No lost wakeup. In every run, once a process holding lk has scanned for chan, nobody who
      called sleep(chan, lk) before is still waiting: all of them are runnable. */
  lemma NoLostWakeup(s: State, es: seq<Event>, e: Event, q: nat, chan: nat, lk: nat)
    requires Initial(s) && Possible(s, es) && Enabled(After(s, es), e)
    requires Scans(After(s, es), e, q, chan) && Holds(After(s, es), q, lk)
    ensures var u, t := After(s, es), Next(After(s, es), e);
      forall p | 0 <= p < |u.procs| ::
        !Waiting(t, p, chan, lk) && (Waiting(u, p, chan, lk) ==> t.procs[p].run == Runnable)
  {
    RunKeepsInv(s, es);
    var u := After(s, es);
    forall p | 0 <= p < |u.procs|
      ensures !Waiting(Next(u, e), p, chan, lk) && (Waiting(u, p, chan, lk) ==> Next(u, e).procs[p].run == Runnable)
    {
      ScanWakesAll(u, e, q, chan, lk, p);
    }
  }

  /** A process stops waiting only by a scan for its channel or by kill. */
  lemma OnlyWakesEndWaiting(s: State, e: Event, p: nat, chan: nat, lk: nat)
    requires Inv(s) && Enabled(s, e) && Waiting(s, p, chan, lk) && !Waiting(Next(s, e), p, chan, lk)
    ensures Scans(s, e, e.p, chan) || (e.KillWake? && e.victim == p)
  {
    assert ProcOk(s, p) && ProcOk(s, e.p);
  }

  /** sleep returns with lk held. */
  lemma SleepReturnsWithLock(s: State, e: Event, p: nat)
    requires Inv(s) && Enabled(s, e) && e.p == p
    requires (e.Tidy? && s.procs[p].pc.lk == TABLE) || e.TakeLk?
    ensures Next(s, e).procs[p].pc == Outside && Holds(Next(s, e), p, s.procs[p].pc.lk)
  {
    assert ProcOk(s, p);
  }
}
