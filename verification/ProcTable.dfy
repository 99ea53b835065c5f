/** The process table of proc.c: fork, exit, wait, kill and the scheduler's state changes as
    steps of a machine. Each step is what one process does under ptable.lock, or one of the
    stores fork makes without it. */
module ProcTable {
  import opened Optional

  datatype ProcState = UNUSED | EMBRYO | SLEEPING | RUNNABLE | RUNNING | ZOMBIE

  /** Channels: the address of a table entry, which wait sleeps on, or any other address. */
  datatype Chan = ProcChan(i: nat) | OtherChan(n: nat)

  /** `kstack` and `pgdir` are frames; wait clears kstack to 0 but leaves pgdir as it is. */
  datatype Slot = Slot(state: ProcState, pid: nat, parent: Option<nat>, chan: Option<Chan>, killed: bool,
                       kstack: nat, pgdir: nat)

  /** What a process is in the middle of: fork has found entry i, given it a stack, given it a
      page table, made itself its parent; a call of wait; or exec with a new page table f. */
  datatype Task =
    | Normal | Forking(i: nat) | Stacked(i: nat) | Copied(i: nat) | Linked(i: nat) | InWait | Loading(f: nat)

  /** `ini` is the slot of the first process; `free` holds the frames kalloc may hand out, as
      often as they were given back. `mapped` are the entries whose pgdir is a page table of
      theirs. `born` records the parent of each process at its birth, `exited` the processes
      that called exit and `log` who waited for whom, in order. */
  datatype State = State(procs: seq<Slot>, nextpid: nat, ini: nat, tasks: seq<Task>,
                         free: multiset<nat>, mapped: set<nat>,
                         born: map<nat, nat>, exited: set<nat>, log: seq<(nat, nat)>)

  predicate ChildOf(procs: seq<Slot>, c: nat, p: nat) { c < |procs| && procs[c].parent == Some(p) }

  predicate ZombieChild(procs: seq<Slot>, c: nat, p: nat) { ChildOf(procs, c, p) && procs[c].state == ZOMBIE }

  /** wakeup1 on one entry. */
  function Wake(s: Slot, chan: Chan): Slot {
    if s.state == SLEEPING && s.chan == Some(chan) then s.(state := RUNNABLE) else s
  }

  /** wakeup1 on the table. */
  function Woken(procs: seq<Slot>, chan: Chan): (r: seq<Slot>)
    ensures |r| == |procs|
  {
    seq(|procs|, i requires 0 <= i < |procs| => Wake(procs[i], chan))
  }

  /** The table after exit by p, whose parent is q: q is woken, p's children go to init, which
      is woken too if one of them is a zombie, and p is a zombie. */
  function ExitSlot(procs: seq<Slot>, p: nat, q: nat, ini: nat, zombie: bool, i: nat): Slot
    requires i < |procs|
  {
    var s := Wake(procs[i], ProcChan(q));
    var s := if zombie then Wake(s, ProcChan(ini)) else s;
    var s := if s.parent == Some(p) then s.(parent := Some(ini)) else s;
    if i == p then s.(state := ZOMBIE) else s
  }

  ghost predicate HasZombie(procs: seq<Slot>, p: nat) { exists c :: ZombieChild(procs, c, p) }

  ghost function Exited(procs: seq<Slot>, p: nat, q: nat, ini: nat): (r: seq<Slot>)
    ensures |r| == |procs|
  {
    var z := HasZombie(procs, p);
    seq(|procs|, i requires 0 <= i < |procs| => ExitSlot(procs, p, q, ini, z, i))
  }

  const EMPTY := Slot(UNUSED, 0, None, None, false, 0, 0)

  /** The first entry with a property is what a scan from the start of the table finds. */
  ghost predicate FirstZombie(procs: seq<Slot>, p: nat, c: nat) {
    ZombieChild(procs, c, p) && forall d | 0 <= d < c :: !ZombieChild(procs, d, p)
  }

  ghost predicate FirstUnused(procs: seq<Slot>, c: nat) {
    c < |procs| && procs[c].state == UNUSED && forall d | 0 <= d < c :: procs[d].state != UNUSED
  }

  ghost predicate FirstPid(procs: seq<Slot>, pid: nat, c: nat) {
    c < |procs| && procs[c].pid == pid && forall d | 0 <= d < c :: procs[d].pid != pid
  }

  // ------------------------------------------------------------------
  // Steps

  datatype Event =
    | ForkAlloc(p: nat, c: nat)    // allocproc found entry c
    | ForkStack(p: nat, f: nat)    // np->kstack = kalloc()
    | ForkCopy(p: nat, f: nat)     // np->pgdir = copyuvm(...)
    | ForkLink(p: nat)             // np->parent = proc
    | ForkRun(p: nat)              // np->state = RUNNABLE
    | ForkFail(p: nat)             // kalloc or copyuvm gave 0
    | ExecLoad(p: nat, f: nat)     // exec's setupkvm
    | ExecSwap(p: nat)             // proc->pgdir = pgdir; freevm(oldpgdir)
    | ExecFail(p: nat)             // exec ends at bad
    | Exit(p: nat)
    | WaitReap(p: nat, c: nat)     // wait found the zombie in entry c
    | WaitFail(p: nat)             // wait returns -1
    | WaitSleep(p: nat)            // wait sleeps on its own entry
    | Sleep(p: nat, n: nat)        // sleep on any other address
    | Wakeup(n: nat)               // by any process, or by an interrupt while none runs
    | Kill(p: nat, c: nat)         // kill found entry c
    | Schedule(p: nat)             // the scheduler picks p
    | Yield(p: nat)

  predicate Runs(s: State, p: nat) { p < |s.procs| && s.procs[p].state == RUNNING }

  /** A frame kalloc can return. */
  predicate Grants(free: multiset<nat>, f: nat) { f != 0 && f in free }

  ghost predicate Enabled(s: State, e: Event) {
    |s.procs| == |s.tasks| &&
    match e
    case ForkAlloc(p, c) => Runs(s, p) && s.tasks[p] == Normal && FirstUnused(s.procs, c)
    case ForkStack(p, f) => Runs(s, p) && s.tasks[p].Forking? && Grants(s.free, f)
    case ForkCopy(p, f) => Runs(s, p) && s.tasks[p].Stacked? && Grants(s.free, f)
    case ForkLink(p) => Runs(s, p) && s.tasks[p].Copied?
    case ForkRun(p) => Runs(s, p) && s.tasks[p].Linked?
    case ForkFail(p) => Runs(s, p) && (s.tasks[p].Forking? || s.tasks[p].Stacked?)
    case ExecLoad(p, f) => Runs(s, p) && s.tasks[p] == Normal && Grants(s.free, f)
    case ExecSwap(p) => Runs(s, p) && s.tasks[p].Loading?
    case ExecFail(p) => Runs(s, p) && s.tasks[p].Loading?
    case Exit(p) => Runs(s, p) && s.tasks[p] == Normal && p != s.ini && s.procs[p].parent.Some?
    case WaitReap(p, c) => Runs(s, p) && MayWait(s.tasks[p]) && FirstZombie(s.procs, p, c)
    case WaitFail(p) =>
      Runs(s, p) && MayWait(s.tasks[p]) && !HasZombie(s.procs, p)
        && (s.procs[p].killed || forall c: nat :: !ChildOf(s.procs, c, p))
    case WaitSleep(p) =>
      Runs(s, p) && MayWait(s.tasks[p]) && !HasZombie(s.procs, p) && !s.procs[p].killed
        && exists c :: ChildOf(s.procs, c, p)
    case Sleep(p, _) => Runs(s, p) && (s.tasks[p] == Normal || s.tasks[p].Loading?)
    case Wakeup(_) => true
    case Kill(p, c) => Runs(s, p) && s.tasks[p] == Normal && c < |s.procs| && FirstPid(s.procs, s.procs[c].pid, c)
    case Schedule(p) => p < |s.procs| && s.procs[p].state == RUNNABLE
    case Yield(p) => Runs(s, p)
  }

  predicate MayWait(t: Task) { t == Normal || t == InWait }

  /** The entry a fork in progress is filling in. */
  predicate Filling(t: Task) { t.Forking? || t.Stacked? || t.Copied? || t.Linked? }

  ghost function Next(s: State, e: Event): State
    requires Enabled(s, e)
  {
    match e
    case ForkAlloc(p, c) =>
      s.(procs := s.procs[c := s.procs[c].(state := EMBRYO, pid := s.nextpid)], nextpid := s.nextpid + 1,
         tasks := s.tasks[p := Forking(c)])
    case ForkStack(p, f) =>
      var i := s.tasks[p].i;
      if i >= |s.procs| then s
      else s.(procs := s.procs[i := s.procs[i].(kstack := f)], free := s.free - multiset{f},
              tasks := s.tasks[p := Stacked(i)])
    case ForkCopy(p, f) =>
      var i := s.tasks[p].i;
      if i >= |s.procs| then s
      else s.(procs := s.procs[i := s.procs[i].(pgdir := f)], free := s.free - multiset{f},
              tasks := s.tasks[p := Copied(i)], mapped := s.mapped + {i})
    case ForkLink(p) =>
      var i := s.tasks[p].i;
      if i >= |s.procs| then s
      else s.(procs := s.procs[i := s.procs[i].(parent := Some(p))], tasks := s.tasks[p := Linked(i)],
              born := s.born[s.procs[i].pid := s.procs[p].pid])
    case ForkRun(p) =>
      var i := s.tasks[p].i;
      if i >= |s.procs| then s
      else s.(procs := s.procs[i := s.procs[i].(state := RUNNABLE)], tasks := s.tasks[p := Normal])
    case ForkFail(p) =>
      var i := s.tasks[p].i;
      if i >= |s.procs| then s
      else s.(procs := s.procs[i := s.procs[i].(state := UNUSED, kstack := 0)], tasks := s.tasks[p := Normal],
              free := if s.tasks[p].Stacked? then s.free + multiset{s.procs[i].kstack} else s.free)
    case ExecLoad(p, f) => s.(tasks := s.tasks[p := Loading(f)], free := s.free - multiset{f})
    case ExecSwap(p) =>
      s.(procs := s.procs[p := s.procs[p].(pgdir := s.tasks[p].f)], tasks := s.tasks[p := Normal],
         free := s.free + multiset{s.procs[p].pgdir})
    case ExecFail(p) => s.(tasks := s.tasks[p := Normal], free := s.free + multiset{s.tasks[p].f})
    case Exit(p) =>
      s.(procs := Exited(s.procs, p, s.procs[p].parent.value, s.ini), exited := s.exited + {s.procs[p].pid})
    case WaitReap(p, c) =>
      s.(procs := s.procs[c := s.procs[c].(state := UNUSED, pid := 0, parent := None, killed := false, kstack := 0)],
         tasks := s.tasks[p := Normal], log := s.log + [(s.procs[p].pid, s.procs[c].pid)],
         free := s.free + multiset{s.procs[c].kstack} + multiset{s.procs[c].pgdir}, mapped := s.mapped - {c})
    case WaitFail(p) => s.(tasks := s.tasks[p := Normal])
    case WaitSleep(p) =>
      s.(procs := s.procs[p := s.procs[p].(state := SLEEPING, chan := Some(ProcChan(p)))],
         tasks := s.tasks[p := InWait])
    case Sleep(p, n) => s.(procs := s.procs[p := s.procs[p].(state := SLEEPING, chan := Some(OtherChan(n)))])
    case Wakeup(n) => s.(procs := Woken(s.procs, OtherChan(n)))
    case Kill(_, c) =>
      s.(procs := s.procs[c := s.procs[c].(killed := true,
           state := if s.procs[c].state == SLEEPING then RUNNABLE else s.procs[c].state)])
    case Schedule(p) => s.(procs := s.procs[p := s.procs[p].(state := RUNNING, chan := None)])
    case Yield(p) => s.(procs := s.procs[p := s.procs[p].(state := RUNNABLE)])
  }

  // ------------------------------------------------------------------
  // The invariant

  predicate Alive(x: Slot) { x.state == SLEEPING || x.state == RUNNABLE || x.state == RUNNING }

  predicate Live(s: State, i: nat) { i < |s.procs| && Alive(s.procs[i]) }

  /** A process in being: not an entry fork is still filling in. */
  predicate Complete(x: Slot) { Alive(x) || x.state == ZOMBIE }

  /** Every complete process but init has a live parent: the one it was born to, or init. */
  ghost predicate ParentOk(s: State, c: nat)
    requires c < |s.procs|
  {
    Complete(s.procs[c]) && c != s.ini ==>
      && s.procs[c].parent.Some? && s.procs[c].parent.value != c && Live(s, s.procs[c].parent.value)
      && (s.procs[c].parent.value == s.ini ||
          (s.procs[c].pid in s.born && s.procs[s.procs[c].parent.value].pid == s.born[s.procs[c].pid]))
  }

  ghost predicate TaskOk(s: State, p: nat)
    requires p < |s.procs| == |s.tasks|
  {
    match s.tasks[p]
    case Normal => true
    case InWait => Live(s, p)
    case Loading(_) => Live(s, p)
    case Linked(i) =>
      && Embryo(s, p, i) && s.procs[i].parent == Some(p) && Stocked(s, i)
      && s.procs[i].pid in s.born && s.born[s.procs[i].pid] == s.procs[p].pid
    case Copied(i) => Embryo(s, p, i) && s.procs[i].parent == None && Stocked(s, i)
    case Stacked(i) => Embryo(s, p, i) && s.procs[i].parent == None && s.procs[i].kstack != 0 && i !in s.mapped
    case Forking(i) => Embryo(s, p, i) && s.procs[i].parent == None && s.procs[i].kstack == 0 && i !in s.mapped
  }

  predicate Embryo(s: State, p: nat, i: nat) { Live(s, p) && i < |s.procs| && s.procs[i].state == EMBRYO && i != p }

  /** Entry i has a stack and a page table. */
  predicate Stocked(s: State, i: nat) { i < |s.procs| && s.procs[i].kstack != 0 && i in s.mapped }

  predicate Fills(t: Task, i: nat) { Filling(t) && t.i == i }

  /** No entry is being filled in twice, and embryos are children of their forker only. */
  ghost predicate FillsOk(s: State)
    requires |s.tasks| == |s.procs|
  {
    && (forall p, q, i | 0 <= p < |s.tasks| && 0 <= q < |s.tasks| && Fills(s.tasks[p], i) && Fills(s.tasks[q], i) ::
        p == q)
    && (forall i | 0 <= i < |s.procs| && s.procs[i].state == UNUSED :: s.procs[i].parent == None)
  }

  /** By what it is doing, or by what it sleeps on. */
  predicate AsleepInWait(s: State, p: nat) {
    p < |s.procs| == |s.tasks| && s.procs[p].state == SLEEPING
      && (s.tasks[p] == InWait || (s.procs[p].chan.Some? && s.procs[p].chan.value.ProcChan?))
  }

  /** Whoever is asleep in wait sleeps on its own entry and has no zombie child; it has a child and was
      not killed. */
  ghost predicate SleeperOk(s: State, p: nat)
    requires p < |s.procs| == |s.tasks|
  {
    AsleepInWait(s, p) ==>
      && s.procs[p].chan == Some(ProcChan(p)) && s.tasks[p] == InWait && !s.procs[p].killed
      && !HasZombie(s.procs, p) && (exists c :: ChildOf(s.procs, c, p))
  }

  ghost predicate PidOk(s: State, c: nat)
    requires c < |s.procs|
  {
    s.procs[c].state != UNUSED ==>
      && 0 < s.procs[c].pid < s.nextpid
      && (s.procs[c].pid in s.exited <==> s.procs[c].state == ZOMBIE)
      && (forall d | 0 <= d < |s.procs| && s.procs[d].state != UNUSED && s.procs[d].pid == s.procs[c].pid :: d == c)
  }

  predicate Waited(log: seq<(nat, nat)>, pid: nat) { exists k :: 0 <= k < |log| && log[k].1 == pid }

  ghost predicate ZombieWith(procs: seq<Slot>, pid: nat) {
    exists c :: 0 <= c < |procs| && procs[c].state == ZOMBIE && procs[c].pid == pid
  }

  /** Every process that exited is a zombie or was waited for, not both, and never twice; the
      waiter was its parent or init. */
  ghost predicate LogOk(s: State)
    requires s.ini < |s.procs|
  {
    && (forall x | x in s.exited :: x < s.nextpid && (Waited(s.log, x) || ZombieWith(s.procs, x)))
    && (forall k | 0 <= k < |s.log| :: s.log[k].1 in s.exited
          && (s.log[k].0 == s.procs[s.ini].pid || (s.log[k].1 in s.born && s.log[k].0 == s.born[s.log[k].1])))
    && (forall j, k | 0 <= j < k < |s.log| :: s.log[j].1 != s.log[k].1)
    && (forall c | 0 <= c < |s.procs| && s.procs[c].state != UNUSED :: !Waited(s.log, s.procs[c].pid))
  }

  /** A complete process has a stack and a page table, an unused entry neither. */
  ghost predicate StockOk(s: State, i: nat)
    requires i < |s.procs|
  {
    && (Complete(s.procs[i]) ==> Stocked(s, i))
    && (s.procs[i].state == UNUSED ==> s.procs[i].kstack == 0 && i !in s.mapped)
  }

  /** init stays: it has no parent and never exits. */
  ghost predicate InitOk(s: State) { Live(s, s.ini) && s.procs[s.ini].parent == None }

  ghost predicate Inv(s: State) {
    && |s.tasks| == |s.procs| && InitOk(s) && FillsOk(s) && LogOk(s)
    && (forall c | 0 <= c < |s.procs| ::
        ParentOk(s, c) && PidOk(s, c) && TaskOk(s, c) && SleeperOk(s, c) && StockOk(s, c))
  }

  // ------------------------------------------------------------------
  // Steps that change neither who lives nor whose child it is

  predicate SameKind(a: Slot, b: Slot) {
    a.pid == b.pid && a.parent == b.parent && (a.state == b.state || (Alive(a) && Alive(b)))
  }

  /** No process came, went, or changed its parent. */
  ghost predicate Calm(s: State, t: State) {
    && |t.procs| == |s.procs| && (forall i | 0 <= i < |s.procs| :: SameKind(s.procs[i], t.procs[i]))
    && t.nextpid == s.nextpid && t.ini == s.ini && t.born == s.born && t.exited == s.exited && t.log == s.log
  }

  predicate IsCalm(e: Event) {
    || e.ForkStack? || e.ForkCopy? || e.ExecLoad? || e.ExecSwap? || e.ExecFail?
    || e.WaitFail? || e.WaitSleep? || e.Sleep? || e.Wakeup? || e.Kill? || e.Schedule? || e.Yield?
  }

  lemma CalmAt(s: State, e: Event, i: nat)
    requires Enabled(s, e) && IsCalm(e) && i < |s.procs|
    ensures |Next(s, e).procs| == |s.procs| && SameKind(s.procs[i], Next(s, e).procs[i])
  {
  }

  lemma CalmStep(s: State, e: Event)
    requires Enabled(s, e) && IsCalm(e)
    ensures Calm(s, Next(s, e))
  {
    var t := Next(s, e);
    assert |t.procs| == |s.procs|;
    forall i | 0 <= i < |s.procs| ensures SameKind(s.procs[i], t.procs[i]) { CalmAt(s, e, i); }
  }

  lemma CalmParents(s: State, t: State, c: nat)
    requires Calm(s, t) && c < |s.procs| && ParentOk(s, c)
    ensures ParentOk(t, c)
  {
  }

  lemma CalmPids(s: State, t: State, c: nat)
    requires Calm(s, t) && c < |s.procs| && PidOk(s, c)
    ensures PidOk(t, c)
  {
  }

  lemma CalmLog(s: State, t: State)
    requires Calm(s, t) && s.ini < |s.procs| && LogOk(s)
    ensures LogOk(t)
  {
  }

  lemma CalmChildren(s: State, t: State, p: nat)
    requires Calm(s, t)
    ensures HasZombie(t.procs, p) <==> HasZombie(s.procs, p)
    ensures (exists c :: ChildOf(t.procs, c, p)) <==> (exists c :: ChildOf(s.procs, c, p))
  {
    forall c: nat ensures ZombieChild(t.procs, c, p) <==> ZombieChild(s.procs, c, p)
      ensures ChildOf(t.procs, c, p) <==> ChildOf(s.procs, c, p)
    {
      if c < |s.procs| { assert SameKind(s.procs[c], t.procs[c]); }
    }
  }

  /** Where the step left task, stack and page table alone, or gave a task with nothing to fill in. */
  lemma CalmTask(s: State, t: State, p: nat)
    requires Calm(s, t) && |s.tasks| == |s.procs| == |t.tasks| && p < |s.procs| && TaskOk(s, p)
    requires t.tasks[p] == s.tasks[p] || (!Filling(t.tasks[p]) && Live(t, p))
    requires t.tasks[p] == s.tasks[p] && Filling(s.tasks[p]) ==> SameStock(s, t, s.tasks[p].i)
    ensures TaskOk(t, p)
  {
    if Filling(s.tasks[p]) {
      assert SameKind(s.procs[s.tasks[p].i], t.procs[s.tasks[p].i]);
    }
    assert SameKind(s.procs[p], t.procs[p]);
  }

  predicate SameStock(s: State, t: State, i: nat) {
    i < |s.procs| == |t.procs| ==> t.procs[i].kstack == s.procs[i].kstack && (i in t.mapped <==> i in s.mapped)
  }

  predicate IsFill(e: Event) { e.ForkStack? || e.ForkCopy? }

  lemma SchedStock(s: State, e: Event, i: nat)
    requires Enabled(s, e) && IsCalm(e) && (IsFill(e) ==> s.tasks[e.p].i != i)
    ensures SameStock(s, Next(s, e), i)
  {
  }

  lemma SchedTask(s: State, e: Event, p: nat)
    requires Inv(s) && Enabled(s, e) && IsCalm(e) && !IsFill(e) && p < |s.procs|
    ensures |Next(s, e).tasks| == |Next(s, e).procs| == |s.procs| && TaskOk(Next(s, e), p)
  {
    CalmStep(s, e);
    assert TaskOk(s, p);
    if Filling(s.tasks[p]) { SchedStock(s, e, s.tasks[p].i); }
    CalmTask(s, Next(s, e), p);
  }

  lemma FillTask(s: State, e: Event, p: nat)
    requires Inv(s) && Enabled(s, e) && IsFill(e) && p < |s.procs|
    ensures |Next(s, e).tasks| == |Next(s, e).procs| == |s.procs| && TaskOk(Next(s, e), p)
  {
    var i := s.tasks[e.p].i;
    CalmStep(s, e);
    assert TaskOk(s, p) && TaskOk(s, e.p) && Fills(s.tasks[e.p], i);
    if p != e.p {
      if Filling(s.tasks[p]) {
        assert Fills(s.tasks[p], s.tasks[p].i);
        SchedStock(s, e, s.tasks[p].i);
      }
      CalmTask(s, Next(s, e), p);
    }
  }

  lemma CalmStock(s: State, e: Event, i: nat)
    requires Inv(s) && Enabled(s, e) && IsCalm(e) && i < |s.procs| == |Next(s, e).procs|
    ensures StockOk(Next(s, e), i)
  {
    CalmAt(s, e, i);
    assert StockOk(s, i);
    if IsFill(e) { assert TaskOk(s, e.p); }
    if !IsFill(e) || s.tasks[e.p].i != i { SchedStock(s, e, i); }
  }

  lemma CalmAsleep(s: State, e: Event, p: nat)
    requires Enabled(s, e) && IsCalm(e) && !e.Wakeup? && p < |s.procs| && AsleepInWait(Next(s, e), p)
      && e != WaitSleep(p)
    requires IsFill(e) ==> Embryo(s, e.p, s.tasks[e.p].i)
    ensures |Next(s, e).tasks| == |s.tasks| && Next(s, e).tasks[p] == s.tasks[p] && Next(s, e).procs[p] == s.procs[p]
  {
  }

  lemma WokenAsleep(s: State, e: Event, p: nat)
    requires Enabled(s, e) && e.Wakeup? && p < |s.procs| && AsleepInWait(Next(s, e), p)
    ensures Next(s, e).tasks == s.tasks && Next(s, e).procs[p] == s.procs[p]
  {
  }

  lemma CalmSleeper(s: State, e: Event, p: nat)
    requires Inv(s) && Enabled(s, e) && IsCalm(e) && p < |s.procs| == |Next(s, e).procs| == |Next(s, e).tasks|
    ensures SleeperOk(Next(s, e), p)
  {
    CalmStep(s, e);
    CalmChildren(s, Next(s, e), p);
    assert SleeperOk(s, p);
    if IsFill(e) { assert TaskOk(s, e.p); }
    if AsleepInWait(Next(s, e), p) && e != WaitSleep(p) {
      if e.Wakeup? { WokenAsleep(s, e, p); } else { CalmAsleep(s, e, p); }
    }
  }

  lemma CalmKeepsInv(s: State, e: Event)
    requires Inv(s) && Enabled(s, e) && IsCalm(e)
    ensures Inv(Next(s, e))
  {
    var t := Next(s, e);
    CalmStep(s, e);
    CalmLog(s, t);
    assert SameKind(s.procs[s.ini], t.procs[s.ini]);
    forall c | 0 <= c < |t.procs|
      ensures ParentOk(t, c) && PidOk(t, c) && |t.tasks| == |t.procs| && TaskOk(t, c) && SleeperOk(t, c)
        && StockOk(t, c)
    {
      CalmParents(s, t, c);
      CalmPids(s, t, c);
      if IsFill(e) { FillTask(s, e, c); } else { SchedTask(s, e, c); }
      CalmSleeper(s, e, c);
      CalmStock(s, e, c);
    }
    CalmFills(s, e);
  }

  lemma StillFills(s: State, e: Event, p: nat, i: nat)
    requires Enabled(s, e) && IsCalm(e) && p < |s.tasks| == |Next(s, e).tasks| && Fills(Next(s, e).tasks[p], i)
    ensures Fills(s.tasks[p], i)
  {
  }

  lemma CalmFills(s: State, e: Event)
    requires Inv(s) && Enabled(s, e) && IsCalm(e) && |Next(s, e).tasks| == |Next(s, e).procs|
    ensures FillsOk(Next(s, e))
  {
    var t := Next(s, e);
    CalmStep(s, e);
    FillsFrom(s, t) by {
      forall p, i | 0 <= p < |t.tasks| && Fills(t.tasks[p], i) ensures Fills(s.tasks[p], i) { StillFills(s, e, p, i); }
    }
  }

  lemma FillsFrom(s: State, t: State)
    requires Calm(s, t) && |s.tasks| == |s.procs| && |t.tasks| == |t.procs| && FillsOk(s)
    requires forall p: nat, i: nat | p < |t.tasks| && Fills(t.tasks[p], i) :: Fills(s.tasks[p], i)
    ensures FillsOk(t)
  {
    forall i | 0 <= i < |t.procs| && t.procs[i].state == UNUSED ensures t.procs[i].parent == None {
      assert SameKind(s.procs[i], t.procs[i]);
    }
  }
}
