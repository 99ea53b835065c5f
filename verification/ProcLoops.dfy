/** The loops of proc.c over the process table, working in place under ptable.lock, proved
    against the steps of the process table machine. */
module ProcLoops {
  import opened Optional
  import opened ProcTable

  datatype WaitResult = Reaped(pid: nat, c: nat) | NoChildren | MustSleep

  class Table {
    var procs: seq<Slot>
    /** What kalloc may hand out, as often as it was given back. */
    var free: multiset<nat>
    const ini: nat

    constructor (procs: seq<Slot>, free: multiset<nat>, ini: nat)
      ensures this.procs == procs && this.free == free && this.ini == ini
    {
      this.procs, this.free, this.ini := procs, free, ini;
    }

    /** wakeup1. */
    method Wakeup1(chan: Chan)
      modifies this`procs
      ensures procs == Woken(old(procs), chan)
    {
      var i := 0;
      while i < |procs|
        invariant 0 <= i <= |procs| == |old(procs)|
        invariant forall j | 0 <= j < |procs| :: procs[j] == if j < i then Wake(old(procs[j]), chan) else old(procs[j])
      {
        if procs[i].state == SLEEPING && procs[i].chan == Some(chan) {
          procs := procs[i := procs[i].(state := RUNNABLE)];
        }
        i := i + 1;
      }
    }

    /** exit, from the moment it holds ptable.lock. */
    method ExitCore(p: nat)
      requires p < |procs| && procs[p].parent.Some? && procs[p].parent != Some(p) && procs[p].state == RUNNING
      modifies this`procs
      ensures procs == Exited(old(procs), p, old(procs[p].parent.value), ini)
    {
      ghost var was, q := procs, procs[p].parent.value;
      Wakeup1(ProcChan(procs[p].parent.value));
      ghost var zombie := false;
      var i := 0;
      while i < |procs|
        invariant 0 <= i <= |procs| == |was|
        invariant zombie <==> exists c: nat :: c < i && ZombieChild(was, c, p)
        invariant forall j | 0 <= j < |procs| :: procs[j] == Midway(was, p, q, ini, zombie, i, j)
      {
        if procs[i].parent == Some(p) {
          procs := procs[i := procs[i].(parent := Some(ini))];
          if procs[i].state == ZOMBIE {
            assert ZombieChild(was, i, p);
            Wakeup1(ProcChan(ini));
            zombie := true;
          }
        }
        i := i + 1;
      }
      procs := procs[p := procs[p].(state := ZOMBIE)];
      assert zombie <==> HasZombie(was, p) by {
        if HasZombie(was, p) { var c: nat :| ZombieChild(was, c, p); assert c < i; }
      }
    }

    /** Entry j while exit has passed the first i entries. */
    static function Midway(was: seq<Slot>, p: nat, q: nat, ini: nat, zombie: bool, i: nat, j: nat): Slot
      requires j < |was|
    {
      var s := Wake(was[j], ProcChan(q));
      var s := if zombie then Wake(s, ProcChan(ini)) else s;
      if j < i && s.parent == Some(p) then s.(parent := Some(ini)) else s
    }

    /** One scan of wait by p: the first zombie child is reaped; otherwise wait fails without
        children or when killed, and otherwise it has to sleep. */
    method WaitScan(p: nat) returns (r: WaitResult)
      requires p < |procs| && procs[p].state == RUNNING
      modifies this
      ensures r.Reaped? <==> HasZombie(old(procs), p)
      ensures r.Reaped? ==> FirstZombie(old(procs), p, r.c) && r.pid == old(procs[r.c].pid)
      ensures r.Reaped? ==>
        procs == old(procs)[r.c :=
                   old(procs)[r.c].(state := UNUSED, pid := 0, parent := None, killed := false, kstack := 0)]
      ensures r.Reaped? ==> free == old(free) + multiset{old(procs)[r.c].kstack} + multiset{old(procs)[r.c].pgdir}
      ensures !r.Reaped? ==> procs == old(procs) && free == old(free)
      ensures r.NoChildren? ==> procs[p].killed || forall c: nat :: !ChildOf(procs, c, p)
      ensures r.MustSleep? ==> !procs[p].killed && exists c :: ChildOf(procs, c, p)
    {
      var havekids, i := false, 0;
      while i < |procs|
        invariant 0 <= i <= |procs| && procs == old(procs) && free == old(free)
        invariant havekids <==> exists c: nat :: c < i && ChildOf(procs, c, p)
        invariant forall c | 0 <= c < i :: !ZombieChild(procs, c, p)
      {
        if procs[i].parent == Some(p) {
          assert ChildOf(procs, i, p);
          havekids := true;
          if procs[i].state == ZOMBIE {
            assert ZombieChild(procs, i, p);
            var pid := procs[i].pid;
            free := free + multiset{procs[i].kstack};
            procs := procs[i := procs[i].(kstack := 0)];
            free := free + multiset{procs[i].pgdir};
            procs := procs[i := procs[i].(state := UNUSED, pid := 0, parent := None, killed := false)];
            return Reaped(pid, i);
          }
        }
        i := i + 1;
      }
      if !havekids || procs[p].killed {
        return NoChildren;
      }
      return MustSleep;
    }

    /** kill: the first entry with that pid is marked, and woken if asleep. */
    method Kill(pid: nat) returns (ok: bool)
      modifies this`procs
      ensures ok ==> exists c: nat :: FirstPid(old(procs), pid, c) && procs == old(procs)[c := old(procs)[c].(
        killed := true, state := if old(procs)[c].state == SLEEPING then RUNNABLE else old(procs)[c].state)]
      ensures !ok ==> procs == old(procs) && forall c | 0 <= c < |procs| :: procs[c].pid != pid
    {
      var i := 0;
      while i < |procs|
        invariant 0 <= i <= |procs| && procs == old(procs)
        invariant forall c | 0 <= c < i :: procs[c].pid != pid
      {
        if procs[i].pid == pid {
          assert FirstPid(old(procs), pid, i);
          procs := procs[i := procs[i].(killed := true)];
          if procs[i].state == SLEEPING {
            procs := procs[i := procs[i].(state := RUNNABLE)];
          }
          return true;
        }
        i := i + 1;
      }
      return false;
    }

    /** The search of allocproc. */
    method AllocProc(nextpid: nat) returns (r: Option<nat>)
      modifies this`procs
      ensures r.Some? ==> FirstUnused(old(procs), r.value)
      ensures r.Some? ==> procs == old(procs)[r.value := old(procs)[r.value].(state := EMBRYO, pid := nextpid)]
      ensures r.None? ==> procs == old(procs) && forall c | 0 <= c < |procs| :: procs[c].state != UNUSED
    {
      var i := 0;
      while i < |procs|
        invariant 0 <= i <= |procs| && procs == old(procs)
        invariant forall c | 0 <= c < i :: procs[c].state != UNUSED
      {
        if procs[i].state == UNUSED {
          procs := procs[i := procs[i].(state := EMBRYO, pid := nextpid)];
          return Some(i);
        }
        i := i + 1;
      }
      return None;
    }
  }
}
