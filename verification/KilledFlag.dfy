/** Who carries the killed flag: kill sets it and wait clears it, but kill does so also in an entry nobody
    uses, and a fork that fails gives its entry back as it is, so that a process can be born with it. */
module KilledFlag {
  import opened Optional
  import opened ProcTable
  import opened ExitWait
  import opened ZombieReaping

  /** kill of an entry sets its flag, the wait that reaps it clears it, and nothing else changes it. */
  lemma FlagChanges(s: State, e: Event, c: nat)
    requires Enabled(s, e) && c < |s.procs|
    ensures |Next(s, e).procs| == |s.procs|
    ensures Next(s, e).procs[c].killed
      <==> (e.Kill? && e.c == c) || (s.procs[c].killed && !(e.WaitReap? && e.c == c))
  {
    if e.ForkStack? || e.ForkCopy? || e.ForkFail? {
      FillsSlot(s, e, c);
    } else if e.ForkAlloc? || e.ForkLink? || e.ForkRun? {
      ForksSlot(s, e, c);
    }
  }

  /** No unused entry carries the flag, so that whoever gets it is born without. */
  ghost predicate UnusedClean(s: State) {
    forall c | 0 <= c < |s.procs| && s.procs[c].state == UNUSED :: !s.procs[c].killed
  }

  /** kill finds an unused entry, or fork gives back the entry of a child killed before it was complete. */
  ghost predicate Spoils(s: State, e: Event)
    requires Enabled(s, e)
  {
    || (e.Kill? && s.procs[e.c].state == UNUSED)
    || (e.ForkFail? && s.tasks[e.p].i < |s.procs| && s.procs[s.tasks[e.p].i].killed)
  }

  lemma UnusedAfter(s: State, e: Event, c: nat)
    requires Inv(s) && Enabled(s, e) && c < |s.procs| == |Next(s, e).procs|
    ensures Next(s, e).procs[c].state == UNUSED <==>
      || (e.ForkFail? && s.tasks[e.p].i == c) || (e.WaitReap? && e.c == c)
      || (s.procs[c].state == UNUSED && !(e.ForkAlloc? && e.c == c))
  {
    if IsCalm(e) {
      CalmAt(s, e, c);
    } else if e.Exit? {
      ExitedAt(s, e, c);
    } else {
      assert e.ForkRun? ==> TaskOk(s, e.p);
    }
  }

  /** Exactly such a step leaves an unused entry with the flag where there was none. */
  lemma UnusedCleanIff(s: State, e: Event)
    requires Inv(s) && UnusedClean(s) && Enabled(s, e)
    ensures UnusedClean(Next(s, e)) <==> !Spoils(s, e)
  {
    var t := Next(s, e);
    forall c | 0 <= c < |s.procs|
      ensures |t.procs| == |s.procs|
      ensures t.procs[c].state == UNUSED && t.procs[c].killed <==>
        (e.Kill? && e.c == c && s.procs[c].state == UNUSED)
        || (e.ForkFail? && s.tasks[e.p].i == c && s.procs[c].killed)
    {
      FlagChanges(s, e, c);
      UnusedAfter(s, e, c);
    }
    SameTable(s, e);
    if e.Kill? && Spoils(s, e) { assert !UnusedClean(t); }
    if e.ForkFail? && Spoils(s, e) { assert !UnusedClean(t); }
  }

  ghost predicate NeverSpoils(s: State, es: seq<Event>)
    requires Possible(s, es)
    decreases |es|
  {
    es == [] || (!Spoils(s, es[0]) && NeverSpoils(Next(s, es[0]), es[1..]))
  }

  lemma {:induction false} RunKeepsClean(s: State, es: seq<Event>)
    requires Inv(s) && UnusedClean(s) && Possible(s, es) && NeverSpoils(s, es)
    ensures UnusedClean(After(s, es))
    decreases |es|
  {
    if es != [] {
      UnusedCleanIff(s, es[0]);
      StepKeepsInv(s, es[0]);
      RunKeepsClean(Next(s, es[0]), es[1..]);
    }
  }

  /** In a run without such a step, every process is born unmarked. */
  lemma BornUnmarked(s: State, es: seq<Event>, p: nat, c: nat)
    requires Initial(s) && Possible(s, es) && NeverSpoils(s, es) && Enabled(After(s, es), ForkAlloc(p, c))
    ensures c < |Next(After(s, es), ForkAlloc(p, c)).procs|
    ensures !Next(After(s, es), ForkAlloc(p, c)).procs[c].killed
  {
    InitialInv(s);
    RunKeepsClean(s, es);
  }

  lemma KillOfZero(s: State, c: nat)
    requires Initial(s) && FirstUnused(s.procs, c)
    ensures var s1 := Next(s, Schedule(s.ini));
      && Enabled(s1, Kill(s.ini, c))
      && Enabled(Next(s1, Kill(s.ini, c)), ForkAlloc(s.ini, c))
  {
    assert c != s.ini && s.procs[c].pid == 0;
    assert forall d | 0 <= d < c :: s.procs[d].pid == 1;
  }

  /** With one, it need not be: init calls kill(0) and forks. */
  lemma BornMarked(s: State, c: nat)
    requires Initial(s) && FirstUnused(s.procs, c)
    ensures var es := [Schedule(s.ini), Kill(s.ini, c), ForkAlloc(s.ini, c)];
      && Possible(s, es) && |After(s, es).procs| == |s.procs|
      && After(s, es).procs[c].state == EMBRYO && After(s, es).procs[c].pid == 2 && After(s, es).procs[c].killed
  {
    KillOfZero(s, c);
    var s1 := Next(s, Schedule(s.ini));
    OneStep(Next(s1, Kill(s.ini, c)), ForkAlloc(s.ini, c));
    Then(s1, Kill(s.ini, c), [ForkAlloc(s.ini, c)]);
    Then(s, Schedule(s.ini), [Kill(s.ini, c)] + [ForkAlloc(s.ini, c)]);
    assert [Schedule(s.ini)] + ([Kill(s.ini, c)] + [ForkAlloc(s.ini, c)])
      == [Schedule(s.ini), Kill(s.ini, c), ForkAlloc(s.ini, c)];
  }
}
