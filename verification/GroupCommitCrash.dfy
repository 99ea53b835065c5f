/** Exactly when a crash keeps operations whole: the log region must be larger than what
    begin_op admits or as large as the cache. Otherwise a commit that finds its buffers writes
    its last slot over the block after the region. */
module GroupCommitCrash {
  import opened WriteAheadLog
  import opened GroupCommit
  import opened GroupCommitResults

  /** Recovery of e, if it can be done, gives the durable history of s. */
  ghost predicate RecoversTo(c: Config, s: State, e: Disk) {
    && WholeOperations(s.durable, s.issued, s.ended)
    && Sound(e, c.lay) && |e| == |c.base| && EmptyLog(Recovered(e, c.lay), c.lay)
    && forall b | IsHome(c.base, c.lay, b) :: Recovered(e, c.lay)[b] == Replay(c.base, s.durable)[b]
  }

  /** Every run, stopped anywhere and recovered with any interruptions, keeps operations whole. */
  ghost predicate CrashSafe(c: Config) {
    forall es, ks, e | Run(c, Init(c), es).Next? && InterruptedRecovery(Run(c, Init(c), es).s.disk, c.lay, ks, e) ::
      RecoversTo(c, Run(c, Init(c), es).s, e)
  }

  function Writes(k: nat): (es: seq<Event>)
    ensures |es| == k
  {
    seq(k, _ => CommitWriteBlock)
  }

  /** A commit of a transaction that overruns the region, k slot writes into it. */
  ghost predicate Slots(c: Config, s: State, t: State, k: nat)
    requires Roomy(c) && 2 <= c.lay.size < NBUF && |s.mem| == |c.base|
  {
    && t.phase == Committing(c.base, k) && t.mem == s.mem && t.lh == s.lh && t.durable == []
    && |t.disk| == |c.base| && t.disk[c.lay.start] == c.base[c.lay.start]
    && (k == c.lay.size ==> t.disk[Nth(c, 0)] == s.mem[Nth(c, c.lay.size - 1)])
  }

  lemma {:induction false} SlotWrites(c: Config, s: State, k: nat)
    requires Roomy(c) && |s.mem| == |c.base| && 2 <= c.lay.size < NBUF && Slots(c, s, s, 0) && k <= c.lay.size
    requires |s.lh| == c.lay.size && forall i | 0 <= i < |s.lh| :: s.lh[i] == Nth(c, i)
    ensures Run(c, s, Writes(k)).Next? && Slots(c, s, Run(c, s, Writes(k)).s, k)
  {
    if k > 0 {
      SlotWrites(c, s, k - 1);
      var t := Run(c, s, Writes(k - 1)).s;
      assert Step(c, t, CommitWriteBlock).Next?;
      RunOne(c, t, CommitWriteBlock);
      RunAppend(c, s, Writes(k - 1), [CommitWriteBlock]);
      assert Writes(k) == Writes(k - 1) + [CommitWriteBlock];
    }
  }

  /** Both operations end, which starts the commit. */
  lemma BothEnd(c: Config, s: State, v: Block) returns (es: seq<Event>)
    requires Roomy(c) && 2 <= c.lay.size < NBUF && Overrun(c, s, v)
    ensures Run(c, s, es).Next? && var t := Run(c, s, es).s;
      t.phase == Committing(c.base, 0) && t.mem == s.mem && t.lh == s.lh && t.disk == s.disk && t.durable == s.durable
  {
    var s1 := Step(c, s, EndOp(0)).s;
    assert s1.ops.Keys == {100} && s1.ops != map[];
    assert s1.ops - {100} == map[];
    RunOne(c, s1, EndOp(100));
    es := [EndOp(0), EndOp(100)];
    assert es[1..] == [EndOp(100)];
  }

  /** The run: overrun the region, commit up to the last slot, and crash. The block after the
      region is lost although its new contents are not durable. */
  lemma OverrunLosesBlock(c: Config) returns (es: seq<Event>)
    requires Roomy(c) && 2 <= c.lay.size <= Admissible(c.budget) && c.lay.size < NBUF
    ensures Run(c, Init(c), es).Next? && !RecoversTo(c, Run(c, Init(c), es).s, Run(c, Init(c), es).s.disk)
  {
    var b := Nth(c, 0);
    var v := if c.base[b] == Block([]) then Block([0]) else Block([]);
    var fill := RaceOverflows(c, v);
    var s := Run(c, Init(c), fill).s;
    var end := BothEnd(c, s, v);
    var s1 := Run(c, s, end).s;
    RunAppend(c, Init(c), fill, end);
    SlotWrites(c, s1, c.lay.size);
    RunAppend(c, Init(c), fill + end, Writes(c.lay.size));
    es := fill + end + Writes(c.lay.size);
    var t := Run(c, s1, Writes(c.lay.size)).s;
    assert t.disk[b] == v && IsHome(c.base, c.lay, b) && Replay(c.base, []) == c.base;
    if Sound(t.disk, c.lay) { assert Redo(t.disk, c.lay, b) == v; }
  }

  /** A crash keeps operations whole in every run exactly when 10 + 2 * budget is below the size
      of the log region, or the region has at least NBUF blocks: then a transaction that overruns
      it has a buffer pinned for every block of the cache, and commit panics before its first
      write. mkfs's region of 30 blocks is just large enough. */
  lemma CrashSafeIff(c: Config)
    requires Roomy(c) && c.lay.size >= 2
    ensures CrashSafe(c) <==> Admissible(c.budget) < c.lay.size || NBUF <= c.lay.size
  {
    if Admissible(c.budget) < c.lay.size || NBUF <= c.lay.size {
      forall es, ks, e | Run(c, Init(c), es).Next? && InterruptedRecovery(Run(c, Init(c), es).s.disk, c.lay, ks, e)
        ensures RecoversTo(c, Run(c, Init(c), es).s, e)
      {
        CrashKeepsWholeOperations(c, es, ks, e);
      }
    } else {
      var es := OverrunLosesBlock(c);
      assert InterruptedRecovery(Run(c, Init(c), es).s.disk, c.lay, [], Run(c, Init(c), es).s.disk);
    }
  }
}
