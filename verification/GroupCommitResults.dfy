/** What the transaction protocol promises over every run, and exactly when it keeps
    the promises that depend on how many blocks an operation may write. */
module GroupCommitResults {
  import opened WriteAheadLog
  import opened GroupCommit

  /** Take any run, stop it anywhere, interrupt recovery any number of times and let it
      complete once: the home blocks are the durable history replayed on the initial
      disk, and that history holds each operation whole or not at all. */
  lemma CrashKeepsWholeOperations(c: Config, es: seq<Event>, ks: seq<nat>, e: Disk)
    requires ValidConfig(c) && Run(c, Init(c), es).Next?
    requires InterruptedRecovery(Run(c, Init(c), es).s.disk, c.lay, ks, e)
    ensures var s := Run(c, Init(c), es).s;
      && WholeOperations(s.durable, s.issued, s.ended)
      && Sound(e, c.lay) && |e| == |c.base| && EmptyLog(Recovered(e, c.lay), c.lay)
      && forall b | IsHome(c.base, c.lay, b) :: Recovered(e, c.lay)[b] == Replay(c.base, s.durable)[b]
  {
    InitInv(c);
    RunKeepsInv(c, Init(c), es);
    var s := Run(c, Init(c), es).s;
    InterruptedKeepsMeaning(s.disk, c.lay, Replay(c.base, s.durable), ks, e);
  }

  /** In every run, for a log region of any size and operations of any number of blocks: a
      commit holds no operation in progress and none is admitted while it lasts; when no
      operation is in progress every update made so far has passed its commit point; at most
      three operations are in progress, and logged blocks and blocks being modified have
      buffers of their own. Operations that keep to MAXOPBLOCKS stay within what they reserved. */
  lemma CommitsAreQuiescent(c: Config, es: seq<Event>)
    requires Run(c, Init(c), es).Next?
    ensures var s := Run(c, Init(c), es).s;
      && (s.phase.Committing? ==> s.ops == map[] && forall op :: Step(c, s, BeginOp(op)) == Disabled)
      && (s.phase.Running? && s.ops == map[] ==> s.durable == s.made)
      && |s.ops| <= 3 && Counting.Distinct(s.lh) && InUse(s) <= NBUF
      && (c.budget <= MAXOPBLOCKS ==> |s.lh| + Unused(s.ops, c.budget) <= Admissible(c.budget) <= LOGSIZE)
  {
    InitBooks(c);
    RunKeepsBooks(c, Init(c), es);
  }

  lemma InitBooks(c: Config)
    ensures Bookkept(c, Init(c))
  {
    assert Held([], map[]) == {};
  }

  /** end_op's panic is unreachable, and log_write stays inside lh.block although it checks the
      size before it takes the lock; for a log region of any size and any number of blocks an
      operation, because every logged block has a buffer and there are only LOGSIZE of them. */
  lemma NoCommittingPanic(c: Config, es: seq<Event>, op: nat)
    ensures Run(c, Init(c), es) != PanicCommitting
    ensures Run(c, Init(c), es).Next? && Step(c, Run(c, Init(c), es).s, Record(op)).Next? ==>
      |Step(c, Run(c, Init(c), es).s, Record(op)).s.lh| <= LOGSIZE
  {
    InitBooks(c);
    NoCommittingPanicFrom(c, Init(c), es);
    if Run(c, Init(c), es).Next? {
      RunKeepsBooks(c, Init(c), es);
      var s := Run(c, Init(c), es).s;
      if Step(c, s, Record(op)).Next? { RecordBuffers(c, s, op); }
    }
  }

  lemma {:induction false} NoCommittingPanicFrom(c: Config, s: State, es: seq<Event>)
    requires Bookkept(c, s)
    ensures Run(c, s, es) != PanicCommitting
    decreases |es|
  {
    if es != [] {
      var o := Step(c, s, es[0]);
      if o.Next? {
        StepKeepsBooks(c, s, es[0]);
        NoCommittingPanicFrom(c, o.s, es[1..]);
      }
    }
  }

  lemma {:induction false} NoTooBigPanicFrom(c: Config, s: State, es: seq<Event>)
    requires Bookkept(c, s) && Admissible(c.budget) < Capacity(c.lay)
    ensures Run(c, s, es) != PanicTooBig
    decreases |es|
  {
    if es != [] {
      ReservedBound(c, s);
      var o := Step(c, s, es[0]);
      if o.Next? {
        StepKeepsBooks(c, s, es[0]);
        NoTooBigPanicFrom(c, o.s, es[1..]);
      }
    }
  }

  // ------------------------------------------------------------------
  // Runs that fill the log

  lemma {:induction false} RunAppend(c: Config, s: State, es: seq<Event>, fs: seq<Event>)
    requires Run(c, s, es).Next?
    ensures Run(c, s, es + fs) == Run(c, Run(c, s, es).s, fs)
    decreases |es|
  {
    if es == [] {
      assert es + fs == fs;
    } else {
      assert (es + fs)[1..] == es[1..] + fs;
      RunAppend(c, Step(c, s, es[0]).s, es[1..], fs);
    }
  }

  /** Room for the blocks of the runs below, after the log region. */
  ghost predicate Roomy(c: Config) {
    && EmptyLog(c.base, c.lay) && 1 <= c.budget
    && c.lay.start + c.lay.size + LOGSIZE + 1 <= |c.base|
  }

  ghost function Nth(c: Config, i: nat): nat {
    c.lay.start + c.lay.size + i
  }

  /** What the operations of these runs add at most. */
  function Modest(c: Config): nat { if c.budget < MAXOPBLOCKS then c.budget else MAXOPBLOCKS }

  lemma NothingHeld(lh: seq<nat>, ops: map<nat, Op>)
    requires forall o | o in ops :: ops[o].pending == Nothing
    ensures Held(lh, ops) == {}
  {
  }

  lemma OneHeld(lh: seq<nat>, ops: map<nat, Op>, op: nat)
    requires op in ops && forall o | o in ops && o != op :: ops[o].pending == Nothing
    ensures |Held(lh, ops)| <= 1
  {
    HeldBut(lh, ops, op);
    NothingHeld(lh, ops - {op});
  }

  /** A log holding n blocks with operation 0 in progress; past 10 blocks operation 100
      is in progress too and adds up to `cap` of them before operation 0 adds any. */
  ghost predicate Filled(c: Config, s: State, n: nat, cap: nat) {
    && s.phase == Running && |s.mem| == |c.base| && s.disk == c.base && s.durable == []
    && |s.lh| == n && (forall i | 0 <= i < n :: s.lh[i] == Nth(c, i))
    && s.ops == FilledOps(n, cap)
    && 0 in s.issued
    && (n <= 10 ==> forall o | o in s.issued :: o <= n)
    && (n > 10 ==> 100 in s.issued)
  }

  ghost function FilledOps(n: nat, cap: nat): map<nat, Op> {
    if n <= 10 then map[0 := Op(0, Nothing)]
    else if n <= 10 + cap then map[0 := Op(0, Nothing), 100 := Op(n - 10, Nothing)]
    else map[0 := Op(n - 10 - cap, Nothing), 100 := Op(cap, Nothing)]
  }

  /** An operation modifies the i-th block after the region and passes log_write's size test. */
  lemma Passes(c: Config, s: State, op: nat, i: nat, v: Block) returns (t: State)
    requires Roomy(c) && s.phase == Running && |s.mem| == |c.base| && op in s.ops && op in s.issued && i <= LOGSIZE
    requires s.ops[op].pending == Nothing && s.ops[op].added < c.budget && |s.lh| < Capacity(c.lay) && InUse(s) < NBUF
    requires !Locked(s, Nth(c, i)) && Nth(c, i) !in s.lh
    ensures Step(c, s, Modify(op, Nth(c, i), v)) == Next(t)
    ensures t.phase == Running && t.lh == s.lh && t.mem == s.mem[Nth(c, i) := v] && t.issued.Keys == s.issued.Keys
    ensures t.ops == s.ops[op := Op(s.ops[op].added, Pending(Nth(c, i)))] && t.disk == s.disk && t.durable == s.durable
  {
    assert IsHome(s.mem, c.lay, Nth(c, i));
    t := Step(c, s, Modify(op, Nth(c, i), v)).s;
  }

  /** It then takes the lock and its block joins the log. */
  lemma Joins(c: Config, s: State, op: nat, b: nat) returns (t: State)
    requires s.phase == Running && op in s.ops && s.ops[op].pending == Pending(b) && b !in s.lh
    ensures Step(c, s, Record(op)) == Next(t)
    ensures t.phase == Running && t.lh == s.lh + [b] && t.mem == s.mem && t.issued == s.issued
    ensures t.ops == s.ops[op := Op(s.ops[op].added + 1, Nothing)] && t.disk == s.disk && t.durable == s.durable
  {
    t := Step(c, s, Record(op)).s;
  }

  /** A run given by its states. */
  lemma {:induction false} RunChain(c: Config, ss: seq<State>, es: seq<Event>)
    requires |ss| == |es| + 1 && forall i | 0 <= i < |es| :: Step(c, ss[i], es[i]) == Next(ss[i + 1])
    ensures Run(c, ss[0], es) == Next(ss[|es|])
    decreases |es|
  {
    if es != [] {
      assert forall i | 0 <= i < |es[1..]| :: ss[1..][i] == ss[i + 1] && es[1..][i] == es[i + 1];
      RunChain(c, ss[1..], es[1..]);
    }
  }

  lemma RunTwo(c: Config, s: State, s1: State, s2: State, es: seq<Event>)
    requires |es| == 2 && Step(c, s, es[0]) == Next(s1) && Step(c, s1, es[1]) == Next(s2)
    ensures Run(c, s, es) == Next(s2)
  {
    RunChain(c, [s, s1, s2], es);
  }

  lemma RunThreeSteps(c: Config, s: State, s1: State, s2: State, s3: State, es: seq<Event>)
    requires |es| == 3 && Step(c, s, es[0]) == Next(s1) && Step(c, s1, es[1]) == Next(s2)
      && Step(c, s2, es[2]) == Next(s3)
    ensures Run(c, s, es) == Next(s3)
  {
    RunChain(c, [s, s1, s2, s3], es);
  }

  /** An operation in progress adds one more block. */
  lemma AddBlock(c: Config, s: State, op: nat) returns (t: State)
    requires Roomy(c) && s.phase == Running && |s.mem| == |c.base| && op in s.ops && op in s.issued
    requires forall i | 0 <= i < |s.lh| :: s.lh[i] == Nth(c, i)
    requires forall o | o in s.ops :: s.ops[o].pending == Nothing
    requires s.ops[op].added < c.budget && |s.lh| < Capacity(c.lay)
    ensures Run(c, s, [Modify(op, Nth(c, |s.lh|), c.base[0]), Record(op)]) == Next(t)
    ensures t.phase == Running && |t.mem| == |c.base| && t.issued.Keys == s.issued.Keys
    ensures t.disk == s.disk && t.durable == s.durable
    ensures t.lh == s.lh + [Nth(c, |s.lh|)]
    ensures t.ops == s.ops[op := Op(s.ops[op].added + 1, Nothing)]
  {
    var n, b := |s.lh|, Nth(c, |s.lh|);
    NothingHeld(s.lh, s.ops);
    var m := Passes(c, s, op, n, c.base[0]);
    t := Joins(c, m, op, b);
    RunTwo(c, s, m, t, [Modify(op, b, c.base[0]), Record(op)]);
  }

  lemma {:induction false} Fill(c: Config, n: nat, cap: nat) returns (es: seq<Event>)
    requires Roomy(c) && cap <= c.budget && n <= 10 + 2 * cap && n <= Capacity(c.lay)
    ensures Run(c, Init(c), es).Next? && Filled(c, Run(c, Init(c), es).s, n, cap)
    decreases n
  {
    if n == 0 {
      es := [BeginOp(0)];
      assert Run(c, Step(c, Init(c), es[0]).s, es[1..]) == Next(Step(c, Init(c), es[0]).s);
      return;
    }
    var before := Fill(c, n - 1, cap);
    var s := Run(c, Init(c), before).s;
    var more := FillOne(c, s, n, cap);
    es := before + more;
    RunAppend(c, Init(c), before, more);
  }

  lemma FillOne(c: Config, s: State, n: nat, cap: nat) returns (es: seq<Event>)
    requires Roomy(c) && cap <= c.budget && 0 < n <= 10 + 2 * cap && n <= Capacity(c.lay)
    requires Filled(c, s, n - 1, cap)
    ensures Run(c, s, es).Next? && Filled(c, Run(c, s, es).s, n, cap)
  {
    if n <= 10 {
      es := FillFirst(c, s, n, cap);
    } else if n == 11 {
      es := FillSecond(c, s, cap);
    } else {
      es := FillLater(c, s, n, cap);
    }
  }

  /** Another operation passes through, leaving one block behind. */
  lemma FillFirst(c: Config, s: State, n: nat, cap: nat) returns (es: seq<Event>)
    requires Roomy(c) && 0 < n <= 10 && n <= Capacity(c.lay) && Filled(c, s, n - 1, cap)
    ensures Run(c, s, es).Next? && Filled(c, Run(c, s, es).s, n, cap)
  {
    var s1 := Step(c, s, BeginOp(n)).s;
    var t := AddBlock(c, s1, n);
    var mid := [Modify(n, Nth(c, |s1.lh|), c.base[0]), Record(n)];
    es := RunThree(c, s, BeginOp(n), mid, EndOp(n), s1, t);
    assert t.ops - {n} == FilledOps(n, cap);
  }

  lemma FillSecond(c: Config, s: State, cap: nat) returns (es: seq<Event>)
    requires Roomy(c) && 0 < cap <= c.budget && 11 <= Capacity(c.lay) && Filled(c, s, 10, cap)
    ensures Run(c, s, es).Next? && Filled(c, Run(c, s, es).s, 11, cap)
  {
    var s1 := Step(c, s, BeginOp(100)).s;
    var t := AddBlock(c, s1, 100);
    var mid := [Modify(100, Nth(c, |s1.lh|), c.base[0]), Record(100)];
    RunOne(c, s, BeginOp(100));
    RunAppend(c, s, [BeginOp(100)], mid);
    es := [BeginOp(100)] + mid;
    assert t.ops == FilledOps(11, cap);
  }

  lemma FillLater(c: Config, s: State, n: nat, cap: nat) returns (es: seq<Event>)
    requires Roomy(c) && cap <= c.budget && 11 < n <= 10 + 2 * cap && n <= Capacity(c.lay)
    requires Filled(c, s, n - 1, cap)
    ensures Run(c, s, es).Next? && Filled(c, Run(c, s, es).s, n, cap)
  {
    var op := if n <= 10 + cap then 100 else 0;
    var t := AddBlock(c, s, op);
    es := [Modify(op, Nth(c, |s.lh|), c.base[0]), Record(op)];
    assert t.ops == FilledOps(n, cap);
  }

  lemma RunThree(c: Config, s: State, e: Event, mid: seq<Event>, f: Event, s1: State, t: State)
    returns (es: seq<Event>)
    requires Step(c, s, e) == Next(s1) && Run(c, s1, mid) == Next(t) && Step(c, t, f).Next?
    ensures Run(c, s, es) == Step(c, t, f)
  {
    RunOne(c, s, e);
    RunAppend(c, s, [e], mid);
    RunOne(c, t, f);
    RunAppend(c, s, [e] + mid, [f]);
    es := [e] + mid + [f];
  }

  lemma RunOne(c: Config, s: State, e: Event)
    requires Step(c, s, e).Next?
    ensures Run(c, s, [e]) == Step(c, s, e)
  {
  }

  lemma SmallCapacityPanics(c: Config) returns (es: seq<Event>)
    requires Roomy(c) && 0 <= Capacity(c.lay) <= Admissible(c.budget)
    ensures Run(c, Init(c), es) == PanicTooBig
  {
    var n: nat := Capacity(c.lay);
    var before := Fill(c, n, Modest(c));
    var s := Run(c, Init(c), before).s;
    NothingHeld(s.lh, s.ops);
    // an operation in progress writes a block; when the log holds it already it is absorbed,
    // and log_write panics all the same
    var b := Nth(c, 0);
    assert !Locked(s, b) && IsHome(s.mem, c.lay, b);
    assert n > 0 ==> s.lh[0] == b;
    var bad := Modify(0, b, c.base[0]);
    assert Step(c, s, bad) == PanicTooBig;
    es := before + [bad];
    RunAppend(c, Init(c), before, [bad]);
  }

  /** "too big a transaction" is unreachable exactly when 10 + 2 * budget blocks are fewer
      than both LOGSIZE and log.size - 1. With log.size == 30, as mkfs makes it, that holds
      for budgets up to 9 and fails for MAXOPBLOCKS itself and for more. */
  lemma TooBigPanicIff(c: Config)
    requires Roomy(c)
    ensures (forall es :: Run(c, Init(c), es) != PanicTooBig) <==> Admissible(c.budget) < Capacity(c.lay)
  {
    InitBooks(c);
    if Admissible(c.budget) < Capacity(c.lay) {
      forall es ensures Run(c, Init(c), es) != PanicTooBig { NoTooBigPanicFrom(c, Init(c), es); }
    } else {
      var es := SmallCapacityPanics(c);
    }
  }

  /** The whole log region is taken, one block more than it has slots; nothing is on disk yet
      and the block logged last holds v. */
  ghost predicate Overrun(c: Config, s: State, v: Block)
    requires Roomy(c) && 2 <= c.lay.size <= LOGSIZE
  {
    && s.phase == Running && |s.mem| == |c.base| && s.disk == c.base && s.durable == []
    && |s.lh| == c.lay.size && (forall i | 0 <= i < |s.lh| :: s.lh[i] == Nth(c, i))
    && s.mem[Nth(c, c.lay.size - 1)] == v
    && s.ops.Keys == {0, 100} && (forall o | o in s.ops :: s.ops[o].pending == Nothing)
  }

  lemma RaceOverflows(c: Config, v: Block) returns (es: seq<Event>)
    requires Roomy(c) && 2 <= c.lay.size <= Admissible(c.budget) && c.lay.size <= NBUF
    ensures Run(c, Init(c), es).Next? && Overrun(c, Run(c, Init(c), es).s, v)
  {
    var n := c.lay.size - 2;
    var before := Fill(c, n, Modest(c) - 1);
    var s := Run(c, Init(c), before).s;
    if n <= 10 {
      RunOne(c, s, BeginOp(100));
      RunAppend(c, Init(c), before, [BeginOp(100)]);
      before := before + [BeginOp(100)];
      s := Run(c, Init(c), before).s;
    }
    assert s.ops.Keys == {0, 100} && 0 in s.issued && 100 in s.issued;
    assert s.ops[0].added < c.budget && s.ops[100].added < c.budget;
    assert |s.lh| == n && forall o | o in s.ops :: s.ops[o].pending == Nothing;
    var race := Race(c, s, v);
    RunAppend(c, Init(c), before, race);
    es := before + race;
  }

  /** Operations 0 and 100 both pass the size check before either takes the lock. */
  lemma Race(c: Config, s: State, v: Block) returns (es: seq<Event>)
    requires Roomy(c) && s.phase == Running && |s.mem| == |c.base| && s.disk == c.base && s.durable == []
    requires s.ops.Keys == {0, 100} && 0 in s.issued && 100 in s.issued
    requires forall o | o in s.ops :: s.ops[o].pending == Nothing
    requires s.ops[0].added < c.budget && s.ops[100].added < c.budget
    requires |s.lh| + 2 == c.lay.size <= LOGSIZE
    requires forall i | 0 <= i < |s.lh| :: s.lh[i] == Nth(c, i)
    ensures Run(c, s, es).Next? && Overrun(c, Run(c, s, es).s, v)
  {
    var pass, t := RacePass(c, s, v);
    var join := RaceJoin(c, t, v);
    RunAppend(c, s, pass, join);
    es := pass + join;
  }

  lemma RacePass(c: Config, s: State, v: Block) returns (es: seq<Event>, t: State)
    requires Roomy(c) && s.phase == Running && |s.mem| == |c.base| && s.ops.Keys == {0, 100}
      && s.ops.Keys <= s.issued.Keys
    requires forall o | o in s.ops :: s.ops[o].pending == Nothing && s.ops[o].added < c.budget
    requires |s.lh| + 2 == c.lay.size <= LOGSIZE && forall i | 0 <= i < |s.lh| :: s.lh[i] == Nth(c, i)
    ensures Run(c, s, es) == Next(t) && t.phase == Running && t.lh == s.lh && t.disk == s.disk && t.durable == s.durable
    ensures t.mem == s.mem[Nth(c, |s.lh|) := c.base[0]][Nth(c, |s.lh| + 1) := v] && t.ops.Keys == {0, 100}
    ensures t.ops[0].pending == Pending(Nth(c, |s.lh|)) && t.ops[100].pending == Pending(Nth(c, |s.lh| + 1))
  {
    var n := |s.lh|;
    NothingHeld(s.lh, s.ops);
    var s1 := Passes(c, s, 0, n, c.base[0]);
    OneHeld(s1.lh, s1.ops, 0);
    t := Passes(c, s1, 100, n + 1, v);
    es := [Modify(0, Nth(c, n), c.base[0]), Modify(100, Nth(c, n + 1), v)];
    RunTwo(c, s, s1, t, es);
  }

  lemma RaceJoin(c: Config, s: State, v: Block) returns (es: seq<Event>)
    requires Roomy(c) && s.phase == Running && |s.mem| == |c.base| && s.disk == c.base && s.durable == []
    requires s.ops.Keys == {0, 100} && |s.lh| + 2 == c.lay.size <= LOGSIZE && s.mem[Nth(c, |s.lh| + 1)] == v
    requires s.ops[0].pending == Pending(Nth(c, |s.lh|)) && s.ops[100].pending == Pending(Nth(c, |s.lh| + 1))
    requires forall i | 0 <= i < |s.lh| :: s.lh[i] == Nth(c, i)
    ensures Run(c, s, es).Next? && Overrun(c, Run(c, s, es).s, v)
  {
    var s1 := Joins(c, s, 0, Nth(c, |s.lh|));
    var s2 := Joins(c, s1, 100, Nth(c, |s.lh| + 1));
    es := [Record(0), Record(100)];
    RunTwo(c, s, s1, s2, es);
  }

  /** The transaction never outgrows the slots of the log region exactly when 10 + 2 * budget
      is below log.size, or the region is larger than the cache. Otherwise two operations that
      check the size together overrun the region. */
  lemma LogOverflowIff(c: Config)
    requires Roomy(c) && c.lay.size >= 2
    ensures (forall es :: Run(c, Init(c), es).Next? ==> |Run(c, Init(c), es).s.lh| < c.lay.size)
      <==> Admissible(c.budget) < c.lay.size || NBUF < c.lay.size
  {
    if Admissible(c.budget) < c.lay.size || NBUF < c.lay.size {
      forall es | Run(c, Init(c), es).Next? ensures |Run(c, Init(c), es).s.lh| < c.lay.size {
        InitBooks(c);
        RunKeepsBooks(c, Init(c), es);
        if c.budget <= MAXOPBLOCKS { ReservedBound(c, Run(c, Init(c), es).s); }
      }
    } else {
      var es := RaceOverflows(c, c.base[0]);
    }
  }
}
