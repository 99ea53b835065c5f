/** Exactly when the log leaves no buffer for a block it has to read. NBUF equals LOGSIZE, so a
    transaction of LOGSIZE blocks pins the whole cache. */
module GroupCommitBuffers {
  import opened WriteAheadLog
  import opened GroupCommit
  import opened GroupCommitResults

  // ------------------------------------------------------------------
  // Enough buffers

  /** What keeps fewer than NBUF buffers in use. */
  predicate Spare(c: Config) { Admissible(c.budget) < NBUF || c.lay.size + 2 <= NBUF }

  lemma SpareBound(c: Config, s: State)
    requires Spare(c) && Bookkept(c, s)
    ensures InUse(s) < NBUF
  {
    if c.budget <= MAXOPBLOCKS { ReservedBound(c, s); }
  }

  lemma {:induction false} NoBufferPanicFrom(c: Config, s: State, es: seq<Event>)
    requires Bookkept(c, s) && Spare(c)
    ensures Run(c, s, es) != PanicNoBuffers
    decreases |es|
  {
    if es != [] {
      SpareBound(c, s);
      var o := Step(c, s, es[0]);
      if o.Next? {
        StepKeepsBooks(c, s, es[0]);
        NoBufferPanicFrom(c, o.s, es[1..]);
      }
    }
  }

  // ------------------------------------------------------------------
  // A run that pins every buffer: three operations, nine blocks each, and one more each

  /** Three operations in progress with n blocks logged, the first nine by operation 0, the next
      nine by operation 1 and the rest by operation 2. */
  ghost predicate Thirds(c: Config, s: State, n: nat) {
    && s.phase == Running && |s.mem| == |c.base| && s.disk == c.base && s.issued.Keys == {0, 1, 2}
    && |s.lh| == n && (forall i | 0 <= i < n :: s.lh[i] == Nth(c, i)) && s.ops == ThirdOps(n)
  }

  function Part(n: nat, from: nat): nat { if n <= from then 0 else if n <= from + 9 then n - from else 9 }

  function ThirdOps(n: nat): map<nat, Op> {
    map[0 := Op(Part(n, 0), Nothing), 1 := Op(Part(n, 9), Nothing), 2 := Op(Part(n, 18), Nothing)]
  }

  /** The operation that adds the n-th block. */
  function Turn(n: nat): nat { if n <= 9 then 0 else if n <= 18 then 1 else 2 }

  lemma NextThird(n: nat)
    requires 0 < n <= 27
    ensures Turn(n) in ThirdOps(n - 1) && ThirdOps(n - 1)[Turn(n)].added < 9
    ensures ThirdOps(n) == ThirdOps(n - 1)[Turn(n) := Op(ThirdOps(n - 1)[Turn(n)].added + 1, Nothing)]
  {
  }

  lemma ThreeBegin(c: Config) returns (es: seq<Event>)
    requires Roomy(c)
    ensures Run(c, Init(c), es).Next? && Thirds(c, Run(c, Init(c), es).s, 0)
  {
    var s := Init(c);
    var s1 := Step(c, s, BeginOp(0)).s;
    var s2 := Step(c, s1, BeginOp(1)).s;
    var s3 := Step(c, s2, BeginOp(2)).s;
    es := [BeginOp(0), BeginOp(1), BeginOp(2)];
    assert s3.ops == ThirdOps(0);
    RunThreeSteps(c, s, s1, s2, s3, es);
  }

  lemma {:induction false} ThreeFill(c: Config, n: nat) returns (es: seq<Event>)
    requires Roomy(c) && c.budget >= MAXOPBLOCKS && c.lay.size + 1 >= NBUF && n <= 27
    ensures Run(c, Init(c), es).Next? && Thirds(c, Run(c, Init(c), es).s, n)
    decreases n
  {
    if n == 0 {
      es := ThreeBegin(c);
      return;
    }
    var before := ThreeFill(c, n - 1);
    var more := ThreeMore(c, Run(c, Init(c), before).s, n);
    es := before + more;
    RunAppend(c, Init(c), before, more);
  }

  lemma ThreeMore(c: Config, s: State, n: nat) returns (es: seq<Event>)
    requires Roomy(c) && c.budget >= MAXOPBLOCKS && c.lay.size + 1 >= NBUF && 0 < n <= 27 && Thirds(c, s, n - 1)
    ensures Run(c, s, es).Next? && Thirds(c, Run(c, s, es).s, n)
  {
    var op := Turn(n);
    NextThird(n);
    var t := AddBlock(c, s, op);
    es := [Modify(op, Nth(c, |s.lh|), c.base[0]), Record(op)];
  }

  lemma TwoPass(c: Config, s: State) returns (s1: State, t: State)
    requires Roomy(c) && c.budget >= MAXOPBLOCKS && c.lay.size + 1 >= NBUF && Thirds(c, s, 27)
    ensures Step(c, s, Modify(0, Nth(c, 27), c.base[0])) == Next(s1)
    ensures Step(c, s1, Modify(1, Nth(c, 28), c.base[0])) == Next(t)
    ensures t.phase == Running && t.lh == s.lh && t.disk == s.disk && |t.mem| == |s.mem|
    ensures t.issued.Keys == s.issued.Keys
    ensures t.ops == s.ops[0 := Op(9, Pending(Nth(c, 27)))][1 := Op(9, Pending(Nth(c, 28)))]
  {
    NothingHeld(s.lh, s.ops);
    s1 := Passes(c, s, 0, 27, c.base[0]);
    OneHeld(s1.lh, s1.ops, 0);
    t := Passes(c, s1, 1, 28, c.base[0]);
  }

  /** All three pass log_write's size test before any of them takes the lock. */
  lemma ThreePass(c: Config, s: State) returns (es: seq<Event>, t: State)
    requires Roomy(c) && c.budget >= MAXOPBLOCKS && c.lay.size + 1 >= NBUF && Thirds(c, s, 27)
    ensures Run(c, s, es) == Next(t) && t.phase == Running && t.lh == s.lh && t.disk == s.disk && |t.mem| == |s.mem|
    ensures t.ops ==
      map[0 := Op(9, Pending(Nth(c, 27))), 1 := Op(9, Pending(Nth(c, 28))), 2 := Op(9, Pending(Nth(c, 29)))]
  {
    var v := c.base[0];
    var s1, s2 := TwoPass(c, s);
    TwoHeld(s2.lh, s2.ops, 0, 1);
    t := Passes(c, s2, 2, 29, v);
    es := [Modify(0, Nth(c, 27), v), Modify(1, Nth(c, 28), v), Modify(2, Nth(c, 29), v)];
    RunThreeSteps(c, s, s1, s2, t, es);
  }

  lemma TwoHeld(lh: seq<nat>, ops: map<nat, Op>, x: nat, y: nat)
    requires x in ops && y in ops && x != y && forall o | o in ops && o != x && o != y :: ops[o].pending == Nothing
    ensures |Held(lh, ops)| <= 2
  {
    HeldBut(lh, ops, x);
    OneHeld(lh, ops - {x}, y);
  }

  /** A commit of NBUF blocks that has not written anything. */
  ghost predicate FullCommit(c: Config, s: State) {
    s.phase.Committing? && s.phase.done == 0 && |s.lh| == NBUF && CanCommit(c, s)
  }

  /** They log their blocks. */
  lemma ThreeJoin(c: Config, s: State) returns (es: seq<Event>, t: State)
    requires s.phase == Running && |s.lh| == 27 && forall i | 0 <= i < 27 :: s.lh[i] == Nth(c, i)
    requires s.ops ==
      map[0 := Op(9, Pending(Nth(c, 27))), 1 := Op(9, Pending(Nth(c, 28))), 2 := Op(9, Pending(Nth(c, 29)))]
    ensures Run(c, s, es) == Next(t) && t.phase == Running && t.disk == s.disk && t.mem == s.mem
    ensures |t.lh| == NBUF && (forall i | 0 <= i < NBUF :: t.lh[i] == Nth(c, i))
    ensures t.ops.Keys == {0, 1, 2} && forall o | o in t.ops :: t.ops[o].pending == Nothing
  {
    var s1 := Joins(c, s, 0, Nth(c, 27));
    var s2 := Joins(c, s1, 1, Nth(c, 28));
    t := Joins(c, s2, 2, Nth(c, 29));
    es := [Record(0), Record(1), Record(2)];
    RunThreeSteps(c, s, s1, s2, t, es);
  }

  /** They end, which starts a commit of NBUF blocks. */
  lemma ThreeEnd(c: Config, s: State) returns (es: seq<Event>)
    requires Roomy(c) && s.phase == Running && s.disk == c.base && |s.mem| == |c.base|
    requires |s.lh| == NBUF && forall i | 0 <= i < NBUF :: s.lh[i] == Nth(c, i)
    requires s.ops.Keys == {0, 1, 2} && forall o | o in s.ops :: s.ops[o].pending == Nothing
    ensures Run(c, s, es).Next? && FullCommit(c, Run(c, s, es).s)
  {
    var s1 := Step(c, s, EndOp(0)).s;
    assert s1.ops.Keys == {1, 2};
    var s2 := Step(c, s1, EndOp(1)).s;
    assert s2.ops.Keys == {2};
    var s3 := Step(c, s2, EndOp(2)).s;
    assert s2.ops - {2} == map[];
    es := [EndOp(0), EndOp(1), EndOp(2)];
    RunThreeSteps(c, s, s1, s2, s3, es);
  }

  /** The run: a commit of NBUF blocks. */
  lemma PinsAll(c: Config) returns (es: seq<Event>)
    requires Roomy(c) && !Spare(c)
    ensures Run(c, Init(c), es).Next? && FullCommit(c, Run(c, Init(c), es).s)
  {
    var fill := ThreeFill(c, 27);
    var s := Run(c, Init(c), fill).s;
    var pass, s1 := ThreePass(c, s);
    var join, s2 := ThreeJoin(c, s1);
    var end := ThreeEnd(c, s2);
    RunAppend(c, s1, join, end);
    RunAppend(c, s, pass, join + end);
    RunAppend(c, Init(c), fill, pass + (join + end));
    es := fill + (pass + (join + end));
  }

  /** Every commit finds a buffer exactly when fewer than NBUF blocks are admitted, which means
      operations of at most 9 blocks, or when the log region has at most NBUF - 2 blocks, so that
      not even three callers that pass log_write's size test together reach NBUF. mkfs's region
      of 30 blocks does not meet that for operations of MAXOPBLOCKS. The same condition decides
      whether any bread of an operation or of a commit can meet "bget: no buffers", as long as
      an operation holds one buffer at a time. */
  lemma NoBuffersIff(c: Config)
    requires Roomy(c)
    ensures (forall es ::
      Run(c, Init(c), es).Next? && Run(c, Init(c), es).s.phase.Committing? ==> |Run(c, Init(c), es).s.lh| < NBUF)
      <==> Admissible(c.budget) < NBUF || c.lay.size + 2 <= NBUF
    ensures (forall es :: Run(c, Init(c), es) != PanicNoBuffers)
      <==> Admissible(c.budget) < NBUF || c.lay.size + 2 <= NBUF
  {
    InitBooks(c);
    if Spare(c) {
      forall es | Run(c, Init(c), es).Next? ensures |Run(c, Init(c), es).s.lh| < NBUF {
        RunKeepsBooks(c, Init(c), es);
        SpareBound(c, Run(c, Init(c), es).s);
      }
      forall es ensures Run(c, Init(c), es) != PanicNoBuffers { NoBufferPanicFrom(c, Init(c), es); }
    } else {
      var es := PinsAll(c);
      CommitStops(c, es);
    }
  }

  /** Such a commit panics at its first bread. */
  lemma CommitStops(c: Config, es: seq<Event>)
    requires Run(c, Init(c), es).Next? && FullCommit(c, Run(c, Init(c), es).s)
    ensures Run(c, Init(c), es + [CommitWriteBlock]) == PanicNoBuffers
  {
    RunAppend(c, Init(c), es, [CommitWriteBlock]);
  }
}
