/** The transaction protocol of log.c as a step machine: begin_op, log_write, end_op,
    the block writes of commit() and of recover_from_log(), and crashes, interleaved
    in any order the locks allow.

    One step is one critical section of log.lock or one disk write. log_write is two
    steps, because its size check runs before the lock is taken; between the two the
    caller still holds the buffer's sleep lock.

    Buffers are counted: a logged block keeps a dirty one and a block being modified a
    locked one, so bread of another block panics once all NBUF are taken. */
module GroupCommit {
  import opened WriteAheadLog
  import BufferCache
  import Counting

  const MAXOPBLOCKS: nat := 10
  const NBUF: nat := BufferCache.NBUF

  /** An operation between begin_op and end_op: how many blocks it has added to the
      log, and the block (if any) that it has modified and is about to record. */
  datatype Op = Op(added: nat, pending: Pending)
  datatype Pending = Nothing | Pending(blockno: nat)

  /** A block write made by an operation. */
  datatype Update = Update(op: nat, blockno: nat, data: Block)

  /** Running: committing == 0. The other phases have performed `done` of the block
      writes of commit() or recover_from_log(), starting from the disk `from`. */
  datatype Phase =
    | Running
    | Committing(from: Disk, done: nat)
    | Recovering(from: Disk, done: nat)

  /** `mem` is what bread returns: the cache in front of the disk. The last four
      components are history: the updates in mem, the updates that would survive a
      crash, every update each operation ever made, and the operations that called end_op. */
  datatype State = State(
    disk: Disk, mem: Disk, lh: seq<nat>, ops: map<nat, Op>, phase: Phase,
    made: seq<Update>, durable: seq<Update>, issued: map<nat, seq<Update>>, ended: set<nat>)

  /** Each operation puts at most `budget` new blocks in the log. */
  datatype Config = Config(lay: Layout, base: Disk, budget: nat)

  datatype Event =
    | BeginOp(op: nat)
    | Modify(op: nat, blockno: nat, data: Block)  // change the buffer, pass log_write's checks
    | Record(op: nat)                             // log_write's critical section
    | EndOp(op: nat)
    | CommitWriteBlock | CommitDone
    | Crash | RecoverWriteBlock | RecoverDone

  /** Disabled: the caller sleeps, or the event is not one the callers may produce. */
  datatype Outcome = Next(s: State) | Disabled | PanicTooBig | PanicCommitting | PanicNoBuffers

  ghost predicate Locked(s: State, b: nat) {
    exists o :: o in s.ops && s.ops[o].pending == Pending(b)
  }

  /** The blocks being modified that are not logged yet. */
  ghost function Held(lh: seq<nat>, ops: map<nat, Op>): set<nat> {
    set o | o in ops && ops[o].pending.Pending? && ops[o].pending.blockno !in lh :: ops[o].pending.blockno
  }

  /** The buffers that bget may not recycle. */
  ghost function InUse(s: State): nat { |s.lh| + |Held(s.lh, s.ops)| }

  /** The number of blocks a transaction may hold before log_write panics. */
  function Capacity(lay: Layout): int {
    if LOGSIZE < lay.size - 1 then LOGSIZE else lay.size - 1
  }

  ghost function StepBeginOp(c: Config, s: State, op: nat): Outcome {
    if op in s.issued || s.phase != Running then Disabled
    else if |s.lh| + (|s.ops| + 1) * MAXOPBLOCKS > LOGSIZE then Disabled
    else Next(s.(ops := s.ops[op := Op(0, Nothing)], issued := s.issued[op := []]))
  }

  ghost function StepModify(c: Config, s: State, op: nat, b: nat, v: Block): Outcome {
    if op !in s.ops || op !in s.issued || s.ops[op].pending != Nothing then Disabled
    else if !IsHome(s.mem, c.lay, b) || Locked(s, b) then Disabled
    else if b !in s.lh && s.ops[op].added >= c.budget then Disabled
    else if b !in s.lh && InUse(s) >= NBUF then PanicNoBuffers
    else if |s.lh| >= Capacity(c.lay) then PanicTooBig
    else
      var u := Update(op, b, v);
      Next(s.(mem := s.mem[b := v], ops := s.ops[op := s.ops[op].(pending := Pending(b))],
              made := s.made + [u], issued := s.issued[op := s.issued[op] + [u]]))
  }

  ghost function StepRecord(s: State, op: nat): Outcome {
    if op !in s.ops || s.ops[op].pending == Nothing then Disabled
    else
      var b := s.ops[op].pending.blockno;
      var added := if b in s.lh then 0 else 1;
      Next(s.(lh := if b in s.lh then s.lh else s.lh + [b],
              ops := s.ops[op := Op(s.ops[op].added + added, Nothing)]))
  }

  ghost function StepEndOp(s: State, op: nat): Outcome {
    if op !in s.ops || s.ops[op].pending != Nothing then Disabled
    else if s.phase != Running then PanicCommitting
    else
      var t := s.(ops := s.ops - {op}, ended := s.ended + {op});
      Next(if t.ops == map[] then t.(phase := Committing(s.disk, 0)) else t)
  }

  /** commit() does nothing when the transaction is empty. */
  ghost function CommitLength(s: State): nat {
    if s.lh == [] then 0 else 2 * |s.lh| + 2
  }

  ghost predicate CanCommit(c: Config, s: State) {
    s.phase.Committing? && ValidLayout(s.phase.from, c.lay) && |s.lh| <= LOGSIZE
    && forall j | 0 <= j < |s.lh| :: s.lh[j] < |s.mem|
  }

  ghost function StepCommitWrite(c: Config, s: State): Outcome {
    if !CanCommit(c, s) || s.phase.done >= CommitLength(s) then Disabled
    // the first bread of write_log finds every buffer dirty
    else if |s.lh| >= NBUF then PanicNoBuffers
    else
      var w := CommitWrite(s.mem, s.phase.from[c.lay.start], c.lay, s.lh, s.phase.done);
      if w.blockno >= |s.disk| then Disabled
      else Next(s.(disk := s.disk[w.blockno := w.data],
                   phase := Committing(s.phase.from, s.phase.done + 1),
                   // the header write is the commit point
                   durable := if s.phase.done == |s.lh| then s.made else s.durable))
  }

  ghost function StepCommitDone(c: Config, s: State): Outcome {
    if !CanCommit(c, s) || s.phase.done < CommitLength(s) then Disabled
    else Next(s.(phase := Running, lh := []))
  }

  /** All memory is lost; the next boot starts recovery. */
  ghost function StepCrash(s: State): Outcome {
    Next(s.(mem := s.disk, lh := [], ops := map[], phase := Recovering(s.disk, 0), made := s.durable))
  }

  ghost function StepRecoverWrite(c: Config, s: State): Outcome {
    if !s.phase.Recovering? || !Sound(s.phase.from, c.lay) then Disabled
    else if s.phase.done >= |RecoveryWrites(s.phase.from, c.lay)| then Disabled
    else
      var w := RecoveryWrites(s.phase.from, c.lay)[s.phase.done];
      if w.blockno >= |s.disk| then Disabled
      else Next(s.(disk := s.disk[w.blockno := w.data], phase := Recovering(s.phase.from, s.phase.done + 1)))
  }

  ghost function StepRecoverDone(c: Config, s: State): Outcome {
    if !s.phase.Recovering? || !Sound(s.phase.from, c.lay) then Disabled
    else if s.phase.done < |RecoveryWrites(s.phase.from, c.lay)| then Disabled
    else Next(s.(mem := s.disk, phase := Running))
  }

  ghost function Step(c: Config, s: State, e: Event): Outcome {
    match e
    case BeginOp(op) => StepBeginOp(c, s, op)
    case Modify(op, b, v) => StepModify(c, s, op, b, v)
    case Record(op) => StepRecord(s, op)
    case EndOp(op) => StepEndOp(s, op)
    case CommitWriteBlock => StepCommitWrite(c, s)
    case CommitDone => StepCommitDone(c, s)
    case Crash => StepCrash(s)
    case RecoverWriteBlock => StepRecoverWrite(c, s)
    case RecoverDone => StepRecoverDone(c, s)
  }

  ghost function Run(c: Config, s: State, es: seq<Event>): Outcome
    decreases |es|
  {
    if es == [] then Next(s)
    else
      match Step(c, s, es[0])
      case Next(t) => Run(c, t, es[1..])
      case other => other
  }

  /** A file system whose log is empty, as mkfs or a completed recovery leaves it, and
      whose log region is large enough for what begin_op admits or for what commit can
      find buffers for. */
  ghost predicate ValidConfig(c: Config) {
    && EmptyLog(c.base, c.lay)
    && (Admissible(c.budget) < c.lay.size || NBUF <= c.lay.size)
  }

  /** The largest transaction begin_op admits when operations add at most `budget` blocks
      each, up to MAXOPBLOCKS: the third admission needs an empty log, the second at most
      10 blocks in it. */
  function Admissible(budget: nat): nat {
    MAXOPBLOCKS + 2 * budget
  }

  ghost function Init(c: Config): State {
    State(c.base, c.base, [], map[], Running, [], [], map[], {})
  }

  // ------------------------------------------------------------------
  // What a history of updates stands for

  ghost function Replay(base: Disk, us: seq<Update>): (r: Disk)
    ensures |r| == |base|
  {
    if us == [] then base
    else
      var u := us[|us| - 1];
      var d := Replay(base, us[..|us| - 1]);
      if u.blockno < |d| then d[u.blockno := u.data] else d
  }

  /** The updates of one operation, in order. */
  ghost function ByOp(us: seq<Update>, op: nat): seq<Update> {
    if us == [] then []
    else ByOp(us[..|us| - 1], op) + (if us[|us| - 1].op == op then [us[|us| - 1]] else [])
  }

  /** Every operation is in the history with all the updates it ever made, or not at
      all; it is there only if it has ended. */
  ghost predicate WholeOperations(us: seq<Update>, issued: map<nat, seq<Update>>, ended: set<nat>) {
    forall op :: ByOp(us, op) != [] ==> op in ended && op in issued && ByOp(us, op) == issued[op]
  }

  // ------------------------------------------------------------------
  // Reservations

  /** Blocks that the operations in progress may still add. */
  ghost function Unused(ops: map<nat, Op>, budget: nat): int
    decreases |ops|
  {
    if ops == map[] then 0
    else
      var o :| o in ops;
      assert |ops - {o}| < |ops| by { assert ops.Keys == (ops - {o}).Keys + {o}; }
      budget - ops[o].added + Unused(ops - {o}, budget)
  }

  lemma {:induction false} UnusedSplit(ops: map<nat, Op>, budget: nat, x: nat)
    requires x in ops
    ensures Unused(ops, budget) == budget - ops[x].added + Unused(ops - {x}, budget)
    decreases |ops|
  {
    var o :| o in ops && Unused(ops, budget) == budget - ops[o].added + Unused(ops - {o}, budget);
    if o != x {
      assert ops.Keys == (ops - {o}).Keys + {o};
      UnusedSplit(ops - {o}, budget, x);
      assert ops.Keys == (ops - {x}).Keys + {x};
      UnusedSplit(ops - {x}, budget, o);
      assert (ops - {o}) - {x} == (ops - {x}) - {o};
    }
  }

  lemma UnusedPut(ops: map<nat, Op>, budget: nat, x: nat, v: Op)
    ensures Unused(ops[x := v], budget) == budget - v.added + Unused(ops - {x}, budget)
  {
    UnusedSplit(ops[x := v], budget, x);
    assert ops[x := v] - {x} == ops - {x};
  }

  lemma {:induction false} UnusedBounds(ops: map<nat, Op>, budget: nat)
    requires forall o | o in ops :: ops[o].added <= budget
    ensures 0 <= Unused(ops, budget) <= Times(|ops|, budget)
    decreases |ops|
  {
    if ops != map[] {
      var o :| o in ops;
      assert ops.Keys == (ops - {o}).Keys + {o};
      UnusedSplit(ops, budget, o);
      UnusedBounds(ops - {o}, budget);
    }
  }

  ghost function Times(n: nat, b: nat): nat {
    if n == 0 then 0 else Times(n - 1, b) + b
  }

  // ------------------------------------------------------------------
  // The invariant of every run

  ghost predicate Idle(s: State) {
    forall o | o in s.ops :: s.ops[o].pending == Nothing
  }

  ghost predicate Shape(c: Config, s: State) {
    && |s.disk| == |s.mem| == |c.base|
    && (forall i | 0 <= i < |s.lh| :: IsHome(c.base, c.lay, s.lh[i]))
    && (forall o | o in s.ops && s.ops[o].pending.Pending? :: IsHome(c.base, c.lay, s.ops[o].pending.blockno))
    && (s.phase != Running ==> s.ops == map[])
    && (s.phase.Running? && s.ops == map[] ==> s.lh == [])
    && (s.phase.Recovering? ==> s.lh == [] && s.made == s.durable)
    && (s.lh == [] && Idle(s) ==> s.made == s.durable)
  }

  /** lh.n plus every unused reservation stays within what begin_op admits, as long as
      operations keep to MAXOPBLOCKS. */
  ghost predicate Reserved(c: Config, s: State) {
    c.budget <= MAXOPBLOCKS ==> ReservedFor(c.budget, s.lh, s.ops)
  }

  /** At most three operations are in progress; each logged block has a buffer of its own; and
      as many blocks as there are callers can pass log_write's size test together. */
  ghost predicate Buffered(c: Config, s: State) {
    Counting.Distinct(s.lh) && |s.ops| <= 3 && InUse(s) <= NBUF && InUse(s) <= Capacity(c.lay) + 2
  }

  ghost predicate ReservedFor(budget: nat, lh: seq<nat>, ops: map<nat, Op>) {
    && (forall o | o in ops :: ops[o].added <= budget)
    && (forall o | o in ops && ops[o].pending.Pending? ::
          ops[o].pending.blockno in lh || ops[o].added < budget)
    && |lh| + Unused(ops, budget) <= Admissible(budget)
  }

  /** The cache is the history replayed; blocks neither logged nor being modified are as on `disk`. */
  ghost predicate CacheAgrees(c: Config, s: State, disk: Disk) {
    && |disk| == |s.mem| == |c.base|
    && (forall b | IsHome(c.base, c.lay, b) :: s.mem[b] == Replay(c.base, s.made)[b])
    && (forall b | IsHome(c.base, c.lay, b) && b !in s.lh && !Locked(s, b) :: s.mem[b] == disk[b])
  }

  ghost predicate PhaseHolds(c: Config, s: State) {
    match s.phase
    case Running =>
      EmptyLog(s.disk, c.lay) && CacheAgrees(c, s, s.disk)
    case Committing(from, done) =>
      && EmptyLog(from, c.lay) && CacheAgrees(c, s, from)
      && (done <= |s.lh| ==> Means(from, c.lay, Replay(c.base, s.durable)))
      && (done > |s.lh| ==> s.durable == s.made)
      && if |s.lh| < NBUF then CommitHolds(c, s, from, done) else done == 0 && s.disk == from
    case Recovering(from, done) =>
      && Means(from, c.lay, Replay(c.base, s.durable))
      && done <= |RecoveryWrites(from, c.lay)|
      && OnDisk(|from|, RecoveryWrites(from, c.lay))
      && s.disk == Apply(from, RecoveryWrites(from, c.lay), done)
  }

  /** A commit that has its buffers: the disk shows its first writes. */
  ghost predicate CommitHolds(c: Config, s: State, from: Disk, done: nat)
    requires ValidLayout(from, c.lay)
  {
    && |from| == |s.mem| && ValidList(from, c.lay, s.lh) && done <= CommitLength(s)
    && OnDisk(|from|, CommitWrites(s.mem, from[c.lay.start], c.lay, s.lh))
    && s.disk == Apply(from, CommitWrites(s.mem, from[c.lay.start], c.lay, s.lh), done)
  }

  ghost predicate HistoryHolds(s: State) {
    && WholeOperations(s.durable, s.issued, s.ended)
    && WholeOperations(s.made, s.issued, s.ended + s.ops.Keys)
    && (forall o | o in s.ops :: o in s.issued && o !in s.ended && ByOp(s.made, o) == s.issued[o])
    && s.ended <= s.issued.Keys
  }

  /** What holds after every step of every run. */
  ghost predicate Inv(c: Config, s: State) {
    && Shape(c, s)
    && Reserved(c, s) && Buffered(c, s)
    && HistoryHolds(s)
    && PhaseHolds(c, s)
    // the disk stands for the durable history
    && Means(s.disk, c.lay, Replay(c.base, s.durable))
  }

  lemma InitInv(c: Config)
    requires ValidConfig(c)
    ensures Inv(c, Init(c))
  {
  }

  // Reservations: one lemma per step that changes lh or the operations

  lemma AdmitReserved(budget: nat, lh: seq<nat>, ops: map<nat, Op>, op: nat)
    requires ReservedFor(budget, lh, ops) && op !in ops && budget <= MAXOPBLOCKS
    requires |lh| + (|ops| + 1) * MAXOPBLOCKS <= LOGSIZE && (ops == map[] ==> lh == [])
    ensures ReservedFor(budget, lh, ops[op := Op(0, Nothing)])
  {
    AdmitUnused(budget, |lh|, ops, op);
  }

  lemma AdmitUnused(budget: nat, n: nat, ops: map<nat, Op>, op: nat)
    requires (forall o | o in ops :: ops[o].added <= budget) && op !in ops && budget <= MAXOPBLOCKS
    requires n + (|ops| + 1) * MAXOPBLOCKS <= LOGSIZE && (ops == map[] ==> n == 0)
    ensures n + Unused(ops[op := Op(0, Nothing)], budget) <= Admissible(budget)
  {
    UnusedPut(ops, budget, op, Op(0, Nothing));
    assert ops - {op} == ops;
    UnusedBounds(ops, budget);
    AdmissionBound(n, |ops|, Unused(ops, budget), budget);
  }

  lemma BeginOpReserved(c: Config, s: State, op: nat)
    requires s.phase.Running? && s.ops == map[] ==> s.lh == []
    requires Reserved(c, s) && StepBeginOp(c, s, op).Next? && op !in s.ops
    ensures Reserved(c, StepBeginOp(c, s, op).s)
  {
    if c.budget <= MAXOPBLOCKS { AdmitReserved(c.budget, s.lh, s.ops, op); }
  }

  /** begin_op's test, read as a bound: the first operation finds the log empty, the second
      at most 10 blocks in it, the third finds it empty, and there is no fourth. */
  lemma AdmissionBound(n: nat, ops: nat, unused: int, budget: nat)
    requires n + (ops + 1) * MAXOPBLOCKS <= LOGSIZE && budget <= MAXOPBLOCKS
    requires unused <= Times(ops, budget) && (ops == 0 ==> n == 0)
    ensures n + budget + unused <= Admissible(budget)
  {
    assert Times(0, budget) == 0 && Times(1, budget) == budget;
    assert Times(2, budget) == Times(1, budget) + budget;
  }

  lemma ModifyReserved(c: Config, s: State, op: nat, b: nat, v: Block)
    requires Reserved(c, s) && StepModify(c, s, op, b, v).Next?
    ensures Reserved(c, StepModify(c, s, op, b, v).s)
  {
    if c.budget <= MAXOPBLOCKS {
      UnusedSplit(s.ops, c.budget, op);
      UnusedPut(s.ops, c.budget, op, s.ops[op].(pending := Pending(b)));
    }
  }

  lemma RecordReserved(c: Config, s: State, op: nat)
    requires Reserved(c, s) && StepRecord(s, op).Next?
    ensures Reserved(c, StepRecord(s, op).s)
  {
    if c.budget <= MAXOPBLOCKS {
      UnusedSplit(s.ops, c.budget, op);
      UnusedPut(s.ops, c.budget, op, StepRecord(s, op).s.ops[op]);
    }
  }

  lemma EndOpReserved(c: Config, s: State, op: nat)
    requires Reserved(c, s) && StepEndOp(s, op).Next?
    ensures Reserved(c, StepEndOp(s, op).s)
  {
    if c.budget <= MAXOPBLOCKS {
      UnusedSplit(s.ops, c.budget, op);
    }
  }

  lemma ReservedBound(c: Config, s: State)
    requires Reserved(c, s) && c.budget <= MAXOPBLOCKS
    ensures InUse(s) <= Admissible(c.budget)
  {
    HeldUnused(c.budget, s.lh, s.ops);
  }

  // Buffers

  lemma HeldBut(lh: seq<nat>, ops: map<nat, Op>, o: nat)
    requires o in ops
    ensures Held(lh, ops) == Held(lh, ops - {o}) +
      if ops[o].pending.Pending? && ops[o].pending.blockno !in lh then {ops[o].pending.blockno} else {}
  {
    var rest := ops - {o};
    forall b | b in Held(lh, ops) && !(ops[o].pending.Pending? && ops[o].pending.blockno == b)
      ensures b in Held(lh, rest)
    {
      var x :| x in ops && ops[x].pending.Pending? && ops[x].pending.blockno !in lh && ops[x].pending.blockno == b;
      assert x in rest;
    }
  }

  lemma {:induction false} HeldCount(lh: seq<nat>, ops: map<nat, Op>)
    ensures |Held(lh, ops)| <= |ops|
    decreases |ops|
  {
    if ops != map[] {
      var o :| o in ops;
      assert ops.Keys == (ops - {o}).Keys + {o};
      HeldBut(lh, ops, o);
      HeldCount(lh, ops - {o});
    }
  }

  /** A block being modified was reserved. */
  lemma {:induction false} HeldUnused(budget: nat, lh: seq<nat>, ops: map<nat, Op>)
    requires forall o | o in ops :: ops[o].added <= budget
    requires forall o | o in ops && ops[o].pending.Pending? :: ops[o].pending.blockno in lh || ops[o].added < budget
    ensures |Held(lh, ops)| <= Unused(ops, budget)
    decreases |ops|
  {
    if ops != map[] {
      var o :| o in ops;
      assert ops.Keys == (ops - {o}).Keys + {o};
      UnusedSplit(ops, budget, o);
      HeldBut(lh, ops, o);
      HeldUnused(budget, lh, ops - {o});
    }
  }

  lemma HeldLess(lh: seq<nat>, ops: map<nat, Op>, lh': seq<nat>, ops': map<nat, Op>, more: set<nat>)
    requires Held(lh', ops') <= Held(lh, ops) + more
    ensures |Held(lh', ops')| <= |Held(lh, ops)| + |more|
  {
    Counting.SubsetSize(Held(lh', ops'), Held(lh, ops) + more);
  }

  lemma BeginOpBuffers(c: Config, s: State, op: nat)
    requires Buffered(c, s) && StepBeginOp(c, s, op).Next? && op !in s.ops
    ensures Buffered(c, StepBeginOp(c, s, op).s)
  {
    var t := StepBeginOp(c, s, op).s;
    HeldLess(s.lh, s.ops, t.lh, t.ops, {});
  }

  lemma ModifyBuffers(c: Config, s: State, op: nat, b: nat, v: Block)
    requires Buffered(c, s) && StepModify(c, s, op, b, v).Next?
    ensures Buffered(c, StepModify(c, s, op, b, v).s)
  {
    var t := StepModify(c, s, op, b, v).s;
    assert t.ops.Keys == s.ops.Keys;
    HeldLess(s.lh, s.ops, t.lh, t.ops, if b in s.lh then {} else {b});
    HeldCount(t.lh, t.ops);
  }

  lemma RecordBuffers(c: Config, s: State, op: nat)
    requires Buffered(c, s) && StepRecord(s, op).Next?
    ensures Buffered(c, StepRecord(s, op).s)
  {
    var t, b := StepRecord(s, op).s, s.ops[op].pending.blockno;
    assert t.ops.Keys == s.ops.Keys;
    if b in s.lh {
      HeldLess(s.lh, s.ops, t.lh, t.ops, {});
    } else {
      assert b in Held(s.lh, s.ops);
      assert Held(t.lh, t.ops) <= Held(s.lh, s.ops) - {b};
      Counting.SubsetSize(Held(t.lh, t.ops), Held(s.lh, s.ops) - {b});
    }
  }

  lemma EndOpBuffers(c: Config, s: State, op: nat)
    requires Buffered(c, s) && StepEndOp(s, op).Next?
    ensures Buffered(c, StepEndOp(s, op).s)
  {
    var t := StepEndOp(s, op).s;
    assert s.ops.Keys == (s.ops - {op}).Keys + {op};
    HeldLess(s.lh, s.ops, t.lh, s.ops - {op}, {});
  }

  // Who is in progress and what is durable, whatever the size of the log region

  ghost predicate Bookkept(c: Config, s: State) {
    && (s.phase != Running ==> s.ops == map[])
    && (s.phase.Running? && s.ops == map[] ==> s.lh == [])
    && (s.phase.Recovering? ==> s.lh == [] && s.made == s.durable)
    && (s.lh == [] && Idle(s) ==> s.made == s.durable)
    && (s.phase.Committing? && s.phase.done > |s.lh| ==> s.durable == s.made)
    && s.ops.Keys <= s.issued.Keys
    && Reserved(c, s) && Buffered(c, s)
  }

  lemma StepKeepsBooks(c: Config, s: State, e: Event)
    requires Bookkept(c, s) && Step(c, s, e).Next?
    ensures Bookkept(c, Step(c, s, e).s)
  {
    match e {
      case BeginOp(op) => BeginOpBooks(c, s, op);
      case Modify(op, b, v) =>
        ModifyReserved(c, s, op, b, v);
        ModifyBuffers(c, s, op, b, v);
        assert Step(c, s, e).s.ops[op].pending == Pending(b);
      case Record(op) =>
        RecordReserved(c, s, op);
        RecordBuffers(c, s, op);
        assert s.ops[op].pending.blockno in Step(c, s, e).s.lh;
      case EndOp(op) => EndOpBooks(c, s, op);
      case _ =>
    }
  }

  lemma BeginOpBooks(c: Config, s: State, op: nat)
    requires Bookkept(c, s) && StepBeginOp(c, s, op).Next?
    ensures Bookkept(c, StepBeginOp(c, s, op).s)
  {
    BeginOpReserved(c, s, op);
    BeginOpBuffers(c, s, op);
    var t := StepBeginOp(c, s, op).s;
    if Idle(t) {
      forall o | o in s.ops ensures s.ops[o].pending == Nothing { assert t.ops[o] == s.ops[o]; }
    }
  }

  lemma EndOpBooks(c: Config, s: State, op: nat)
    requires Bookkept(c, s) && StepEndOp(s, op).Next?
    ensures Bookkept(c, StepEndOp(s, op).s)
  {
    EndOpReserved(c, s, op);
    EndOpBuffers(c, s, op);
    var t := StepEndOp(s, op).s;
    if Idle(t) {
      forall o | o in s.ops ensures s.ops[o].pending == Nothing { assert o == op || t.ops[o] == s.ops[o]; }
    }
  }

  lemma {:induction false} RunKeepsBooks(c: Config, s: State, es: seq<Event>)
    requires Bookkept(c, s) && Run(c, s, es).Next?
    ensures Bookkept(c, Run(c, s, es).s)
    decreases |es|
  {
    if es != [] {
      StepKeepsBooks(c, s, es[0]);
      RunKeepsBooks(c, Step(c, s, es[0]).s, es[1..]);
    }
  }

  // History

  /** A fresh operation has no updates anywhere. */
  lemma WholeFresh(us: seq<Update>, issued: map<nat, seq<Update>>, ended: set<nat>, more: set<nat>, op: nat)
    requires WholeOperations(us, issued, ended) && op !in issued && ended <= more
    ensures ByOp(us, op) == [] && WholeOperations(us, issued[op := []], more)
  {
  }

  lemma BeginOpHistory(c: Config, s: State, op: nat)
    requires HistoryHolds(s) && StepBeginOp(c, s, op).Next?
    ensures HistoryHolds(StepBeginOp(c, s, op).s)
  {
    var t := StepBeginOp(c, s, op).s;
    WholeFresh(s.durable, s.issued, s.ended, s.ended, op);
    WholeFresh(s.made, s.issued, s.ended + s.ops.Keys, t.ended + t.ops.Keys, op);
  }

  lemma ByOpSnoc(us: seq<Update>, u: Update, op: nat)
    ensures ByOp(us + [u], op) == ByOp(us, op) + if u.op == op then [u] else []
  {
    assert (us + [u])[..|us|] == us;
  }

  lemma ModifyHistory(c: Config, s: State, op: nat, b: nat, v: Block)
    requires HistoryHolds(s) && StepModify(c, s, op, b, v).Next?
    ensures HistoryHolds(StepModify(c, s, op, b, v).s)
  {
    var t := StepModify(c, s, op, b, v).s;
    var u := Update(op, b, v);
    assert ByOp(s.durable, op) == [];
    assert t.ended + t.ops.Keys == s.ended + s.ops.Keys;
    WholeSnoc(s.made, u, s.issued, s.ended + s.ops.Keys);
    forall o | o in t.ops ensures ByOp(t.made, o) == t.issued[o] { ByOpSnoc(s.made, u, o); }
  }

  /** An operation in progress adds an update to the history and to its own record. */
  lemma WholeSnoc(us: seq<Update>, u: Update, issued: map<nat, seq<Update>>, ended: set<nat>)
    requires WholeOperations(us, issued, ended)
    requires u.op in ended && u.op in issued && ByOp(us, u.op) == issued[u.op]
    ensures WholeOperations(us + [u], issued[u.op := issued[u.op] + [u]], ended)
  {
    forall o | ByOp(us + [u], o) != []
      ensures o in ended && o in issued && ByOp(us + [u], o) == issued[u.op := issued[u.op] + [u]][o]
    {
      ByOpSnoc(us, u, o);
    }
  }

  lemma EndOpHistory(s: State, op: nat)
    requires HistoryHolds(s) && StepEndOp(s, op).Next?
    ensures HistoryHolds(StepEndOp(s, op).s)
  {
    var t := StepEndOp(s, op).s;
    assert t.ended + t.ops.Keys == s.ended + s.ops.Keys;
  }

  // Contents of cache and disk

  /** A new operation has no block in hand, so the same blocks are locked. */
  lemma BeginOpPhase(c: Config, s: State, op: nat)
    requires Inv(c, s) && StepBeginOp(c, s, op).Next?
    ensures PhaseHolds(c, StepBeginOp(c, s, op).s) && Shape(c, StepBeginOp(c, s, op).s)
  {
    var t := StepBeginOp(c, s, op).s;
    assert op !in s.ops;
    forall b: nat | Locked(s, b) ensures Locked(t, b) {
      var o :| o in s.ops && s.ops[o].pending == Pending(b);
      assert t.ops[o].pending == Pending(b);
    }
    if Idle(t) {
      forall o | o in s.ops ensures s.ops[o].pending == Nothing { assert t.ops[o] == s.ops[o]; }
    }
  }

  lemma ModifyShape(c: Config, s: State, op: nat, b: nat, v: Block)
    requires Shape(c, s) && StepModify(c, s, op, b, v).Next?
    ensures Shape(c, StepModify(c, s, op, b, v).s)
  {
    assert StepModify(c, s, op, b, v).s.ops[op].pending == Pending(b);
  }

  lemma ModifyLocked(c: Config, s: State, op: nat, b: nat, v: Block, x: nat)
    requires StepModify(c, s, op, b, v).Next?
    ensures Locked(s, x) || x == b ==> Locked(StepModify(c, s, op, b, v).s, x)
  {
    var t := StepModify(c, s, op, b, v).s;
    assert t.ops[op].pending == Pending(b);
    if Locked(s, x) {
      var o :| o in s.ops && s.ops[o].pending == Pending(x);
      assert t.ops[o].pending == Pending(x);
    }
  }

  lemma ModifyPhase(c: Config, s: State, op: nat, b: nat, v: Block)
    requires Shape(c, s) && PhaseHolds(c, s) && StepModify(c, s, op, b, v).Next?
    ensures PhaseHolds(c, StepModify(c, s, op, b, v).s)
  {
    var t := StepModify(c, s, op, b, v).s;
    assert t.made[..|s.made|] == s.made;
    assert Replay(c.base, t.made) == Replay(c.base, s.made)[b := v];
    forall x: nat | Locked(s, x) || x == b ensures Locked(t, x) { ModifyLocked(c, s, op, b, v, x); }
  }

  lemma RecordShape(c: Config, s: State, op: nat)
    requires Shape(c, s) && StepRecord(s, op).Next?
    ensures Shape(c, StepRecord(s, op).s)
  {
    var t, b := StepRecord(s, op).s, s.ops[op].pending.blockno;
    assert b in t.lh && IsHome(c.base, c.lay, b) && op in t.ops;
  }

  lemma RecordLocked(s: State, op: nat, x: nat)
    requires StepRecord(s, op).Next? && Locked(s, x)
    ensures Locked(StepRecord(s, op).s, x) || x in StepRecord(s, op).s.lh
  {
    var t := StepRecord(s, op).s;
    var o :| o in s.ops && s.ops[o].pending == Pending(x);
    if o != op { assert t.ops[o].pending == Pending(x); }
  }

  lemma RecordPhase(c: Config, s: State, op: nat)
    requires Shape(c, s) && PhaseHolds(c, s) && StepRecord(s, op).Next?
    ensures PhaseHolds(c, StepRecord(s, op).s)
  {
    var t := StepRecord(s, op).s;
    forall x: nat | Locked(s, x) ensures Locked(t, x) || x in t.lh { RecordLocked(s, op, x); }
  }

  lemma EndOpLocked(s: State, op: nat, x: nat)
    requires StepEndOp(s, op).Next?
    ensures Locked(StepEndOp(s, op).s, x) <==> Locked(s, x)
  {
    var t := StepEndOp(s, op).s;
    if Locked(s, x) {
      var o :| o in s.ops && s.ops[o].pending == Pending(x);
      assert t.ops[o].pending == Pending(x);
    }
  }

  lemma EndOpShape(c: Config, s: State, op: nat)
    requires Shape(c, s) && StepEndOp(s, op).Next?
    ensures Shape(c, StepEndOp(s, op).s)
  {
    var t := StepEndOp(s, op).s;
    if Idle(t) {
      forall o | o in s.ops ensures s.ops[o].pending == Nothing { if o != op { assert t.ops[o] == s.ops[o]; } }
    }
  }

  lemma EndOpPhase(c: Config, s: State, op: nat)
    requires ValidConfig(c) && Inv(c, s) && StepEndOp(s, op).Next?
    ensures PhaseHolds(c, StepEndOp(s, op).s)
  {
    var t := StepEndOp(s, op).s;
    FitsRegion(c, s);
    forall x: nat ensures Locked(t, x) <==> Locked(s, x) { EndOpLocked(s, op, x); }
    assert CacheAgrees(c, t, s.disk);
    if t.phase.Committing? { CommitStarts(c, t); }
  }

  lemma CommitStarts(c: Config, t: State)
    requires t.phase == Committing(t.disk, 0) && EmptyLog(t.disk, c.lay) && CacheAgrees(c, t, t.disk)
    requires Means(t.disk, c.lay, Replay(c.base, t.durable)) && (|t.lh| < NBUF ==> |t.lh| < c.lay.size)
    requires forall i | 0 <= i < |t.lh| :: IsHome(c.base, c.lay, t.lh[i])
    ensures PhaseHolds(c, t)
  {
    if |t.lh| < NBUF { CommitPrefix(t.disk, t.mem, c.lay, t.lh, 0); }
  }

  /** A transaction that commit has buffers for fits the log region. */
  lemma FitsRegion(c: Config, s: State)
    requires ValidConfig(c) && Reserved(c, s)
    ensures |s.lh| < NBUF ==> |s.lh| < c.lay.size
  {
    if c.budget <= MAXOPBLOCKS { ReservedBound(c, s); }
  }

  /** Replacing the logged blocks turns the durable disk into the whole history. */
  lemma CommitMakesDurable(c: Config, s: State)
    requires Shape(c, s) && s.phase.Committing? && PhaseHolds(c, s) && |s.lh| < NBUF
    ensures forall b | IsHome(c.base, c.lay, b) :: Updated(s.phase.from, s.mem, s.lh)[b] == Replay(c.base, s.made)[b]
  {
    assert forall b: nat :: !Locked(s, b);
  }

  lemma MeansEqual(d: Disk, lay: Layout, want: Disk, have: Disk)
    requires Means(d, lay, have) && |want| == |have|
    requires forall b | IsHome(d, lay, b) :: want[b] == have[b]
    ensures Means(d, lay, want)
  {
  }

  /** After k writes of a commit from `from`, the disk stands for the history it makes durable. */
  lemma CommitMeans(c: Config, from: Disk, mem: Disk, lh: seq<nat>, k: nat, before: Disk, after: Disk)
    requires CommitReady(from, mem, c.lay, lh) && k <= 2 * |lh| + 2 && |from| == |c.base|
    requires |before| == |after| == |c.base|
    requires forall b | IsHome(c.base, c.lay, b) :: from[b] == before[b] && Updated(from, mem, lh)[b] == after[b]
    ensures OnDisk(|from|, CommitWrites(mem, from[c.lay.start], c.lay, lh))
    ensures Means(Apply(from, CommitWrites(mem, from[c.lay.start], c.lay, lh), k), c.lay,
                  if k <= |lh| then before else after)
  {
    CommitPrefix(from, mem, c.lay, lh, k);
    MeansEqual(Apply(from, CommitWrites(mem, from[c.lay.start], c.lay, lh), k), c.lay,
               if k <= |lh| then before else after, if k <= |lh| then from else Updated(from, mem, lh));
  }

  lemma EmptyReads(d: Disk, lay: Layout, want: Disk)
    requires EmptyLog(d, lay) && Means(d, lay, want)
    ensures forall b | IsHome(d, lay, b) :: d[b] == want[b]
  {
    forall b | IsHome(d, lay, b) ensures d[b] == want[b] { assert Redo(d, lay, b) == want[b]; }
  }

  /** The disk after one more write of commit() stands for the durable history. */
  lemma CommitWriteMeans(c: Config, s: State)
    requires Shape(c, s) && s.phase.Committing? && PhaseHolds(c, s) && StepCommitWrite(c, s).Next?
    ensures Means(StepCommitWrite(c, s).s.disk, c.lay, Replay(c.base, StepCommitWrite(c, s).s.durable))
  {
    CommitWriteDisk(c, s);
    CommitWriteSame(c, s);
    CommitMakesDurable(c, s);
    if s.phase.done < |s.lh| {
      BeforeHeader(c, s);
    } else {
      FromHeader(c, s);
    }
  }

  lemma FromHeader(c: Config, s: State)
    requires s.phase.Committing? && PhaseHolds(c, s) && |s.lh| <= s.phase.done < CommitLength(s) && |s.lh| < NBUF
    requires |s.phase.from| == |c.base|
    requires forall b | IsHome(c.base, c.lay, b) :: Updated(s.phase.from, s.mem, s.lh)[b] == Replay(c.base, s.made)[b]
    ensures Means(Apply(s.phase.from, CommitWrites(s.mem, s.phase.from[c.lay.start], c.lay, s.lh), s.phase.done + 1),
                  c.lay, Replay(c.base, s.made))
  {
    CommitMeans(c, s.phase.from, s.mem, s.lh, s.phase.done + 1, s.phase.from, Replay(c.base, s.made));
  }

  lemma BeforeHeader(c: Config, s: State)
    requires s.phase.Committing? && PhaseHolds(c, s) && s.phase.done < |s.lh| < NBUF && |s.phase.from| == |c.base|
    requires forall b | IsHome(c.base, c.lay, b) :: Updated(s.phase.from, s.mem, s.lh)[b] == Replay(c.base, s.made)[b]
    ensures Means(Apply(s.phase.from, CommitWrites(s.mem, s.phase.from[c.lay.start], c.lay, s.lh), s.phase.done + 1),
                  c.lay, Replay(c.base, s.durable))
  {
    EmptyReads(s.phase.from, c.lay, Replay(c.base, s.durable));
    CommitMeans(c, s.phase.from, s.mem, s.lh, s.phase.done + 1, Replay(c.base, s.durable), Replay(c.base, s.made));
  }

  lemma CommitWriteFrame(c: Config, s: State)
    requires Shape(c, s) && Reserved(c, s) && Buffered(c, s) && HistoryHolds(s) && StepCommitWrite(c, s).Next?
    ensures var t := StepCommitWrite(c, s).s; Shape(c, t) && Reserved(c, t) && Buffered(c, t) && HistoryHolds(t)
  {
    assert s.ended + s.ops.Keys == s.ended;
  }

  /** Whether cache and disk agree does not depend on the rest of the state. */
  lemma CacheAgreesSame(c: Config, s: State, t: State, disk: Disk)
    requires CacheAgrees(c, s, disk) && t.mem == s.mem && t.lh == s.lh && t.made == s.made && t.ops == s.ops
    ensures CacheAgrees(c, t, disk)
  {
    assert forall b: nat :: Locked(t, b) == Locked(s, b);
  }

  lemma CommitWritePhase(c: Config, s: State)
    requires s.phase.Committing? && PhaseHolds(c, s) && StepCommitWrite(c, s).Next?
    ensures PhaseHolds(c, StepCommitWrite(c, s).s)
  {
    var t := StepCommitWrite(c, s).s;
    CommitWriteSame(c, s);
    CacheAgreesSame(c, s, t, s.phase.from);
    CommitWriteDisk(c, s);
    CommittingHolds(c, t, s.phase.from, s.phase.done + 1);
  }

  /** What makes up the invariant of a commit in progress. */
  lemma CommittingHolds(c: Config, t: State, from: Disk, done: nat)
    requires t.phase == Committing(from, done) && EmptyLog(from, c.lay) && CacheAgrees(c, t, from)
    requires |t.lh| < NBUF && ValidList(from, c.lay, t.lh) && done <= CommitLength(t)
    requires done <= |t.lh| ==> Means(from, c.lay, Replay(c.base, t.durable))
    requires done > |t.lh| ==> t.durable == t.made
    requires OnDisk(|from|, CommitWrites(t.mem, from[c.lay.start], c.lay, t.lh))
    requires t.disk == Apply(from, CommitWrites(t.mem, from[c.lay.start], c.lay, t.lh), done)
    ensures PhaseHolds(c, t)
  {
  }

  /** A block write of commit touches the disk, the position and at the commit point the durable history. */
  lemma CommitWriteSame(c: Config, s: State)
    requires s.phase.Committing? && StepCommitWrite(c, s).Next?
    ensures var t := StepCommitWrite(c, s).s;
      && t.phase == Committing(s.phase.from, s.phase.done + 1) && s.phase.done < CommitLength(s)
      && t.mem == s.mem && t.lh == s.lh && t.made == s.made && t.ops == s.ops
      && t.durable == if s.phase.done == |s.lh| then s.made else s.durable
  {
  }

  lemma CommitWriteDisk(c: Config, s: State)
    requires s.phase.Committing? && StepCommitWrite(c, s).Next? && c.lay.start < |s.phase.from|
    requires s.phase.done < CommitLength(s)
    requires OnDisk(|s.phase.from|, CommitWrites(s.mem, s.phase.from[c.lay.start], c.lay, s.lh))
    requires s.disk == Apply(s.phase.from, CommitWrites(s.mem, s.phase.from[c.lay.start], c.lay, s.lh), s.phase.done)
    ensures StepCommitWrite(c, s).s.disk
         == Apply(s.phase.from, CommitWrites(s.mem, s.phase.from[c.lay.start], c.lay, s.lh), s.phase.done + 1)
  {
  }

  lemma CommitWriteInv(c: Config, s: State)
    requires Inv(c, s) && StepCommitWrite(c, s).Next?
    ensures Inv(c, StepCommitWrite(c, s).s)
  {
    CommitWriteFrame(c, s);
    CommitWritePhase(c, s);
    CommitWriteMeans(c, s);
  }

  lemma CommitDoneDisk(c: Config, s: State)
    requires Inv(c, s) && StepCommitDone(c, s).Next?
    ensures EmptyLog(s.disk, c.lay) && forall b | IsHome(c.base, c.lay, b) :: s.disk[b] == s.mem[b]
  {
    assert forall b: nat :: !Locked(s, b);
    if s.lh != [] { CommitDoneWritten(c, s); }
  }

  lemma CommitDoneWritten(c: Config, s: State)
    requires Shape(c, s) && PhaseHolds(c, s) && StepCommitDone(c, s).Next? && s.lh != []
    ensures EmptyLog(s.disk, c.lay) && forall b | IsHome(c.base, c.lay, b) :: s.disk[b] == s.mem[b]
  {
    CommitAllWritten(c, s);
    forall b | IsHome(c.base, c.lay, b) ensures s.disk[b] == s.mem[b] {
      MeansBlock(s.disk, c.lay, Updated(s.phase.from, s.mem, s.lh), b);
      CommittedCached(c, s, s.phase.from, b);
    }
  }

  lemma CommitAllWritten(c: Config, s: State)
    requires Shape(c, s) && PhaseHolds(c, s) && StepCommitDone(c, s).Next? && s.lh != []
    ensures |s.phase.from| == |s.mem| && EmptyLog(s.disk, c.lay)
    ensures Means(s.disk, c.lay, Updated(s.phase.from, s.mem, s.lh))
  {
    CommitComplete(s.phase.from, s.mem, c.lay, s.lh);
  }

  lemma CommittedCached(c: Config, s: State, from: Disk, b: nat)
    requires CacheAgrees(c, s, from) && s.ops == map[] && IsHome(c.base, c.lay, b)
    ensures b < |from| == |s.mem| && Updated(from, s.mem, s.lh)[b] == s.mem[b]
  {
    assert !Locked(s, b);
  }

  lemma MeansBlock(d: Disk, lay: Layout, want: Disk, b: nat)
    requires EmptyLog(d, lay) && Means(d, lay, want) && IsHome(d, lay, b)
    ensures b < |d| == |want| && d[b] == want[b]
  {
  }

  lemma CommitDoneInv(c: Config, s: State)
    requires Inv(c, s) && StepCommitDone(c, s).Next?
    ensures Inv(c, StepCommitDone(c, s).s)
  {
    var t := StepCommitDone(c, s).s;
    CommitDoneDisk(c, s);
    assert forall b: nat :: !Locked(t, b);
    assert Held(t.lh, t.ops) == {};
  }

  lemma CrashInv(c: Config, s: State)
    requires Inv(c, s)
    ensures Inv(c, StepCrash(s).s)
  {
    var t := StepCrash(s).s;
    RecoveryOnDisk(s.disk, c.lay);
    assert t.ended + t.ops.Keys == s.ended;
  }

  lemma RecoverWriteInv(c: Config, s: State)
    requires Inv(c, s) && StepRecoverWrite(c, s).Next?
    ensures Inv(c, StepRecoverWrite(c, s).s)
  {
    RecoveryPrefix(s.phase.from, c.lay, Replay(c.base, s.durable), s.phase.done + 1);
  }

  lemma RecoverDoneInv(c: Config, s: State)
    requires Inv(c, s) && StepRecoverDone(c, s).Next?
    ensures Inv(c, StepRecoverDone(c, s).s)
  {
    RecoveryPrefix(s.phase.from, c.lay, Replay(c.base, s.durable), s.phase.done);
  }

  lemma BeginOpInv(c: Config, s: State, op: nat)
    requires ValidConfig(c) && Inv(c, s) && StepBeginOp(c, s, op).Next?
    ensures Inv(c, StepBeginOp(c, s, op).s)
  {
    BeginOpReserved(c, s, op);
    BeginOpBuffers(c, s, op);
    BeginOpHistory(c, s, op);
    BeginOpPhase(c, s, op);
  }

  lemma ModifySame(c: Config, s: State, op: nat, b: nat, v: Block)
    requires StepModify(c, s, op, b, v).Next?
    ensures StepModify(c, s, op, b, v).s.disk == s.disk && StepModify(c, s, op, b, v).s.durable == s.durable
  {
  }

  lemma ModifyInv(c: Config, s: State, op: nat, b: nat, v: Block)
    requires ValidConfig(c) && Inv(c, s) && StepModify(c, s, op, b, v).Next?
    ensures Inv(c, StepModify(c, s, op, b, v).s)
  {
    ModifyReserved(c, s, op, b, v);
    ModifyBuffers(c, s, op, b, v);
    ModifyHistory(c, s, op, b, v);
    ModifyShape(c, s, op, b, v);
    ModifyPhase(c, s, op, b, v);
    ModifySame(c, s, op, b, v);
    Assembled(c, s, StepModify(c, s, op, b, v).s);
  }

  /** The invariant of a state with the disk and the durable history of another. */
  lemma Assembled(c: Config, s: State, t: State)
    requires Means(s.disk, c.lay, Replay(c.base, s.durable)) && t.disk == s.disk && t.durable == s.durable
    requires Shape(c, t) && Reserved(c, t) && Buffered(c, t) && HistoryHolds(t) && PhaseHolds(c, t)
    ensures Inv(c, t)
  {
  }

  lemma RecordInv(c: Config, s: State, op: nat)
    requires ValidConfig(c) && Inv(c, s) && StepRecord(s, op).Next?
    ensures Inv(c, StepRecord(s, op).s)
  {
    RecordReserved(c, s, op);
    RecordBuffers(c, s, op);
    RecordShape(c, s, op);
    RecordPhase(c, s, op);
    assert StepRecord(s, op).s.ops.Keys == s.ops.Keys;
  }

  lemma EndOpInv(c: Config, s: State, op: nat)
    requires ValidConfig(c) && Inv(c, s) && StepEndOp(s, op).Next?
    ensures Inv(c, StepEndOp(s, op).s)
  {
    EndOpReserved(c, s, op);
    EndOpBuffers(c, s, op);
    EndOpHistory(s, op);
    EndOpShape(c, s, op);
    EndOpPhase(c, s, op);
  }

  lemma StepKeepsInv(c: Config, s: State, e: Event)
    requires ValidConfig(c) && Inv(c, s) && Step(c, s, e).Next?
    ensures Inv(c, Step(c, s, e).s)
  {
    match e
    case BeginOp(op) => BeginOpInv(c, s, op);
    case Modify(op, b, v) => ModifyInv(c, s, op, b, v);
    case Record(op) => RecordInv(c, s, op);
    case EndOp(op) => EndOpInv(c, s, op);
    case CommitWriteBlock => CommitWriteInv(c, s);
    case CommitDone => CommitDoneInv(c, s);
    case Crash => CrashInv(c, s);
    case RecoverWriteBlock => RecoverWriteInv(c, s);
    case RecoverDone => RecoverDoneInv(c, s);
  }

  lemma {:induction false} RunKeepsInv(c: Config, s: State, es: seq<Event>)
    requires ValidConfig(c) && Inv(c, s) && Run(c, s, es).Next?
    ensures Inv(c, Run(c, s, es).s)
    decreases |es|
  {
    if es != [] {
      StepKeepsInv(c, s, es[0]);
      RunKeepsInv(c, Step(c, s, es[0]).s, es[1..]);
    }
  }
}
