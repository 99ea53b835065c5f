/** The interrupt-driven disk driver of ide.c against the atomic one of memide.c, for any
    interleaving of callers, the drive and its interrupts. */
module IdeDriver {
  import opened Optional

  datatype Key = Key(dev: nat, blockno: nat)

  /** A buffer; `data` stands for its BSIZE bytes. */
  datatype Buf = Buf(key: Key, data: nat, valid: bool, dirty: bool)

  /** memide's iderw: the whole request at once. */
  function MemRw(disk: map<Key, nat>, b: Buf): (map<Key, nat>, Buf)
    requires b.key in disk
  {
    if b.dirty then (disk[b.key := b.data], Buf(b.key, b.data, true, false))
    else (disk, Buf(b.key, disk[b.key], true, false))
  }

  /** What idestart puts in the drive's registers. */
  datatype Cmd = Cmd(key: Key, write: bool, data: nat)

  /** The drive is idle, or at work on a command that idestart gave it for buffer b. */
  datatype Drive = Idle | Working(b: nat, cmd: Cmd)

  /** A pending interrupt: whether the drive reports an error, and what it read. */
  datatype Signal = Signal(ok: bool, data: nat)

  /** A request: not made, in the queue, or taken off it by ideintr. */
  datatype Phase = Out | Queued | Finished(good: bool)

  /** `queue` is idequeue, `asleep` says whose caller sleeps on its buffer, `clash` that a command
      was given to a drive at work or with a signal pending. `asked` records all requests, each
      with its buffer as it was, `finished` what ideintr took off the queue and `oks` the outcome
      of each command the drive performed. */
  datatype State = State(disk: map<Key, nat>, drive: Drive, irq: Option<Signal>, clash: bool,
                         bufs: seq<Buf>, queue: seq<nat>, phase: seq<Phase>, asleep: seq<bool>,
                         asked: seq<(nat, Buf)>, finished: seq<nat>, oks: seq<bool>)

  datatype Event =
    | Request(b: nat)                // iderw up to its sleep, under idelock
    | Perform(ok: bool)              // the drive carries out its command and raises an interrupt
    | Interrupt                      // ideintr
    | Recheck(b: nat)                // a caller that was woken looks at the flags again
    | Kill(b: nat)                   // a sleeping caller is killed and wakes
    | Use(b: nat, buf: Buf)          // the holder changes or recycles a buffer it may change

  /** A caller holds the buffer's lock, so it is not in another call; no two buffers in a call
      hold the same block, because the buffer cache gives a block one buffer. The drive raises an
      interrupt for each command; one that comes while nothing is queued is spurious. */
  predicate Enabled(s: State, e: Event) {
    |s.phase| == |s.bufs| == |s.asleep| &&
    match e
    case Request(b) =>
      && b < |s.bufs| && s.phase[b] == Out && (!s.bufs[b].valid || s.bufs[b].dirty) && s.bufs[b].key in s.disk
      && forall c | 0 <= c < |s.bufs| && s.phase[c] != Out :: s.bufs[c].key != s.bufs[b].key
    case Perform(_) => s.drive.Working?
    case Interrupt => s.irq.Some? || s.queue == []
    case Recheck(b) => b < |s.bufs| && s.phase[b] != Out && !s.asleep[b]
    case Kill(b) => b < |s.bufs| && s.asleep[b]
    case Use(b, _) => b < |s.bufs| && s.phase[b] == Out
  }

  function CmdOf(x: Buf): Cmd { Cmd(x.key, x.dirty, x.data) }

  /** idestart. */
  function Start(s: State, b: nat): State {
    if b >= |s.bufs| then s
    else s.(drive := Working(b, CmdOf(s.bufs[b])), clash := s.clash || s.drive != Idle || s.irq.Some?)
  }

  function Written(disk: map<Key, nat>, cmd: Cmd, ok: bool): map<Key, nat> {
    if cmd.write && ok then disk[cmd.key := cmd.data] else disk
  }

  /** The buffer ideintr leaves: read only without an error, but marked valid and clean in any case. */
  function Complete(b: Buf, sig: Signal): Buf {
    Buf(b.key, if !b.dirty && sig.ok then sig.data else b.data, true, false)
  }

  predicate Ready(b: Buf) { b.valid && !b.dirty }

  /** ideintr with a request queued: the head is taken off and completed, its caller is woken and
      the drive is started for the next. */
  function TakeUp(s: State, sig: Signal): State
    requires s.queue != [] && |s.phase| == |s.bufs| == |s.asleep|
  {
    var b := s.queue[0];
    if b >= |s.bufs| then s
    else
      var t := s.(irq := None, queue := s.queue[1..], finished := s.finished + [b],
                  bufs := s.bufs[b := Complete(s.bufs[b], sig)],
                  phase := s.phase[b := Finished(sig.ok)], asleep := s.asleep[b := false]);
      if t.queue == [] then t else Start(t, t.queue[0])
  }

  function Next(s: State, e: Event): State
    requires Enabled(s, e)
  {
    match e
    case Request(b) =>
      var t := s.(queue := s.queue + [b], phase := s.phase[b := Queued], asked := s.asked + [(b, s.bufs[b])],
                  asleep := s.asleep[b := true]);
      if t.queue[0] == b then Start(t, b) else t
    case Perform(ok) =>
      var cmd := s.drive.cmd;
      s.(disk := Written(s.disk, cmd, ok), drive := Idle, oks := s.oks + [ok],
         irq := Some(Signal(ok, if cmd.key in s.disk then s.disk[cmd.key] else 0)))
    case Interrupt => if s.queue == [] then s.(irq := None) else TakeUp(s, s.irq.value)
    case Recheck(b) => if Ready(s.bufs[b]) then s.(phase := s.phase[b := Out]) else s.(asleep := s.asleep[b := true])
    case Kill(b) => s.(asleep := s.asleep[b := false])
    case Use(b, x) => s.(bufs := s.bufs[b := x])
  }

  // ------------------------------------------------------------------
  // The invariant

  ghost predicate QueueOk(s: State) { QueueFits(s.queue, s.phase) }

  /** The queue holds the requests in phase Queued, each once. */
  ghost predicate QueueFits(queue: seq<nat>, phase: seq<Phase>) {
    && (forall k | 0 <= k < |queue| :: queue[k] < |phase| && phase[queue[k]] == Queued)
    && (forall j, k | 0 <= j < k < |queue| :: queue[j] != queue[k])
    && (forall b | 0 <= b < |phase| && phase[b] == Queued :: b in queue)
  }

  /** The drive is at work for the head of the queue, or signals its end; without a queue it is idle. */
  ghost predicate DriveOk(s: State) {
    && !s.clash && (s.queue == [] <==> s.drive == Idle && s.irq == None) && (s.drive == Idle || s.irq == None)
    && (s.drive.Working? ==>
        s.queue != [] && s.drive.b == s.queue[0] && s.queue[0] < |s.bufs| && s.drive.cmd == CmdOf(s.bufs[s.queue[0]]))
    && |s.oks| == |s.finished| + if s.irq.Some? then 1 else 0
  }

  /** The requests not finished are the queue, in order, with their buffers as they were. */
  ghost predicate AskedOk(s: State) {
    && |s.asked| == |s.finished| + |s.queue|
    && (forall k | 0 <= k < |s.finished| :: s.asked[k].0 == s.finished[k])
    && Matches(s.asked[|s.finished|..], s.queue, s.bufs)
  }

  predicate Matches(rest: seq<(nat, Buf)>, queue: seq<nat>, bufs: seq<Buf>) {
    |rest| == |queue| && forall k | 0 <= k < |queue| :: queue[k] < |bufs| && rest[k] == (queue[k], bufs[queue[k]])
  }

  /** While a signal is pending it tells what became of the head's request. */
  ghost predicate SignalOk(s: State) {
    s.irq.Some? && s.queue != [] && s.queue[0] < |s.bufs| ==>
      var x, sig := s.bufs[s.queue[0]], s.irq.value;
      x.key in s.disk && (sig.ok && x.dirty ==> s.disk[x.key] == x.data)
        && (sig.ok && !x.dirty ==> s.disk[x.key] == sig.data)
  }

  ghost predicate BufOk(s: State, b: nat)
    requires b < |s.bufs| == |s.phase| == |s.asleep|
  {
    match s.phase[b]
    case Out => !s.asleep[b]
    case Queued => s.bufs[b].key in s.disk && !Ready(s.bufs[b])
    case Finished(good) =>
      !s.asleep[b] && s.bufs[b].key in s.disk && Ready(s.bufs[b]) && (good ==> s.bufs[b].data == s.disk[s.bufs[b].key])
  }

  ghost predicate Distinct(s: State)
    requires |s.bufs| == |s.phase|
  {
    forall b, c | 0 <= b < |s.bufs| && 0 <= c < |s.bufs| && b != c && s.phase[b] != Out && s.phase[c] != Out ::
      s.bufs[b].key != s.bufs[c].key
  }

  ghost predicate Inv(s: State) {
    && |s.phase| == |s.bufs| == |s.asleep| && QueueOk(s) && DriveOk(s) && AskedOk(s) && SignalOk(s) && Distinct(s)
    && (forall b | 0 <= b < |s.bufs| :: BufOk(s, b))
  }

  lemma TailOf(q: seq<nat>)
    requires q != [] && forall j, k | 0 <= j < k < |q| :: q[j] != q[k]
    ensures q == [q[0]] + q[1..] && forall x :: x in q[1..] <==> x in q && x != q[0]
  {
  }

  lemma QueueTail(queue: seq<nat>, phase: seq<Phase>, p: Phase)
    requires QueueFits(queue, phase) && queue != [] && p != Queued
    ensures QueueFits(queue[1..], phase[queue[0] := p])
  {
    TailOf(queue);
    forall k | 0 <= k < |queue[1..]| ensures queue[1..][k] in queue && queue[1..][k] != queue[0] {
      assert queue[1..][k] in queue[1..];
    }
  }

  lemma TakeUpQueue(s: State)
    requires |s.phase| == |s.bufs| == |s.asleep| && QueueOk(s) && s.irq.Some? && s.queue != []
    ensures QueueOk(TakeUp(s, s.irq.value))
  {
    QueueTail(s.queue, s.phase, Finished(s.irq.value.ok));
  }

  lemma MatchTail(rest: seq<(nat, Buf)>, queue: seq<nat>, bufs: seq<Buf>, x: Buf)
    requires Matches(rest, queue, bufs) && queue != [] && forall j, k | 0 <= j < k < |queue| :: queue[j] != queue[k]
    ensures Matches(rest[1..], queue[1..], bufs[queue[0] := x])
  {
  }

  lemma TakeUpAsked(s: State)
    requires |s.phase| == |s.bufs| == |s.asleep| && QueueOk(s) && AskedOk(s) && s.irq.Some? && s.queue != []
    ensures AskedOk(TakeUp(s, s.irq.value))
  {
    var t, rest := TakeUp(s, s.irq.value), s.asked[|s.finished|..];
    MatchTail(rest, s.queue, s.bufs, Complete(s.bufs[s.queue[0]], s.irq.value));
    assert t.asked[|t.finished|..] == rest[1..];
    assert rest[0] == s.asked[|s.finished|];
  }

  lemma TakeUpBuf(s: State, c: nat)
    requires Inv(s) && s.irq.Some? && s.queue != [] && c < |s.bufs|
    ensures var t := TakeUp(s, s.irq.value); |t.bufs| == |t.phase| == |t.asleep| == |s.bufs| && BufOk(t, c)
  {
    assert BufOk(s, c) && BufOk(s, s.queue[0]);
  }

  lemma TakeUpDrive(s: State)
    requires Inv(s) && s.irq.Some? && s.queue != []
    ensures DriveOk(TakeUp(s, s.irq.value)) && SignalOk(TakeUp(s, s.irq.value))
  {
  }

  /** ideintr changes neither a buffer's block nor whether it is in a call. */
  lemma TakeUpKey(s: State, c: nat)
    requires |s.phase| == |s.bufs| == |s.asleep| && s.irq.Some? && s.queue != [] && c < |s.bufs|
    requires s.queue[0] < |s.phase| && s.phase[s.queue[0]] != Out
    ensures var t := TakeUp(s, s.irq.value);
      |t.bufs| == |t.phase| == |s.bufs| && t.bufs[c].key == s.bufs[c].key && (t.phase[c] == Out <==> s.phase[c] == Out)
  {
  }

  lemma SameKeys(s: State, t: State)
    requires |s.phase| == |s.bufs| == |t.phase| == |t.bufs| && Distinct(s)
    requires forall c | 0 <= c < |s.bufs| ::
      t.bufs[c].key == s.bufs[c].key && (t.phase[c] == Out <==> s.phase[c] == Out)
    ensures Distinct(t)
  {
  }

  lemma TakeUpDistinct(s: State)
    requires |s.phase| == |s.bufs| == |s.asleep| && QueueOk(s) && Distinct(s) && s.irq.Some? && s.queue != []
    ensures var t := TakeUp(s, s.irq.value); |t.bufs| == |t.phase| && Distinct(t)
  {
    var t := TakeUp(s, s.irq.value);
    assert s.queue[0] < |s.phase| && s.phase[s.queue[0]] == Queued;
    TakeUpKey(s, s.queue[0]);
    forall c | 0 <= c < |s.bufs| ensures t.bufs[c].key == s.bufs[c].key && (t.phase[c] == Out <==> s.phase[c] == Out) {
      TakeUpKey(s, c);
    }
    SameKeys(s, t);
  }

  lemma TakeUpKeepsInv(s: State)
    requires Inv(s) && s.irq.Some? && s.queue != []
    ensures Inv(TakeUp(s, s.irq.value))
  {
    var t := TakeUp(s, s.irq.value);
    TakeUpQueue(s);
    TakeUpAsked(s);
    TakeUpDrive(s);
    TakeUpDistinct(s);
    forall c | 0 <= c < |t.bufs| ensures |t.bufs| == |t.phase| == |t.asleep| && BufOk(t, c) { TakeUpBuf(s, c); }
  }

  lemma RequestQueue(s: State, b: nat)
    requires QueueOk(s) && Enabled(s, Request(b))
    ensures QueueOk(Next(s, Request(b)))
  {
    assert b !in s.queue;
  }

  lemma RequestAsked(s: State, b: nat)
    requires AskedOk(s) && Enabled(s, Request(b))
    ensures AskedOk(Next(s, Request(b)))
  {
    var t, rest := Next(s, Request(b)), s.asked[|s.finished|..];
    assert t.asked[|t.finished|..] == rest + [(b, s.bufs[b])];
  }

  lemma RequestKeepsInv(s: State, b: nat)
    requires Inv(s) && Enabled(s, Request(b))
    ensures Inv(Next(s, Request(b)))
  {
    var t := Next(s, Request(b));
    RequestQueue(s, b);
    RequestAsked(s, b);
    forall c | 0 <= c < |t.bufs| ensures BufOk(t, c) { assert BufOk(s, c); }
  }

  lemma PerformKeepsInv(s: State, ok: bool)
    requires Inv(s) && s.drive.Working?
    ensures Inv(Next(s, Perform(ok)))
  {
    var t := Next(s, Perform(ok));
    assert BufOk(s, s.queue[0]);
    forall c | 0 <= c < |t.bufs| ensures BufOk(t, c) { assert BufOk(s, c); }
  }

  lemma WakefulKeepsInv(s: State, e: Event)
    requires Inv(s) && Enabled(s, e) && (e.Recheck? || e.Kill?)
    ensures Inv(Next(s, e))
  {
    var t := Next(s, e);
    assert BufOk(s, e.b);
    forall c | 0 <= c < |t.bufs| ensures BufOk(t, c) { assert BufOk(s, c); }
  }

  lemma UseKeepsInv(s: State, b: nat, x: Buf)
    requires Inv(s) && Enabled(s, Use(b, x))
    ensures Inv(Next(s, Use(b, x)))
  {
    var t := Next(s, Use(b, x));
    assert b !in s.queue;
    forall c | 0 <= c < |t.bufs| ensures BufOk(t, c) { assert BufOk(s, c); }
  }

  lemma StepKeepsInv(s: State, e: Event)
    requires Inv(s) && Enabled(s, e)
    ensures Inv(Next(s, e))
  {
    match e
    case Request(b) => RequestKeepsInv(s, b);
    case Perform(ok) => PerformKeepsInv(s, ok);
    case Interrupt => if s.queue != [] { TakeUpKeepsInv(s); }
    case Use(b, x) => UseKeepsInv(s, b, x);
    case _ => WakefulKeepsInv(s, e);
  }

  // ------------------------------------------------------------------
  // Runs

  predicate Possible(s: State, es: seq<Event>)
    decreases |es|
  {
    es == [] || (Enabled(s, es[0]) && Possible(Next(s, es[0]), es[1..]))
  }

  function After(s: State, es: seq<Event>): State
    requires Possible(s, es)
    decreases |es|
  {
    if es == [] then s else After(Next(s, es[0]), es[1..])
  }

  ghost predicate Initial(s: State) {
    && |s.phase| == |s.bufs| == |s.asleep| && s.drive == Idle && s.irq == None && !s.clash
    && s.queue == [] && s.asked == [] && s.finished == [] && s.oks == []
    && forall b | 0 <= b < |s.phase| :: s.phase[b] == Out && !s.asleep[b]
  }

  lemma {:induction false} RunKeepsInv(s: State, es: seq<Event>)
    requires Inv(s) && Possible(s, es)
    ensures Inv(After(s, es))
    decreases |es|
  {
    if es != [] {
      StepKeepsInv(s, es[0]);
      RunKeepsInv(Next(s, es[0]), es[1..]);
    }
  }

  /** In every run the drive is never given a command while it works or before its signal was
      taken; it is occupied exactly while something is queued, and always with the head of the queue. */
  lemma DriveServesHead(s: State, es: seq<Event>)
    requires Initial(s) && Possible(s, es)
    ensures var t := After(s, es);
      && !t.clash && (t.queue != [] <==> t.drive.Working? || t.irq.Some?) && !(t.drive.Working? && t.irq.Some?)
      && (t.drive.Working? ==> t.drive.b == t.queue[0] < |t.bufs| && t.drive.cmd == CmdOf(t.bufs[t.queue[0]]))
  {
    RunKeepsInv(s, es);
  }

  /** In every run whoever sleeps in iderw has a request in the queue that is not finished, and the
      drive or its interrupt handler has a step to take; a finished caller is awake. */
  lemma NobodySleepsOnFinished(s: State, es: seq<Event>, b: nat)
    requires Initial(s) && Possible(s, es) && b < |After(s, es).asleep| && After(s, es).asleep[b]
    ensures var t := After(s, es);
      && b in t.queue && b < |t.bufs| && !Ready(t.bufs[b]) && (Enabled(t, Perform(true)) || Enabled(t, Interrupt))
  {
    RunKeepsInv(s, es);
    assert BufOk(After(s, es), b);
  }

  /** In every run requests finish in the order they were made, each once, and no buffer is in
      the queue twice. */
  lemma FifoOnce(s: State, es: seq<Event>)
    requires Initial(s) && Possible(s, es)
    ensures var t := After(s, es);
      && |t.asked| == |t.finished| + |t.queue|
      && (forall k | 0 <= k < |t.asked| :: t.asked[k].0 == (t.finished + t.queue)[k])
      && (forall j, k | 0 <= j < k < |t.queue| :: t.queue[j] != t.queue[k])
  {
    RunKeepsInv(s, es);
    var t := After(s, es);
    forall k | |t.finished| <= k < |t.asked| ensures t.asked[k].0 == (t.finished + t.queue)[k] {
      assert t.asked[k] == t.asked[|t.finished|..][k - |t.finished|];
    }
  }

  // ------------------------------------------------------------------
  // Against memide

  /** The disk after memide has done the requests one after the other. */
  function Replay(base: map<Key, nat>, reqs: seq<Buf>): (d: map<Key, nat>)
    ensures d.Keys == base.Keys
  {
    if reqs == [] then base
    else
      var d, x := Replay(base, reqs[..|reqs| - 1]), reqs[|reqs| - 1];
      if x.key in d then MemRw(d, x).0 else d
  }

  /** The requests whose command the drive performed without error. */
  function Effective(asked: seq<(nat, Buf)>, oks: seq<bool>): seq<Buf>
    requires |oks| <= |asked|
    decreases |oks|
  {
    if oks == [] then []
    else
      var n := |oks| - 1;
      Effective(asked, oks[..n]) + if oks[n] then [asked[n].1] else []
  }

  lemma {:induction false} EffectivePrefix(asked: seq<(nat, Buf)>, more: seq<(nat, Buf)>, oks: seq<bool>)
    requires |oks| <= |asked|
    ensures Effective(asked + more, oks) == Effective(asked, oks)
    decreases |oks|
  {
    if oks != [] { EffectivePrefix(asked, more, oks[..|oks| - 1]); }
  }

  ghost predicate Replays(s: State, base: map<Key, nat>) {
    |s.oks| <= |s.asked| && s.disk == Replay(base, Effective(s.asked, s.oks))
  }

  lemma PerformReplays(s: State, ok: bool, base: map<Key, nat>)
    requires Inv(s) && s.drive.Working? && Replays(s, base)
    ensures Replays(Next(s, Perform(ok)), base)
  {
    var t, x, was := Next(s, Perform(ok)), s.bufs[s.queue[0]], Effective(s.asked, s.oks);
    assert BufOk(s, s.queue[0]);
    assert s.asked[|s.oks|] == s.asked[|s.finished|..][0] == (s.queue[0], x);
    assert t.oks[..|s.oks|] == s.oks;
    assert Effective(t.asked, t.oks) == was + if ok then [x] else [];
    if ok {
      assert (was + [x])[..|was|] == was;
    } else {
      assert was + [] == was;
    }
  }

  lemma RequestReplays(s: State, b: nat, base: map<Key, nat>)
    requires Enabled(s, Request(b)) && Replays(s, base)
    ensures Replays(Next(s, Request(b)), base)
  {
    EffectivePrefix(s.asked, [(b, s.bufs[b])], s.oks);
  }

  /** The other steps leave the disk and both records alone. */
  lemma OtherSteps(s: State, e: Event)
    requires Enabled(s, e) && !e.Perform? && !e.Request?
    ensures Next(s, e).disk == s.disk && Next(s, e).asked == s.asked && Next(s, e).oks == s.oks
  {
  }

  lemma StepReplays(s: State, e: Event, base: map<Key, nat>)
    requires Inv(s) && Enabled(s, e) && Replays(s, base)
    ensures Replays(Next(s, e), base)
  {
    match e
    case Perform(ok) => PerformReplays(s, ok, base);
    case Request(b) => RequestReplays(s, b, base);
    case _ => OtherSteps(s, e);
  }

  lemma {:induction false} RunReplays(s: State, es: seq<Event>, base: map<Key, nat>)
    requires Inv(s) && Possible(s, es) && Replays(s, base)
    ensures Replays(After(s, es), base)
    decreases |es|
  {
    if es != [] {
      StepReplays(s, es[0], base);
      StepKeepsInv(s, es[0]);
      RunReplays(Next(s, es[0]), es[1..], base);
    }
  }

  /** In every run the disk is what memide makes of the requests as they were made, in the order
      they were made, up to the last one performed and without those that failed. */
  lemma DiskIsMemDisk(s: State, es: seq<Event>)
    requires Initial(s) && Possible(s, es)
    ensures var t := After(s, es);
      && |t.finished| <= |t.oks| <= |t.asked| && t.disk == Replay(s.disk, Effective(t.asked, t.oks))
  {
    RunReplays(s, es, s.disk);
    RunKeepsInv(s, es);
  }

  /** Without a failed command these are all the requests performed. */
  lemma {:induction false} AllEffective(asked: seq<(nat, Buf)>, oks: seq<bool>)
    requires |oks| <= |asked| && forall k | 0 <= k < |oks| :: oks[k]
    ensures |Effective(asked, oks)| == |oks| && forall k | 0 <= k < |oks| :: Effective(asked, oks)[k] == asked[k].1
    decreases |oks|
  {
    if oks != [] { AllEffective(asked, oks[..|oks| - 1]); }
  }

  /** All requests made, as they were made. */
  function Requests(asked: seq<(nat, Buf)>): seq<Buf> { seq(|asked|, k requires 0 <= k < |asked| => asked[k].1) }

  lemma AllPerformed(t: State, base: map<Key, nat>)
    requires |t.oks| == |t.asked| && (forall k | 0 <= k < |t.oks| :: t.oks[k]) && Replays(t, base)
    ensures t.disk == Replay(base, Requests(t.asked))
  {
    AllEffective(t.asked, t.oks);
    assert Effective(t.asked, t.oks) == Requests(t.asked);
  }

  lemma AllAnswered(t: State)
    requires Inv(t) && t.queue == []
    ensures |t.oks| == |t.asked|
  {
  }

  /** So in a run in which no command fails and every request is finished, the disk is what memide
      makes of all requests in order. */
  lemma FaultlessIsMemDisk(s: State, es: seq<Event>)
    requires Initial(s) && Possible(s, es) && Perform(false) !in es && After(s, es).queue == []
    ensures After(s, es).disk == Replay(s.disk, Requests(After(s, es).asked))
  {
    RunReplays(s, es, s.disk);
    RunKeepsInv(s, es);
    RunOks(s, es);
    AllAnswered(After(s, es));
    AllPerformed(After(s, es), s.disk);
  }

  lemma {:induction false} RunOks(s: State, es: seq<Event>)
    requires Possible(s, es) && Perform(false) !in es && forall k | 0 <= k < |s.oks| :: s.oks[k]
    ensures forall k | 0 <= k < |After(s, es).oks| :: After(s, es).oks[k]
    decreases |es|
  {
    if es != [] {
      StepOks(s, es[0]);
      RunOks(Next(s, es[0]), es[1..]);
    }
  }

  lemma StepOks(s: State, e: Event)
    requires Enabled(s, e) && e != Perform(false) && forall k | 0 <= k < |s.oks| :: s.oks[k]
    ensures forall k | 0 <= k < |Next(s, e).oks| :: Next(s, e).oks[k]
  {
    if !e.Perform? && !e.Request? { OtherSteps(s, e); }
  }

  /** The drive's work on a request and its interrupt do to disk and buffer what memide does,
      exactly if the drive reported no error or disk and buffer agreed already. */
  lemma ServiceIsMemRwIff(s: State, ok: bool)
    requires Inv(s) && s.drive.Working?
    ensures Enabled(Next(s, Perform(ok)), Interrupt) && s.queue[0] < |s.bufs| && s.bufs[s.queue[0]].key in s.disk
    ensures var x, t := s.bufs[s.queue[0]], Next(Next(s, Perform(ok)), Interrupt);
      |t.bufs| == |s.bufs| && ((t.disk, t.bufs[s.queue[0]]) == MemRw(s.disk, x) <==> ok || x.data == s.disk[x.key])
  {
    var x := s.bufs[s.queue[0]];
    assert BufOk(s, s.queue[0]);
    assert x.data == s.disk[x.key] ==> s.disk[x.key := x.data] == s.disk;
  }

  /** Nothing else changes the disk, and nothing but its own interrupt a buffer that is in a call. */
  lemma OnlyDriverActs(s: State, e: Event, c: nat)
    requires Enabled(s, e) && c < |s.bufs| && s.phase[c] != Out
    ensures |Next(s, e).bufs| == |s.bufs|
    ensures !e.Perform? ==> Next(s, e).disk == s.disk
    ensures e != Interrupt || s.queue == [] || c != s.queue[0] ==> Next(s, e).bufs[c] == s.bufs[c]
  {
  }

  /** In every run a caller that looks again returns exactly if its request is finished. Its buffer
      is then valid and clean, and holds what is on the disk if the request went well. */
  lemma ReturnedBuffer(s: State, es: seq<Event>, b: nat)
    requires Initial(s) && Possible(s, es) && Enabled(After(s, es), Recheck(b))
    ensures var t := After(s, es);
      && (Next(t, Recheck(b)).phase[b] == Out <==> t.phase[b].Finished?)
      && (t.phase[b].Finished? ==> Ready(t.bufs[b]) && t.bufs[b].key in t.disk)
      && (t.phase[b] == Finished(true) ==> t.bufs[b].data == t.disk[t.bufs[b].key])
  {
    RunKeepsInv(s, es);
    assert BufOk(After(s, es), b);
  }

  /** In every run a caller sleeps exactly from its request, or from a look before the end of it, to the
      end of it or to a kill. */
  lemma SleepsUntil(s: State, es: seq<Event>, e: Event, b: nat)
    requires Initial(s) && Possible(s, es) && Enabled(After(s, es), e) && b < |After(s, es).asleep|
    ensures b < |Next(After(s, es), e).asleep|
    ensures Next(After(s, es), e).asleep[b] <==> SleepsOn(After(s, es), e, b)
  {
    RunKeepsInv(s, es);
    SleepStep(After(s, es), e, b);
  }

  predicate SleepsOn(s: State, e: Event, b: nat)
    requires b < |s.asleep| == |s.phase|
  {
    || e == Request(b) || (e == Recheck(b) && s.phase[b] == Queued)
    || (s.asleep[b] && e != Kill(b) && !(e == Interrupt && s.queue != [] && s.queue[0] == b))
  }

  lemma SleepStep(s: State, e: Event, b: nat)
    requires Inv(s) && Enabled(s, e) && b < |s.asleep|
    ensures b < |Next(s, e).asleep| && (Next(s, e).asleep[b] <==> SleepsOn(s, e, b))
  {
    assert BufOk(s, b);
  }

  // ------------------------------------------------------------------
  // Errors of the drive

  /** A request for a buffer x, its command that fails and the interrupt. */
  lemma FailedRequest(x: Buf, was: nat) returns (s: State, es: seq<Event>)
    requires !Ready(x)
    ensures Initial(s) && s.disk == map[x.key := was] && s.bufs == [x] && Possible(s, es)
    ensures var t := After(s, es);
      Enabled(t, Recheck(0)) && t.phase[0] == Finished(false) && t.bufs == [Buf(x.key, x.data, true, false)]
        && t.disk == s.disk
  {
    s := State(map[x.key := was], Idle, None, false, [x], [], [Out], [false], [], [], []);
    var s1 := Next(s, Request(0));
    var s2 := Next(s1, Perform(false));
    var s3 := Next(s2, Interrupt);
    assert Possible(s3, []);
    assert Possible(s2, [Interrupt]) && After(s2, [Interrupt]) == s3 by { assert [Interrupt][1..] == []; }
    var two := [Perform(false), Interrupt];
    assert Possible(s1, two) && After(s1, two) == s3 by { assert two[1..] == [Interrupt]; }
    es := [Request(0)] + two;
    assert es[1..] == two;
  }

  /** A failed read hands out a valid buffer with other bytes than the disk's. */
  lemma FailedRead() returns (s: State, es: seq<Event>)
    ensures Initial(s) && Possible(s, es) && Enabled(After(s, es), Recheck(0))
    ensures var t := After(s, es);
      Ready(t.bufs[0]) && t.bufs[0].key in t.disk && t.bufs[0].data != t.disk[t.bufs[0].key]
  {
    s, es := FailedRequest(Buf(Key(1, 0), 0, false, false), 7);
  }

  /** A failed write leaves a clean buffer whose bytes never reached the disk. */
  lemma FailedWrite() returns (s: State, es: seq<Event>)
    ensures Initial(s) && |s.bufs| == 1 && s.bufs[0].dirty && Possible(s, es) && Enabled(After(s, es), Recheck(0))
    ensures var t := After(s, es);
      Ready(t.bufs[0]) && t.disk == s.disk && t.bufs[0].key in t.disk && t.bufs[0].data != t.disk[t.bufs[0].key]
  {
    s, es := FailedRequest(Buf(Key(1, 0), 5, true, true), 7);
  }
}
