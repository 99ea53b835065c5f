/** Readers and writers of one pipe in any interleaving. A step is what a process does between
    acquiring the pipe's lock and giving it up, by returning or by sleeping. */
module PipeProtocol {
  import opened PipeRing

  /** `asleep` until woken on the channel of its side. A writer has `rest` of its n bytes to go. */
  datatype Call = Idle | Writing(n: nat, rest: seq<Byte>, asleep: bool) | Reading(n: nat, asleep: bool)

  /** What a call returned: the length it wrote, the bytes it read, or -1. */
  datatype Result = NoCall | Wrote(n: nat) | Got(bytes: seq<Byte>) | Failed

  /** `ret` is the result of the last finished call. */
  datatype Proc = Proc(call: Call, killed: bool, ret: Result)

  datatype State = State(pipe: seq<Byte>, readopen: bool, writeopen: bool, procs: seq<Proc>)

  datatype Event =
    | CallWrite(p: nat, addr: seq<Byte>)
    | CallRead(p: nat, n: nat)
    | Write(p: nat)          // pipewrite up to its return or its sleep
    | Read(p: nat)           // piperead up to its return or its sleep
    | CloseRead(p: nat)
    | CloseWrite(p: nat)
    | Kill(p: nat)

  function WakeReader(q: Proc): Proc { if q.call.Reading? then q.(call := Reading(q.call.n, false)) else q }
  function WakeWriter(q: Proc): Proc {
    if q.call.Writing? then q.(call := Writing(q.call.n, q.call.rest, false)) else q
  }

  /** wakeup(&p->nread) and wakeup(&p->nwrite). */
  function WakeReaders(procs: seq<Proc>): (r: seq<Proc>)
    ensures |r| == |procs|
  {
    seq(|procs|, i requires 0 <= i < |procs| => WakeReader(procs[i]))
  }

  function WakeWriters(procs: seq<Proc>): (r: seq<Proc>)
    ensures |r| == |procs|
  {
    seq(|procs|, i requires 0 <= i < |procs| => WakeWriter(procs[i]))
  }

  predicate InCall(s: State, reading: bool) {
    exists i :: 0 <= i < |s.procs| && (if reading then s.procs[i].call.Reading? else s.procs[i].call.Writing?)
  }

  predicate Enabled(s: State, e: Event) {
    e.p < |s.procs| && var q := s.procs[e.p];
    match e
    case CallWrite(_, _) => q.call == Idle && s.writeopen
    case CallRead(_, _) => q.call == Idle && s.readopen
    case Write(_) => q.call.Writing? && !q.call.asleep
    case Read(_) => q.call.Reading? && !q.call.asleep
    case CloseRead(_) => s.readopen && !InCall(s, true)
    case CloseWrite(_) => s.writeopen && !InCall(s, false)
    case Kill(_) => true
  }

  function Room(s: State): nat { if |s.pipe| < PIPESIZE then PIPESIZE - |s.pipe| else 0 }

  function Min(a: nat, b: nat): nat { if a < b then a else b }

  function Next(s: State, e: Event): State
    requires Enabled(s, e)
  {
    var p, q := e.p, s.procs[e.p];
    match e
    case CallWrite(_, addr) => s.(procs := s.procs[p := q.(call := Writing(|addr|, addr, false))])
    case CallRead(_, n) => s.(procs := s.procs[p := q.(call := Reading(n, false))])
    case Write(_) =>
      var k := Min(|q.call.rest|, Room(s));
      var t := s.(pipe := s.pipe + q.call.rest[..k]);
      if k == |q.call.rest| then t.(procs := WakeReaders(s.procs[p := q.(call := Idle, ret := Wrote(q.call.n))]))
      else if !s.readopen || q.killed then t.(procs := s.procs[p := q.(call := Idle, ret := Failed)])
      else t.(procs := WakeReaders(s.procs[p := q.(call := Writing(q.call.n, q.call.rest[k..], true))]))
    case Read(_) =>
      if s.pipe == [] && s.writeopen then
        s.(procs := s.procs[p := if q.killed then q.(call := Idle, ret := Failed)
          else q.(call := Reading(q.call.n, true))])
      else
        var k := Min(q.call.n, |s.pipe|);
        s.(pipe := s.pipe[k..], procs := WakeWriters(s.procs[p := q.(call := Idle, ret := Got(s.pipe[..k]))]))
    case CloseRead(_) => s.(readopen := false, procs := WakeWriters(s.procs))
    case CloseWrite(_) => s.(writeopen := false, procs := WakeReaders(s.procs))
    case Kill(_) => s.(procs := s.procs[p := WakeWriter(WakeReader(q.(killed := true)))])
  }

  // ------------------------------------------------------------------
  // Invariants

  predicate Bounded(s: State) { |s.pipe| <= PIPESIZE }

  predicate SleepingReader(s: State, i: nat) { i < |s.procs| && s.procs[i].call.Reading? && s.procs[i].call.asleep }
  predicate SleepingWriter(s: State, i: nat) { i < |s.procs| && s.procs[i].call.Writing? && s.procs[i].call.asleep }

  /** Writers sleep only while the pipe is full and someone may still read. */
  ghost predicate WritersOk(s: State) {
    forall i: nat | SleepingWriter(s, i) :: |s.pipe| == PIPESIZE && s.readopen && !s.procs[i].killed
  }

  /** Readers sleep only while the pipe is empty and someone may still write. */
  ghost predicate ReadersOk(s: State) {
    forall i: nat | SleepingReader(s, i) :: s.pipe == [] && s.writeopen && !s.procs[i].killed
  }

  lemma StepBounded(s: State, e: Event)
    requires Bounded(s) && Enabled(s, e)
    ensures Bounded(Next(s, e))
  {
  }

  lemma StepWriters(s: State, e: Event)
    requires Bounded(s) && WritersOk(s) && Enabled(s, e)
    ensures WritersOk(Next(s, e))
  {
  }

  /** pipewrite gives up on a full pipe without waking readers after putting bytes into it. */
  predicate Abandons(s: State, e: Event)
    requires Enabled(s, e)
  {
    e.Write? && 0 < Room(s) < |s.procs[e.p].call.rest| && (!s.readopen || s.procs[e.p].killed)
  }

  /** Exactly such a step leaves a sleeping reader with bytes to read. */
  lemma ReadersOkIff(s: State, e: Event)
    requires Bounded(s) && ReadersOk(s) && Enabled(s, e)
    ensures ReadersOk(Next(s, e)) <==> !(Abandons(s, e) && exists i: nat :: SleepingReader(s, i))
  {
    var t := Next(s, e);
    if Abandons(s, e) && exists i: nat :: SleepingReader(s, i) {
      var i: nat :| SleepingReader(s, i);
      assert SleepingReader(t, i) && t.pipe != [];
    } else {
      forall i: nat | SleepingReader(t, i) ensures t.pipe == [] && t.writeopen && !t.procs[i].killed {
        assert SleepingReader(s, i) || (e.Read? && i == e.p);
      }
    }
  }

  // ------------------------------------------------------------------
  // Runs

  predicate Possible(s: State, es: seq<Event>)
    decreases |es|
  {
    es == [] || (Enabled(s, es[0]) && Possible(Next(s, es[0]), es[1..]))
  }

  function After(s: State, es: seq<Event>): State
    requires Possible(s, es)
    decreases |es|
  {
    if es == [] then s else After(Next(s, es[0]), es[1..])
  }

  predicate Initial(s: State) {
    && s.pipe == [] && s.readopen && s.writeopen
    && forall i | 0 <= i < |s.procs| :: s.procs[i].call == Idle
  }

  /** No step of the run abandons a full pipe while a reader sleeps. */
  ghost predicate NoneAbandoned(s: State, es: seq<Event>)
    requires Possible(s, es)
    decreases |es|
  {
    es == [] || (!(Abandons(s, es[0]) && exists i: nat :: SleepingReader(s, i))
      && NoneAbandoned(Next(s, es[0]), es[1..]))
  }

  lemma {:induction false} RunKeeps(s: State, es: seq<Event>)
    requires Bounded(s) && WritersOk(s) && Possible(s, es)
    ensures Bounded(After(s, es)) && WritersOk(After(s, es))
    ensures ReadersOk(s) && NoneAbandoned(s, es) ==> ReadersOk(After(s, es))
    decreases |es|
  {
    if es != [] {
      StepBounded(s, es[0]);
      StepWriters(s, es[0]);
      if ReadersOk(s) { ReadersOkIff(s, es[0]); }
      RunKeeps(Next(s, es[0]), es[1..]);
    }
  }

  /** In every run a writer sleeps only on a full pipe with its read end open. */
  lemma NoWriterStuck(s: State, es: seq<Event>, i: nat)
    requires Initial(s) && Possible(s, es) && SleepingWriter(After(s, es), i)
    ensures |After(s, es).pipe| == PIPESIZE && After(s, es).readopen
  {
    RunKeeps(s, es);
  }

  /** In every run that abandons nothing, a reader sleeps only on an empty pipe with its write end open. */
  lemma NoReaderStuck(s: State, es: seq<Event>, i: nat)
    requires Initial(s) && Possible(s, es) && NoneAbandoned(s, es) && SleepingReader(After(s, es), i)
    ensures After(s, es).pipe == [] && After(s, es).writeopen
  {
    RunKeeps(s, es);
  }

  /** A run that does strand a reader: it sleeps, a killed writer fills the pipe and gives up. */
  lemma StrandedReader() returns (s: State, es: seq<Event>)
    ensures Initial(s) && Possible(s, es) && SleepingReader(After(s, es), 0) && |After(s, es).pipe| == PIPESIZE
  {
    var zero: Byte := 0;
    var addr: seq<Byte> := seq(PIPESIZE + 1, _ => zero);
    s := State([], true, true, [Proc(Idle, false, NoCall), Proc(Idle, true, NoCall)]);
    var s1 := Next(s, CallRead(0, 1));
    var s2 := Next(s1, Read(0));
    var s3 := Next(s2, CallWrite(1, addr));
    var s4 := Next(s3, Write(1));
    assert Possible(s4, []);
    assert Possible(s3, [Write(1)]) && After(s3, [Write(1)]) == s4 by { assert [Write(1)][1..] == []; }
    var e2 := [CallWrite(1, addr), Write(1)];
    assert Possible(s2, e2) && After(s2, e2) == s4 by { assert e2[1..] == [Write(1)]; }
    var e1 := [Read(0)] + e2;
    assert Possible(s1, e1) && After(s1, e1) == s4 by { assert e1[1..] == e2; }
    es := [CallRead(0, 1)] + e1;
    assert es[1..] == e1;
  }
}
