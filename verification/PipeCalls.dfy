/** What the callers of a pipe see: each write call stores its own bytes, in order and none left out,
    and what read calls return, joined, is what was stored. All of it is observed from outside, from
    the calls, the growth of the pipe and the results. */
module PipeCalls {
  import opened PipeRing
  import opened PipeProtocol

  /** The last call of a process. */
  datatype Asked = Nothing | ToWrite(addr: seq<Byte>) | ToRead(n: nat)

  /** For each process its last call and the bytes the pipe grew by during it; all bytes the pipe
      grew by; and all bytes that read calls returned. */
  datatype Seen = Seen(asked: seq<Asked>, put: seq<seq<Byte>>, stored: seq<Byte>, got: seq<Byte>)

  predicate Fits(o: Seen, s: State) { |o.asked| == |o.put| == |s.procs| }

  /** What the pipe grew by. */
  function Growth(s: State, t: State): seq<Byte> { if |s.pipe| <= |t.pipe| then t.pipe[|s.pipe|..] else [] }

  function Observe(o: Seen, s: State, e: Event): (r: Seen)
    requires Enabled(s, e) && Fits(o, s)
    ensures |r.asked| == |r.put| == |o.asked|
  {
    var t := Next(s, e);
    match e
    case CallWrite(p, addr) => o.(asked := o.asked[p := ToWrite(addr)], put := o.put[p := []])
    case CallRead(p, n) => o.(asked := o.asked[p := ToRead(n)])
    case Write(p) => o.(put := o.put[p := o.put[p] + Growth(s, t)], stored := o.stored + Growth(s, t))
    case Read(p) => if p < |t.procs| && t.procs[p].call == Idle && t.procs[p].ret.Got?
      then o.(got := o.got + t.procs[p].ret.bytes) else o
    case _ => o
  }

  function Watch(o: Seen, s: State, es: seq<Event>): Seen
    requires Possible(s, es) && Fits(o, s)
    decreases |es|
  {
    if es == [] then o else
      (SameProcs(s, es[0]); Watch(Observe(o, s, es[0]), Next(s, es[0]), es[1..]))
  }

  lemma SameProcs(s: State, e: Event)
    requires Enabled(s, e)
    ensures |Next(s, e).procs| == |s.procs|
  {
  }

  /** Nothing seen yet. */
  function Fresh(s: State): Seen {
    Seen(seq(|s.procs|, _ => Nothing), seq(|s.procs|, _ => []), [], [])
  }

  // ------------------------------------------------------------------
  // What each call has done

  /** A write in progress has stored its bytes up to `rest`. One that returned its length has stored
      all of them; one that returned -1 not all, and its process was killed or the read end closed. */
  ghost predicate WriteOk(q: Proc, readopen: bool, put: seq<Byte>, addr: seq<Byte>) {
    match q.call
    case Writing(n, rest, _) => n == |addr| && put + rest == addr
    case Reading(_, _) => false
    case Idle =>
      if q.ret == Failed then put < addr && (q.killed || !readopen) else q.ret == Wrote(|addr|) && put == addr
  }

  /** A read returned no more bytes than asked for, and none only if it asked for none or the write
      end was closed; it returned -1 only if its process was killed. */
  ghost predicate ReadOk(q: Proc, writeopen: bool, n: nat) {
    match q.call
    case Writing(_, _, _) => false
    case Reading(m, _) => m == n
    case Idle =>
      if q.ret == Failed then q.killed
      else q.ret.Got? && |q.ret.bytes| <= n && (q.ret.bytes == [] ==> n == 0 || !writeopen)
  }

  ghost predicate CallOk(o: Seen, s: State, p: nat)
    requires Fits(o, s) && p < |s.procs|
  {
    match o.asked[p]
    case Nothing => s.procs[p].call == Idle
    case ToWrite(addr) => WriteOk(s.procs[p], s.readopen, o.put[p], addr)
    case ToRead(n) => ReadOk(s.procs[p], s.writeopen, n)
  }

  ghost predicate CallsOk(o: Seen, s: State)
    requires Fits(o, s)
  {
    forall p | 0 <= p < |s.procs| :: CallOk(o, s, p)
  }

  /** What was returned, then what is in the pipe, is what was stored. */
  ghost predicate Fifo(o: Seen, s: State) { o.got + s.pipe == o.stored && Bounded(s) }

  lemma WriteFifo(o: Seen, s: State, p: nat)
    requires Fits(o, s) && Fifo(o, s) && Enabled(s, Write(p))
    ensures var r, t := Observe(o, s, Write(p)), Next(s, Write(p)); r.got + t.pipe == r.stored
  {
    var t := Next(s, Write(p));
    assert t.pipe == s.pipe + Growth(s, t);
    assert o.got + (s.pipe + Growth(s, t)) == o.got + s.pipe + Growth(s, t);
  }

  lemma ReadFifo(o: Seen, s: State, p: nat)
    requires Fits(o, s) && Fifo(o, s) && Enabled(s, Read(p))
    ensures var r, t := Observe(o, s, Read(p)), Next(s, Read(p)); r.got + t.pipe == r.stored
  {
    var k := Min(s.procs[p].call.n, |s.pipe|);
    assert s.pipe == s.pipe[..k] + s.pipe[k..];
    assert o.got + (s.pipe[..k] + s.pipe[k..]) == o.got + s.pipe[..k] + s.pipe[k..];
  }

  lemma StepFifo(o: Seen, s: State, e: Event)
    requires Fits(o, s) && Fifo(o, s) && Enabled(s, e)
    ensures Fifo(Observe(o, s, e), Next(s, e))
  {
    StepBounded(s, e);
    if e.Write? {
      WriteFifo(o, s, e.p);
    } else if e.Read? {
      ReadFifo(o, s, e.p);
    }
  }

  /** The two differ at most in being asleep or killed. */
  predicate SameCall(a: Proc, b: Proc) {
    && a.ret == b.ret && (a.killed ==> b.killed)
    && match a.call
       case Idle => b.call == Idle
       case Writing(n, rest, _) => b.call.Writing? && b.call.n == n && b.call.rest == rest
       case Reading(n, _) => b.call.Reading? && b.call.n == n
  }

  lemma OtherCall(s: State, e: Event, p: nat)
    requires Enabled(s, e) && p < |s.procs| == |Next(s, e).procs|
    requires p != e.p || e.CloseRead? || e.CloseWrite? || e.Kill?
    ensures SameCall(s.procs[p], Next(s, e).procs[p])
    ensures (!s.readopen ==> !Next(s, e).readopen) && (!s.writeopen ==> !Next(s, e).writeopen)
  {
  }

  lemma WriteStep(o: Seen, s: State, p: nat)
    requires Fits(o, s) && Bounded(s) && Enabled(s, Write(p)) && CallOk(o, s, p)
      && |Next(s, Write(p)).procs| == |s.procs|
    ensures CallOk(Observe(o, s, Write(p)), Next(s, Write(p)), p)
  {
    var q := s.procs[p];
    var k := Min(|q.call.rest|, Room(s));
    assert Growth(s, Next(s, Write(p))) == q.call.rest[..k];
    assert q.call.rest == q.call.rest[..k] + q.call.rest[k..];
    var addr := o.asked[p].addr;
    assert o.put[p] + q.call.rest[..k] + q.call.rest[k..] == addr;
  }

  lemma ReadStep(o: Seen, s: State, p: nat)
    requires Fits(o, s) && Enabled(s, Read(p)) && CallOk(o, s, p) && |Next(s, Read(p)).procs| == |s.procs|
    ensures CallOk(Observe(o, s, Read(p)), Next(s, Read(p)), p)
  {
  }

  lemma StepCall(o: Seen, s: State, e: Event, p: nat)
    requires Fits(o, s) && Bounded(s) && Enabled(s, e) && p < |s.procs| == |Next(s, e).procs| && CallOk(o, s, p)
    ensures CallOk(Observe(o, s, e), Next(s, e), p)
  {
    if e == Write(p) {
      WriteStep(o, s, p);
    } else if e == Read(p) {
      ReadStep(o, s, p);
    } else if p != e.p || e.CloseRead? || e.CloseWrite? || e.Kill? {
      OtherCall(s, e, p);
    }
  }

  lemma {:induction false} RunKeepsCalls(o: Seen, s: State, es: seq<Event>)
    requires Fits(o, s) && CallsOk(o, s) && Fifo(o, s) && Possible(s, es)
    ensures Fits(Watch(o, s, es), After(s, es)) && CallsOk(Watch(o, s, es), After(s, es))
    ensures Fifo(Watch(o, s, es), After(s, es))
    decreases |es|
  {
    if es != [] {
      var e, t, r := es[0], Next(s, es[0]), Observe(o, s, es[0]);
      SameProcs(s, e);
      StepFifo(o, s, e);
      forall p | 0 <= p < |t.procs| ensures CallOk(r, t, p) { StepCall(o, s, e, p); }
      RunKeepsCalls(r, t, es[1..]);
    }
  }

  /** In every run the bytes that read calls returned, joined in order, are the first bytes stored,
      and the pipe holds the others. */
  lemma FirstInFirstOut(s: State, es: seq<Event>)
    requires Initial(s) && Possible(s, es)
    ensures var o, t := Watch(Fresh(s), s, es), After(s, es); o.got + t.pipe == o.stored && |t.pipe| <= PIPESIZE
  {
    RunKeepsCalls(Fresh(s), s, es);
  }

  /** In every run each call has done what it was asked to do, as far as CallOk says. */
  lemma CallsWhole(s: State, es: seq<Event>, p: nat)
    requires Initial(s) && Possible(s, es) && p < |s.procs|
    ensures Fits(Watch(Fresh(s), s, es), After(s, es)) && |After(s, es).procs| == |s.procs|
    ensures CallOk(Watch(Fresh(s), s, es), After(s, es), p)
  {
    RunKeepsCalls(Fresh(s), s, es);
    RunSameProcs(s, es);
  }

  lemma {:induction false} RunSameProcs(s: State, es: seq<Event>)
    requires Possible(s, es)
    ensures |After(s, es).procs| == |s.procs|
    decreases |es|
  {
    if es != [] {
      SameProcs(s, es[0]);
      RunSameProcs(Next(s, es[0]), es[1..]);
    }
  }

  /** A write call gives up exactly if its bytes do not fit and its process was killed or the read
      end is closed, and sleeps exactly if they do not fit otherwise; either way it leaves a full pipe. */
  lemma WriteOutcome(s: State, p: nat)
    requires Bounded(s) && Enabled(s, Write(p))
    ensures var q, t := s.procs[p], Next(s, Write(p));
      && p < |t.procs|
      && (t.procs[p].call == Idle && t.procs[p].ret == Failed <==>
          |s.pipe| + |q.call.rest| > PIPESIZE && (!s.readopen || q.killed))
      && (SleepingWriter(t, p) <==> |s.pipe| + |q.call.rest| > PIPESIZE && s.readopen && !q.killed)
      && (|s.pipe| + |q.call.rest| > PIPESIZE ==> |t.pipe| == PIPESIZE)
  {
  }

  /** A read call returns all that it asked for or all there is, unless the pipe is empty and its
      write end open. */
  lemma ReadOutcome(s: State, p: nat)
    requires Enabled(s, Read(p))
    ensures var q, t := s.procs[p], Next(s, Read(p));
      && p < |t.procs|
      && (t.procs[p].call == Idle && t.procs[p].ret.Got? <==> s.pipe != [] || !s.writeopen)
      && (t.procs[p].call == Idle && t.procs[p].ret.Got? ==>
          t.procs[p].ret.bytes + t.pipe == s.pipe && (|t.procs[p].ret.bytes| == q.call.n || t.pipe == []))
      && (SleepingReader(t, p) <==> s.pipe == [] && s.writeopen && !q.killed)
  {
  }

  // ------------------------------------------------------------------
  // One writer

  function PassedBy(e: Event): seq<Byte> { if e.CallWrite? then e.addr else [] }

  /** The arguments of all write calls, joined in order. */
  function Passed(es: seq<Event>): seq<Byte> {
    if es == [] then [] else PassedBy(es[0]) + Passed(es[1..])
  }

  /** What a process still has to write. */
  function Rest(s: State, w: nat): seq<Byte> {
    if w < |s.procs| && s.procs[w].call.Writing? then s.procs[w].call.rest else []
  }

  /** Only w writes, it is not killed, and the read end stays open. */
  predicate Undisturbed(es: seq<Event>, w: nat) {
    forall k | 0 <= k < |es| :: Quiet(es[k], w)
  }

  predicate Quiet(e: Event, w: nat) { (e.CallWrite? ==> e.p == w) && e != Kill(w) && !e.CloseRead? }

  predicate OnlyWrites(s: State, w: nat) {
    && w < |s.procs| && !s.procs[w].killed && s.readopen
    && forall p | 0 <= p < |s.procs| && p != w :: !s.procs[p].call.Writing?
  }

  lemma StillAlone(s: State, e: Event, w: nat, p: nat)
    requires OnlyWrites(s, w) && Enabled(s, e) && Quiet(e, w) && p < |s.procs| == |Next(s, e).procs|
    ensures p == w ==> !Next(s, e).procs[p].killed
    ensures p != w ==> !Next(s, e).procs[p].call.Writing?
  {
    if p != e.p || e.CloseRead? || e.CloseWrite? || e.Kill? { OtherCall(s, e, p); }
  }

  lemma SoleKept(s: State, e: Event, w: nat)
    requires OnlyWrites(s, w) && Enabled(s, e) && Quiet(e, w)
    ensures OnlyWrites(Next(s, e), w)
  {
    SameProcs(s, e);
    StillAlone(s, e, w, w);
    forall p | 0 <= p < |s.procs| && p != w ensures !Next(s, e).procs[p].call.Writing? { StillAlone(s, e, w, p); }
  }

  lemma SoleWrite(o: Seen, s: State, w: nat)
    requires Fits(o, s) && Bounded(s) && OnlyWrites(s, w) && Enabled(s, Write(w))
    ensures Observe(o, s, Write(w)).stored + Rest(Next(s, Write(w)), w) == o.stored + Rest(s, w)
  {
    var q := s.procs[w];
    var k := Min(|q.call.rest|, Room(s));
    assert Growth(s, Next(s, Write(w))) == q.call.rest[..k];
    assert q.call.rest == q.call.rest[..k] + q.call.rest[k..];
  }

  lemma SoleStep(o: Seen, s: State, e: Event, w: nat)
    requires Fits(o, s) && Bounded(s) && OnlyWrites(s, w) && Enabled(s, e) && Quiet(e, w)
    ensures Observe(o, s, e).stored + Rest(Next(s, e), w) == o.stored + Rest(s, w) + PassedBy(e)
  {
    SameProcs(s, e);
    if e == Write(w) {
      SoleWrite(o, s, w);
    } else if w != e.p || e.CloseWrite? {
      OtherCall(s, e, w);
    } else if e.CallWrite? {
      assert Rest(s, w) == [] && Rest(Next(s, e), w) == e.addr;
    } else {
      assert Rest(s, w) == [] == Rest(Next(s, e), w);
    }
  }

  lemma Regroup(a: seq<Byte>, b: seq<Byte>, c: seq<Byte>, d: seq<Byte>)
    ensures a + b + c + d == a + b + (c + d)
  {
  }

  lemma {:induction false} SoleRun(o: Seen, s: State, es: seq<Event>, w: nat)
    requires Fits(o, s) && Bounded(s) && OnlyWrites(s, w) && Possible(s, es) && Undisturbed(es, w)
    ensures Watch(o, s, es).stored + Rest(After(s, es), w) == o.stored + Rest(s, w) + Passed(es)
    decreases |es|
  {
    if es == [] {
      assert o.stored + Rest(s, w) + [] == o.stored + Rest(s, w);
    } else {
      assert Quiet(es[0], w);
      SameProcs(s, es[0]);
      StepBounded(s, es[0]);
      SoleKept(s, es[0], w);
      SoleStep(o, s, es[0], w);
      SoleRun(Observe(o, s, es[0]), Next(s, es[0]), es[1..], w);
      Regroup(o.stored, Rest(s, w), PassedBy(es[0]), Passed(es[1..]));
    }
  }

  /** A pipe with one writer, which is not killed while the read end stays open, carries exactly what
      the writer passed: read calls return the first bytes of it, the pipe holds the next ones, and
      the call in progress has the others. */
  lemma PipeCarriesAll(s: State, es: seq<Event>, w: nat)
    requires Initial(s) && Possible(s, es) && Undisturbed(es, w) && w < |s.procs| && !s.procs[w].killed
    ensures Watch(Fresh(s), s, es).got + After(s, es).pipe + Rest(After(s, es), w) == Passed(es)
  {
    SoleRun(Fresh(s), s, es, w);
    FirstInFirstOut(s, es);
  }
}
