/** One file-system operation through the log code and the cache: begin_op, the blocks it writes
    by bread, log_write and brelse, end_op and the commit. */
module LogOperation {
  import opened WriteAheadLog
  import opened BufferCache
  import opened BufferList
  import opened LogManager

  /** The blocks logged after the first k writes. */
  ghost function ListAfter(ws: seq<Write>, k: nat): seq<nat>
    requires k <= |ws|
  {
    if k == 0 then [] else Appended(ListAfter(ws, k - 1), ws[k - 1].blockno)
  }

  lemma {:induction false} ListedAre(ws: seq<Write>, k: nat, b: nat)
    requires k <= |ws|
    ensures b in ListAfter(ws, k) <==> exists i :: 0 <= i < k && ws[i].blockno == b
  {
    if k > 0 {
      ListedAre(ws, k - 1, b);
      if b in ListAfter(ws, k - 1) {
        var i :| 0 <= i < k - 1 && ws[i].blockno == b;
        assert ws[i].blockno == b;
      }
    }
  }

  /** log_write lets the k-th write through; all of the first n. */
  ghost predicate AcceptedAt(lay: Layout, ws: seq<Write>, k: nat) {
    k <= |ws| && |ListAfter(ws, k)| < LOGSIZE && |ListAfter(ws, k)| < lay.size - 1
  }

  ghost predicate Accepted(lay: Layout, ws: seq<Write>, n: nat) {
    n <= |ws| && forall k: nat | k < n :: AcceptedAt(lay, ws, k)
  }

  lemma {:induction false} ListFits(d: Disk, lay: Layout, ws: seq<Write>)
    requires 0 < lay.size && Accepted(lay, ws, |ws|) && forall k | 0 <= k < |ws| :: IsHome(d, lay, ws[k].blockno)
    ensures ValidList(d, lay, ListAfter(ws, |ws|))
  {
    var lh := ListAfter(ws, |ws|);
    if ws != [] { assert AcceptedAt(lay, ws, |ws| - 1); }
    forall i | 0 <= i < |lh| ensures IsHome(d, lay, lh[i]) {
      ListedAre(ws, |ws|, lh[i]);
    }
  }

  /** A block that is not pinned is on the disk what the cache holds. */
  lemma InStep(s: Cache, next: seq<nat>, prev: seq<nat>, dev: nat, pinned: set<nat>, b: nat)
    requires Sealed(s, next, prev) && Calm(s, dev, pinned) && b !in pinned && Has(s.disks, Key(dev, b))
    ensures Has(s.plain, Key(dev, b)) && Load(s.plain, Key(dev, b)) == Load(s.disks, Key(dev, b))
  {
    OpenSeal(s, next, prev);
    OpenCalm(s, dev, pinned);
    assert !Pinned(s, Key(dev, b));
    if Cached(s, Key(dev, b)) {
      var i :| 0 <= i < |s.bufs| && s.bufs[i].key == Key(dev, b) && s.bufs[i].valid;
      assert !s.bufs[i].dirty;
    }
  }

  lemma AllInStep(log: Log)
    requires log.Valid() && log.pinned == {}
    ensures log.InCache() == log.OnDisk()
  {
    var s := log.bc.Abs();
    forall b | 0 <= b < |log.OnDisk()| ensures log.InCache()[b] == log.OnDisk()[b] {
      InStep(s, log.bc.next, log.bc.prev, log.dev, {}, b);
    }
  }

  /** The first k writes are logged and in the cache; the disk is still d. */
  ghost predicate Written(log: Log, ws: seq<Write>, k: nat, d: Disk, mem: Disk)
    reads log, log.bc
  {
    && log.Valid() && log.Logged() && k <= |ws| && log.lh == ListAfter(ws, k) && log.OnDisk() == d
    && WriteAheadLog.OnDisk(|mem|, ws) && log.InCache() == Apply(mem, ws, k)
  }

  method WriteOne(log: Log, ws: seq<Write>, k: nat, ghost d: Disk, ghost mem: Disk) returns (ok: bool)
    requires Written(log, ws, k, d, mem) && k < |ws| && IsHome(d, log.lay, ws[k].blockno) && log.outstanding >= 1
    modifies log`lh, log`pinned, log.bc
    ensures ok <==> AcceptedAt(log.lay, ws, k)
    ensures ok ==> Written(log, ws, k + 1, d, mem)
  {
    ok := log.Update(ws[k].blockno, ws[k].data);
  }

  /** The writes of the operation, one after the other. */
  method WriteAll(log: Log, ws: seq<Write>, ghost d: Disk, ghost mem: Disk) returns (ok: bool)
    requires Written(log, ws, 0, d, mem) && log.outstanding >= 1 && forall k | 0 <= k < |ws| ::
      IsHome(d, log.lay, ws[k].blockno)
    modifies log`lh, log`pinned, log.bc
    ensures ok <==> Accepted(log.lay, ws, |ws|)
    ensures ok ==> Written(log, ws, |ws|, d, mem)
  {
    ok := true;
    var k := 0;
    while k < |ws|
      invariant k <= |ws| && ok && Written(log, ws, k, d, mem) && Accepted(log.lay, ws, k)
    {
      ok := WriteOne(log, ws, k, d, mem);
      if !ok { return; }
      k := k + 1;
    }
  }

  /** A block of the disk after the commit, when the cache holds the writes. */
  lemma {:induction false} CommittedWrites(d: Disk, mem: Disk, lay: Layout, ws: seq<Write>, lh: seq<nat>,
                                           cs: seq<Write>, b: nat)
    requires WriteAheadLog.OnDisk(|d|, ws) && mem == Apply(d, ws, |ws|) && lh == ListAfter(ws, |ws|)
    requires CommitReady(d, mem, lay, lh) && IsHome(d, lay, b)
    requires WriteAheadLog.OnDisk(|d|, cs) && cs == CommitWrites(mem, d[lay.start], lay, lh) && |cs| == 2 * |lh| + 2
    ensures Apply(d, cs, |cs|)[b] == mem[b]
  {
    CommittedBlock(d, mem, lay, lh, b);
    ListedAre(ws, |ws|, b);
    if b !in lh { ApplyUntouched(d, ws, |ws|, b); }
  }

  /** The disk holds the operation's writes in the home blocks, and an empty log. */
  ghost predicate Finished(d: Disk, lay: Layout, ws: seq<Write>, e: Disk) {
    && WriteAheadLog.OnDisk(|d|, ws) && |e| == |d| && EmptyLog(e, lay)
    && forall b | IsHome(d, lay, b) :: e[b] == Apply(d, ws, |ws|)[b]
  }

  lemma {:induction false} LogEmptied(d: Disk, mem: Disk, lay: Layout, lh: seq<nat>, cs: seq<Write>)
    requires CommitReady(d, mem, lay, lh) && cs == CommitWrites(mem, d[lay.start], lay, lh)
    ensures WriteAheadLog.OnDisk(|d|, cs) && |cs| == 2 * |lh| + 2 && EmptyLog(Apply(d, cs, |cs|), lay)
  {
    CommitWritesShape(d, mem, lay, lh);
    CommitComplete(d, mem, lay, lh);
  }

  lemma {:induction false} CommitFinishes(d: Disk, mem: Disk, lay: Layout, ws: seq<Write>, lh: seq<nat>, cs: seq<Write>)
    requires WriteAheadLog.OnDisk(|d|, ws) && mem == Apply(d, ws, |ws|) && lh == ListAfter(ws, |ws|)
    requires CommitReady(d, mem, lay, lh) && cs == CommitWrites(mem, d[lay.start], lay, lh)
    ensures WriteAheadLog.OnDisk(|d|, cs) && Finished(d, lay, ws, Apply(d, cs, |cs|))
  {
    LogEmptied(d, mem, lay, lh, cs);
    var e := Apply(d, cs, |cs|);
    forall b | IsHome(d, lay, b) ensures e[b] == mem[b] { CommittedWrites(d, mem, lay, ws, lh, cs, b); }
  }

  lemma {:induction false} NothingToDo(d: Disk, lay: Layout, ws: seq<Write>)
    requires WriteAheadLog.OnDisk(|d|, ws) && EmptyLog(d, lay) && ListAfter(ws, |ws|) == []
    ensures Finished(d, lay, ws, d)
  {
    if ws != [] { ListedAre(ws, |ws|, ws[0].blockno); }
    assert ws == [];
  }

  /** The header is no home block, so the cache holds what is on the disk. */
  lemma {:induction false} HeaderSame(d: Disk, lay: Layout, ws: seq<Write>)
    requires ValidLayout(d, lay) && WriteAheadLog.OnDisk(|d|, ws) && forall k | 0 <= k < |ws| ::
      IsHome(d, lay, ws[k].blockno)
    ensures Apply(d, ws, |ws|)[lay.start] == d[lay.start]
  {
    ApplyUntouched(d, ws, |ws|, lay.start);
  }

  /** end_op's commit, once the writes are logged. */
  method Close(log: Log, ghost ws: seq<Write>, ghost d: Disk) returns (ok: bool)
    requires Written(log, ws, |ws|, d, d) && EmptyLog(d, log.lay) && ValidList(d, log.lay, log.lh)
    requires forall k | 0 <= k < |ws| :: IsHome(d, log.lay, ws[k].blockno)
    modifies log.bc, log`trace, log`lh, log`pinned
    ensures ok <==> |ListAfter(ws, |ws|)| < NBUF
    ensures ok ==> log.Valid() && log.Logged() && log.lh == [] && Finished(d, log.lay, ws, log.OnDisk())
  {
    HeaderSame(d, log.lay, ws);
    CommitFinishes(d, log.InCache(), log.lay, ws, log.lh,
      CommitWrites(log.InCache(), d[log.lay.start], log.lay, log.lh));
    if log.lh == [] { NothingToDo(d, log.lay, ws); }
    ok := log.Commit();
  }

  /** A whole operation. It completes exactly if log_write accepts its blocks and they are fewer
      than NBUF; then all its writes are in their home blocks, the log is empty, and nothing is
      left pinned. */
  method Operation(log: Log, ws: seq<Write>) returns (ok: bool)
    requires log.Valid() && log.Logged() && log.lh == [] && log.outstanding == 0 && EmptyLog(log.OnDisk(), log.lay)
    requires forall k | 0 <= k < |ws| :: IsHome(log.OnDisk(), log.lay, ws[k].blockno)
    modifies log, log.bc
    ensures ok <==> Accepted(log.lay, ws, |ws|) && |ListAfter(ws, |ws|)| < NBUF
    ensures ok ==> log.Valid() && log.Logged() && log.lh == [] && log.outstanding == 0
    ensures ok ==> Finished(old(log.OnDisk()), log.lay, ws, log.OnDisk())
  {
    ghost var d := log.OnDisk();
    AllInStep(log);
    log.outstanding := log.outstanding + 1;
    ok := WriteAll(log, ws, d, d);
    if !ok { return; }
    ListFits(d, log.lay, ws);
    log.outstanding := log.outstanding - 1;
    ok := Close(log, ws, d);
  }
}
