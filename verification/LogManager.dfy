/** log.c's commit and recovery as the loops they are, working through the buffer
    cache. Each method is shown to put exactly the block writes of `WriteAheadLog` on
    the disk, in that order, so the crash theorems there speak about this code. */
module LogManager {
  import opened WriteAheadLog
  import opened BufferCache
  import opened BufferList
  import opened Sealing
  import opened Counting

  /** Nobody holds a buffer: commit and recovery run while no operation is in progress. */
  ghost predicate Quiet(s: Cache) {
    s.touched == {} && forall i | 0 <= i < |s.bufs| :: !s.bufs[i].locked && s.bufs[i].refcnt == 0
  }

  /** Two held buffers for different blocks. */
  ghost predicate TwoHeld(s: Cache, dst: nat, src: nat) {
    && s.touched == {} && Holds(s, dst) && Holds(s, src)
    && dst != src && s.bufs[dst].key != s.bufs[src].key
    && s.bufs[dst].refcnt > 0 && s.bufs[src].refcnt > 0
  }

  /** The buffers after src was copied to dst, dst written, and both released. */
  ghost function Copied(bufs: seq<Buf>, dst: nat, src: nat): seq<Buf>
    requires dst < |bufs| && src < |bufs| && bufs[dst].refcnt > 0 && bufs[src].refcnt > 0
  {
    bufs[src := bufs[src].(locked := false, refcnt := bufs[src].refcnt - 1)]
        [dst := bufs[dst].(data := bufs[src].data, dirty := false, locked := false, refcnt := bufs[dst].refcnt - 1)]
  }

  lemma CopiedStock(s: Cache, t: Cache, dst: nat, src: nat)
    requires TwoHeld(s, dst, src) && OnlyHeld(s, dst, src) && t.touched == {}
    requires t.bufs == Copied(s.bufs, dst, src)
    ensures Quiet(t) && DirtyKept(s, t, s.bufs[dst].key) && t.bufs[dst].valid && !t.bufs[dst].dirty
      && t.bufs[dst].key == s.bufs[dst].key
  {
  }

  /** Two buffers are held once each, and no other. */
  ghost predicate OnlyHeld(s: Cache, i: nat, j: nat) {
    s.touched == {} && forall k | 0 <= k < |s.bufs| ::
      if k == i || k == j then s.bufs[k].refcnt == 1 else !s.bufs[k].locked && s.bufs[k].refcnt == 0
  }

  /** Enough buffers to hold blocks k1 and k2 at once: two clean ones, or a clean one
      and k2 already pinned in the cache. */
  ghost predicate Room(s: Cache, k1: Key, k2: Key) {
    || (exists i, j :: 0 <= i < j < |s.bufs| && !s.bufs[i].dirty && !s.bufs[j].dirty)
    || (SomeClean(s) && Pinned(s, k2))
  }

  ghost predicate SomeClean(s: Cache) {
    exists i :: 0 <= i < |s.bufs| && !s.bufs[i].dirty
  }

  ghost predicate Pinned(s: Cache, k: Key) {
    exists i :: 0 <= i < |s.bufs| && s.bufs[i].dirty && s.bufs[i].key == k
  }

  /** From s to t no buffer became dirty, and those that stayed dirty stayed with their block. */
  ghost predicate DirtyKept(s: Cache, t: Cache, except: Key) {
    && |s.bufs| == |t.bufs|
    && (forall i | 0 <= i < |s.bufs| && t.bufs[i].dirty :: s.bufs[i].dirty && t.bufs[i].key == s.bufs[i].key)
    && (forall i | 0 <= i < |s.bufs| && s.bufs[i].dirty && s.bufs[i].key != except ::
          t.bufs[i].dirty && t.bufs[i].key == s.bufs[i].key)
  }

  /** The blocks in `pinned` are exactly those in dirty buffers. */
  ghost predicate Stock(s: Cache, dev: nat, pinned: set<nat>) {
    && (forall b: nat {:trigger Pinned(s, Key(dev, b))} :: b in pinned <==> Pinned(s, Key(dev, b)))
    && (forall i | 0 <= i < |s.bufs| && s.bufs[i].dirty :: s.bufs[i].key.dev == dev)
  }

  /** Nobody holds a buffer, and the stock is as described; kept closed like the cache itself. */
  ghost predicate Calm(s: Cache, dev: nat, pinned: set<nat>) {
    forall u: bool {:trigger Seal(u)} :: Seal(u) ==> Quiet(s) && Stock(s, dev, pinned)
  }

  lemma OpenCalm(s: Cache, dev: nat, pinned: set<nat>)
    requires Calm(s, dev, pinned)
    ensures Quiet(s) && Stock(s, dev, pinned)
  {
    assert Seal(true);
  }

  /** The blocks in the dirty ones of the first n buffers. */
  ghost function DirtyBlocks(bufs: seq<Buf>, n: nat): set<nat>
    requires n <= |bufs|
  {
    set i | 0 <= i < n && bufs[i].dirty :: bufs[i].key.blockno
  }

  ghost predicate DirtyDiffer(bufs: seq<Buf>) {
    forall i, j | 0 <= i < j < |bufs| && bufs[i].dirty && bufs[j].dirty :: bufs[i].key.blockno != bufs[j].key.blockno
  }

  lemma DirtyLast(bufs: seq<Buf>, n: nat)
    requires 0 < n <= |bufs| && DirtyDiffer(bufs)
    ensures bufs[n - 1].dirty ==> bufs[n - 1].key.blockno !in DirtyBlocks(bufs, n - 1)
    ensures DirtyBlocks(bufs, n)
      == DirtyBlocks(bufs, n - 1) + if bufs[n - 1].dirty then {bufs[n - 1].key.blockno} else {}
  {
  }

  /** They are n exactly if all n are dirty, with different blocks. */
  lemma {:induction false} DirtyCount(bufs: seq<Buf>, n: nat)
    requires n <= |bufs| && DirtyDiffer(bufs)
    ensures |DirtyBlocks(bufs, n)| <= n
    ensures |DirtyBlocks(bufs, n)| == n <==> forall i | 0 <= i < n :: bufs[i].dirty
  {
    if n > 0 {
      DirtyCount(bufs, n - 1);
      DirtyLast(bufs, n);
    }
  }

  /** A buffer is left over exactly as long as fewer than NBUF blocks are pinned. */
  lemma CleanIff(s: Cache, next: seq<nat>, prev: seq<nat>, dev: nat, pinned: set<nat>)
    requires Sealed(s, next, prev) && Calm(s, dev, pinned)
    ensures |s.bufs| == NBUF && |pinned| <= NBUF && (SomeClean(s) <==> |pinned| < NBUF)
  {
    OpenSeal(s, next, prev);
    OpenCalm(s, dev, pinned);
    DirtyApart(s, dev);
    DirtyCount(s.bufs, NBUF);
    PinnedAre(s, dev, pinned);
  }

  lemma DirtyApart(s: Cache, dev: nat)
    requires Unique(s) && Flags(s) && forall i | 0 <= i < |s.bufs| && s.bufs[i].dirty :: s.bufs[i].key.dev == dev
    ensures DirtyDiffer(s.bufs)
  {
    forall i, j | 0 <= i < j < |s.bufs| && s.bufs[i].dirty && s.bufs[j].dirty
      ensures s.bufs[i].key.blockno != s.bufs[j].key.blockno
    {
      assert !Blank(s.bufs[i]) && !Blank(s.bufs[j]);
      assert s.bufs[i].key.dev == s.bufs[j].key.dev;
    }
  }

  lemma PinnedAre(s: Cache, dev: nat, pinned: set<nat>)
    requires Stock(s, dev, pinned)
    ensures pinned == DirtyBlocks(s.bufs, |s.bufs|)
  {
    forall b: nat ensures b in pinned <==> b in DirtyBlocks(s.bufs, |s.bufs|) {
      if b in pinned {
        assert Pinned(s, Key(dev, b));
      } else if b in DirtyBlocks(s.bufs, |s.bufs|) {
        var i :| 0 <= i < |s.bufs| && s.bufs[i].dirty && s.bufs[i].key.blockno == b;
        assert s.bufs[i].key == Key(dev, b);
        assert Pinned(s, Key(dev, b));
      }
    }
  }

  /** With every buffer dirty there is none for a block that is not pinned. */
  lemma NoneLeft(s: Cache, next: seq<nat>, prev: seq<nat>, dev: nat, pinned: set<nat>, b: nat)
    requires Sealed(s, next, prev) && Calm(s, dev, pinned) && |pinned| == NBUF && b !in pinned
    ensures !Available(s, Key(dev, b))
  {
    CleanIff(s, next, prev, dev, pinned);
    OpenCalm(s, dev, pinned);
    assert !Pinned(s, Key(dev, b));
  }

  /** A clean buffer that caches a block is the only one for it. */
  lemma NotPinned(s: Cache, next: seq<nat>, prev: seq<nat>, i: nat)
    requires Sealed(s, next, prev) && i < |s.bufs| && s.bufs[i].valid && !s.bufs[i].dirty
    ensures !Pinned(s, s.bufs[i].key)
  {
    OpenSeal(s, next, prev);
    forall j | 0 <= j < |s.bufs| && s.bufs[j].key == s.bufs[i].key ensures !s.bufs[j].dirty {
      if j < i { assert Blank(s.bufs[j]); }
      if i < j { assert Blank(s.bufs[j]); }
    }
  }

  /** After a write the cache is calm again; only the block written may have been unpinned. */
  lemma CalmAgain(s: Cache, s1: Cache, t: Cache, dev: nat, pinned: set<nat>, b: nat)
    requires Calm(s, dev, pinned) && Quiet(t) && !Pinned(t, Key(dev, b))
    requires DirtyKept(s, s1, Key(dev, b)) && DirtyKept(s1, t, Key(dev, b))
    ensures Calm(t, dev, pinned - {b})
  {
    OpenCalm(s, dev, pinned);
    DirtyKeptTrans(s, s1, t, Key(dev, b));
    forall x: nat ensures x in pinned - {b} <==> Pinned(t, Key(dev, x)) {
      if x in pinned - {b} {
        assert Pinned(s, Key(dev, x));
        var i :| 0 <= i < |s.bufs| && s.bufs[i].dirty && s.bufs[i].key == Key(dev, x);
        assert t.bufs[i].dirty && t.bufs[i].key == Key(dev, x);
      } else if Pinned(t, Key(dev, x)) {
        StillPinned(s, t, Key(dev, b), Key(dev, x));
      }
    }
  }

  lemma StillPinned(s: Cache, t: Cache, except: Key, k: Key)
    requires DirtyKept(s, t, except) && Pinned(t, k) && !Pinned(t, except)
    ensures Pinned(s, k) && k != except
  {
    var i :| 0 <= i < |t.bufs| && t.bufs[i].dirty && t.bufs[i].key == k;
    assert s.bufs[i].dirty && s.bufs[i].key == k;
  }

  /** Reading a block and giving it back leaves the stock as it was. */
  lemma CalmAfterRead(s: Cache, s1: Cache, t: Cache, dev: nat, pinned: set<nat>)
    requires Calm(s, dev, pinned) && Quiet(t)
    requires forall k :: DirtyKept(s, s1, k)
    requires |t.bufs| == |s1.bufs| && forall i | 0 <= i < |s1.bufs| ::
      t.bufs[i].dirty == s1.bufs[i].dirty && t.bufs[i].key == s1.bufs[i].key
    ensures Calm(t, dev, pinned)
  {
    OpenCalm(s, dev, pinned);
    assert DirtyKept(s, s1, Key(dev, 0));
    forall i | 0 <= i < |t.bufs|
      ensures t.bufs[i].dirty == s.bufs[i].dirty && (s.bufs[i].dirty ==> t.bufs[i].key == s.bufs[i].key)
    {
      assert DirtyKept(s, s1, Key(s.bufs[i].key.dev + 1, 0));
    }
    forall x: nat ensures Pinned(t, Key(dev, x)) <==> Pinned(s, Key(dev, x)) {
      if Pinned(s, Key(dev, x)) {
        var i :| 0 <= i < |s.bufs| && s.bufs[i].dirty && s.bufs[i].key == Key(dev, x);
        assert t.bufs[i].dirty && t.bufs[i].key == Key(dev, x);
      }
    }
  }

  lemma StockRoom(s: Cache, next: seq<nat>, prev: seq<nat>, dev: nat, pinned: set<nat>, k1: Key, b: nat)
    requires Sealed(s, next, prev) && Calm(s, dev, pinned) && (pinned == {} || (|pinned| < NBUF && b in pinned))
    ensures Room(s, k1, Key(dev, b))
  {
    CleanIff(s, next, prev, dev, pinned);
    OpenCalm(s, dev, pinned);
    if pinned == {} {
      forall i | 0 <= i < 2 ensures !s.bufs[i].dirty {
        var x := s.bufs[i];
        var k := Key(dev, x.key.blockno);
        assert x.dirty ==> x.key == k;
        assert !Pinned(s, k);
      }
      assert !s.bufs[0].dirty && !s.bufs[1].dirty;
    } else {
      assert Pinned(s, Key(dev, b));
    }
  }

  lemma DirtyKeptTrans(s: Cache, t: Cache, u: Cache, k: Key)
    requires DirtyKept(s, t, k) && DirtyKept(t, u, k)
    ensures DirtyKept(s, u, k)
  {
  }

  /** With room for both, reading k1 leaves a buffer for k2. */
  lemma RoomForBoth(s: Cache, k1: Key, t: Cache, i: nat, k2: Key)
    requires Quiet(s) && ReadStep(s, k1, t, i) && k1 != k2 && Room(s, k1, k2)
    ensures Available(t, k2)
  {
  }

  lemma RoomForOne(s: Cache, k1: Key, k2: Key)
    requires Quiet(s) && Room(s, k1, k2)
    ensures Available(s, k1)
  {
  }

  /** Both blocks read, by a process that has the cache to itself. */
  lemma ReadBothEffect(s: Cache, k1: Key, s1: Cache, i: nat, k2: Key, t: Cache, j: nat)
    requires Quiet(s) && k1 != k2 && ReadStep(s, k1, s1, i) && ReadStep(s1, k2, t, j)
    ensures i != j && OnlyHeld(t, i, j) && Holds(t, i) && Holds(t, j)
    ensures t.bufs[i].key == k1 && t.bufs[i].data == Load(s.plain, k1)
    ensures t.bufs[j].key == k2 && t.bufs[j].data == Load(s.plain, k2)
    ensures forall k :: DirtyKept(s, t, k)
  {
  }

  /** The writes of write_log and of install_trans, given what bread returns. */
  ghost function SlotWrites(mem: Disk, lay: Layout, lh: seq<nat>): seq<Write>
    requires forall i | 0 <= i < |lh| :: lh[i] < |mem|
  {
    seq(|lh|, i requires 0 <= i < |lh| => Write(lay.start + 1 + i, mem[lh[i]]))
  }

  ghost function InstallWrites(mem: Disk, lay: Layout, lh: seq<nat>): seq<Write>
    requires lay.start + |lh| < |mem|
  {
    seq(|lh|, i requires 0 <= i < |lh| => Write(lh[i], mem[lay.start + 1 + i]))
  }

  /** One more slot: the home block it copies is still as it was. */
  lemma SlotStep(mem: Disk, lay: Layout, lh: seq<nat>, k: nat)
    requires ValidLayout(mem, lay) && ValidList(mem, lay, lh) && k < |lh|
    ensures OnDisk(|mem|, SlotWrites(mem, lay, lh))
    ensures Apply(mem, SlotWrites(mem, lay, lh), k)[lh[k]] == mem[lh[k]]
  {
    ApplyUntouched(mem, SlotWrites(mem, lay, lh), k, lh[k]);
  }

  /** One more home block: the slot it comes from is still as it was. */
  lemma InstallStep(mem: Disk, lay: Layout, lh: seq<nat>, k: nat)
    requires ValidLayout(mem, lay) && ValidList(mem, lay, lh) && k < |lh|
    ensures OnDisk(|mem|, InstallWrites(mem, lay, lh))
    ensures Apply(mem, InstallWrites(mem, lay, lh), k)[lay.start + 1 + k] == mem[lay.start + 1 + k]
  {
    ApplyUntouched(mem, InstallWrites(mem, lay, lh), k, lay.start + 1 + k);
  }

  lemma SlotWritten(mem: Disk, lay: Layout, lh: seq<nat>, i: nat)
    requires ValidLayout(mem, lay) && ValidList(mem, lay, lh) && i < |lh|
    requires OnDisk(|mem|, SlotWrites(mem, lay, lh))
    ensures Slot(Apply(mem, SlotWrites(mem, lay, lh), |lh|), lay, i) == mem[lh[i]]
  {
    var ws := SlotWrites(mem, lay, lh);
    assert ws[i] == Write(lay.start + 1 + i, mem[lh[i]]);
    ApplyLast(mem, ws, |lh|, i);
  }

  /** write_log leaves the header alone and the cached blocks in the slots. */
  lemma AfterSlotWrites(mem: Disk, lay: Layout, lh: seq<nat>)
    requires ValidLayout(mem, lay) && ValidList(mem, lay, lh)
    ensures OnDisk(|mem|, SlotWrites(mem, lay, lh))
    ensures var e := Apply(mem, SlotWrites(mem, lay, lh), |lh|);
      e[lay.start] == mem[lay.start] && forall i | 0 <= i < |lh| :: Slot(e, lay, i) == mem[lh[i]]
  {
    var ws := SlotWrites(mem, lay, lh);
    ApplyUntouched(mem, ws, |lh|, lay.start);
    forall i | 0 <= i < |lh| ensures Slot(Apply(mem, ws, |lh|), lay, i) == mem[lh[i]] { SlotWritten(mem, lay, lh, i); }
  }

  /** install_trans leaves the header alone. */
  lemma AfterInstallWrites(mem: Disk, lay: Layout, lh: seq<nat>)
    requires ValidLayout(mem, lay) && ValidList(mem, lay, lh)
    ensures OnDisk(|mem|, InstallWrites(mem, lay, lh))
    ensures Apply(mem, InstallWrites(mem, lay, lh), |lh|)[lay.start] == mem[lay.start]
  {
    ApplyUntouched(mem, InstallWrites(mem, lay, lh), |lh|, lay.start);
  }

  /** The four parts of commit() make up CommitWrites. */
  lemma CommitParts(mem: Disk, lay: Layout, lh: seq<nat>, marked: Disk)
    requires ValidLayout(mem, lay) && ValidList(mem, lay, lh) && |marked| == |mem|
    requires forall i | 0 <= i < |lh| :: Slot(marked, lay, i) == mem[lh[i]]
    ensures SlotWrites(mem, lay, lh) + [Write(lay.start, PutHeader(mem[lay.start], lh))]
      + InstallWrites(marked, lay, lh) + [Write(lay.start, PutHeader(PutHeader(mem[lay.start], lh), []))]
      == CommitWrites(mem, mem[lay.start], lay, lh)
  {
  }

  /** The two halves of commit(), one after the other, on the disk and on the trace. */
  lemma CommitJoined(d: Disk, mem: Disk, lay: Layout, lh: seq<nat>, marked: Disk, t: seq<Write>)
    requires ValidLayout(mem, lay) && ValidList(mem, lay, lh) && |d| == |marked| == |mem|
    requires forall i | 0 <= i < |lh| :: Slot(marked, lay, i) == mem[lh[i]]
    requires OnDisk(|d|, SlotWrites(mem, lay, lh)) && OnDisk(|d|, InstallWrites(marked, lay, lh))
    ensures var ws := CommitWrites(mem, mem[lay.start], lay, lh);
      var h := PutHeader(mem[lay.start], lh);
      && OnDisk(|d|, ws)
      && t + ws == t + SlotWrites(mem, lay, lh) + [Write(lay.start, h)]
                   + InstallWrites(marked, lay, lh) + [Write(lay.start, PutHeader(h, []))]
      && Apply(d, ws, |ws|) == Apply(Apply(d, SlotWrites(mem, lay, lh), |lh|)[lay.start := h],
                                     InstallWrites(marked, lay, lh), |lh|)[lay.start := PutHeader(h, [])]
  {
    CommitParts(mem, lay, lh, marked);
    var h := PutHeader(mem[lay.start], lh);
    ApplyJoined(d, SlotWrites(mem, lay, lh), Write(lay.start, h), InstallWrites(marked, lay, lh),
                Write(lay.start, PutHeader(h, [])), CommitWrites(mem, mem[lay.start], lay, lh));
  }

  lemma ApplyJoined(d: Disk, a: seq<Write>, x: Write, c: seq<Write>, y: Write, all: seq<Write>)
    requires OnDisk(|d|, a) && OnDisk(|d|, c) && x.blockno < |d| && y.blockno < |d|
    requires all == a + [x] + c + [y]
    ensures OnDisk(|d|, all)
    ensures Apply(d, all, |all|) == Apply(Apply(d, a, |a|)[x.blockno := x.data], c, |c|)[y.blockno := y.data]
  {
    var first, most := a + [x], a + [x] + c;
    ApplyLastOne(d, a, x, first);
    ApplyTwo(d, first, c, most, |c|);
    ApplyLastOne(d, most, y, all);
  }

  lemma {:induction false} ApplyTwo(d: Disk, a: seq<Write>, c: seq<Write>, all: seq<Write>, k: nat)
    requires OnDisk(|d|, a) && OnDisk(|d|, c) && all == a + c && k <= |c|
    ensures OnDisk(|d|, all) && Apply(d, all, |a| + k) == Apply(Apply(d, a, |a|), c, k)
    decreases k
  {
    if k == 0 {
      ApplyPrefix(d, a, c, all, |a|);
    } else {
      ApplyTwo(d, a, c, all, k - 1);
      assert all[|a| + k - 1] == c[k - 1];
    }
  }

  /** Recovery's work, on the disk and on the trace. */
  lemma RecoveryJoined(d: Disk, lay: Layout, t: seq<Write>)
    requires Sound(d, lay) && OnDisk(|d|, InstallWrites(d, lay, HeaderList(d[lay.start])))
    ensures var lh, h := HeaderList(d[lay.start]), PutHeader(d[lay.start], []);
      && t + RecoveryWrites(d, lay) == t + InstallWrites(d, lay, lh) + [Write(lay.start, h)]
      && Recovered(d, lay) == Apply(d, InstallWrites(d, lay, lh), |lh|)[lay.start := h]
  {
    RecoveryOnDisk(d, lay);
    var lh, w := HeaderList(d[lay.start]), Write(lay.start, PutHeader(d[lay.start], []));
    assert RecoveryWrites(d, lay) == InstallWrites(d, lay, lh) + [w];
    ApplyLastOne(d, InstallWrites(d, lay, lh), w, RecoveryWrites(d, lay));
  }

  lemma ApplyLastOne(d: Disk, a: seq<Write>, w: Write, all: seq<Write>)
    requires OnDisk(|d|, a) && w.blockno < |d| && all == a + [w]
    ensures OnDisk(|d|, all)
    ensures Apply(d, all, |all|) == Apply(d, a, |a|)[w.blockno := w.data]
  {
    assert all[|a|] == w && |all| == |a| + 1;
    ApplyPrefix(d, a, [w], all, |a|);
  }

  lemma {:induction false} ApplyPrefix(d: Disk, a: seq<Write>, c: seq<Write>, all: seq<Write>, k: nat)
    requires OnDisk(|d|, a) && OnDisk(|d|, all) && all == a + c && k <= |a|
    ensures Apply(d, all, k) == Apply(d, a, k)
  {
    if k > 0 {
      ApplyPrefix(d, a, c, all, k - 1);
      assert all[k - 1] == a[k - 1];
    }
  }

  class Log {
    const bc: BufCache
    const dev: nat
    const lay: Layout
    var lh: seq<nat>
    ghost var trace: seq<Write>  // block writes that reached the disk
    var outstanding: nat
    ghost var pinned: set<nat>   // the blocks in dirty buffers

    ghost predicate Valid()
      reads this, bc
    {
      && bc.Valid() && Calm(bc.Abs(), dev, pinned)
      && dev in bc.disks && dev in bc.plain && |bc.plain[dev]| == |bc.disks[dev]|
      && ValidLayout(bc.disks[dev], lay) && ValidLayout(bc.plain[dev], lay)
    }

    /** The disk that holds the file system, and the same blocks as bread returns them. */
    ghost function OnDisk(): Disk
      requires Valid()
      reads this, bc
    {
      bc.disks[dev]
    }

    ghost function InCache(): Disk
      requires Valid()
      reads this, bc
    {
      bc.plain[dev]
    }

    /** initlog, on the cache that binit left. */
    constructor (bc: BufCache, dev: nat, lay: Layout)
      requires bc.Valid() && bc.Abs() == Init(bc.disks)
      requires dev in bc.disks && ValidLayout(bc.disks[dev], lay)
      ensures Valid() && this.bc == bc && this.dev == dev && this.lay == lay
      ensures lh == [] && trace == [] && pinned == {} && outstanding == 0
    {
      this.bc, this.dev, this.lay, lh, trace := bc, dev, lay, [], [];
      outstanding, pinned := 0, {};
    }

    /** Change a held buffer and bwrite it. */
    method WriteOut(i: nat, data: Block)
      requires bc.Valid() && Holds(bc.Abs(), i) && bc.touched == {}
      modifies bc, `trace
      ensures bc.Valid() && bc.touched == {}
      ensures bc.disks == Store(old(bc.disks), old(bc.bufs[i].key), data)
      ensures bc.plain == Store(old(bc.plain), old(bc.bufs[i].key), data)
      ensures trace == old(trace) + [Write(old(bc.bufs[i].key).blockno, data)]
      ensures bc.bufs == old(bc.bufs)[i := old(bc.bufs[i]).(data := data, dirty := false)]
    {
      trace := trace + [Write(bc.bufs[i].key.blockno, data)];
      bc.SetData(i, data);
      bc.Bwrite(i);
    }

    /** The second half of an iteration: memmove, bwrite, two brelse. */
    method CopyHeld(dst: nat, src: nat)
      requires bc.Valid() && TwoHeld(bc.Abs(), dst, src)
      modifies bc, `trace
      ensures bc.Valid() && bc.touched == {}
      ensures bc.disks == Store(old(bc.disks), old(bc.bufs[dst].key), old(bc.bufs[src].data))
      ensures bc.plain == Store(old(bc.plain), old(bc.bufs[dst].key), old(bc.bufs[src].data))
      ensures trace == old(trace) + [Write(old(bc.bufs[dst].key).blockno, old(bc.bufs[src].data))]
      ensures bc.bufs == Copied(old(bc.bufs), dst, src)
    {
      WriteOut(dst, bc.bufs[src].data);
      bc.Brelse(src);
      bc.Brelse(dst);
    }

    /** The first half: bread both blocks. */
    method ReadBoth(slot: nat, home: nat) returns (ok: bool, i: nat, j: nat)
      requires Valid() && slot < |OnDisk()| && home < |OnDisk()| && slot != home
      modifies bc
      ensures ok ==> bc.Valid() && bc.disks == old(bc.disks) && bc.plain == old(bc.plain)
      ensures ok ==> TwoHeld(bc.Abs(), i, j) && OnlyHeld(bc.Abs(), i, j)
      ensures ok ==> bc.bufs[i].key == Key(dev, slot) && bc.bufs[i].data == old(InCache())[slot]
      ensures ok ==> bc.bufs[j].key == Key(dev, home) && bc.bufs[j].data == old(InCache())[home]
      ensures ok ==> forall k :: DirtyKept(old(bc.Abs()), bc.Abs(), k)
      ensures Room(old(bc.Abs()), Key(dev, slot), Key(dev, home)) ==> ok
      ensures ok ==> Available(old(bc.Abs()), Key(dev, slot))
    {
      j := 0;
      ghost var s0, k1, k2 := bc.Abs(), Key(dev, slot), Key(dev, home);
      OpenCalm(s0, dev, pinned);
      if Room(s0, k1, k2) { RoomForOne(s0, k1, k2); }
      ok, i := bc.BreadFree(Key(dev, slot));
      if !ok { return; }
      ghost var s1 := bc.Abs();
      if Room(s0, k1, k2) { RoomForBoth(s0, k1, s1, i, k2); }
      ok, j := bc.BreadFree(Key(dev, home));
      if !ok { return; }
      ReadBothEffect(s0, k1, s1, i, k2, bc.Abs(), j);
    }

    /** Copy, release, and account for the block written. */
    method FinishCopy(dst: nat, src: nat, ghost b: nat, ghost s0: Cache)
      requires bc.Valid() && TwoHeld(bc.Abs(), dst, src) && OnlyHeld(bc.Abs(), dst, src)
      requires bc.bufs[dst].key == Key(dev, b) && DirtyKept(s0, bc.Abs(), Key(dev, b))
      requires Calm(s0, dev, pinned)
      modifies bc, `trace, `pinned
      ensures bc.Valid() && Calm(bc.Abs(), dev, pinned)
      ensures bc.disks == Store(old(bc.disks), Key(dev, b), old(bc.bufs[src].data))
      ensures bc.plain == Store(old(bc.plain), Key(dev, b), old(bc.bufs[src].data))
      ensures trace == old(trace) + [Write(b, old(bc.bufs[src].data))]
      ensures pinned == old(pinned) - {b}
    {
      ghost var s1 := bc.Abs();
      CopyHeld(dst, src);
      CopiedStock(s1, bc.Abs(), dst, src);
      NotPinned(bc.Abs(), bc.next, bc.prev, dst);
      CalmAgain(s0, s1, bc.Abs(), dev, pinned, b);
      pinned := pinned - {b};
    }

    /** One iteration of write_log or install_trans: bread two blocks, copy one into the
        other, bwrite it, brelse both. The log block is read first in both loops. */
    method CopyBlock(slot: nat, home: nat, toSlot: bool) returns (ok: bool)
      requires Valid() && slot < |OnDisk()| && home < |OnDisk()| && slot != home
      requires slot != lay.start && home != lay.start
      modifies bc, `trace, `pinned
      ensures ok ==> Valid()
      ensures ok ==> var dst, src := if toSlot then slot else home, if toSlot then home else slot;
        && OnDisk() == old(OnDisk())[dst := old(InCache())[src]]
        && InCache() == old(InCache())[dst := old(InCache())[src]]
        && trace == old(trace) + [Write(dst, old(InCache())[src])]
        && pinned == old(pinned) - {dst}
      ensures old(pinned) == {} || (|old(pinned)| < NBUF && home in old(pinned)) ==> ok
      ensures |old(pinned)| == NBUF && slot !in old(pinned) ==> !ok
    {
      var i, j;
      ghost var s0 := bc.Abs();
      if pinned == {} || (|pinned| < NBUF && home in pinned) {
        StockRoom(s0, bc.next, bc.prev, dev, pinned, Key(dev, slot), home);
      }
      if |pinned| == NBUF && slot !in pinned { NoneLeft(s0, bc.next, bc.prev, dev, pinned, slot); }
      ok, i, j := ReadBoth(slot, home);
      if !ok { return; }
      if toSlot {
        FinishCopy(i, j, slot, s0);
      } else {
        FinishCopy(j, i, home, s0);
      }
    }

    /** Between operations of a transaction the pinned blocks are the logged ones. */
    ghost predicate Logged()
      reads this
    {
      Distinct(lh) && forall b: nat :: b in pinned <==> b in lh
    }

    /** The first k of the writes ws have been made since the disk was `disk`, the cached
        blocks `mem` and the trace t. */
    ghost predicate Written(disk: Disk, mem: Disk, t: seq<Write>, ws: seq<Write>, k: nat)
      reads this, bc
    {
      && Valid() && k <= |ws| && |disk| == |mem| && WriteAheadLog.OnDisk(|disk|, ws)
      && trace == t + ws[..k]
      && OnDisk() == Apply(disk, ws, k) && InCache() == Apply(mem, ws, k)
    }

    /** While blocks are installed: those from the k-th on are pinned, and no other. */
    ghost predicate LeftFrom(k: nat)
      reads this
    {
      k <= |lh| && Distinct(lh) && |pinned| < NBUF && forall b: nat :: b in pinned <==> b in lh[k..]
    }

    /** What install_trans needs to find its buffers. */
    ghost predicate Sure(k: nat)
      reads this
    {
      pinned == {} || LeftFrom(k)
    }

    lemma SureFromStart()
      requires (Logged() && |lh| < NBUF) || pinned == {}
      ensures Sure(0)
    {
      if pinned != {} {
        ListSize(lh, pinned);
        assert lh[0..] == lh;
      }
    }

    method LogOne(tail: nat, ghost disk: Disk, ghost mem: Disk, ghost t: seq<Write>) returns (ok: bool)
      requires ValidLayout(mem, lay) && ValidList(mem, lay, lh) && tail < |lh|
      requires Written(disk, mem, t, SlotWrites(mem, lay, lh), tail)
      modifies bc, `trace, `pinned
      ensures ok ==> Written(disk, mem, t, SlotWrites(mem, lay, lh), tail + 1)
      ensures old(Logged()) ==> (ok <==> |lh| < NBUF) && (ok ==> Logged())
    {
      SlotStep(mem, lay, lh, tail);
      if Logged() { ListSize(lh, pinned); }
      ok := CopyBlock(lay.start + tail + 1, lh[tail], true);
    }

    method InstallOne(tail: nat, ghost disk: Disk, ghost mem: Disk, ghost t: seq<Write>) returns (ok: bool)
      requires ValidLayout(mem, lay) && ValidList(mem, lay, lh) && tail < |lh|
      requires Written(disk, mem, t, InstallWrites(mem, lay, lh), tail)
      modifies bc, `trace, `pinned
      ensures ok ==> Written(disk, mem, t, InstallWrites(mem, lay, lh), tail + 1)
      ensures ok ==> pinned == old(pinned) - {lh[tail]}
      ensures old(pinned) == {} || (|old(pinned)| < NBUF && lh[tail] in old(pinned)) ==> ok
    {
      InstallStep(mem, lay, lh, tail);
      ok := CopyBlock(lay.start + tail + 1, lh[tail], false);
    }

    method InstallNext(tail: nat, ghost disk: Disk, ghost mem: Disk, ghost t: seq<Write>) returns (ok: bool)
      requires ValidLayout(mem, lay) && ValidList(mem, lay, lh) && tail < |lh|
      requires Written(disk, mem, t, InstallWrites(mem, lay, lh), tail)
      modifies bc, `trace, `pinned
      ensures ok ==> Written(disk, mem, t, InstallWrites(mem, lay, lh), tail + 1)
      ensures old(Sure(tail)) ==> ok && Sure(tail + 1)
    {
      if LeftFrom(tail) { TailList(lh, tail, pinned); }
      ok := InstallOne(tail, disk, mem, t);
    }

    method WriteLog() returns (ok: bool)
      requires Valid() && ValidList(OnDisk(), lay, lh)
      modifies bc, `trace, `pinned
      ensures ok ==> Written(old(OnDisk()), old(InCache()), old(trace), SlotWrites(old(InCache()), lay, lh), |lh|)
      ensures old(Logged()) ==> (ok <==> |lh| < NBUF) && (ok ==> Logged())
    {
      ghost var mem := InCache();
      AfterSlotWrites(mem, lay, lh);
      assert SlotWrites(mem, lay, lh)[..0] == [];
      ok := LogLoop(OnDisk(), mem, trace);
    }

    method LogLoop(ghost disk: Disk, ghost mem: Disk, ghost t: seq<Write>) returns (ok: bool)
      requires ValidLayout(mem, lay) && ValidList(mem, lay, lh) && Written(disk, mem, t, SlotWrites(mem, lay, lh), 0)
      modifies bc, `trace, `pinned
      ensures ok ==> Written(disk, mem, t, SlotWrites(mem, lay, lh), |lh|)
      ensures old(Logged()) ==> (ok <==> |lh| < NBUF) && (ok ==> Logged())
    {
      ghost var logged := Logged();
      ok := true;
      var tail := 0;
      while tail < |lh|
        invariant tail <= |lh| && Written(disk, mem, t, SlotWrites(mem, lay, lh), tail)
        invariant ok && (logged ==> Logged() && (tail > 0 ==> |lh| < NBUF))
      {
        ok := LogOne(tail, disk, mem, t);
        if !ok { return; }
        tail := tail + 1;
      }
    }

    method InstallTrans() returns (ok: bool)
      requires Valid() && ValidList(OnDisk(), lay, lh)
      modifies bc, `trace, `pinned
      ensures ok ==> Written(old(OnDisk()), old(InCache()), old(trace), InstallWrites(old(InCache()), lay, lh), |lh|)
      ensures (old(Logged()) && |lh| < NBUF) || old(pinned) == {} ==> ok && pinned == {}
    {
      ghost var mem := InCache();
      if (Logged() && |lh| < NBUF) || pinned == {} { SureFromStart(); }
      AfterInstallWrites(mem, lay, lh);
      assert InstallWrites(mem, lay, lh)[..0] == [];
      ok := InstallLoop(OnDisk(), mem, trace);
    }

    method InstallLoop(ghost disk: Disk, ghost mem: Disk, ghost t: seq<Write>) returns (ok: bool)
      requires ValidLayout(mem, lay) && ValidList(mem, lay, lh) && Written(disk, mem, t, InstallWrites(mem, lay, lh), 0)
      modifies bc, `trace, `pinned
      ensures ok ==> Written(disk, mem, t, InstallWrites(mem, lay, lh), |lh|)
      ensures old(Sure(0)) ==> ok && pinned == {}
    {
      ghost var sure := Sure(0);
      ok := true;
      var tail := 0;
      while tail < |lh|
        invariant tail <= |lh| && Written(disk, mem, t, InstallWrites(mem, lay, lh), tail)
        invariant ok && (sure ==> Sure(tail))
      {
        ok := InstallNext(tail, disk, mem, t);
        if !ok { return; }
        tail := tail + 1;
      }
      assert Sure(|lh|) ==> pinned == {};
    }

    /** bread the header block. */
    method ReadHeaderBuffer() returns (ok: bool, i: nat)
      requires Valid()
      modifies bc
      ensures ok ==> bc.Valid() && bc.disks == old(bc.disks) && bc.plain == old(bc.plain)
      ensures ok ==> Holds(bc.Abs(), i) && OnlyHeld(bc.Abs(), i, i)
      ensures ok ==> bc.bufs[i].key == Key(dev, lay.start) && bc.bufs[i].data == old(InCache())[lay.start]
      ensures ok ==> forall k :: DirtyKept(old(bc.Abs()), bc.Abs(), k)
      ensures |old(pinned)| < NBUF ==> ok
    {
      ghost var s0 := bc.Abs();
      CleanIff(s0, bc.next, bc.prev, dev, pinned);
      OpenCalm(s0, dev, pinned);
      if |pinned| < NBUF {
        ghost var x :| 0 <= x < |s0.bufs| && !s0.bufs[x].dirty;
        assert Reusable(s0.bufs[x]);
      }
      ok, i := bc.BreadFree(Key(dev, lay.start));
    }

    method ReadHead() returns (ok: bool)
      requires Valid() && InCache()[lay.start].words[0] <= LOGSIZE
      modifies bc, `lh
      ensures ok ==> Valid() && bc.disks == old(bc.disks) && bc.plain == old(bc.plain)
      ensures ok ==> lh == HeaderList(old(InCache())[lay.start])
      ensures |old(pinned)| < NBUF ==> ok
    {
      var i;
      ghost var s0 := bc.Abs();
      ok, i := ReadHeaderBuffer();
      if !ok { return; }
      ghost var s1 := bc.Abs();
      var h := bc.bufs[i].data.words;
      var blocks := [];
      while |blocks| < h[0]
        invariant |blocks| <= h[0] && blocks == h[1..1 + |blocks|]
      {
        blocks := blocks + [h[1 + |blocks|]];
      }
      lh := blocks;
      bc.Brelse(i);
      CalmAfterRead(s0, s1, bc.Abs(), dev, pinned);
    }

    /** The count, then the entries; the words after them keep what the buffer held. */
    method WriteHead() returns (ok: bool)
      requires Valid() && |lh| <= LOGSIZE
      modifies bc, `trace, `pinned
      ensures ok ==> Valid()
      ensures ok ==> var h := PutHeader(old(InCache())[lay.start], lh);
        && OnDisk() == old(OnDisk())[lay.start := h] && InCache() == old(InCache())[lay.start := h]
        && trace == old(trace) + [Write(lay.start, h)]
        && pinned == old(pinned) - {lay.start}
      ensures |old(pinned)| < NBUF ==> ok
    {
      var b;
      ghost var s0 := bc.Abs();
      ok, b := ReadHeaderBuffer();
      if !ok { return; }
      ghost var s1 := bc.Abs();
      var hb := HeaderBytes(bc.bufs[b].data);
      WriteHeld(b, hb);
      CalmAgain(s0, s1, bc.Abs(), dev, pinned, lay.start);
      pinned := pinned - {lay.start};
    }

    /** Change a held buffer, bwrite it and brelse it. */
    method WriteHeld(i: nat, data: Block)
      requires bc.Valid() && Holds(bc.Abs(), i) && OnlyHeld(bc.Abs(), i, i)
      modifies bc, `trace
      ensures bc.Valid() && Quiet(bc.Abs()) && !Pinned(bc.Abs(), old(bc.bufs[i].key))
      ensures bc.disks == Store(old(bc.disks), old(bc.bufs[i].key), data)
      ensures bc.plain == Store(old(bc.plain), old(bc.bufs[i].key), data)
      ensures trace == old(trace) + [Write(old(bc.bufs[i].key).blockno, data)]
      ensures DirtyKept(old(bc.Abs()), bc.Abs(), old(bc.bufs[i].key))
    {
      WriteOut(i, data);
      bc.Brelse(i);
      NotPinned(bc.Abs(), bc.next, bc.prev, i);
    }

    /** write_head's stores into the header's buffer. */
    method HeaderBytes(h: Block) returns (hb: Block)
      requires |h.words| == NWORDS && |lh| <= LOGSIZE
      ensures hb == PutHeader(h, lh)
    {
      var words := h.words[0 := |lh|];
      var i := 0;
      while i < |lh|
        invariant i <= |lh| && words == [|lh|] + lh[..i] + h.words[1 + i..]
      {
        words := words[1 + i := lh[i]];
        i := i + 1;
      }
      assert lh[..|lh|] == lh;
      hb := Block(words);
    }

    /** commit's first half, up to the commit point. */
    method LogAndMark() returns (ok: bool)
      requires Valid() && ValidList(OnDisk(), lay, lh)
      modifies bc, `trace, `pinned
      ensures ok ==> Valid()
      ensures ok ==> var ws := SlotWrites(old(InCache()), lay, lh);
        var h := PutHeader(old(InCache())[lay.start], lh);
        && WriteAheadLog.OnDisk(|old(OnDisk())|, ws)
        && trace == old(trace) + ws + [Write(lay.start, h)]
        && OnDisk() == Apply(old(OnDisk()), ws, |lh|)[lay.start := h]
        && InCache()[lay.start] == h
        && forall i | 0 <= i < |lh| :: Slot(InCache(), lay, i) == old(InCache())[lh[i]]
      ensures old(Logged()) ==> (ok <==> |lh| < NBUF) && (ok ==> Logged())
    {
      ghost var mem := InCache();
      AfterSlotWrites(mem, lay, lh);
      ok := WriteLog();
      if !ok { return; }
      assert SlotWrites(mem, lay, lh)[..|lh|] == SlotWrites(mem, lay, lh);
      if Logged() { ListSize(lh, pinned); }
      ok := WriteHead();
    }

    /** commit's second half, from the commit point on; also the work of recovery. */
    method InstallAndClear() returns (ok: bool)
      requires Valid() && ValidList(OnDisk(), lay, lh)
      modifies bc, `trace, `lh, `pinned
      ensures ok ==> Valid() && lh == []
      ensures ok ==> var ws := InstallWrites(old(InCache()), lay, old(lh));
        var h := PutHeader(old(InCache())[lay.start], []);
        && WriteAheadLog.OnDisk(|old(OnDisk())|, ws)
        && trace == old(trace) + ws + [Write(lay.start, h)]
        && OnDisk() == Apply(old(OnDisk()), ws, |ws|)[lay.start := h]
        && InCache() == Apply(old(InCache()), ws, |ws|)[lay.start := h]
      ensures (old(Logged()) && |old(lh)| < NBUF) || old(pinned) == {} ==> ok && pinned == {}
    {
      ghost var mem := InCache();
      AfterInstallWrites(mem, lay, lh);
      ok := InstallTrans();
      if !ok { return; }
      assert InstallWrites(mem, lay, lh)[..|lh|] == InstallWrites(mem, lay, lh);
      lh := [];
      ok := WriteHead();
    }

    /** commit(): the block writes are CommitWrites. A transaction whose blocks are pinned commits
        exactly if they are fewer than NBUF; with a buffer pinned for each block of the cache the
        first bread of the log finds no buffer. */
    method Commit() returns (ok: bool)
      requires Valid() && ValidList(OnDisk(), lay, lh)
      modifies bc, `trace, `lh, `pinned
      ensures ok ==> Valid() && lh == []
      ensures ok && old(lh) == [] ==> bc.disks == old(bc.disks) && bc.plain == old(bc.plain) && trace == old(trace)
      ensures ok && old(lh) != [] ==> var ws := CommitWrites(old(InCache()), old(InCache())[lay.start], lay, old(lh));
        && WriteAheadLog.OnDisk(|old(OnDisk())|, ws)
        && trace == old(trace) + ws
        && OnDisk() == Apply(old(OnDisk()), ws, |ws|)
      ensures old(Logged()) ==> (ok <==> |old(lh)| < NBUF) && (ok ==> Logged())
    {
      ok := true;
      if |lh| > 0 {
        ghost var disk, mem, n := OnDisk(), InCache(), lh;
        ok := LogAndMark();
        if !ok { return; }
        ghost var marked := InCache();
        ok := InstallAndClear();
        if !ok { return; }
        CommitJoined(disk, mem, lay, n, marked, old(trace));
      }
    }

    /** recover_from_log, at boot: the cache is in step with the disk. It completes whenever
        no block is pinned, as at boot. */
    method RecoverFromLog() returns (ok: bool)
      requires Valid() && InCache() == OnDisk() && Sound(OnDisk(), lay)
      modifies bc, `trace, `lh, `pinned
      ensures ok ==> Valid() && lh == [] && InCache() == OnDisk()
      ensures ok ==> trace == old(trace) + RecoveryWrites(old(OnDisk()), lay)
      ensures ok ==> OnDisk() == Recovered(old(OnDisk()), lay)
      ensures old(pinned) == {} ==> ok && Logged()
    {
      ghost var disk := OnDisk();
      ok := ReadHead();
      if !ok { return; }
      ok := InstallAndClear();
      if !ok { return; }
      RecoveryJoined(disk, lay, old(trace));
    }

    /** log_write on a held buffer: absorb the block or append it, and pin the buffer. */
    method LogWrite(i: nat) returns (ok: bool)
      requires bc.Valid() && Holds(bc.Abs(), i) && bc.bufs[i].key.dev == dev
      modifies bc`bufs, bc`touched, `lh
      ensures ok <==> |old(lh)| < LOGSIZE && |old(lh)| < lay.size - 1 && outstanding >= 1
      ensures ok ==> bc.Valid() && Next(bc.Abs(), i) == BufferCache.LogWrite(old(bc.Abs()), i)
      ensures ok ==> lh == Appended(old(lh), old(bc.bufs[i].key.blockno))
    {
      if |lh| >= LOGSIZE || |lh| >= lay.size - 1 { return false; }
      if outstanding < 1 { return false; }
      var b := bc.bufs[i].key.blockno;
      var k := 0;
      while k < |lh| && lh[k] != b
        invariant k <= |lh| && b !in lh[..k]
      {
        k := k + 1;
      }
      if k == |lh| {
        lh := lh + [b];
      } else {
        lh := lh[k := b];
      }
      bc.MarkDirty(i);
      ok := true;
    }

    /** How file-system code writes a block: bread, change the data, log_write, brelse. It fails
        exactly by log_write's tests, never for want of a buffer, and then the block is logged,
        pinned and as written in the cache, and the disk is untouched. */
    method Update(b: nat, data: Block) returns (ok: bool)
      requires Valid() && Logged() && b < |OnDisk()| && (b == lay.start ==> |data.words| == NWORDS)
      modifies bc, `lh, `pinned
      ensures ok <==> |old(lh)| < LOGSIZE && |old(lh)| < lay.size - 1 && outstanding >= 1
      ensures ok ==> Valid() && Logged() && lh == Appended(old(lh), b)
      ensures ok ==> InCache() == old(InCache())[b := data] && OnDisk() == old(OnDisk())
    {
      ghost var s0 := bc.Abs();
      OpenCalm(s0, dev, pinned);
      var i;
      ok, i := ReadHome(b);
      if !ok { return; }
      ghost var s1 := bc.Abs();
      ok := LogHeld(i, data);
      if !ok { return; }
      CalmAfterUpdate(s0, s1, bc.Abs(), dev, pinned, b, i);
      pinned := pinned + {b};
      AppendedList(old(lh), b);
    }

    /** Change a held buffer, log_write it and brelse it. */
    method LogHeld(i: nat, data: Block) returns (ok: bool)
      requires bc.Valid() && Holds(bc.Abs(), i) && bc.bufs[i].key.dev == dev && bc.touched == {}
        && bc.bufs[i].refcnt == 1
      modifies bc, `lh
      ensures ok <==> |old(lh)| < LOGSIZE && |old(lh)| < lay.size - 1 && outstanding >= 1
      ensures ok ==> bc.Valid() && lh == Appended(old(lh), old(bc.bufs[i].key.blockno))
      ensures ok ==>
        bc.disks == old(bc.disks) && bc.plain == Store(old(bc.plain), old(bc.bufs[i].key), data) && bc.touched == {}
      ensures ok ==>
        bc.bufs == old(bc.bufs)[i := old(bc.bufs[i]).(data := data, dirty := true, locked := false, refcnt := 0)]
    {
      bc.SetData(i, data);
      ok := LogWrite(i);
      if !ok { return; }
      bc.Brelse(i);
    }

    /** bread of a block to be logged: a buffer is there if the block is logged or fewer than NBUF are. */
    method ReadHome(b: nat) returns (ok: bool, i: nat)
      requires Valid() && Logged() && b < |OnDisk()|
      modifies bc
      ensures ok <==> b in lh || |lh| < NBUF
      ensures ok ==> bc.Valid() && ReadStep(old(bc.Abs()), Key(dev, b), bc.Abs(), i)
    {
      ghost var s0 := bc.Abs();
      ListSize(lh, pinned);
      CleanIff(s0, bc.next, bc.prev, dev, pinned);
      OpenCalm(s0, dev, pinned);
      if |pinned| < NBUF {
        ghost var x :| 0 <= x < |s0.bufs| && !s0.bufs[x].dirty;
        assert Reusable(s0.bufs[x]);
      } else if b in lh {
        assert Pinned(s0, Key(dev, b));
      } else {
        NoneLeft(s0, bc.next, bc.prev, dev, pinned, b);
      }
      ok, i := bc.BreadFree(Key(dev, b));
    }
  }

  /** log_write's list: the block is appended unless it is there. */
  function Appended(lh: seq<nat>, b: nat): seq<nat> { if b in lh then lh else lh + [b] }

  lemma AppendedList(lh: seq<nat>, b: nat)
    requires Distinct(lh)
    ensures Distinct(Appended(lh, b)) && forall x :: x in Appended(lh, b) <==> x in lh || x == b
  {
  }

  lemma {:induction false} ListSize(lh: seq<nat>, pinned: set<nat>)
    requires Distinct(lh) && forall b: nat :: b in pinned <==> b in lh
    ensures |pinned| == |lh|
  {
    if lh == [] {
      assert pinned == {};
    } else {
      var n := |lh| - 1;
      assert lh == lh[..n] + [lh[n]];
      ListSize(lh[..n], pinned - {lh[n]});
    }
  }

  lemma TailList(lh: seq<nat>, k: nat, pinned: set<nat>)
    requires Distinct(lh) && k < |lh| && forall b: nat :: b in pinned <==> b in lh[k..]
    ensures forall b: nat :: b in pinned - {lh[k]} <==> b in lh[k + 1..]
    ensures lh[k] in pinned && |pinned - {lh[k]}| < |pinned|
  {
    assert lh[k..] == [lh[k]] + lh[k + 1..];
  }

  /** The block written through log_write joins the pinned ones, and nobody holds a buffer. */
  lemma CalmAfterUpdate(s: Cache, s1: Cache, t: Cache, dev: nat, pinned: set<nat>, b: nat, i: nat)
    requires Calm(s, dev, pinned) && ReadStep(s, Key(dev, b), s1, i) && t.touched == {}
    requires |t.bufs| == |s.bufs| && (forall j | 0 <= j < |s.bufs| && j != i :: t.bufs[j] == s.bufs[j])
    requires t.bufs[i].key == Key(dev, b) && t.bufs[i].dirty && !t.bufs[i].locked && t.bufs[i].refcnt == 0
    ensures Calm(t, dev, pinned + {b})
  {
    OpenCalm(s, dev, pinned);
    forall x: nat ensures x in pinned + {b} <==> Pinned(t, Key(dev, x)) {
      if x in pinned && x != b {
        assert Pinned(s, Key(dev, x));
        var j :| 0 <= j < |s.bufs| && s.bufs[j].dirty && s.bufs[j].key == Key(dev, x);
        assert j != i && t.bufs[j].dirty && t.bufs[j].key == Key(dev, x);
      } else if x != b && Pinned(t, Key(dev, x)) {
        var j :| 0 <= j < |t.bufs| && t.bufs[j].dirty && t.bufs[j].key == Key(dev, x);
        assert s.bufs[j].dirty && s.bufs[j].key == Key(dev, x);
        assert Pinned(s, Key(dev, x));
      } else if x == b {
        assert t.bufs[i].dirty && t.bufs[i].key == Key(dev, x);
      }
    }
  }
}
