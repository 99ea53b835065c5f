/** The on-disk redo log of log.c, as a function of the disk contents.

    The disk changes one block at a time: a block is one sector, and a sector
    write is atomic. A commit and a recovery are therefore sequences of single
    block writes, and a crash leaves the disk as some prefix of such a sequence
    made it. Everything here is a value; `LogManager` holds the loops that
    perform these writes through the buffer cache. */
module WriteAheadLog {

  const LOGSIZE: nat := 30
  const NWORDS: nat := 128   // BSIZE / sizeof(int)

  /** A disk block, seen as the array of ints that `struct logheader` overlays. */
  datatype Block = Block(words: seq<nat>)

  type Disk = seq<Block>

  /** Where the log lives: `log.start` is the header block, `log.size` counts it and the slots. */
  datatype Layout = Layout(start: nat, size: nat)

  /** One block write that reaches the disk. */
  datatype Write = Write(blockno: nat, data: Block)

  ghost predicate InLog(lay: Layout, b: int) {
    lay.start <= b < lay.start + lay.size
  }

  /** A block number that the log may carry: on the disk, outside the log itself. */
  ghost predicate IsHome(d: Disk, lay: Layout, b: int) {
    0 <= b < |d| && !InLog(lay, b)
  }

  ghost predicate ValidLayout(d: Disk, lay: Layout) {
    0 < lay.size && lay.start + lay.size <= |d| && |d[lay.start].words| == NWORDS
  }

  /** A list of logged block numbers that fits the header and the slots. */
  ghost predicate ValidList(d: Disk, lay: Layout, lh: seq<nat>) {
    && |lh| <= LOGSIZE
    && |lh| < lay.size
    && forall i | 0 <= i < |lh| :: IsHome(d, lay, lh[i])
  }

  /** The block list a header block records (`read_head`). */
  function HeaderList(h: Block): seq<nat>
    requires |h.words| == NWORDS && h.words[0] <= LOGSIZE
  {
    h.words[1..1 + h.words[0]]
  }

  /** What `write_head` makes of the header's buffer: the count and `n` entries
      are stored, later words keep their old values. */
  function PutHeader(h: Block, lh: seq<nat>): (r: Block)
    requires |h.words| == NWORDS && |lh| <= LOGSIZE
    ensures |r.words| == NWORDS && r.words[0] == |lh| && HeaderList(r) == lh
  {
    Block([|lh|] + lh + h.words[1 + |lh|..])
  }

  /** A disk on which recovery is safe: the header lists home blocks and fits. */
  ghost predicate Sound(d: Disk, lay: Layout) {
    && ValidLayout(d, lay)
    && d[lay.start].words[0] <= LOGSIZE
    && ValidList(d, lay, HeaderList(d[lay.start]))
  }

  ghost predicate EmptyLog(d: Disk, lay: Layout) {
    ValidLayout(d, lay) && d[lay.start].words[0] == 0
  }

  ghost predicate OnDisk(n: nat, ws: seq<Write>) {
    forall i | 0 <= i < |ws| :: ws[i].blockno < n
  }

  /** The disk after the first k of the writes ws. */
  ghost function Apply(d: Disk, ws: seq<Write>, k: nat): (r: Disk)
    requires OnDisk(|d|, ws) && k <= |ws|
    ensures |r| == |d|
  {
    if k == 0 then d else Apply(d, ws, k - 1)[ws[k - 1].blockno := ws[k - 1].data]
  }

  /** The i-th block write of commit(): n slots, the header, n home blocks, the empty header. */
  function CommitWrite(mem: Disk, h: Block, lay: Layout, lh: seq<nat>, i: nat): Write
    requires |h.words| == NWORDS && |lh| <= LOGSIZE && i < 2 * |lh| + 2
    requires forall j | 0 <= j < |lh| :: lh[j] < |mem|
  {
    var n := |lh|;
    if i < n then Write(lay.start + 1 + i, mem[lh[i]])
    else if i == n then Write(lay.start, PutHeader(h, lh))
    else if i <= 2 * n then Write(lh[i - n - 1], mem[lh[i - n - 1]])
    else Write(lay.start, PutHeader(PutHeader(h, lh), []))
  }

  /** Every block write of commit(), in order. */
  function CommitWrites(mem: Disk, h: Block, lay: Layout, lh: seq<nat>): seq<Write>
    requires |h.words| == NWORDS && |lh| <= LOGSIZE
    requires forall j | 0 <= j < |lh| :: lh[j] < |mem|
  {
    seq(2 * |lh| + 2, i requires 0 <= i < 2 * |lh| + 2 => CommitWrite(mem, h, lay, lh, i))
  }

  /** The i-th block write of recover_from_log(): n home blocks, the empty header. */
  function RecoveryWrite(d: Disk, lay: Layout, lh: seq<nat>, i: nat): Write
    requires ValidLayout(d, lay) && ValidList(d, lay, lh) && i <= |lh|
  {
    if i < |lh| then Write(lh[i], d[lay.start + 1 + i])
    else Write(lay.start, PutHeader(d[lay.start], []))
  }

  /** Every block write of recover_from_log(), in order. */
  function RecoveryWrites(d: Disk, lay: Layout): seq<Write>
    requires Sound(d, lay)
  {
    var lh := HeaderList(d[lay.start]);
    seq(|lh| + 1, i requires 0 <= i <= |lh| => RecoveryWrite(d, lay, lh, i))
  }

  /** The last position of b in s, or -1. */
  ghost function LastIndex(s: seq<nat>, b: int): (i: int)
    ensures -1 <= i < |s|
    ensures i >= 0 ==> s[i] == b && forall j | i < j < |s| :: s[j] != b
    ensures i == -1 ==> b !in s
  {
    if s == [] then -1
    else if s[|s| - 1] == b then |s| - 1
    else LastIndex(s[..|s| - 1], b)
  }

  /** The i-th slot of the log. */
  ghost function Slot(d: Disk, lay: Layout, i: int): Block
    requires 0 <= i && lay.start + 1 + i < |d|
  {
    d[lay.start + 1 + i]
  }

  /** What home block b holds once the log on d has been replayed. */
  ghost function Redo(d: Disk, lay: Layout, b: int): Block
    requires Sound(d, lay) && 0 <= b < |d|
  {
    var i := LastIndex(HeaderList(d[lay.start]), b);
    if i < 0 then d[b] else Slot(d, lay, i)
  }

  /** The disk d stands for the home blocks of `want`: that is what recovery would leave. */
  ghost predicate Means(d: Disk, lay: Layout, want: Disk) {
    && Sound(d, lay) && |want| == |d|
    && forall b | IsHome(d, lay, b) :: Redo(d, lay, b) == want[b]
  }

  /** The disk with every logged block replaced by its cached contents. */
  ghost function Updated(d: Disk, mem: Disk, lh: seq<nat>): (r: Disk)
    requires |mem| == |d|
    ensures |r| == |d|
  {
    seq(|d|, b requires 0 <= b < |d| => if b in lh then mem[b] else d[b])
  }

  // ------------------------------------------------------------------
  // Writes, block by block

  lemma {:induction false} ApplyUntouched(d: Disk, ws: seq<Write>, k: nat, b: nat)
    requires OnDisk(|d|, ws) && k <= |ws| && b < |d|
    requires forall i | 0 <= i < k :: ws[i].blockno != b
    ensures Apply(d, ws, k)[b] == d[b]
  {
    if k > 0 { ApplyUntouched(d, ws, k - 1, b); }
  }

  /** The last write to a block decides what it holds. */
  lemma {:induction false} ApplyLast(d: Disk, ws: seq<Write>, k: nat, i: nat)
    requires OnDisk(|d|, ws) && i < k <= |ws|
    requires forall j | i < j < k :: ws[j].blockno != ws[i].blockno
    ensures Apply(d, ws, k)[ws[i].blockno] == ws[i].data
  {
    if i < k - 1 { ApplyLast(d, ws, k - 1, i); }
  }

  /** When every write to a block carries the same data, any of them decides. */
  lemma {:induction false} ApplySame(d: Disk, ws: seq<Write>, k: nat, i: nat)
    requires OnDisk(|d|, ws) && i < k <= |ws|
    requires forall j | 0 <= j < k && ws[j].blockno == ws[i].blockno :: ws[j].data == ws[i].data
    ensures Apply(d, ws, k)[ws[i].blockno] == ws[i].data
  {
    if i < k - 1 { ApplySame(d, ws, k - 1, i); }
  }

  // ------------------------------------------------------------------
  // Recovery

  lemma RecoveryOnDisk(d: Disk, lay: Layout)
    requires Sound(d, lay)
    ensures OnDisk(|d|, RecoveryWrites(d, lay))
    ensures |RecoveryWrites(d, lay)| == |HeaderList(d[lay.start])| + 1
  {
  }

  /** One home block, k writes into recovery. */
  lemma RecoveryBlock(d: Disk, lay: Layout, k: nat, b: nat)
    requires Sound(d, lay) && k <= |HeaderList(d[lay.start])| && IsHome(d, lay, b)
    requires OnDisk(|d|, RecoveryWrites(d, lay)) && k <= |RecoveryWrites(d, lay)|
    ensures var e := Apply(d, RecoveryWrites(d, lay), k);
      e[lay.start] == d[lay.start] && Redo(e, lay, b) == Redo(d, lay, b)
  {
    var lh := HeaderList(d[lay.start]);
    var ws := RecoveryWrites(d, lay);
    var i := LastIndex(lh, b);
    ApplyUntouched(d, ws, k, lay.start);
    ApplyUntouched(d, ws, k, if i < 0 then b else lay.start + 1 + i);
  }

  /** One home block after the last write of recovery. */
  lemma RecoveredBlock(d: Disk, lay: Layout, b: nat)
    requires Sound(d, lay) && IsHome(d, lay, b) && OnDisk(|d|, RecoveryWrites(d, lay))
    ensures Apply(d, RecoveryWrites(d, lay), |RecoveryWrites(d, lay)|)[b] == Redo(d, lay, b)
  {
    var ws := RecoveryWrites(d, lay);
    var i := LastIndex(HeaderList(d[lay.start]), b);
    if i < 0 { ApplyUntouched(d, ws, |ws|, b); } else { ApplyLast(d, ws, |ws|, i); }
  }

  /** A crash at any point of recovery leaves a disk with the same meaning,
      and a completed recovery leaves the log empty. */
  lemma RecoveryPrefix(d: Disk, lay: Layout, want: Disk, k: nat)
    requires Means(d, lay, want) && k <= |RecoveryWrites(d, lay)|
    ensures OnDisk(|d|, RecoveryWrites(d, lay))
    ensures Means(Apply(d, RecoveryWrites(d, lay), k), lay, want)
    ensures k == |RecoveryWrites(d, lay)| ==> EmptyLog(Apply(d, RecoveryWrites(d, lay), k), lay)
  {
    RecoveryOnDisk(d, lay);
    var ws := RecoveryWrites(d, lay);
    if k < |ws| {
      ApplyUntouched(d, ws, k, lay.start);
      forall b | IsHome(d, lay, b) ensures Redo(Apply(d, ws, k), lay, b) == want[b] { RecoveryBlock(d, lay, k, b); }
    } else {
      forall b | IsHome(d, lay, b) ensures Apply(d, ws, k)[b] == want[b] { RecoveredBlock(d, lay, b); }
    }
  }

  /** The disk after a recovery that ran to completion. */
  ghost function Recovered(d: Disk, lay: Layout): (r: Disk)
    requires Sound(d, lay)
    ensures |r| == |d| && EmptyLog(r, lay)
    ensures forall b | IsHome(d, lay, b) :: r[b] == Redo(d, lay, b)
  {
    var ws := RecoveryWrites(d, lay);
    var want := seq(|d|, b requires 0 <= b < |d| => Redo(d, lay, b));
    RecoveryPrefix(d, lay, want, |ws|);
    Apply(d, ws, |ws|)
  }

  /** e is what recovery of d leaves when it is cut short after ks[0] writes,
      started again, cut short after ks[1] writes, and so on. */
  ghost predicate InterruptedRecovery(d: Disk, lay: Layout, ks: seq<nat>, e: Disk)
    decreases |ks|
  {
    if ks == [] then e == d
    else
      && Sound(d, lay)
      && ks[0] <= |RecoveryWrites(d, lay)|
      && OnDisk(|d|, RecoveryWrites(d, lay))
      && InterruptedRecovery(Apply(d, RecoveryWrites(d, lay), ks[0]), lay, ks[1..], e)
  }

  lemma {:induction false} InterruptedKeepsMeaning(d: Disk, lay: Layout, want: Disk, ks: seq<nat>, e: Disk)
    requires Means(d, lay, want) && InterruptedRecovery(d, lay, ks, e)
    ensures Means(e, lay, want)
    decreases |ks|
  {
    if ks != [] {
      RecoveryPrefix(d, lay, want, ks[0]);
      InterruptedKeepsMeaning(Apply(d, RecoveryWrites(d, lay), ks[0]), lay, want, ks[1..], e);
    }
  }

  // ------------------------------------------------------------------
  // Commit

  /** What a commit starts from: an empty log, and a transaction that fits it. */
  ghost predicate CommitReady(d: Disk, mem: Disk, lay: Layout, lh: seq<nat>) {
    EmptyLog(d, lay) && ValidList(d, lay, lh) && |mem| == |d|
  }

  /** Where the writes of a commit go: n slots, the header, n home blocks, the header. */
  ghost predicate CommitTargets(d: Disk, lay: Layout, n: nat, ws: seq<Write>) {
    && |ws| == 2 * n + 2 && OnDisk(|d|, ws)
    && (forall i | 0 <= i < n :: ws[i].blockno == lay.start + 1 + i)
    && ws[n].blockno == ws[2 * n + 1].blockno == lay.start
    && (forall i | n < i <= 2 * n :: IsHome(d, lay, ws[i].blockno))
  }

  /** The home blocks written are logged ones and get their cached contents. */
  ghost predicate HomesFromCache(mem: Disk, lh: seq<nat>, ws: seq<Write>)
    requires |ws| == 2 * |lh| + 2 && OnDisk(|mem|, ws)
  {
    forall i | |lh| < i <= 2 * |lh| :: ws[i].blockno in lh && ws[i].data == mem[ws[i].blockno]
  }

  lemma CommitWritesShape(d: Disk, mem: Disk, lay: Layout, lh: seq<nat>)
    requires CommitReady(d, mem, lay, lh)
    ensures CommitTargets(d, lay, |lh|, CommitWrites(mem, d[lay.start], lay, lh))
    ensures HomesFromCache(mem, lh, CommitWrites(mem, d[lay.start], lay, lh))
  {
    var n := |lh|;
    var ws := CommitWrites(mem, d[lay.start], lay, lh);
    forall i | n < i <= 2 * n ensures IsHome(d, lay, ws[i].blockno) && ws[i].blockno in lh {
      assert IsHome(d, lay, lh[i - n - 1]);
    }
  }

  lemma HomeUntouched(d: Disk, mem: Disk, lay: Layout, lh: seq<nat>, ws: seq<Write>, k: nat, b: nat)
    requires CommitTargets(d, lay, |lh|, ws) && |mem| == |d| && HomesFromCache(mem, lh, ws) && |lh| < lay.size
    requires k <= |ws| && IsHome(d, lay, b) && (b !in lh || k <= |lh|)
    ensures Apply(d, ws, k)[b] == d[b]
  {
    ApplyUntouched(d, ws, k, b);
  }

  lemma HomeInstalled(d: Disk, mem: Disk, lay: Layout, lh: seq<nat>, ws: seq<Write>, i: nat)
    requires CommitTargets(d, lay, |lh|, ws) && |mem| == |d| && HomesFromCache(mem, lh, ws) && |lh| < lay.size
    requires |lh| < i <= 2 * |lh|
    ensures Apply(d, ws, |ws|)[ws[i].blockno] == mem[ws[i].blockno]
  {
    ApplySame(d, ws, |ws|, i);
  }

  lemma SlotSurvives(d: Disk, lay: Layout, n: nat, ws: seq<Write>, k: nat, i: nat)
    requires CommitTargets(d, lay, n, ws) && n < lay.size && i <= n < k <= 2 * n + 1
    ensures Apply(d, ws, k)[ws[i].blockno] == ws[i].data
  {
    ApplyLast(d, ws, k, i);
  }

  /** Until the header is written the disk means what it meant. */
  lemma BeforeCommitPoint(d: Disk, mem: Disk, lay: Layout, lh: seq<nat>, k: nat)
    requires CommitReady(d, mem, lay, lh) && k <= |lh|
    requires OnDisk(|d|, CommitWrites(mem, d[lay.start], lay, lh))
    ensures Means(Apply(d, CommitWrites(mem, d[lay.start], lay, lh), k), lay, d)
  {
    var ws := CommitWrites(mem, d[lay.start], lay, lh);
    CommitWritesShape(d, mem, lay, lh);
    ApplyUntouched(d, ws, k, lay.start);
    forall b | IsHome(d, lay, b) ensures Apply(d, ws, k)[b] == d[b] { HomeUntouched(d, mem, lay, lh, ws, k, b); }
  }

  /** A disk whose header lists lh, whose slots hold the cached blocks, and whose
      home blocks outside lh are those of d, means the updated disk. */
  lemma LoggedMeansUpdated(d: Disk, mem: Disk, lay: Layout, lh: seq<nat>, e: Disk)
    requires ValidLayout(d, lay) && ValidList(d, lay, lh) && |mem| == |d| == |e|
    requires |e[lay.start].words| == NWORDS && e[lay.start].words[0] <= LOGSIZE && HeaderList(e[lay.start]) == lh
    requires forall i | 0 <= i < |lh| :: Slot(e, lay, i) == mem[lh[i]]
    requires forall b | IsHome(d, lay, b) && b !in lh :: e[b] == d[b]
    ensures Means(e, lay, Updated(d, mem, lh))
  {
    forall b | IsHome(d, lay, b) ensures Redo(e, lay, b) == Updated(d, mem, lh)[b] {
      var i := LastIndex(lh, b);
    }
  }

  /** With the slots and the header written, and any number of home blocks installed,
      the disk means the updated one. */
  lemma AfterCommitPoint(d: Disk, mem: Disk, lay: Layout, lh: seq<nat>, k: nat)
    requires CommitReady(d, mem, lay, lh) && |lh| < k <= 2 * |lh| + 1
    requires OnDisk(|d|, CommitWrites(mem, d[lay.start], lay, lh))
    ensures Means(Apply(d, CommitWrites(mem, d[lay.start], lay, lh), k), lay, Updated(d, mem, lh))
  {
    var ws := CommitWrites(mem, d[lay.start], lay, lh);
    var e := Apply(d, ws, k);
    CommitWritesShape(d, mem, lay, lh);
    SlotSurvives(d, lay, |lh|, ws, k, |lh|);
    forall i | 0 <= i < |lh| ensures Slot(e, lay, i) == mem[lh[i]] { SlotSurvives(d, lay, |lh|, ws, k, i); }
    forall b | IsHome(d, lay, b) && b !in lh ensures e[b] == d[b] { HomeUntouched(d, mem, lay, lh, ws, k, b); }
    LoggedMeansUpdated(d, mem, lay, lh, e);
  }

  /** One home block after the last write of commit(). */
  lemma CommittedBlock(d: Disk, mem: Disk, lay: Layout, lh: seq<nat>, b: nat)
    requires CommitReady(d, mem, lay, lh) && IsHome(d, lay, b)
    requires OnDisk(|d|, CommitWrites(mem, d[lay.start], lay, lh))
    ensures Apply(d, CommitWrites(mem, d[lay.start], lay, lh), 2 * |lh| + 2)[b] == Updated(d, mem, lh)[b]
  {
    CommitWritesShape(d, mem, lay, lh);
    var at := InstallOf(d, mem, lay, lh, b);
    HomeInTheEnd(d, mem, lay, lh, CommitWrites(mem, d[lay.start], lay, lh), b, at);
  }

  lemma HomeInTheEnd(d: Disk, mem: Disk, lay: Layout, lh: seq<nat>, ws: seq<Write>, b: nat, at: nat)
    requires CommitTargets(d, lay, |lh|, ws) && |mem| == |d| && HomesFromCache(mem, lh, ws) && |lh| < lay.size
    requires IsHome(d, lay, b) && (b in lh ==> |lh| < at <= 2 * |lh| && ws[at].blockno == b)
    ensures Apply(d, ws, |ws|)[b] == if b in lh then mem[b] else d[b]
  {
    if b in lh { HomeInstalled(d, mem, lay, lh, ws, at); } else { HomeUntouched(d, mem, lay, lh, ws, |ws|, b); }
  }

  /** The write of commit() that installs logged block b. */
  lemma InstallOf(d: Disk, mem: Disk, lay: Layout, lh: seq<nat>, b: nat) returns (at: nat)
    requires CommitReady(d, mem, lay, lh)
    ensures b in lh ==> |lh| < at <= 2 * |lh| && CommitWrites(mem, d[lay.start], lay, lh)[at].blockno == b
  {
    at := 0;
    if b !in lh { return; }
    var i :| 0 <= i < |lh| && lh[i] == b;
    at := |lh| + 1 + i;
    assert CommitWrite(mem, d[lay.start], lay, lh, at).blockno == lh[i];
  }

  lemma EmptyMeans(e: Disk, lay: Layout, want: Disk)
    requires EmptyLog(e, lay) && |want| == |e|
    requires forall b | IsHome(e, lay, b) :: e[b] == want[b]
    ensures Means(e, lay, want)
  {
  }

  /** A completed commit leaves the updated home blocks and an empty log. */
  lemma CommitComplete(d: Disk, mem: Disk, lay: Layout, lh: seq<nat>)
    requires CommitReady(d, mem, lay, lh) && OnDisk(|d|, CommitWrites(mem, d[lay.start], lay, lh))
    ensures var e := Apply(d, CommitWrites(mem, d[lay.start], lay, lh), 2 * |lh| + 2);
      EmptyLog(e, lay) && Means(e, lay, Updated(d, mem, lh))
  {
    var ws := CommitWrites(mem, d[lay.start], lay, lh);
    var e := Apply(d, ws, |ws|);
    CommitWritesShape(d, mem, lay, lh);
    assert ws[2 * |lh| + 1].data == PutHeader(PutHeader(d[lay.start], lh), []);
    ApplyLast(d, ws, |ws|, 2 * |lh| + 1);
    forall b | IsHome(e, lay, b) ensures e[b] == Updated(d, mem, lh)[b] { CommittedBlock(d, mem, lay, lh, b); }
    EmptyMeans(e, lay, Updated(d, mem, lh));
  }

  /** What the disk means after the first k block writes of commit(). */
  lemma CommitPrefix(d: Disk, mem: Disk, lay: Layout, lh: seq<nat>, k: nat)
    requires CommitReady(d, mem, lay, lh) && k <= 2 * |lh| + 2
    ensures OnDisk(|d|, CommitWrites(mem, d[lay.start], lay, lh))
    ensures Means(Apply(d, CommitWrites(mem, d[lay.start], lay, lh), k), lay,
                  if k <= |lh| then d else Updated(d, mem, lh))
    ensures k == 2 * |lh| + 2 ==> EmptyLog(Apply(d, CommitWrites(mem, d[lay.start], lay, lh), k), lay)
  {
    CommitWritesShape(d, mem, lay, lh);
    if k <= |lh| {
      BeforeCommitPoint(d, mem, lay, lh, k);
    } else if k <= 2 * |lh| + 1 {
      AfterCommitPoint(d, mem, lay, lh, k);
    } else {
      CommitComplete(d, mem, lay, lh);
    }
  }

  /** Crash atomicity. Crash after any k block writes of commit(), crash again any
      number of times inside recovery, then let one recovery complete: the home blocks
      are those of before the commit when the header had not been written, and those with
      every logged block updated when it had. There is no third outcome. */
  lemma CrashAtomicity(d: Disk, mem: Disk, lay: Layout, lh: seq<nat>, k: nat, ks: seq<nat>, e: Disk)
    requires CommitReady(d, mem, lay, lh) && k <= |CommitWrites(mem, d[lay.start], lay, lh)|
    requires OnDisk(|d|, CommitWrites(mem, d[lay.start], lay, lh))
    requires InterruptedRecovery(Apply(d, CommitWrites(mem, d[lay.start], lay, lh), k), lay, ks, e)
    ensures Sound(e, lay) && |e| == |d| && EmptyLog(Recovered(e, lay), lay)
    ensures forall b | IsHome(d, lay, b) ::
      Recovered(e, lay)[b] == if k > |lh| && b in lh then mem[b] else d[b]
  {
    CommitPrefix(d, mem, lay, lh, k);
    var want := if k <= |lh| then d else Updated(d, mem, lh);
    InterruptedKeepsMeaning(Apply(d, CommitWrites(mem, d[lay.start], lay, lh), k), lay, want, ks, e);
  }
}
