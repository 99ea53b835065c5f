/** The buffer cache of bio.c: NBUF buffers on a least-recently-used list in front of
    the disks, with the steps processes take on it.

    bread is Get, Lock and Fill; brelse is Unlock and Put. They are separate steps
    because bcache.lock is released between them and other processes may step in. */
module BufferCache {
  import opened WriteAheadLog

  const NBUF: nat := 30

  datatype Key = Key(dev: nat, blockno: nat)

  /** struct buf without its links; flags are B_VALID and B_DIRTY. */
  datatype Buf = Buf(key: Key, valid: bool, dirty: bool, refcnt: nat, locked: bool, data: Block)

  /** The disks by device number. */
  type Disks = map<nat, Disk>

  predicate Has(ds: Disks, k: Key) {
    k.dev in ds && k.blockno < |ds[k.dev]|
  }

  function Load(ds: Disks, k: Key): Block
    requires Has(ds, k)
  {
    ds[k.dev][k.blockno]
  }

  function Store(ds: Disks, k: Key, v: Block): Disks
    requires Has(ds, k)
  {
    var d: Disk := ds[k.dev][k.blockno := v];
    ds[k.dev := d]
  }

  /** `order` is the list from head.next on: most recently used first. `touched` holds
      the buffers whose holder has changed data and not yet called bwrite or log_write.
      `plain` is the specification: a map of blocks with no cache in front of it. */
  datatype Cache = Cache(bufs: seq<Buf>, order: seq<nat>, disks: Disks, touched: set<nat>, plain: Disks)

  datatype Outcome = Next(s: Cache, i: nat) | Disabled | PanicNoBuffers | PanicDisk

  // ------------------------------------------------------------------
  // Searching the list

  /** The position of the first buffer for k, or |order|. */
  ghost function FirstFor(bufs: seq<Buf>, order: seq<nat>, k: Key, p: nat): (r: nat)
    requires p <= |order| && forall q | 0 <= q < |order| :: order[q] < |bufs|
    ensures p <= r <= |order|
    ensures forall q | p <= q < r :: bufs[order[q]].key != k
    ensures r < |order| ==> bufs[order[r]].key == k
    decreases |order| - p
  {
    if p == |order| || bufs[order[p]].key == k then p else FirstFor(bufs, order, k, p + 1)
  }

  predicate Reusable(b: Buf) {
    b.refcnt == 0 && !b.dirty
  }

  /** One past the position of the last reusable buffer among the first p, or 0. */
  ghost function LastReusable(bufs: seq<Buf>, order: seq<nat>, p: nat): (r: nat)
    requires p <= |order| && forall q | 0 <= q < |order| :: order[q] < |bufs|
    ensures r <= p
    ensures forall q | r <= q < p :: !Reusable(bufs[order[q]])
    ensures r > 0 ==> Reusable(bufs[order[r - 1]])
  {
    if p == 0 || Reusable(bufs[order[p - 1]]) then p else LastReusable(bufs, order, p - 1)
  }

  ghost predicate InOrder(s: Cache) {
    forall q | 0 <= q < |s.order| :: s.order[q] < |s.bufs|
  }

  // ------------------------------------------------------------------
  // Steps

  /** The part of bget under bcache.lock: reference a cached buffer, or recycle one. */
  ghost function Get(s: Cache, k: Key): Outcome
    requires InOrder(s)
  {
    var p := FirstFor(s.bufs, s.order, k, 0);
    if p < |s.order| then
      var i := s.order[p];
      Next(s.(bufs := s.bufs[i := s.bufs[i].(refcnt := s.bufs[i].refcnt + 1)]), i)
    else
      var r := LastReusable(s.bufs, s.order, |s.order|);
      if r == 0 then PanicNoBuffers
      else
        var i := s.order[r - 1];
        Next(s.(bufs := s.bufs[i := s.bufs[i].(key := k, valid := false, dirty := false, refcnt := 1)]), i)
  }

  /** acquiresleep returns. */
  ghost function Lock(s: Cache, i: nat): Outcome {
    if i >= |s.bufs| || s.bufs[i].refcnt == 0 || s.bufs[i].locked then Disabled
    else Next(s.(bufs := s.bufs[i := s.bufs[i].(locked := true)]), i)
  }

  /** bread's iderw: read the block unless the buffer is valid. */
  ghost function Fill(s: Cache, i: nat): Outcome {
    if i >= |s.bufs| || !s.bufs[i].locked then Disabled
    else if s.bufs[i].valid then Next(s, i)
    else if !Has(s.disks, s.bufs[i].key) then PanicDisk
    else Next(s.(bufs := s.bufs[i := s.bufs[i].(valid := true, data := Load(s.disks, s.bufs[i].key))]), i)
  }

  ghost predicate Holds(s: Cache, i: nat) {
    i < |s.bufs| && s.bufs[i].locked && s.bufs[i].valid && Has(s.disks, s.bufs[i].key) && Has(s.plain, s.bufs[i].key)
  }

  /** The holder changes the data; the plain map changes with it. */
  ghost function Modify(s: Cache, i: nat, v: Block): Outcome {
    if !Holds(s, i) then Disabled
    else Next(s.(bufs := s.bufs[i := s.bufs[i].(data := v)], touched := s.touched + {i},
                 plain := Store(s.plain, s.bufs[i].key, v)), i)
  }

  /** log_write marks the buffer dirty, which pins it. */
  ghost function LogWrite(s: Cache, i: nat): Outcome {
    if !Holds(s, i) then Disabled
    else Next(s.(bufs := s.bufs[i := s.bufs[i].(dirty := true)], touched := s.touched - {i}), i)
  }

  /** bwrite: the data reaches the disk and the buffer is clean. */
  ghost function Bwrite(s: Cache, i: nat): Outcome {
    if !Holds(s, i) then Disabled
    else Next(s.(bufs := s.bufs[i := s.bufs[i].(dirty := false)], touched := s.touched - {i},
                 disks := Store(s.disks, s.bufs[i].key, s.bufs[i].data)), i)
  }

  /** brelse's releasesleep. The interface asks that changes were passed to bwrite or log_write. */
  ghost function Unlock(s: Cache, i: nat): Outcome {
    if i >= |s.bufs| || !s.bufs[i].locked || i in s.touched then Disabled
    else Next(s.(bufs := s.bufs[i := s.bufs[i].(locked := false)]), i)
  }

  ghost function Without(order: seq<nat>, i: nat): seq<nat> {
    if order == [] then []
    else if order[0] == i then order[1..]
    else [order[0]] + Without(order[1..], i)
  }

  /** The rest of brelse: drop the reference; the last one moves the buffer to the front. */
  ghost function Put(s: Cache, i: nat): Outcome {
    if i >= |s.bufs| || s.bufs[i].refcnt == 0 || (s.bufs[i].locked && s.bufs[i].refcnt == 1) then Disabled
    else
      var t := s.(bufs := s.bufs[i := s.bufs[i].(refcnt := s.bufs[i].refcnt - 1)]);
      Next(if s.bufs[i].refcnt == 1 then t.(order := [i] + Without(s.order, i)) else t, i)
  }

  datatype Event =
    | EGet(k: Key) | ELock(i: nat) | EFill(i: nat) | EModify(i: nat, v: Block)
    | ELogWrite(i: nat) | EBwrite(i: nat) | EUnlock(i: nat) | EPut(i: nat)

  ghost function Step(s: Cache, e: Event): Outcome
    requires InOrder(s)
  {
    match e
    case EGet(k) => Get(s, k)
    case ELock(i) => Lock(s, i)
    case EFill(i) => Fill(s, i)
    case EModify(i, v) => Modify(s, i, v)
    case ELogWrite(i) => LogWrite(s, i)
    case EBwrite(i) => Bwrite(s, i)
    case EUnlock(i) => Unlock(s, i)
    case EPut(i) => Put(s, i)
  }

  // ------------------------------------------------------------------
  // The invariant

  /** The zeroed buffers of boot all carry this key. */
  const ZERO := Key(0, 0)

  /** Carries the zero key but caches nothing for anyone. */
  predicate Blank(b: Buf) {
    b.key == ZERO && b.refcnt == 0 && !b.valid
  }

  /** The list is a permutation of all buffers. */
  ghost predicate Permutation(s: Cache) {
    && |s.order| == |s.bufs| && InOrder(s)
    && (forall p, q | 0 <= p < q < |s.order| :: s.order[p] != s.order[q])
    && (forall i | 0 <= i < |s.bufs| :: i in s.order)
  }

  /** At most one buffer caches a given block. */
  ghost predicate Unique(s: Cache) {
    forall i, j | 0 <= i < j < |s.bufs| && s.bufs[i].key == s.bufs[j].key ::
      Blank(s.bufs[i]) || Blank(s.bufs[j])
  }

  /** A buffer in use for block (0, 0) comes before all blank ones, so bget finds it first. */
  ghost predicate BlanksLast(s: Cache)
    requires InOrder(s)
  {
    forall p, q | 0 <= p < q < |s.order| ::
      Blank(s.bufs[s.order[p]]) && s.bufs[s.order[q]].key == ZERO ==> Blank(s.bufs[s.order[q]])
  }

  ghost predicate Flags(s: Cache) {
    forall i | 0 <= i < |s.bufs| ::
      && (s.bufs[i].locked ==> s.bufs[i].refcnt > 0)
      && (s.bufs[i].dirty ==> s.bufs[i].valid)
      && (i in s.touched ==> s.bufs[i].locked && s.bufs[i].valid)
  }

  /** A valid buffer holds what the plain map holds, and, when clean, what the disk holds. */
  ghost predicate Coherent(s: Cache) {
    && s.plain.Keys == s.disks.Keys
    && (forall d | d in s.disks :: |s.plain[d]| == |s.disks[d]|)
    && (forall i | 0 <= i < |s.bufs| && s.bufs[i].valid ::
          && Has(s.disks, s.bufs[i].key)
          && s.bufs[i].data == Load(s.plain, s.bufs[i].key)
          && (!s.bufs[i].dirty && i !in s.touched ==> s.bufs[i].data == Load(s.disks, s.bufs[i].key)))
  }

  ghost predicate Cached(s: Cache, k: Key) {
    exists i :: 0 <= i < |s.bufs| && s.bufs[i].key == k && s.bufs[i].valid
  }

  /** A block no valid buffer caches is on disk what the plain map holds. */
  ghost predicate UncachedOnDisk(s: Cache)
    requires Coherent(s)
  {
    forall k: Key | Has(s.disks, k) && !Cached(s, k) :: Load(s.disks, k) == Load(s.plain, k)
  }

  ghost predicate Inv(s: Cache) {
    Permutation(s) && Unique(s) && BlanksLast(s) && Flags(s) && Coherent(s) && UncachedOnDisk(s)
  }

  // ------------------------------------------------------------------
  // Preservation

  lemma {:induction false} WithoutProperties(order: seq<nat>, i: nat)
    requires i in order && forall p, q | 0 <= p < q < |order| :: order[p] != order[q]
    ensures |Without(order, i)| == |order| - 1
    ensures exists p: nat :: p < |order| && order[p] == i && Without(order, i) == order[..p] + order[p + 1..]
  {
    if order[0] == i {
      assert Without(order, i) == order[..0] + order[0 + 1..];
    } else {
      WithoutProperties(order[1..], i);
      var p: nat :| p < |order[1..]| && order[1..][p] == i
        && Without(order[1..], i) == order[1..][..p] + order[1..][p + 1..];
      assert order[p + 1] == i;
      assert Without(order, i) == order[..p + 1] + order[p + 1 + 1..];
    }
  }

  lemma GetFindsUser(s: Cache, k: Key, j: nat)
    requires Inv(s) && j < |s.bufs| && s.bufs[j].key == k && !Blank(s.bufs[j])
    ensures FirstFor(s.bufs, s.order, k, 0) < |s.order| && s.order[FirstFor(s.bufs, s.order, k, 0)] == j
  {
    assert j in s.order;
    var q :| 0 <= q < |s.order| && s.order[q] == j;
    var p := FirstFor(s.bufs, s.order, k, 0);
    assert p <= q;
    assert p == q;
  }

  lemma GetHitInv(s: Cache, k: Key)
    requires Inv(s) && FirstFor(s.bufs, s.order, k, 0) < |s.order|
    ensures Inv(Get(s, k).s)
  {
    var p := FirstFor(s.bufs, s.order, k, 0);
    var i := s.order[p];
    var t := Get(s, k).s;
    forall a, b | 0 <= a < b < |t.bufs| && t.bufs[a].key == t.bufs[b].key
      ensures Blank(t.bufs[a]) || Blank(t.bufs[b])
    {
      if a == i && !Blank(s.bufs[b]) { GetFindsUser(s, k, b); }
      if b == i && !Blank(s.bufs[a]) { GetFindsUser(s, k, a); }
    }
    CachedSame(s, t);
  }

  lemma NoneFor(s: Cache, k: Key)
    requires Permutation(s) && FirstFor(s.bufs, s.order, k, 0) == |s.order|
    ensures forall j | 0 <= j < |s.bufs| :: s.bufs[j].key != k
  {
    forall j | 0 <= j < |s.bufs| ensures s.bufs[j].key != k {
      assert j in s.order;
      var q :| 0 <= q < |s.order| && s.order[q] == j;
    }
  }

  lemma GetMissOrder(s: Cache, k: Key)
    requires Inv(s) && FirstFor(s.bufs, s.order, k, 0) == |s.order| && Get(s, k).Next?
    ensures var t := Get(s, k).s; Permutation(t) && Unique(t) && BlanksLast(t) && Flags(t)
  {
    NoneFor(s, k);
    var i := s.order[LastReusable(s.bufs, s.order, |s.order|) - 1];
    if s.bufs[i].key == ZERO && !Blank(s.bufs[i]) {
      // every blank buffer would come later in the list and be reusable
      forall q | 0 <= q < |s.order| ensures !Blank(s.bufs[s.order[q]]) {}
    }
  }

  lemma GetMissContents(s: Cache, k: Key)
    requires Inv(s) && FirstFor(s.bufs, s.order, k, 0) == |s.order| && Get(s, k).Next?
    ensures var t := Get(s, k).s; Coherent(t) && UncachedOnDisk(t)
  {
    NoneFor(s, k);
    var i := s.order[LastReusable(s.bufs, s.order, |s.order|) - 1];
    var t := Get(s, k).s;
    forall k' | Has(t.disks, k') && !Cached(t, k') ensures Load(t.disks, k') == Load(t.plain, k') {
      if Cached(s, k') {
        var j :| 0 <= j < |s.bufs| && s.bufs[j].key == k' && s.bufs[j].valid;
        assert t.bufs[j] == s.bufs[j] || j == i;
        assert j == i;
      }
    }
  }

  /** A buffer's lock and dirty bits do not change what is cached. */
  lemma CachedSame(s: Cache, t: Cache)
    requires |t.bufs| == |s.bufs|
    requires forall i | 0 <= i < |s.bufs| :: t.bufs[i].key == s.bufs[i].key && t.bufs[i].valid == s.bufs[i].valid
    ensures forall k :: Cached(t, k) <==> Cached(s, k)
  {
    forall k ensures Cached(t, k) <==> Cached(s, k) {
      if Cached(s, k) {
        var j :| 0 <= j < |s.bufs| && s.bufs[j].key == k && s.bufs[j].valid;
        assert t.bufs[j].key == k && t.bufs[j].valid;
      }
    }
  }

  lemma LockInv(s: Cache, i: nat)
    requires Inv(s) && Lock(s, i).Next?
    ensures Inv(Lock(s, i).s)
  {
    CachedSame(s, Lock(s, i).s);
  }

  lemma UnlockInv(s: Cache, i: nat)
    requires Inv(s) && Unlock(s, i).Next?
    ensures Inv(Unlock(s, i).s)
  {
    CachedSame(s, Unlock(s, i).s);
  }

  lemma LogWriteInv(s: Cache, i: nat)
    requires Inv(s) && LogWrite(s, i).Next?
    ensures Inv(LogWrite(s, i).s)
  {
    CachedSame(s, LogWrite(s, i).s);
  }

  lemma FillInv(s: Cache, i: nat)
    requires Inv(s) && Fill(s, i).Next?
    ensures Inv(Fill(s, i).s)
  {
    if !s.bufs[i].valid {
      var t := Fill(s, i).s;
      var k := s.bufs[i].key;
      assert !Cached(s, k);
      forall k' | Cached(s, k') ensures Cached(t, k') {
        var j :| 0 <= j < |s.bufs| && s.bufs[j].key == k' && s.bufs[j].valid;
        assert t.bufs[j].key == k' && t.bufs[j].valid;
      }
    }
  }

  lemma ModifyInv(s: Cache, i: nat, v: Block)
    requires Inv(s) && Modify(s, i, v).Next?
    ensures Inv(Modify(s, i, v).s)
  {
    var t := Modify(s, i, v).s;
    CachedSame(s, t);
    assert t.bufs[i].key == s.bufs[i].key && t.bufs[i].valid;
    assert Cached(t, s.bufs[i].key);
  }

  lemma BwriteInv(s: Cache, i: nat)
    requires Inv(s) && Bwrite(s, i).Next?
    ensures Inv(Bwrite(s, i).s)
  {
    var t := Bwrite(s, i).s;
    CachedSame(s, t);
    assert t.bufs[i].key == s.bufs[i].key && t.bufs[i].valid;
    assert Cached(t, s.bufs[i].key);
  }

  /** Where the buffer now at position q was before the one at p moved to the front. */
  ghost function OldPos(p: nat, q: nat): nat {
    if q == 0 then p else if q <= p then q - 1 else q
  }

  lemma MovedAt(order: seq<nat>, p: nat, moved: seq<nat>, j: nat)
    requires p < |order| && moved == [order[p]] + order[..p] + order[p + 1..]
    ensures |moved| == |order|
    ensures j < |order| ==> moved[j] == order[OldPos(p, j)]
    ensures j in order ==> j in moved
  {
    if j in order {
      var q: nat :| q < |order| && order[q] == j;
      var q' := if q == p then 0 else if q < p then q + 1 else q;
      assert moved[q'] == j;
    }
  }

  lemma ConcatSame(a: seq<nat>, b: seq<nat>, c: seq<nat>)
    ensures a + (b + c) == a + b + c
  {
  }

  lemma MovedToFront(order: seq<nat>, i: nat) returns (p: nat)
    requires i in order && forall p, q | 0 <= p < q < |order| :: order[p] != order[q]
    ensures p < |order| && order[p] == i
    ensures var moved := [i] + Without(order, i);
      && |moved| == |order|
      && (forall q | 0 <= q < |order| :: moved[q] == order[OldPos(p, q)])
      && (forall j | j in order :: j in moved)
  {
    WithoutProperties(order, i);
    p :| p < |order| && order[p] == i && Without(order, i) == order[..p] + order[p + 1..];
    var moved := [i] + Without(order, i);
    ConcatSame([order[p]], order[..p], order[p + 1..]);
    forall j: nat
      ensures (j < |order| ==> |moved| == |order| && moved[j] == order[OldPos(p, j)]) && (j in order ==> j in moved)
    {
      MovedAt(order, p, moved, j);
    }
  }

  lemma PutPermutes(s: Cache, i: nat)
    requires Permutation(s) && Put(s, i).Next? && s.bufs[i].refcnt == 1
    ensures Permutation(Put(s, i).s)
  {
    assert i in s.order;
    var p := MovedToFront(s.order, i);
  }

  lemma PutOrder(s: Cache, i: nat)
    requires Permutation(s) && Unique(s) && BlanksLast(s) && Put(s, i).Next? && s.bufs[i].refcnt == 1
    ensures Permutation(Put(s, i).s) && BlanksLast(Put(s, i).s)
  {
    var t := Put(s, i).s;
    PutPermutes(s, i);
    assert i in s.order;
    var p := MovedToFront(s.order, i);
    forall a, b | 0 <= a < b < |t.order| && Blank(t.bufs[t.order[a]]) && t.bufs[t.order[b]].key == ZERO
      ensures Blank(t.bufs[t.order[b]])
    {
      assert t.order[a] == s.order[OldPos(p, a)] && t.order[b] == s.order[OldPos(p, b)];
      assert OldPos(p, a) != OldPos(p, b);
    }
  }

  lemma PutInv(s: Cache, i: nat)
    requires Inv(s) && Put(s, i).Next?
    ensures Inv(Put(s, i).s)
  {
    var t := Put(s, i).s;
    CachedSame(s, t);
    if s.bufs[i].refcnt == 1 { PutOrder(s, i); }
  }

  lemma StepInv(s: Cache, e: Event)
    requires Inv(s) && Step(s, e).Next?
    ensures Inv(Step(s, e).s)
  {
    match e
    case EGet(k) =>
      if FirstFor(s.bufs, s.order, k, 0) < |s.order| {
        GetHitInv(s, k);
      } else {
        GetMissOrder(s, k);
        GetMissContents(s, k);
      }
    case EFill(i) => FillInv(s, i);
    case EModify(i, v) => ModifyInv(s, i, v);
    case EBwrite(i) => BwriteInv(s, i);
    case EPut(i) => PutInv(s, i);
    case ELock(i) => LockInv(s, i);
    case EUnlock(i) => UnlockInv(s, i);
    case ELogWrite(i) => LogWriteInv(s, i);
  }

  // ------------------------------------------------------------------
  // Every run

  /** Boot: zeroed buffers, the list as binit leaves it. */
  ghost function Init(disks: Disks): Cache {
    Cache(seq(NBUF, _ => Buf(ZERO, false, false, 0, false, Block(seq(NWORDS, _ => 0)))),
          seq(NBUF, q requires 0 <= q < NBUF => NBUF - 1 - q), disks, {}, disks)
  }

  lemma InitInv(disks: Disks)
    ensures Inv(Init(disks))
  {
    var s := Init(disks);
    forall i | 0 <= i < NBUF ensures i in s.order { assert s.order[NBUF - 1 - i] == i; }
  }

  ghost predicate Reaches(s: Cache, es: seq<Event>, t: Cache)
    requires InOrder(s)
    decreases |es|
  {
    if es == [] then s == t
    else
      var o := Step(s, es[0]);
      o.Next? && InOrder(o.s) && Reaches(o.s, es[1..], t)
  }

  lemma {:induction false} RunInv(s: Cache, es: seq<Event>, t: Cache)
    requires Inv(s) && Reaches(s, es, t)
    ensures Inv(t)
    decreases |es|
  {
    if es != [] {
      StepInv(s, es[0]);
      RunInv(Step(s, es[0]).s, es[1..], t);
    }
  }

  /** Cache transparency, over every run: a process that holds a valid buffer, and one
      whose bread is about to fill it from disk, sees what the plain map of blocks holds;
      no two buffers cache the same block; the list is a permutation of the buffers. */
  lemma CacheIsTransparent(disks: Disks, es: seq<Event>, s: Cache, i: nat)
    requires Reaches(Init(disks), es, s) && i < |s.bufs| && s.bufs[i].locked
    ensures Fill(s, i).Next? ==> var b := Fill(s, i).s.bufs[i];
      b.valid && Has(s.plain, b.key) && b.data == Load(s.plain, b.key)
    ensures Permutation(s)
    ensures forall j | 0 <= j < |s.bufs| && j != i :: s.bufs[j].key == s.bufs[i].key ==> Blank(s.bufs[j])
  {
    InitInv(disks);
    RunInv(Init(disks), es, s);
    if Fill(s, i).Next? { FillInv(s, i); }
  }

  /** A dirty buffer, or one in use, keeps its block whatever bget is asked for: an
      uncommitted change is never evicted. bget fails only when no buffer is reusable. */
  lemma DirtyIsPinned(s: Cache, k: Key)
    requires Inv(s)
    ensures Get(s, k).Next? ==> forall j | 0 <= j < |s.bufs| && !Reusable(s.bufs[j]) ::
      var b := Get(s, k).s.bufs[j];
      b.key == s.bufs[j].key && b.data == s.bufs[j].data && b.dirty == s.bufs[j].dirty && b.valid == s.bufs[j].valid
    ensures Get(s, k) == PanicNoBuffers <==>
      forall j | 0 <= j < |s.bufs| :: s.bufs[j].key != k && !Reusable(s.bufs[j])
  {
    var p := FirstFor(s.bufs, s.order, k, 0);
    var r := LastReusable(s.bufs, s.order, |s.order|);
    if p == |s.order| && r == 0 {
      forall j | 0 <= j < |s.bufs| ensures s.bufs[j].key != k && !Reusable(s.bufs[j]) {
        assert j in s.order;
        var q :| 0 <= q < |s.order| && s.order[q] == j;
      }
    } else if p < |s.order| {
      assert s.bufs[s.order[p]].key == k;
    } else {
      assert Reusable(s.bufs[s.order[r - 1]]);
    }
  }

  // ------------------------------------------------------------------
  // bread and brelse as one caller sees them, when nobody else holds the buffer

  ghost function Bread(s: Cache, k: Key): Outcome
    requires InOrder(s)
  {
    match Get(s, k)
    case Next(s1, i) =>
      (match Lock(s1, i)
       case Next(s2, _) => Fill(s2, i)
       case other => other)
    case other => other
  }

  ghost function Brelse(s: Cache, i: nat): Outcome {
    match Unlock(s, i)
    case Next(t, _) => Put(t, i)
    case other => other
  }

  /** What bread of k does when it returns buffer i: no disk and no block of the plain map
      changes, no other buffer changes, and i holds the plain map's block. */
  ghost predicate ReadStep(s: Cache, k: Key, t: Cache, i: nat) {
    && i < |t.bufs| == |s.bufs| && t.disks == s.disks && t.plain == s.plain && t.touched == s.touched
    && Has(s.disks, k) && Has(s.plain, k)
    && t.bufs[i].locked && t.bufs[i].valid && t.bufs[i].key == k && t.bufs[i].data == Load(s.plain, k)
    && (forall j | 0 <= j < |s.bufs| && j != i :: t.bufs[j] == s.bufs[j])
    && (if s.bufs[i].key == k then t.bufs[i].refcnt == s.bufs[i].refcnt + 1 && t.bufs[i].dirty == s.bufs[i].dirty
        else Reusable(s.bufs[i]) && t.bufs[i].refcnt == 1 && !t.bufs[i].dirty)
  }

  ghost predicate Available(s: Cache, k: Key) {
    exists j :: 0 <= j < |s.bufs| && (s.bufs[j].key == k || Reusable(s.bufs[j]))
  }

  lemma BreadInv(s: Cache, k: Key)
    requires Inv(s) && Bread(s, k).Next?
    ensures Inv(Bread(s, k).s)
  {
    var s1, i := Get(s, k).s, Get(s, k).i;
    StepInv(s, EGet(k));
    LockInv(s1, i);
    FillInv(Lock(s1, i).s, i);
  }

  lemma BreadEffect(s: Cache, k: Key)
    requires Inv(s) && Bread(s, k).Next?
    ensures Inv(Bread(s, k).s) && ReadStep(s, k, Bread(s, k).s, Bread(s, k).i)
  {
    BreadInv(s, k);
    HeldAgrees(Bread(s, k).s, Bread(s, k).i);
    BreadRead(s, k);
  }

  lemma BreadRead(s: Cache, k: Key)
    requires Inv(s) && Bread(s, k).Next?
    requires var t, i := Bread(s, k).s, Bread(s, k).i;
      i < |t.bufs| && Has(t.plain, t.bufs[i].key) && t.bufs[i].data == Load(t.plain, t.bufs[i].key)
    ensures ReadStep(s, k, Bread(s, k).s, Bread(s, k).i)
  {
  }

  /** A held valid buffer has the plain map's block. */
  lemma HeldAgrees(s: Cache, i: nat)
    requires Inv(s) && i < |s.bufs| && s.bufs[i].valid
    ensures Has(s.disks, s.bufs[i].key) && Has(s.plain, s.bufs[i].key) && s.bufs[i].data == Load(s.plain, s.bufs[i].key)
  {
  }

  /** When nobody holds the block, bread panics exactly when no buffer is available for it
      or the block is not on the disk. */
  lemma BreadSucceeds(s: Cache, k: Key)
    requires Inv(s)
    requires forall j | 0 <= j < |s.bufs| && s.bufs[j].key == k :: !s.bufs[j].locked
    ensures Bread(s, k).Next? <==> Has(s.disks, k) && Available(s, k)
  {
    DirtyIsPinned(s, k);
    if Get(s, k).Next? {
      var i := Get(s, k).i;
      assert s.bufs[i].key == k || Reusable(s.bufs[i]);
    }
  }
}
