/** Which disk blocks a write passes to log_write: the data blocks it touches, the file's indirect
    table, blocks of the free bitmap, and the block of its inode. */
module FileLogging {
  import opened FileContent
  import opened FileWrites
  import opened Bitmap

  const IPB: nat := 8     // BSIZE / sizeof(struct dinode)

  /** A disk block that log_write may get: a data block or table, a bitmap block, an inode block. */
  datatype Place = InBlock(b: nat) | InBitmap(k: nat) | InInode(k: nat)

  function TablePlace(table: nat): set<Place> { if table == 0 then {} else {InBlock(table)} }

  /** As few bitmap blocks as have a bit for each of n blocks. */
  function BitmapBlocks(n: nat): (r: nat)
    ensures n <= r * BPB < n + BPB
  {
    (n + BPB - 1) / BPB
  }

  ghost function Bitmaps(n: nat): set<Place> { set k: nat | k < BitmapBlocks(n) :: InBitmap(k) }

  /** What balloc logs for block b. */
  function Allocates(b: nat): set<Place> { {InBitmap(b / BPB), InBlock(b)} }

  lemma AllocatesWithin(b: nat, n: nat)
    requires b < n
    ensures Allocates(b) <= {InBlock(b)} + Bitmaps(n)
  {
    assert b / BPB < BitmapBlocks(n);
  }

  /** What bmap of the block at addr may log, on a disk of n blocks. */
  ghost function Near(addr: nat, table: nat, n: nat): set<Place> {
    {InBlock(addr)} + TablePlace(table) + Bitmaps(n)
  }

  /** A new table, a new entry in it. */
  lemma EntryWithin(table: nat, b: nat, n: nat)
    requires 0 < table && b < n
    ensures Allocates(b) + {InBlock(table)} <= Near(b, table, n)
  {
    AllocatesWithin(b, n);
  }

  // ------------------------------------------------------------------
  // A range of a file

  /** The logical blocks from byte off on, n bytes. */
  function FirstBlock(off: nat): nat { off / BSIZE }

  function PastBlock(off: nat, n: nat): nat { if n == 0 then off / BSIZE else (off + n - 1) / BSIZE + 1 }

  function DataBlocks(off: nat, n: nat): nat { PastBlock(off, n) - FirstBlock(off) }

  ghost predicate RangeMapped(fs: Fs, i: nat, off: nat, n: nat) {
    WellFormed(fs) && i < |fs.inodes| && PastBlock(off, n) <= MAXFILE
    && forall k | FirstBlock(off) <= k < PastBlock(off, n) :: Ptr(fs, i, k) != 0
  }

  /** The disk blocks of logical blocks lo to hi - 1. */
  ghost function Range(fs: Fs, i: nat, lo: nat, hi: nat): set<Place>
    requires WellFormed(fs) && i < |fs.inodes| && hi <= MAXFILE
  {
    set k | lo <= k < hi :: InBlock(Ptr(fs, i, k))
  }

  ghost function DataOf(fs: Fs, i: nat, off: nat, n: nat): set<Place>
    requires RangeMapped(fs, i, off, n)
  {
    Range(fs, i, FirstBlock(off), PastBlock(off, n))
  }

  /** Every data block of the range was logged, and beside them at most the table and bitmap blocks. */
  ghost predicate Logged(fs: Fs, i: nat, off: nat, n: nat, lg: set<Place>) {
    && RangeMapped(fs, i, off, n) && DataOf(fs, i, off, n) <= lg
    && lg <= DataOf(fs, i, off, n) + TablePlace(fs.inodes[i].addrs[NDIRECT]) + Bitmaps(|fs.blocks|)
  }

  /** From fs to t file i kept the blocks and the table it had. */
  ghost predicate KeepsRefs(fs: Fs, t: Fs, i: nat) {
    && WellFormed(fs) && WellFormed(t) && i < |fs.inodes| && i < |t.inodes| && |t.blocks| == |fs.blocks|
    && (forall k | 0 <= k < MAXFILE && Ptr(fs, i, k) != 0 :: Ptr(t, i, k) == Ptr(fs, i, k))
    && (fs.inodes[i].addrs[NDIRECT] != 0 ==> t.inodes[i].addrs[NDIRECT] == fs.inodes[i].addrs[NDIRECT])
  }

  lemma GrownKeepsRefs(fs: Fs, t: Fs, i: nat)
    requires WellFormed(fs) && WellFormed(t) && Grown(fs, t, i)
    requires fs.inodes[i].addrs[NDIRECT] != 0 ==> t.inodes[i].addrs[NDIRECT] == fs.inodes[i].addrs[NDIRECT]
    ensures KeepsRefs(fs, t, i)
  {
    forall k | 0 <= k < MAXFILE && Ptr(fs, i, k) != 0 ensures Ptr(t, i, k) == Ptr(fs, i, k) {
      assert KeptBlock(fs, t, i, i, k);
    }
  }

  /** The memmove keeps them. */
  lemma MovedKeepsRefs(fs: Fs, i: nat, src: seq<nat>, off0: nat, off: nat, m: nat)
    requires Owned(fs) && i < |fs.inodes| && off / BSIZE < MAXFILE && 0 < Ptr(fs, i, off / BSIZE) < |fs.blocks|
    requires off0 <= off && 0 < m <= BSIZE - off % BSIZE && off + m <= off0 + |src|
    ensures KeepsRefs(fs, Moved(fs, i, src, off0, off, m), i)
  {
    var t := Moved(fs, i, src, off0, off, m);
    MovedPtr(fs, i, src, off0, off, m, 0);
    forall k | 0 <= k < MAXFILE ensures Ptr(t, i, k) == Ptr(fs, i, k) { MovedPtr(fs, i, src, off0, off, m, k); }
  }

  lemma DataKept(fs: Fs, t: Fs, i: nat, off: nat, n: nat)
    requires RangeMapped(fs, i, off, n) && KeepsRefs(fs, t, i)
    ensures RangeMapped(t, i, off, n) && DataOf(t, i, off, n) == DataOf(fs, i, off, n)
  {
    forall k | FirstBlock(off) <= k < PastBlock(off, n) ensures Ptr(t, i, k) == Ptr(fs, i, k) != 0 {}
  }

  /** A piece of m bytes inside one block extends the range by that block at most. */
  lemma NextBlock(off: nat, n: nat, m: nat)
    requires 0 < m <= BSIZE - (off + n) % BSIZE
    ensures PastBlock(off, n + m) == (off + n) / BSIZE + 1
    ensures PastBlock(off, n) == (off + n) / BSIZE || PastBlock(off, n) == (off + n) / BSIZE + 1
    ensures FirstBlock(off) <= (off + n) / BSIZE
  {
    assert (off + n + m - 1) / BSIZE == (off + n) / BSIZE;
  }

  lemma LoggedMore(fs: Fs, t: Fs, i: nat, off: nat, n: nat, m: nat, lg: set<Place>, more: set<Place>)
    requires Logged(fs, i, off, n, lg) && KeepsRefs(fs, t, i) && 0 < m <= BSIZE - (off + n) % BSIZE
    requires (off + n) / BSIZE < MAXFILE && Ptr(t, i, (off + n) / BSIZE) != 0
    requires InBlock(Ptr(t, i, (off + n) / BSIZE)) in more
    requires more <= Near(Ptr(t, i, (off + n) / BSIZE), t.inodes[i].addrs[NDIRECT], |t.blocks|)
    ensures Logged(t, i, off, n + m, lg + more)
  {
    NextBlock(off, n, m);
    DataKept(fs, t, i, off, n);
    var b := (off + n) / BSIZE;
    forall k | FirstBlock(off) <= k < PastBlock(off, n + m) ensures Ptr(t, i, k) != 0 {
      assert k == b || k < PastBlock(off, n);
    }
    assert DataOf(t, i, off, n + m) == DataOf(t, i, off, n) + {InBlock(Ptr(t, i, b))} by { DataGrows(t, i, off, n, m); }
  }

  lemma DataGrows(t: Fs, i: nat, off: nat, n: nat, m: nat)
    requires RangeMapped(t, i, off, n) && RangeMapped(t, i, off, n + m) && 0 < m <= BSIZE - (off + n) % BSIZE
    ensures (off + n) / BSIZE < MAXFILE
    ensures DataOf(t, i, off, n + m) == DataOf(t, i, off, n) + {InBlock(Ptr(t, i, (off + n) / BSIZE))}
  {
    NextBlock(off, n, m);
  }

  /** What writei logged: as Logged, and the block of the inode exactly when the file grew. */
  ghost predicate LoggedWrite(t: Fs, i: nat, off: nat, n: nat, grew: bool, lg: set<Place>) {
    && (InInode(i / IPB) in lg <==> grew)
    && Logged(t, i, off, n, lg - {InInode(i / IPB)})
  }

  lemma NothingLogged(fs: Fs, i: nat, off: nat)
    requires WellFormed(fs) && i < |fs.inodes| && off <= MAXFILE * BSIZE
    ensures Logged(fs, i, off, 0, {})
  {
  }

  /** Setting the size moves no block. */
  lemma SizedLogged(fs: Fs, i: nat, size: nat, off: nat, n: nat, grew: bool, lg: set<Place>)
    requires Owned(fs) && Logged(fs, i, off, n, lg)
    ensures LoggedWrite(WithSize(fs, i, size), i, off, n, grew, (if grew then {InInode(i / IPB)} else {}) + lg)
  {
    var t := WithSize(fs, i, size);
    forall k | 0 <= k < MAXFILE ensures WellFormed(t) && Ptr(t, i, k) == Ptr(fs, i, k) {
      WithSizePtr(fs, i, size, i, k);
    }
    DataKept(fs, t, i, off, n);
    assert InInode(i / IPB) !in lg;
    assert {InInode(i / IPB)} + lg - {InInode(i / IPB)} == lg && lg - {InInode(i / IPB)} == lg;
    assert {} + lg == lg;
  }

  // ------------------------------------------------------------------
  // writei's loop

  /** tot bytes are in place and lg was logged for them; kept closed as SplicedTo is. */
  ghost predicate Writing(fs0: Fs, fs: Fs, i: nat, src: seq<nat>, off: nat, tot: nat, lg: set<Place>) {
    forall u: bool {:trigger Between(u, fs0, fs)} :: Between(u, fs0, fs) ==>
      Progress(fs0, fs, i, src, off, off + tot) && Logged(fs, i, off, tot, lg)
  }

  lemma WritingOpen(fs0: Fs, fs: Fs, i: nat, src: seq<nat>, off: nat, tot: nat, lg: set<Place>)
    requires Writing(fs0, fs, i, src, off, tot, lg)
    ensures Progress(fs0, fs, i, src, off, off + tot) && Logged(fs, i, off, tot, lg)
  {
    assert Between(true, fs0, fs);
  }

  lemma WritingStart(fs: Fs, i: nat, src: seq<nat>, off: nat)
    requires Owned(fs) && i < |fs.inodes| && NoHoles(fs, i) && off <= fs.inodes[i].size
    ensures Writing(fs, fs, i, src, off, 0, {})
  {
    ProgressStart(fs, i, src, off);
    NothingLogged(fs, i, off);
  }

  /** Between bmap and the memmove: block (off + tot) / BSIZE is at addr. */
  ghost predicate ChunkMapped(fs0: Fs, fs: Fs, i: nat, src: seq<nat>, off: nat, tot: nat, addr: nat, lg: set<Place>) {
    forall u: bool {:trigger Between(u, fs0, fs)} :: Between(u, fs0, fs) ==>
      && Mapped(fs0, fs, i, src, off, off + tot) && addr == Ptr(fs, i, (off + tot) / BSIZE)
      && Logged(fs, i, off, tot + 1, lg + {InBlock(addr)})
  }

  lemma ChunkMaps(fs0: Fs, fs: Fs, t: Fs, i: nat, src: seq<nat>, off: nat, tot: nat, addr: nat,
                  had: set<Place>, lg: set<Place>)
    requires Progress(fs0, fs, i, src, off, off + tot) && Logged(fs, i, off, tot, had) && off + tot < MAXFILE * BSIZE
    requires Owned(t) && Grown(fs, t, i) && addr == Ptr(t, i, (off + tot) / BSIZE)
    requires Allocated(t, i, Max(BlocksFor(Max(fs0.inodes[i].size, off + tot)), (off + tot) / BSIZE + 1))
    requires fs.inodes[i].addrs[NDIRECT] != 0 ==> t.inodes[i].addrs[NDIRECT] == fs.inodes[i].addrs[NDIRECT]
    requires lg <= Near(addr, t.inodes[i].addrs[NDIRECT], |t.blocks|)
    ensures ChunkMapped(fs0, t, i, src, off, tot, addr, had + lg)
  {
    BmapStep(fs0, fs, t, i, src, off, off + tot);
    MapLogs(fs, t, i, off, tot, addr, had, lg);
    MappedClose(fs0, t, i, src, off, tot, addr, had + lg);
  }

  lemma MapLogs(fs: Fs, t: Fs, i: nat, off: nat, tot: nat, addr: nat, had: set<Place>, lg: set<Place>)
    requires Logged(fs, i, off, tot, had) && off + tot < MAXFILE * BSIZE
    requires WellFormed(t) && Grown(fs, t, i) && addr == Ptr(t, i, (off + tot) / BSIZE) != 0
    requires fs.inodes[i].addrs[NDIRECT] != 0 ==> t.inodes[i].addrs[NDIRECT] == fs.inodes[i].addrs[NDIRECT]
    requires lg <= Near(addr, t.inodes[i].addrs[NDIRECT], |t.blocks|)
    ensures Logged(t, i, off, tot + 1, had + lg + {InBlock(addr)})
  {
    GrownKeepsRefs(fs, t, i);
    LoggedMore(fs, t, i, off, tot, 1, had, lg + {InBlock(addr)});
    assert had + (lg + {InBlock(addr)}) == had + lg + {InBlock(addr)};
  }

  lemma MappedClose(fs0: Fs, fs: Fs, i: nat, src: seq<nat>, off: nat, tot: nat, addr: nat, lg: set<Place>)
    requires Mapped(fs0, fs, i, src, off, off + tot) && addr == Ptr(fs, i, (off + tot) / BSIZE)
    requires Logged(fs, i, off, tot + 1, lg + {InBlock(addr)})
    ensures ChunkMapped(fs0, fs, i, src, off, tot, addr, lg)
  {
  }

  ghost function WithBlock(fs: Fs, addr: nat, d: Data): Fs
    requires addr < |fs.blocks|
  {
    Fs(fs.used, fs.blocks[addr := d], fs.inodes, fs.meta, fs.owner)
  }

  lemma ChunkCopies(fs0: Fs, fs: Fs, i: nat, src: seq<nat>, off: nat, tot: nat, m: nat, addr: nat, lg: set<Place>)
    requires ChunkMapped(fs0, fs, i, src, off, tot, addr, lg) && off + tot + m <= MAXFILE * BSIZE
    requires 0 < m <= BSIZE - (off + tot) % BSIZE && tot + m <= |src|
    ensures addr < |fs.blocks| && |fs.blocks[addr].bytes| == BSIZE
    ensures Writing(fs0, WithBlock(fs, addr, Patch(fs.blocks[addr], (off + tot) % BSIZE, src, tot, m)),
                    i, src, off, tot + m, lg + {InBlock(addr)})
  {
    CopyMoves(fs0, fs, i, src, off, tot, m, addr, lg);
    CopyLogs(fs0, fs, i, src, off, tot, m, addr, lg);
    var t := WithBlock(fs, addr, Patch(fs.blocks[addr], (off + tot) % BSIZE, src, tot, m));
    WritingClose(fs0, t, i, src, off, tot + m, lg + {InBlock(addr)});
  }

  lemma WritingClose(fs0: Fs, fs: Fs, i: nat, src: seq<nat>, off: nat, tot: nat, lg: set<Place>)
    requires Progress(fs0, fs, i, src, off, off + tot) && Logged(fs, i, off, tot, lg)
    ensures Writing(fs0, fs, i, src, off, tot, lg)
  {
  }

  lemma CopyMoves(fs0: Fs, fs: Fs, i: nat, src: seq<nat>, off: nat, tot: nat, m: nat, addr: nat, lg: set<Place>)
    requires ChunkMapped(fs0, fs, i, src, off, tot, addr, lg) && off + tot + m <= MAXFILE * BSIZE
    requires 0 < m <= BSIZE - (off + tot) % BSIZE && tot + m <= |src|
    ensures addr < |fs.blocks| && |fs.blocks[addr].bytes| == BSIZE
    ensures Progress(fs0, WithBlock(fs, addr, Patch(fs.blocks[addr], (off + tot) % BSIZE, src, tot, m)),
                     i, src, off, off + tot + m)
  {
    MappedOpen(fs0, fs, i, src, off, tot, addr, lg);
    MoveStep(fs0, fs, i, src, off, off + tot, m);
    MovedIs(fs, i, src, off, tot, m);
  }

  lemma MappedOpen(fs0: Fs, fs: Fs, i: nat, src: seq<nat>, off: nat, tot: nat, addr: nat, lg: set<Place>)
    requires ChunkMapped(fs0, fs, i, src, off, tot, addr, lg)
    ensures Mapped(fs0, fs, i, src, off, off + tot) && addr == Ptr(fs, i, (off + tot) / BSIZE)
  {
    assert Between(true, fs0, fs);
  }

  lemma MovedIs(fs: Fs, i: nat, src: seq<nat>, off: nat, tot: nat, m: nat)
    requires WellFormed(fs) && i < |fs.inodes| && (off + tot) / BSIZE < MAXFILE
    requires Ptr(fs, i, (off + tot) / BSIZE) < |fs.blocks|
    requires 0 < m <= BSIZE - (off + tot) % BSIZE && tot + m <= |src|
    ensures var addr := Ptr(fs, i, (off + tot) / BSIZE);
      && |fs.blocks[addr].bytes| == BSIZE
      && Moved(fs, i, src, off, off + tot, m) ==
          WithBlock(fs, addr, Patch(fs.blocks[addr], (off + tot) % BSIZE, src, tot, m))
  {
  }

  lemma CopyLogs(fs0: Fs, fs: Fs, i: nat, src: seq<nat>, off: nat, tot: nat, m: nat, addr: nat, lg: set<Place>)
    requires ChunkMapped(fs0, fs, i, src, off, tot, addr, lg) && off + tot + m <= MAXFILE * BSIZE
    requires 0 < m <= BSIZE - (off + tot) % BSIZE && tot + m <= |src|
    requires addr < |fs.blocks| && |fs.blocks[addr].bytes| == BSIZE
    ensures Logged(WithBlock(fs, addr, Patch(fs.blocks[addr], (off + tot) % BSIZE, src, tot, m)),
                   i, off, tot + m, lg + {InBlock(addr)})
  {
    assert Between(true, fs0, fs);
    MovedKeepsRefs(fs, i, src, off, off + tot, m);
    CopyLogged(fs, Moved(fs, i, src, off, off + tot, m), i, off, tot, m, lg + {InBlock(addr)});
  }

  lemma CopyLogged(fs: Fs, t: Fs, i: nat, off: nat, tot: nat, m: nat, lg: set<Place>)
    requires Logged(fs, i, off, tot + 1, lg) && KeepsRefs(fs, t, i)
    requires 0 < m <= BSIZE - (off + tot) % BSIZE
    ensures Logged(t, i, off, tot + m, lg)
  {
    NextBlock(off, tot, m);
    NextBlock(off, tot, 1);
    DataKept(fs, t, i, off, tot + 1);
  }

  lemma WritingDone(fs0: Fs, fs: Fs, i: nat, src: seq<nat>, off: nat, lg: set<Place>)
    requires Writing(fs0, fs, i, src, off, |src|, lg)
    ensures i < |fs0.inodes| && i < |fs.inodes| && off <= fs.inodes[i].size == fs0.inodes[i].size
    ensures var size := fs0.inodes[i].size;
      var t := WithSize(fs, i, Max(size, off + |src|));
      && SplicedTo(fs0, t, i, src, off)
      && LoggedWrite(t, i, off, |src|, off + |src| > size, (if off + |src| > size then {InInode(i / IPB)} else {}) + lg)
  {
    WritingOpen(fs0, fs, i, src, off, |src|, lg);
    WriteDone(fs0, fs, i, src, off);
    SizedLogged(fs, i, Max(fs0.inodes[i].size, off + |src|), off, |src|, off + |src| > fs0.inodes[i].size, lg);
  }

  // ------------------------------------------------------------------
  // How many blocks that is

  lemma {:induction false} BitmapsSize(n: nat)
    ensures |Bitmaps(n)| == BitmapBlocks(n)
  {
    BitmapPlaces(BitmapBlocks(n));
    assert Bitmaps(n) == FirstBitmaps(BitmapBlocks(n));
  }

  ghost function FirstBitmaps(m: nat): set<Place> { set k: nat | k < m :: InBitmap(k) }

  lemma {:induction false} BitmapPlaces(m: nat)
    ensures |FirstBitmaps(m)| == m
  {
    if m == 0 {
      assert FirstBitmaps(0) == {};
    } else {
      BitmapPlaces(m - 1);
      assert FirstBitmaps(m) == FirstBitmaps(m - 1) + {InBitmap(m - 1)};
    }
  }

  /** They are as many as the logical blocks: no two share a disk block. */
  lemma {:induction false} RangeSize(fs: Fs, i: nat, lo: nat, hi: nat)
    requires Owned(fs) && i < |fs.inodes| && lo <= hi <= MAXFILE && forall k | lo <= k < hi :: Ptr(fs, i, k) != 0
    ensures |Range(fs, i, lo, hi)| == hi - lo
    decreases hi
  {
    if lo == hi {
      assert Range(fs, i, lo, hi) == {};
    } else {
      RangeSize(fs, i, lo, hi - 1);
      forall k | lo <= k < hi - 1 ensures Ptr(fs, i, k) != Ptr(fs, i, hi - 1) { TwoBlocks(fs, i, k, hi - 1); }
      assert Range(fs, i, lo, hi) == Range(fs, i, lo, hi - 1) + {InBlock(Ptr(fs, i, hi - 1))};
    }
  }

  lemma TwoBlocks(fs: Fs, i: nat, j: nat, k: nat)
    requires Owned(fs) && i < |fs.inodes| && j < MAXFILE && k < MAXFILE && j != k && Ptr(fs, i, k) != 0
    ensures Ptr(fs, i, j) != Ptr(fs, i, k)
  {
    assert Ref(fs, i, j) == Ptr(fs, i, j) && Ref(fs, i, k) == Ptr(fs, i, k);
    RefsDiffer(fs, i, k, i, j);
  }

  lemma {:induction false} PlacesSubset(a: set<Place>, b: set<Place>)
    requires a <= b
    ensures |a| <= |b|
  {
    if a != {} {
      var x :| x in a;
      PlacesSubset(a - {x}, b - {x});
    }
  }

  lemma UnionSize(a: set<Place>, b: set<Place>)
    ensures |a + b| <= |a| + |b|
  {
    assert a + b == a + (b - a);
    PlacesSubset(b - a, b);
  }

  /** A write logs every data block of its range, and beside them at most the table, the bitmap
      and the inode: how many disk blocks that is, from below and from above. */
  lemma LoggedCount(t: Fs, i: nat, off: nat, n: nat, grew: bool, lg: set<Place>)
    requires Owned(t) && LoggedWrite(t, i, off, n, grew, lg)
    ensures DataBlocks(off, n) + (if grew then 1 else 0) <= |lg|
    ensures |lg| <= DataBlocks(off, n) + 1 + BitmapBlocks(|t.blocks|) + (if grew then 1 else 0)
  {
    var data, most := lg - {InInode(i / IPB)}, DataOf(t, i, off, n);
    RangeSize(t, i, FirstBlock(off), PastBlock(off, n));
    PlacesSubset(most, data);
    var table := TablePlace(t.inodes[i].addrs[NDIRECT]);
    PlacesSubset(data, most + table + Bitmaps(|t.blocks|));
    UnionSize(most, table);
    UnionSize(most + table, Bitmaps(|t.blocks|));
    BitmapsSize(|t.blocks|);
    if grew { assert lg == data + {InInode(i / IPB)}; } else { assert lg == data; }
  }

  /** A full piece of filewrite is 13 blocks long; it touches 13 or 14. */
  lemma ChunkBlocks(off: nat, n: nat)
    ensures n <= 13 * BSIZE ==> DataBlocks(off, n) <= 14
    ensures n >= 13 * BSIZE ==> DataBlocks(off, n) >= 13
  {
  }
}
