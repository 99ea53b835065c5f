/** What writei does to the file system, step by step, as values. */
module FileWrites {
  import opened FileContent

  function Max(a: nat, b: nat): nat {
    if a < b then b else a
  }

  /** Byte p of file i, or 0 where no block is allocated. */
  ghost function ByteOf(fs: Fs, i: nat, p: nat): nat {
    if InFile(fs, i, p) then ByteAt(fs, i, p) else 0
  }

  /** Byte p of file i once src[..off - off0] has been written at off0. */
  ghost function Want(fs0: Fs, i: nat, src: seq<nat>, off0: nat, off: nat, p: nat): nat
    requires off - off0 <= |src|
  {
    if off0 <= p < off then src[p - off0] else ByteOf(fs0, i, p)
  }

  /** The files other than i are as in fs0: same inode, same blocks, same bytes in them. */
  ghost predicate OthersKept(fs0: Fs, fs: Fs, i: nat) {
    && WellFormed(fs0) && WellFormed(fs)
    && |fs.blocks| == |fs0.blocks| && |fs.inodes| == |fs0.inodes| && fs.meta == fs0.meta
    && (forall k | 0 <= k < |fs0.inodes| && k != i :: fs.inodes[k] == fs0.inodes[k])
    && (forall k, n | 0 <= k < |fs0.inodes| && k != i && 0 <= n < MAXFILE :: OtherBlock(fs0, fs, k, n))
  }

  ghost predicate OtherBlock(fs0: Fs, fs: Fs, k: nat, n: nat)
    requires WellFormed(fs0) && WellFormed(fs) && k < |fs0.inodes| == |fs.inodes| && n < MAXFILE
  {
    var a := Ptr(fs0, k, n);
    Ptr(fs, k, n) == a && (0 < a < |fs0.blocks| == |fs.blocks| ==> fs.blocks[a] == fs0.blocks[a])
  }

  /** writei between two iterations: off - off0 bytes of src are in place. */
  ghost predicate Progress(fs0: Fs, fs: Fs, i: nat, src: seq<nat>, off0: nat, off: nat) {
    && Owned(fs0) && i < |fs0.inodes| && NoHoles(fs0, i) && off0 <= fs0.inodes[i].size
    && off0 <= off <= off0 + |src| && off <= MAXFILE * BSIZE
    && Owned(fs) && OthersKept(fs0, fs, i) && fs.inodes[i].size == fs0.inodes[i].size
    && Allocated(fs, i, BlocksFor(Max(fs0.inodes[i].size, off)))
    && (forall p: nat :: p < Max(fs0.inodes[i].size, off) ==> ByteOf(fs, i, p) == Want(fs0, i, src, off0, off, p))
  }

  lemma ProgressStart(fs: Fs, i: nat, src: seq<nat>, off: nat)
    requires Owned(fs) && i < |fs.inodes| && NoHoles(fs, i) && off <= fs.inodes[i].size
    ensures Progress(fs, fs, i, src, off, off)
  {
  }

  // ------------------------------------------------------------------
  // bmap within writei

  lemma GrownKeepsByte(fs: Fs, t: Fs, i: nat, p: nat)
    requires Owned(fs) && Owned(t) && Grown(fs, t, i) && p / BSIZE < MAXFILE && Ptr(fs, i, p / BSIZE) != 0
    ensures ByteOf(t, i, p) == ByteOf(fs, i, p)
  {
    assert KeptBlock(fs, t, i, i, p / BSIZE);
    assert Ref(fs, i, p / BSIZE) == Ptr(fs, i, p / BSIZE);
  }

  lemma GrownKeepsOthers(fs0: Fs, fs: Fs, t: Fs, i: nat)
    requires OthersKept(fs0, fs, i) && WellFormed(t) && Grown(fs, t, i)
    ensures OthersKept(fs0, t, i)
  {
    forall k, n | 0 <= k < |fs0.inodes| && k != i && 0 <= n < MAXFILE ensures OtherBlock(fs0, t, k, n) {
      assert OtherBlock(fs0, fs, k, n) && KeptBlock(fs, t, i, k, n);
    }
  }

  /** writei between bmap and the memmove: block off / BSIZE is there. */
  ghost predicate Mapped(fs0: Fs, fs: Fs, i: nat, src: seq<nat>, off0: nat, off: nat) {
    && Owned(fs0) && i < |fs0.inodes| && NoHoles(fs0, i) && off0 <= fs0.inodes[i].size
    && off0 <= off <= off0 + |src| && off < MAXFILE * BSIZE
    && Owned(fs) && OthersKept(fs0, fs, i) && fs.inodes[i].size == fs0.inodes[i].size
    && Allocated(fs, i, Max(BlocksFor(Max(fs0.inodes[i].size, off)), off / BSIZE + 1))
    && (forall p: nat :: p < Max(fs0.inodes[i].size, off) ==> ByteOf(fs, i, p) == Want(fs0, i, src, off0, off, p))
  }

  lemma BmapStep(fs0: Fs, fs: Fs, t: Fs, i: nat, src: seq<nat>, off0: nat, off: nat)
    requires Progress(fs0, fs, i, src, off0, off) && off < MAXFILE * BSIZE
    requires Owned(t) && Grown(fs, t, i)
    requires Allocated(t, i, Max(BlocksFor(Max(fs0.inodes[i].size, off)), off / BSIZE + 1))
    ensures Mapped(fs0, t, i, src, off0, off)
  {
    GrownKeepsOthers(fs0, fs, t, i);
    var lim := Max(fs0.inodes[i].size, off);
    forall p: nat | p < lim ensures ByteOf(t, i, p) == Want(fs0, i, src, off0, off, p) {
      assert p / BSIZE < BlocksFor(lim);
      GrownKeepsByte(fs, t, i, p);
    }
  }

  /** The next block to write is within the file or the first one after it. */
  lemma BlocksReach(size: nat, off: nat)
    requires off < MAXFILE * BSIZE
    ensures off / BSIZE <= BlocksFor(Max(size, off)) && off / BSIZE < MAXFILE
    ensures off < size ==> off / BSIZE < BlocksFor(Max(size, off))
  {
  }

  // ------------------------------------------------------------------
  // The memmove

  lemma BlocksGrow(size: nat, off: nat, m: nat)
    requires 0 < m <= BSIZE - off % BSIZE
    ensures BlocksFor(Max(size, off + m)) == Max(BlocksFor(Max(size, off)), off / BSIZE + 1)
  {
  }

  /** One byte of the file after m bytes of src went into block off / BSIZE. */
  lemma PatchedByte(fs: Fs, i: nat, src: seq<nat>, off: nat, from: nat, m: nat, p: nat)
    requires Owned(fs) && i < |fs.inodes| && off / BSIZE < MAXFILE && Ptr(fs, i, off / BSIZE) != 0
    requires Ptr(fs, i, off / BSIZE) < |fs.blocks|
    requires 0 < m <= BSIZE - off % BSIZE && from + m <= |src|
    requires p / BSIZE < MAXFILE && Ptr(fs, i, p / BSIZE) != 0
    ensures var d := Patch(fs.blocks[Ptr(fs, i, off / BSIZE)], off % BSIZE, src, from, m);
      ByteOf(PutBlock(fs, i, off / BSIZE, d), i, p)
        == if off <= p < off + m then src[from + (p - off)] else ByteOf(fs, i, p)
  {
    var n := off / BSIZE;
    var d := Patch(fs.blocks[Ptr(fs, i, n)], off % BSIZE, src, from, m);
    PutBlockRef(fs, i, n, d, i, p / BSIZE);
    assert Ref(fs, i, p / BSIZE) == Ptr(fs, i, p / BSIZE) && Ref(fs, i, n) == Ptr(fs, i, n);
    if p / BSIZE != n { RefsDiffer(fs, i, n, i, p / BSIZE); }
  }

  lemma PutKeepsOthers(fs0: Fs, fs: Fs, i: nat, n: nat, d: Data)
    requires Owned(fs) && OthersKept(fs0, fs, i) && i < |fs.inodes| && n < MAXFILE && |d.bytes| == BSIZE
    requires 0 < Ptr(fs, i, n) < |fs.blocks|
    ensures OthersKept(fs0, PutBlock(fs, i, n, d), i)
  {
    var t := PutBlock(fs, i, n, d);
    PutBlockOwned(fs, i, n, d);
    forall k, m | 0 <= k < |fs0.inodes| && k != i && 0 <= m < MAXFILE ensures OtherBlock(fs0, t, k, m) {
      assert OtherBlock(fs0, fs, k, m);
      assert Ref(fs, k, m) == Ptr(fs, k, m) && Ref(t, k, m) == Ptr(t, k, m) && Ref(fs, i, n) == Ptr(fs, i, n);
      RefsDiffer(fs, i, n, k, m);
    }
  }

  ghost function Moved(fs: Fs, i: nat, src: seq<nat>, off0: nat, off: nat, m: nat): Fs
    requires WellFormed(fs) && i < |fs.inodes| && off / BSIZE < MAXFILE && Ptr(fs, i, off / BSIZE) < |fs.blocks|
    requires off0 <= off && 0 < m <= BSIZE - off % BSIZE && off + m <= off0 + |src|
  {
    PutBlock(fs, i, off / BSIZE, Patch(fs.blocks[Ptr(fs, i, off / BSIZE)], off % BSIZE, src, off - off0, m))
  }

  lemma MovedByte(fs0: Fs, fs: Fs, i: nat, src: seq<nat>, off0: nat, off: nat, m: nat, p: nat)
    requires Mapped(fs0, fs, i, src, off0, off) && 0 < Ptr(fs, i, off / BSIZE) < |fs.blocks|
    requires 0 < m <= BSIZE - off % BSIZE && off + m <= off0 + |src|
    requires p < Max(fs0.inodes[i].size, off + m)
    ensures ByteOf(Moved(fs, i, src, off0, off, m), i, p) == Want(fs0, i, src, off0, off + m, p)
  {
    BlocksGrow(fs0.inodes[i].size, off, m);
    assert p / BSIZE < BlocksFor(Max(fs0.inodes[i].size, off + m));
    PatchedByte(fs, i, src, off, off - off0, m, p);
  }

  lemma MovedPtr(fs: Fs, i: nat, src: seq<nat>, off0: nat, off: nat, m: nat, q: nat)
    requires Owned(fs) && i < |fs.inodes| && off / BSIZE < MAXFILE && 0 < Ptr(fs, i, off / BSIZE) < |fs.blocks|
    requires off0 <= off && 0 < m <= BSIZE - off % BSIZE && off + m <= off0 + |src| && q < MAXFILE
    ensures WellFormed(Moved(fs, i, src, off0, off, m)) && Ptr(Moved(fs, i, src, off0, off, m), i, q) == Ptr(fs, i, q)
  {
    var d := Patch(fs.blocks[Ptr(fs, i, off / BSIZE)], off % BSIZE, src, off - off0, m);
    PutBlockRef(fs, i, off / BSIZE, d, i, q);
    assert Ref(fs, i, q) == Ptr(fs, i, q);
  }

  lemma MoveStep(fs0: Fs, fs: Fs, i: nat, src: seq<nat>, off0: nat, off: nat, m: nat)
    requires Mapped(fs0, fs, i, src, off0, off)
    requires 0 < m <= BSIZE - off % BSIZE && off + m <= off0 + |src| && off + m <= MAXFILE * BSIZE
    ensures 0 < Ptr(fs, i, off / BSIZE) < |fs.blocks|
    ensures Progress(fs0, Moved(fs, i, src, off0, off, m), i, src, off0, off + m)
  {
    var n := off / BSIZE;
    assert Ptr(fs, i, n) != 0 && Ref(fs, i, n) == Ptr(fs, i, n);
    var d := Patch(fs.blocks[Ptr(fs, i, n)], off % BSIZE, src, off - off0, m);
    var t := Moved(fs, i, src, off0, off, m);
    PutBlockOwned(fs, i, n, d);
    PutKeepsOthers(fs0, fs, i, n, d);
    BlocksGrow(fs0.inodes[i].size, off, m);
    forall q | 0 <= q < MAXFILE ensures Ptr(t, i, q) == Ptr(fs, i, q) { MovedPtr(fs, i, src, off0, off, m, q); }
    forall p: nat | p < Max(fs0.inodes[i].size, off + m)
      ensures ByteOf(t, i, p) == Want(fs0, i, src, off0, off + m, p)
    {
      MovedByte(fs0, fs, i, src, off0, off, m, p);
    }
  }

  // ------------------------------------------------------------------
  // The whole write

  /** src laid over c at off, extending it if it reaches past the end. */
  function Splice(c: seq<nat>, off: nat, src: seq<nat>): seq<nat>
    requires off <= |c|
  {
    c[..off] + src + (if off + |src| < |c| then c[off + |src|..] else [])
  }

  /** Splice, byte by byte. */
  lemma SpliceAt(c: seq<nat>, off: nat, src: seq<nat>, p: nat)
    requires off <= |c| && p < Max(|c|, off + |src|)
    ensures |Splice(c, off, src)| == Max(|c|, off + |src|)
    ensures Splice(c, off, src)[p] == if off <= p < off + |src| then src[p - off] else c[p]
  {
  }

  /** Writing in two chunks is writing once. */
  lemma SpliceChunks(c: seq<nat>, off: nat, a: seq<nat>, b: seq<nat>)
    requires off <= |c|
    ensures off + |a| <= |Splice(c, off, a)|
    ensures Splice(Splice(c, off, a), off + |a|, b) == Splice(c, off, a + b)
  {
  }

  ghost function WithSize(fs: Fs, i: nat, size: nat): Fs
    requires i < |fs.inodes|
  {
    Fs(fs.used, fs.blocks, fs.inodes[i := Inode(size, fs.inodes[i].addrs)], fs.meta, fs.owner)
  }

  lemma WithSizePtr(fs: Fs, i: nat, size: nat, j: nat, m: nat)
    requires WellFormed(fs) && i < |fs.inodes| && j < |fs.inodes| && m < MAXFILE
    ensures WellFormed(WithSize(fs, i, size))
    ensures Ptr(WithSize(fs, i, size), j, m) == Ptr(fs, j, m)
    ensures Ref(WithSize(fs, i, size), j, TABLE) == Ref(fs, j, TABLE)
  {
    var t := WithSize(fs, i, size);
    assert t.inodes[j].addrs == fs.inodes[j].addrs;
  }

  /** Setting the size moves no block. */
  lemma WithSizeRefs(fs: Fs, i: nat, size: nat)
    requires Owned(fs) && i < |fs.inodes|
    ensures Owned(WithSize(fs, i, size))
    ensures forall j, m | 0 <= j < |fs.inodes| && 0 <= m <= TABLE :: Ref(WithSize(fs, i, size), j, m) == Ref(fs, j, m)
    ensures forall j, m | 0 <= j < |fs.inodes| && 0 <= m < MAXFILE :: Ptr(WithSize(fs, i, size), j, m) == Ptr(fs, j, m)
  {
    var t := WithSize(fs, i, size);
    WithSizePtr(fs, i, size, i, 0);
    forall j, m | 0 <= j < |fs.inodes| && 0 <= m < MAXFILE ensures Ptr(t, j, m) == Ptr(fs, j, m) {
      WithSizePtr(fs, i, size, j, m);
    }
    forall j, m | 0 <= j < |fs.inodes| && 0 <= m <= TABLE ensures Ref(t, j, m) == Ref(fs, j, m) {
      WithSizePtr(fs, i, size, j, if m == TABLE then 0 else m);
    }
    forall b | b in t.owner ensures var s := t.owner[b];
      t.meta <= b < |t.blocks| && s.inum < |t.inodes| && s.n <= TABLE && Ref(t, s.inum, s.n) == b
    {
      assert Ref(fs, fs.owner[b].inum, fs.owner[b].n) == b;
    }
  }

  lemma OtherContent(fs0: Fs, t: Fs, i: nat, k: nat)
    requires Owned(fs0) && Owned(t) && OthersKept(fs0, t, i) && k < |fs0.inodes| && k != i && NoHoles(fs0, k)
    ensures NoHoles(t, k) && Content(t, k) == Content(fs0, k)
  {
    assert t.inodes[k] == fs0.inodes[k];
    forall n | 0 <= n < MAXFILE ensures Ptr(t, k, n) == Ptr(fs0, k, n) { assert OtherBlock(fs0, t, k, n); }
    forall p | 0 <= p < fs0.inodes[k].size ensures Content(t, k)[p] == Content(fs0, k)[p] {
      InFileAt(fs0, k, p);
      InFileAt(t, k, p);
      assert OtherBlock(fs0, t, k, p / BSIZE);
    }
  }

  lemma SizedKeepsOthers(fs0: Fs, fs: Fs, i: nat, size: nat)
    requires OthersKept(fs0, fs, i) && Owned(fs) && i < |fs.inodes|
    ensures OthersKept(fs0, WithSize(fs, i, size), i)
  {
    WithSizeRefs(fs, i, size);
    var t := WithSize(fs, i, size);
    forall k, n | 0 <= k < |fs0.inodes| && k != i && 0 <= n < MAXFILE ensures OtherBlock(fs0, t, k, n) {
      assert OtherBlock(fs0, fs, k, n);
    }
  }

  lemma SizedNoHoles(fs: Fs, i: nat, size: nat)
    requires Owned(fs) && i < |fs.inodes| && Allocated(fs, i, BlocksFor(size))
    ensures Owned(WithSize(fs, i, size)) && NoHoles(WithSize(fs, i, size), i)
  {
    WithSizeRefs(fs, i, size);
  }

  /** All of src is in place and the size is set: the file is the old one with src spliced
      in, without holes, and every other file is as it was. */
  lemma WriteDone(fs0: Fs, fs: Fs, i: nat, src: seq<nat>, off0: nat)
    requires Progress(fs0, fs, i, src, off0, off0 + |src|)
    ensures var t := WithSize(fs, i, Max(fs0.inodes[i].size, off0 + |src|));
      && Owned(t) && OthersKept(fs0, t, i) && NoHoles(t, i)
      && Content(t, i) == Splice(Content(fs0, i), off0, src)
  {
    var size := fs0.inodes[i].size;
    var off := off0 + |src|;
    var t := WithSize(fs, i, Max(size, off));
    SizedKeepsOthers(fs0, fs, i, Max(size, off));
    SizedNoHoles(fs, i, Max(size, off));
    var c, want := Content(t, i), Splice(Content(fs0, i), off0, src);
    assert |c| == |want|;
    forall p | 0 <= p < |c| ensures c[p] == want[p] { WrittenByte(fs0, fs, i, src, off0, p); }
  }

  lemma WrittenByte(fs0: Fs, fs: Fs, i: nat, src: seq<nat>, off0: nat, p: nat)
    requires Progress(fs0, fs, i, src, off0, off0 + |src|) && p < Max(fs0.inodes[i].size, off0 + |src|)
    ensures var t := WithSize(fs, i, Max(fs0.inodes[i].size, off0 + |src|));
      && Owned(t) && NoHoles(t, i)
      && Content(t, i)[p] == Splice(Content(fs0, i), off0, src)[p]
  {
    var t := WithSize(fs, i, Max(fs0.inodes[i].size, off0 + |src|));
    WithSizeRefs(fs, i, Max(fs0.inodes[i].size, off0 + |src|));
    InFileAt(t, i, p);
    assert InFile(fs, i, p) && ByteAt(t, i, p) == ByteAt(fs, i, p);
    assert ByteOf(fs, i, p) == Want(fs0, i, src, off0, off0 + |src|, p);
    if p < fs0.inodes[i].size { InFileAt(fs0, i, p); }
  }

  /** fs is fs0 with src spliced into file i at off, and nothing else changed. */
  ghost predicate Spliced(fs0: Fs, fs: Fs, i: nat, src: seq<nat>, off: nat) {
    && Owned(fs0) && i < |fs0.inodes| && NoHoles(fs0, i) && off <= fs0.inodes[i].size
    && Owned(fs) && OthersKept(fs0, fs, i) && NoHoles(fs, i)
    && Content(fs, i) == Splice(Content(fs0, i), off, src)
  }

  lemma OthersKeptTrans(a: Fs, b: Fs, c: Fs, i: nat)
    requires OthersKept(a, b, i) && OthersKept(b, c, i)
    ensures OthersKept(a, c, i)
  {
    forall k, n | 0 <= k < |a.inodes| && k != i && 0 <= n < MAXFILE ensures OtherBlock(a, c, k, n) {
      assert OtherBlock(a, b, k, n) && OtherBlock(b, c, k, n);
    }
  }

  /** Two writes, one after the other at adjacent positions, are one write. */
  lemma SplicedTrans(fs0: Fs, fs1: Fs, fs2: Fs, i: nat, a: seq<nat>, b: seq<nat>, off: nat)
    requires Spliced(fs0, fs1, i, a, off) && Spliced(fs1, fs2, i, b, off + |a|)
    ensures Spliced(fs0, fs2, i, a + b, off)
  {
    OthersKeptTrans(fs0, fs1, fs2, i);
    SpliceChunks(Content(fs0, i), off, a, b);
  }

  ghost predicate Between(u: bool, fs0: Fs, fs: Fs) { true }

  /** Spliced, kept closed: a proof meets it only for the states that it names. */
  ghost predicate SplicedTo(fs0: Fs, fs: Fs, i: nat, src: seq<nat>, off: nat) {
    forall u: bool {:trigger Between(u, fs0, fs)} :: Between(u, fs0, fs) ==> Spliced(fs0, fs, i, src, off)
  }

  lemma SplicedOpen(fs0: Fs, fs: Fs, i: nat, src: seq<nat>, off: nat)
    requires SplicedTo(fs0, fs, i, src, off)
    ensures Spliced(fs0, fs, i, src, off)
  {
    assert Between(true, fs0, fs);
  }

  lemma SplicedToTrans(fs0: Fs, fs1: Fs, fs2: Fs, i: nat, a: seq<nat>, b: seq<nat>, off: nat)
    requires SplicedTo(fs0, fs1, i, a, off) && SplicedTo(fs1, fs2, i, b, off + |a|)
    ensures SplicedTo(fs0, fs2, i, a + b, off)
  {
    SplicedOpen(fs0, fs1, i, a, off);
    SplicedOpen(fs1, fs2, i, b, off + |a|);
    SplicedTrans(fs0, fs1, fs2, i, a, b, off);
  }

  lemma SplicedNothing(fs: Fs, i: nat, off: nat)
    requires Owned(fs) && i < |fs.inodes| && NoHoles(fs, i) && off <= fs.inodes[i].size
    ensures Spliced(fs, fs, i, [], off)
  {
  }

  lemma SplicedSize(fs0: Fs, fs: Fs, i: nat, src: seq<nat>, off: nat)
    requires Spliced(fs0, fs, i, src, off)
    ensures fs.inodes[i].size == Max(fs0.inodes[i].size, off + |src|)
  {
  }
}
