/** Inode content and block ownership of fs.c, as values: which disk block holds which
    byte of which file, and who owns each disk block. `FileSystem` holds the code. */
module FileContent {

  const BSIZE: nat := 512
  const NDIRECT: nat := 12
  const NINDIRECT: nat := 128          // BSIZE / sizeof(uint)
  const MAXFILE: nat := 140            // NDIRECT + NINDIRECT
  const TABLE: nat := MAXFILE          // the slot of the indirect table itself

  /** The bytes of a disk block. */
  datatype Data = Data(bytes: seq<nat>)

  /** size and addrs of an inode; addrs[NDIRECT] is the indirect table. */
  datatype Inode = Inode(size: nat, addrs: seq<nat>)

  /** A place that can refer to a disk block: logical block n of a file, or its table. */
  datatype Slot = Slot(inum: nat, n: nat)

  /** `used` is the free bitmap, `meta` the number of blocks before the data blocks, and
      `owner` records for every data block in use the slot that refers to it. */
  datatype Fs = Fs(used: seq<bool>, blocks: seq<Data>, inodes: seq<Inode>, meta: nat, owner: map<nat, Slot>)

  ghost predicate WellFormed(fs: Fs) {
    && |fs.used| == |fs.blocks| && 0 < fs.meta <= |fs.blocks|
    && (forall b | 0 <= b < |fs.blocks| :: |fs.blocks[b].bytes| == BSIZE)
    && (forall i | 0 <= i < |fs.inodes| :: |fs.inodes[i].addrs| == NDIRECT + 1)
  }

  // ------------------------------------------------------------------
  // The block as an array of uint

  function Le(a: nat, b: nat, c: nat, d: nat): nat {
    a + 256 * b + 65536 * c + 16777216 * d
  }

  /** ((uint*)data)[j], little endian. */
  function GetPtr(d: Data, j: nat): nat
    requires |d.bytes| == BSIZE && j < NINDIRECT
  {
    Le(d.bytes[4 * j], d.bytes[4 * j + 1], d.bytes[4 * j + 2], d.bytes[4 * j + 3])
  }

  /** ((uint*)data)[j] = w. */
  function SetPtr(d: Data, j: nat, w: nat): (r: Data)
    requires |d.bytes| == BSIZE && j < NINDIRECT
    ensures |r.bytes| == BSIZE
  {
    Data(d.bytes[4 * j := w % 256][4 * j + 1 := w / 256 % 256]
                [4 * j + 2 := w / 256 / 256 % 256][4 * j + 3 := w / 256 / 256 / 256 % 256])
  }

  /** What bzero leaves. */
  function Zero(): (r: Data)
    ensures |r.bytes| == BSIZE && forall j | 0 <= j < BSIZE :: r.bytes[j] == 0
  {
    Data(seq(BSIZE, _ => 0))
  }

  /** Storing a pointer changes that entry and no other. */
  lemma PtrStored(d: Data, j: nat, w: nat, i: nat)
    requires |d.bytes| == BSIZE && j < NINDIRECT && i < NINDIRECT && w < 0x1_0000_0000
    ensures GetPtr(SetPtr(d, j, w), i) == if i == j then w else GetPtr(d, i)
  {
  }

  // ------------------------------------------------------------------
  // Who refers to what

  /** The disk block of logical block n of file i, or 0. */
  ghost function Ptr(fs: Fs, i: nat, n: nat): nat
    requires WellFormed(fs) && i < |fs.inodes| && n < MAXFILE
  {
    var a := fs.inodes[i].addrs;
    if n < NDIRECT then a[n]
    else if a[NDIRECT] == 0 || a[NDIRECT] >= |fs.blocks| then 0
    else GetPtr(fs.blocks[a[NDIRECT]], n - NDIRECT)
  }

  /** What a slot refers to, or 0. */
  ghost function Ref(fs: Fs, i: nat, n: nat): nat
    requires WellFormed(fs) && i < |fs.inodes| && n <= TABLE
  {
    if n == TABLE then fs.inodes[i].addrs[NDIRECT] else Ptr(fs, i, n)
  }

  /** Every slot refers to a data block that is in use and recorded as owned by that slot. */
  ghost predicate RefsOwned(fs: Fs)
    requires WellFormed(fs)
  {
    forall i, n | 0 <= i < |fs.inodes| && 0 <= n <= TABLE ::
      var b := Ref(fs, i, n);
      b != 0 ==> fs.meta <= b < |fs.blocks| && b in fs.owner && fs.owner[b] == Slot(i, n)
  }

  /** A bit is set exactly for the blocks before the data blocks and the owned ones;
      an owned block is the one its owner refers to. */
  ghost predicate BitsOwned(fs: Fs)
    requires WellFormed(fs)
  {
    && (forall b | 0 <= b < |fs.used| :: fs.used[b] <==> b < fs.meta || b in fs.owner)
    && (forall b | b in fs.owner :: var s := fs.owner[b];
          fs.meta <= b < |fs.blocks| && s.inum < |fs.inodes| && s.n <= TABLE && Ref(fs, s.inum, s.n) == b)
  }

  ghost predicate Owned(fs: Fs) {
    WellFormed(fs) && |fs.blocks| < 0x1_0000_0000 && RefsOwned(fs) && BitsOwned(fs)
  }

  /** The statement without the record: a bit is set iff the block is metadata or some slot
      refers to it, and no two slots refer to the same block. */
  lemma OwnedMeaning(fs: Fs)
    requires Owned(fs)
    ensures forall b | 0 <= b < |fs.used| :: fs.used[b] <==>
      b < fs.meta || exists i, n :: 0 <= i < |fs.inodes| && 0 <= n <= TABLE && Ref(fs, i, n) == b
    ensures forall i, n, j, m | 0 <= i < |fs.inodes| && 0 <= n <= TABLE && 0 <= j < |fs.inodes| && 0 <= m <= TABLE
      && Ref(fs, i, n) == Ref(fs, j, m) != 0 :: i == j && n == m
  {
  }

  // ------------------------------------------------------------------
  // Contents

  function BlocksFor(size: nat): nat {
    (size + BSIZE - 1) / BSIZE
  }

  /** Exactly the first k logical blocks are allocated, and the table iff one of them needs it. */
  ghost predicate Allocated(fs: Fs, i: nat, k: nat)
    requires WellFormed(fs) && i < |fs.inodes|
  {
    && k <= MAXFILE
    && (forall n | 0 <= n < MAXFILE :: Ptr(fs, i, n) != 0 <==> n < k)
    && (fs.inodes[i].addrs[NDIRECT] != 0 <==> k > NDIRECT)
  }

  /** No holes, at rest. */
  ghost predicate NoHoles(fs: Fs, i: nat)
    requires WellFormed(fs) && i < |fs.inodes|
  {
    Allocated(fs, i, BlocksFor(fs.inodes[i].size))
  }

  ghost predicate InFile(fs: Fs, i: nat, p: nat) {
    WellFormed(fs) && i < |fs.inodes| && p / BSIZE < MAXFILE && 0 < Ptr(fs, i, p / BSIZE) < |fs.blocks|
  }

  /** Byte p of file i, wherever it lies. */
  ghost function ByteAt(fs: Fs, i: nat, p: nat): nat
    requires InFile(fs, i, p)
  {
    fs.blocks[Ptr(fs, i, p / BSIZE)].bytes[p % BSIZE]
  }

  /** File i as the plain sequence of bytes it stands for. */
  ghost function Content(fs: Fs, i: nat): (c: seq<nat>)
    requires Owned(fs) && i < |fs.inodes| && NoHoles(fs, i)
  {
    seq(fs.inodes[i].size, p requires 0 <= p < fs.inodes[i].size => (InFileAt(fs, i, p); ByteAt(fs, i, p)))
  }

  lemma InFileAt(fs: Fs, i: nat, p: nat)
    requires Owned(fs) && i < |fs.inodes| && NoHoles(fs, i) && p < fs.inodes[i].size
    ensures InFile(fs, i, p)
  {
    var n := p / BSIZE;
    assert n < BlocksFor(fs.inodes[i].size);
    assert Ptr(fs, i, n) == Ref(fs, i, n);
  }

  // ------------------------------------------------------------------
  // Giving a fresh block to a slot

  ghost predicate Fresh(fs: Fs, b: nat) {
    WellFormed(fs) && b < |fs.used| && !fs.used[b]
  }

  ghost predicate ValidSlot(fs: Fs, i: nat, n: nat) {
    i < |fs.inodes| && n <= TABLE
  }

  /** Any change that gives the fresh block b to an empty slot, marks it used and leaves
      every other slot alone keeps the ownership discipline. */
  lemma GiveKeepsOwned(fs: Fs, t: Fs, i: nat, n: nat, b: nat)
    requires Owned(fs) && WellFormed(t) && |t.blocks| == |fs.blocks| && |t.inodes| == |fs.inodes| && t.meta == fs.meta
    requires Fresh(fs, b) && ValidSlot(fs, i, n) && Ref(fs, i, n) == 0 && Ref(t, i, n) == b
    requires forall j, m | 0 <= j < |fs.inodes| && 0 <= m <= TABLE && !(j == i && m == n) ::
      Ref(t, j, m) == Ref(fs, j, m)
    requires t.used == fs.used[b := true] && t.owner == fs.owner[b := Slot(i, n)]
    ensures Owned(t)
  {
  }

  /** t is fs with blocks added to file i: no file lost a block or a byte. */
  ghost predicate Grown(fs: Fs, t: Fs, i: nat)
    requires WellFormed(fs) && WellFormed(t)
  {
    && |t.blocks| == |fs.blocks| && |t.inodes| == |fs.inodes| && t.meta == fs.meta && i < |fs.inodes|
    && t.inodes[i].size == fs.inodes[i].size
    && (forall k | 0 <= k < |fs.inodes| && k != i :: t.inodes[k] == fs.inodes[k])
    && (forall k, n | 0 <= k < |fs.inodes| && 0 <= n < MAXFILE :: KeptBlock(fs, t, i, k, n))
  }

  ghost predicate KeptBlock(fs: Fs, t: Fs, i: nat, k: nat, n: nat)
    requires WellFormed(fs) && WellFormed(t) && k < |fs.inodes| == |t.inodes| && n < MAXFILE
  {
    var a := Ptr(fs, k, n);
    && (a != 0 || k != i ==> Ptr(t, k, n) == a)
    && (0 < a < |fs.blocks| == |t.blocks| ==> t.blocks[a] == fs.blocks[a])
  }

  lemma GrownTrans(fs: Fs, t: Fs, u: Fs, i: nat)
    requires WellFormed(fs) && WellFormed(t) && WellFormed(u) && Grown(fs, t, i) && Grown(t, u, i)
    ensures Grown(fs, u, i)
  {
    forall k, n | 0 <= k < |fs.inodes| && 0 <= n < MAXFILE ensures KeptBlock(fs, u, i, k, n) {
      assert KeptBlock(fs, t, i, k, n) && KeptBlock(t, u, i, k, n);
    }
  }

  // The three places bmap puts a block

  ghost function GiveDirect(fs: Fs, i: nat, n: nat, b: nat): Fs
    requires WellFormed(fs) && i < |fs.inodes| && n <= NDIRECT && b < |fs.used|
  {
    var ip := Inode(fs.inodes[i].size, fs.inodes[i].addrs[n := b]);
    Fs(fs.used[b := true], fs.blocks[b := Zero()], fs.inodes[i := ip], fs.meta,
       fs.owner[b := Slot(i, if n == NDIRECT then TABLE else n)])
  }

  ghost function GiveIndirect(fs: Fs, i: nat, j: nat, b: nat): Fs
    requires WellFormed(fs) && i < |fs.inodes| && j < NINDIRECT && b < |fs.used|
    requires fs.inodes[i].addrs[NDIRECT] < |fs.blocks| && fs.inodes[i].addrs[NDIRECT] != b
  {
    var a := fs.inodes[i].addrs[NDIRECT];
    Fs(fs.used[b := true], fs.blocks[b := Zero()][a := SetPtr(fs.blocks[a], j, b)], fs.inodes, fs.meta,
       fs.owner[b := Slot(i, NDIRECT + j)])
  }

  /** A fresh block is nobody's. */
  lemma FreshUnreferenced(fs: Fs, b: nat, i: nat, n: nat)
    requires Owned(fs) && Fresh(fs, b) && ValidSlot(fs, i, n)
    ensures b >= fs.meta > 0 && b !in fs.owner && Ref(fs, i, n) != b
  {
  }

  /** Two slots never share a block. */
  lemma RefsDiffer(fs: Fs, i: nat, n: nat, j: nat, m: nat)
    requires Owned(fs) && ValidSlot(fs, i, n) && ValidSlot(fs, j, m) && !(i == j && n == m) && Ref(fs, i, n) != 0
    ensures Ref(fs, i, n) != Ref(fs, j, m)
  {
  }

  lemma GiveDirectRef(fs: Fs, i: nat, n: nat, b: nat, j: nat, m: nat)
    requires Owned(fs) && Fresh(fs, b) && i < |fs.inodes| && n <= NDIRECT && fs.inodes[i].addrs[n] == 0
    requires ValidSlot(fs, j, m)
    ensures WellFormed(GiveDirect(fs, i, n, b))
    ensures Ref(GiveDirect(fs, i, n, b), j, m) ==
      if j == i && m == (if n == NDIRECT then TABLE else n) then b else Ref(fs, j, m)
  {
    FreshUnreferenced(fs, b, j, TABLE);
  }

  lemma GiveDirectOwned(fs: Fs, i: nat, n: nat, b: nat)
    requires Owned(fs) && Fresh(fs, b) && i < |fs.inodes| && n <= NDIRECT && fs.inodes[i].addrs[n] == 0
    ensures Owned(GiveDirect(fs, i, n, b)) && Grown(fs, GiveDirect(fs, i, n, b), i)
  {
    var t := GiveDirect(fs, i, n, b);
    var slot := if n == NDIRECT then TABLE else n;
    GiveDirectRef(fs, i, n, b, i, slot);
    forall j, m | 0 <= j < |fs.inodes| && 0 <= m <= TABLE && !(j == i && m == slot)
      ensures Ref(t, j, m) == Ref(fs, j, m)
    {
      GiveDirectRef(fs, i, n, b, j, m);
    }
    GiveKeepsOwned(fs, t, i, slot, b);
    forall k, m | 0 <= k < |fs.inodes| && 0 <= m < MAXFILE ensures KeptBlock(fs, t, i, k, m) {
      GiveDirectRef(fs, i, n, b, k, m);
      FreshUnreferenced(fs, b, k, m);
      assert Ptr(fs, k, m) == Ref(fs, k, m) && Ptr(t, k, m) == Ref(t, k, m);
    }
  }

  lemma GiveIndirectRef(fs: Fs, i: nat, n: nat, b: nat, j: nat, m: nat)
    requires Owned(fs) && Fresh(fs, b) && i < |fs.inodes| && NDIRECT <= n < MAXFILE
    requires fs.inodes[i].addrs[NDIRECT] != 0 && Ptr(fs, i, n) == 0 && ValidSlot(fs, j, m)
    ensures fs.inodes[i].addrs[NDIRECT] < |fs.blocks| && fs.inodes[i].addrs[NDIRECT] != b
    ensures WellFormed(GiveIndirect(fs, i, n - NDIRECT, b))
    ensures Ref(GiveIndirect(fs, i, n - NDIRECT, b), j, m) == if j == i && m == n then b else Ref(fs, j, m)
  {
    var a := Ref(fs, i, TABLE);
    FreshUnreferenced(fs, b, i, TABLE);
    FreshUnreferenced(fs, b, j, TABLE);
    if j != i { RefsDiffer(fs, i, TABLE, j, TABLE); }
    if NDIRECT <= m < MAXFILE { PtrStored(fs.blocks[a], n - NDIRECT, b, m - NDIRECT); }
  }

  lemma GiveIndirectOwned(fs: Fs, i: nat, n: nat, b: nat)
    requires Owned(fs) && Fresh(fs, b) && i < |fs.inodes| && NDIRECT <= n < MAXFILE
    requires fs.inodes[i].addrs[NDIRECT] != 0 && Ptr(fs, i, n) == 0
    ensures fs.inodes[i].addrs[NDIRECT] < |fs.blocks| && fs.inodes[i].addrs[NDIRECT] != b
    ensures Owned(GiveIndirect(fs, i, n - NDIRECT, b)) && Grown(fs, GiveIndirect(fs, i, n - NDIRECT, b), i)
  {
    GiveIndirectRef(fs, i, n, b, i, n);
    var t := GiveIndirect(fs, i, n - NDIRECT, b);
    forall j, m | 0 <= j < |fs.inodes| && 0 <= m <= TABLE && !(j == i && m == n) ensures Ref(t, j, m) == Ref(fs, j, m) {
      GiveIndirectRef(fs, i, n, b, j, m);
    }
    GiveKeepsOwned(fs, t, i, n, b);
    forall k, m | 0 <= k < |fs.inodes| && 0 <= m < MAXFILE ensures KeptBlock(fs, t, i, k, m) {
      GiveIndirectRef(fs, i, n, b, k, m);
      FreshUnreferenced(fs, b, k, m);
      RefsDiffer(fs, i, TABLE, k, m);
      assert Ptr(fs, k, m) == Ref(fs, k, m) && Ptr(t, k, m) == Ref(t, k, m);
    }
  }

  // ------------------------------------------------------------------
  // How far a file is allocated

  /** As Allocated, with the table's presence given. */
  ghost predicate AllocatedWith(fs: Fs, i: nat, k: nat, table: bool)
    requires WellFormed(fs) && i < |fs.inodes|
  {
    && k <= MAXFILE
    && (forall n | 0 <= n < MAXFILE :: Ptr(fs, i, n) != 0 <==> n < k)
    && (fs.inodes[i].addrs[NDIRECT] != 0 <==> table)
  }

  lemma GiveDirectAllocates(fs: Fs, i: nat, n: nat, b: nat, table: bool)
    requires Owned(fs) && Fresh(fs, b) && i < |fs.inodes| && n < NDIRECT && AllocatedWith(fs, i, n, table)
    ensures fs.inodes[i].addrs[n] == 0 && WellFormed(GiveDirect(fs, i, n, b))
    ensures AllocatedWith(GiveDirect(fs, i, n, b), i, n + 1, table)
  {
    assert Ptr(fs, i, n) == 0;
    var t := GiveDirect(fs, i, n, b);
    forall m | 0 <= m < MAXFILE ensures Ptr(t, i, m) != 0 <==> m < n + 1 {
      GiveDirectRef(fs, i, n, b, i, m);
      FreshUnreferenced(fs, b, i, m);
      assert Ptr(t, i, m) == Ref(t, i, m) && Ptr(fs, i, m) == Ref(fs, i, m);
    }
  }

  lemma GiveTableAllocates(fs: Fs, i: nat, k: nat, b: nat)
    requires Owned(fs) && Fresh(fs, b) && i < |fs.inodes| && AllocatedWith(fs, i, k, false)
    ensures WellFormed(GiveDirect(fs, i, NDIRECT, b)) && AllocatedWith(GiveDirect(fs, i, NDIRECT, b), i, k, true)
  {
    var t := GiveDirect(fs, i, NDIRECT, b);
    forall m | 0 <= m < MAXFILE ensures Ptr(t, i, m) != 0 <==> m < k {
      GiveDirectRef(fs, i, NDIRECT, b, i, m);
      assert Ptr(t, i, m) == Ref(t, i, m) && Ptr(fs, i, m) == Ref(fs, i, m);
    }
    FreshUnreferenced(fs, b, i, 0);
  }

  lemma GiveIndirectAllocates(fs: Fs, i: nat, n: nat, b: nat)
    requires Owned(fs) && Fresh(fs, b) && i < |fs.inodes| && NDIRECT <= n < MAXFILE && AllocatedWith(fs, i, n, true)
    ensures fs.inodes[i].addrs[NDIRECT] < |fs.blocks| && fs.inodes[i].addrs[NDIRECT] != b
    ensures WellFormed(GiveIndirect(fs, i, n - NDIRECT, b))
      && AllocatedWith(GiveIndirect(fs, i, n - NDIRECT, b), i, n + 1, true)
  {
    assert Ptr(fs, i, n) == 0;
    GiveIndirectRef(fs, i, n, b, i, n);
    var t := GiveIndirect(fs, i, n - NDIRECT, b);
    forall m | 0 <= m < MAXFILE ensures Ptr(t, i, m) != 0 <==> m < n + 1 {
      GiveIndirectRef(fs, i, n, b, i, m);
      FreshUnreferenced(fs, b, i, m);
      assert Ptr(t, i, m) == Ref(t, i, m) && Ptr(fs, i, m) == Ref(fs, i, m);
    }
  }

  // ------------------------------------------------------------------
  // Writing into an allocated block

  ghost function PutBlock(fs: Fs, i: nat, n: nat, d: Data): Fs
    requires WellFormed(fs) && i < |fs.inodes| && n < MAXFILE && Ptr(fs, i, n) < |fs.blocks|
  {
    Fs(fs.used, fs.blocks[Ptr(fs, i, n) := d], fs.inodes, fs.meta, fs.owner)
  }

  /** A data block is no table, so every slot still refers to what it did. */
  lemma PutBlockRef(fs: Fs, i: nat, n: nat, d: Data, j: nat, m: nat)
    requires Owned(fs) && i < |fs.inodes| && n < MAXFILE && Ptr(fs, i, n) != 0 && |d.bytes| == BSIZE
      && ValidSlot(fs, j, m)
    ensures Ptr(fs, i, n) < |fs.blocks| && WellFormed(PutBlock(fs, i, n, d))
    ensures Ref(PutBlock(fs, i, n, d), j, m) == Ref(fs, j, m)
  {
    assert Ref(fs, i, n) == Ptr(fs, i, n);
    RefsDiffer(fs, i, n, j, TABLE);
  }

  lemma PutBlockOwned(fs: Fs, i: nat, n: nat, d: Data)
    requires Owned(fs) && i < |fs.inodes| && n < MAXFILE && Ptr(fs, i, n) != 0 && |d.bytes| == BSIZE
    ensures Ptr(fs, i, n) < |fs.blocks| && Owned(PutBlock(fs, i, n, d))
    ensures forall j, m | 0 <= j < |fs.inodes| && 0 <= m <= TABLE :: Ref(PutBlock(fs, i, n, d), j, m) == Ref(fs, j, m)
  {
    PutBlockRef(fs, i, n, d, i, n);
    forall j, m | 0 <= j < |fs.inodes| && 0 <= m <= TABLE ensures Ref(PutBlock(fs, i, n, d), j, m) == Ref(fs, j, m) {
      PutBlockRef(fs, i, n, d, j, m);
    }
  }

  /** memmove of m bytes of src, from position `from`, over the bytes of d at `at`. */
  function Patch(d: Data, at: nat, src: seq<nat>, from: nat, m: nat): (r: Data)
    requires |d.bytes| == BSIZE && at + m <= BSIZE && from + m <= |src|
    ensures |r.bytes| == BSIZE
    ensures forall q | 0 <= q < BSIZE :: r.bytes[q] == if at <= q < at + m then src[from + (q - at)] else d.bytes[q]
  {
    Data(seq(BSIZE, q requires 0 <= q < BSIZE => if at <= q < at + m then src[from + (q - at)] else d.bytes[q]))
  }
}
