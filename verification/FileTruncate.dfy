/** What itrunc does to block ownership, as values. */
module FileTruncate {
  import opened FileContent
  import opened FileWrites

  /** Block b belongs to one of the first n slots of file i. */
  ghost predicate Before(fs: Fs, i: nat, n: nat, b: nat) {
    b in fs.owner && fs.owner[b].inum == i && fs.owner[b].n < n
  }

  /** The bitmap once the first n slots of file i have been freed. */
  ghost function FreedBits(fs: Fs, i: nat, n: nat): (u: seq<bool>)
    ensures |u| == |fs.used|
  {
    seq(|fs.used|, b requires 0 <= b < |fs.used| => fs.used[b] && !Before(fs, i, n, b))
  }

  /** Freeing the next slot: its block, if it has one, is marked used, so bfree does not
      panic, and clearing its bit is all there is to do. */
  lemma FreeNext(fs: Fs, i: nat, n: nat)
    requires Owned(fs) && i < |fs.inodes| && n <= TABLE
    ensures var a := Ref(fs, i, n);
      if a == 0 then FreedBits(fs, i, n + 1) == FreedBits(fs, i, n)
      else a < |fs.used| && FreedBits(fs, i, n)[a] && FreedBits(fs, i, n + 1) == FreedBits(fs, i, n)[a := false]
  {
  }

  /** The j-th entry of the table is the reference of slot NDIRECT + j. */
  lemma EntryRef(fs: Fs, i: nat, j: nat)
    requires Owned(fs) && i < |fs.inodes| && j < NINDIRECT && 0 < fs.inodes[i].addrs[NDIRECT] < |fs.blocks|
    ensures GetPtr(fs.blocks[fs.inodes[i].addrs[NDIRECT]], j) == Ref(fs, i, NDIRECT + j)
  {
  }

  ghost function Empty(): Inode {
    Inode(0, seq(NDIRECT + 1, _ => 0))
  }

  ghost function Truncated(fs: Fs, i: nat): Fs
    requires i < |fs.inodes|
  {
    Fs(FreedBits(fs, i, TABLE + 1), fs.blocks, fs.inodes[i := Empty()], fs.meta,
       map b | b in fs.owner && fs.owner[b].inum != i :: fs.owner[b])
  }

  lemma TruncatedRef(fs: Fs, i: nat, j: nat, m: nat)
    requires Owned(fs) && i < |fs.inodes| && ValidSlot(fs, j, m)
    ensures WellFormed(Truncated(fs, i)) && Ref(Truncated(fs, i), j, m) == if j == i then 0 else Ref(fs, j, m)
  {
  }

  /** Truncation frees exactly the blocks of file i and empties it; every other file keeps
      its blocks and bytes. */
  lemma TruncatedOwned(fs: Fs, i: nat)
    requires Owned(fs) && i < |fs.inodes|
    ensures Owned(Truncated(fs, i)) && OthersKept(fs, Truncated(fs, i), i)
    ensures NoHoles(Truncated(fs, i), i) && Content(Truncated(fs, i), i) == []
  {
    var t := Truncated(fs, i);
    TruncatedRef(fs, i, i, 0);
    forall j, m | 0 <= j < |fs.inodes| && 0 <= m <= TABLE ensures Ref(t, j, m) == if j == i then 0 else Ref(fs, j, m) {
      TruncatedRef(fs, i, j, m);
    }
    forall k, n | 0 <= k < |fs.inodes| && 0 <= n < MAXFILE ensures Ptr(t, k, n) == if k == i then 0 else Ptr(fs, k, n) {
      assert Ref(t, k, n) == Ptr(t, k, n) && Ref(fs, k, n) == Ptr(fs, k, n);
    }
    forall b | b in t.owner
      ensures var s := t.owner[b];
        t.meta <= b < |t.blocks| && s.inum < |t.inodes| && s.n <= TABLE && Ref(t, s.inum, s.n) == b
    {
      assert Ref(fs, fs.owner[b].inum, fs.owner[b].n) == b;
    }
  }
}
