/** The block and inode layer of fs.c: balloc, bfree, bmap, itrunc, readi and writei on a
    bitmap, disk blocks and in-memory inodes that they update in place. */
module FileSystem {
  import opened FileContent
  import opened FileWrites
  import opened FileTruncate
  import opened Bitmap
  import opened FileLogging

  class FileSystem {
    const meta: nat
    var bitmap: Map
    var blocks: seq<Data>
    var inodes: seq<Inode>    // the inode cache
    var dinodes: seq<Inode>   // the inodes on disk
    ghost var owner: map<nat, Slot>

    ghost predicate Mapped()
      reads this
    {
      Covers(bitmap, |blocks|) && |dinodes| == |inodes|
    }

    ghost function Abs(): Fs
      requires Mapped()
      reads this
    {
      Fs(Bits(bitmap, |blocks|), blocks, inodes, meta, owner)
    }

    ghost predicate Valid()
      reads this
    {
      Mapped() && Owned(Abs())
    }

    /** Between operations: the file has no holes and its inode is on disk as it is in memory. */
    ghost predicate AtRest(i: nat)
      requires Valid()
      reads this
    {
      i < |inodes| && NoHoles(Abs(), i) && dinodes[i] == inodes[i]
    }

    /** The empty file system: nothing but metadata in use. */
    constructor (bitmap: Map, blocks: seq<Data>, ninodes: nat, meta: nat)
      requires Covers(bitmap, |blocks|) && |blocks| < 0x1_0000_0000 && 0 < meta <= |blocks|
      requires forall b | 0 <= b < |blocks| :: |blocks[b].bytes| == BSIZE
      requires forall b | 0 <= b < |blocks| :: Bits(bitmap, |blocks|)[b] <==> b < meta
      ensures Valid() && |inodes| == ninodes && forall i | 0 <= i < ninodes :: AtRest(i) && Content(Abs(), i) == []
    {
      this.bitmap, this.blocks, this.meta := bitmap, blocks, meta;
      inodes := seq(ninodes, _ => Inode(0, seq(NDIRECT + 1, _ => 0)));
      dinodes := seq(ninodes, _ => Inode(0, seq(NDIRECT + 1, _ => 0)));
      owner := map[];
    }

    /** balloc: take the first free block and zero it. Fails only when none is free. As in all
        methods below, lg is what was passed to log_write. */
    method Balloc() returns (ok: bool, b: nat, ghost lg: set<Place>)
      requires Mapped()
      modifies `bitmap, `blocks
      ensures Mapped() && |blocks| == |old(blocks)|
      ensures ok ==> b < |blocks| && !old(Bits(bitmap, |blocks|))[b] && blocks == old(blocks)[b := Zero()]
      ensures ok ==> forall c | 0 <= c < b :: old(Bits(bitmap, |blocks|))[c]
      ensures ok ==> Bits(bitmap, |blocks|) == old(Bits(bitmap, |blocks|))[b := true]
      ensures ok ==> lg == Allocates(b)
      ensures !ok ==>
        bitmap == old(bitmap) && blocks == old(blocks) && forall c | 0 <= c < |blocks| :: Bits(bitmap, |blocks|)[c]
    {
      lg := {};
      ok, b := FindFree(bitmap, |blocks|);
      if ok {
        SetBitBits(bitmap, |blocks|, b);
        bitmap := SetBit(bitmap, BitOf(b));
        blocks := blocks[b := Zero()];
        lg := {InBitmap(BitOf(b).block), InBlock(b)};
      }
    }

    ghost predicate Full()
      requires Mapped()
      reads this
    {
      forall c | 0 <= c < |blocks| :: Bits(bitmap, |blocks|)[c]
    }

    /** bmap's assignment to ip->addrs[n]: a data block, or the table for n == NDIRECT. */
    method MapDirect(i: nat, n: nat) returns (ok: bool, b: nat, ghost lg: set<Place>)
      requires Valid() && i < |inodes| && n <= NDIRECT && inodes[i].addrs[n] == 0
      modifies `bitmap, `blocks, `inodes, `owner
      ensures Mapped() && dinodes == old(dinodes)
      ensures ok ==> Fresh(old(Abs()), b) && Abs() == GiveDirect(old(Abs()), i, n, b) && lg == Allocates(b)
      ensures !ok ==> Abs() == old(Abs()) && Full()
    {
      ghost var fs := Abs();
      ok, b, lg := Balloc();
      if ok {
        inodes := inodes[i := Inode(inodes[i].size, inodes[i].addrs[n := b])];
        owner := owner[b := Slot(i, if n == NDIRECT then TABLE else n)];
      }
    }

    /** bmap's assignment to an entry of the indirect table. */
    method MapIndirect(i: nat, j: nat) returns (ok: bool, b: nat, ghost lg: set<Place>)
      requires Valid() && i < |inodes| && j < NINDIRECT && 0 < inodes[i].addrs[NDIRECT] < |blocks|
      requires GetPtr(blocks[inodes[i].addrs[NDIRECT]], j) == 0
      modifies `bitmap, `blocks, `owner
      ensures Mapped()
      ensures ok ==> Fresh(old(Abs()), b) && inodes[i].addrs[NDIRECT] != b && Abs() == GiveIndirect(old(Abs()), i, j, b)
      ensures ok ==> lg == Allocates(b) + {InBlock(inodes[i].addrs[NDIRECT])}
      ensures !ok ==> Abs() == old(Abs()) && Full()
    {
      ghost var fs := Abs();
      var a := inodes[i].addrs[NDIRECT];
      ok, b, lg := Balloc();
      if ok {
        FreshUnreferenced(fs, b, i, TABLE);
        blocks := blocks[a := SetPtr(blocks[a], j, b)];
        owner := owner[b := Slot(i, NDIRECT + j)];
        lg := lg + {InBlock(a)};
      }
    }

    /** What bmap may have logged to return addr, and that the file's table stayed. */
    ghost predicate MapLogged(fs: Fs, i: nat, addr: nat, lg: set<Place>)
      reads this
    {
      && i < |fs.inodes| && i < |inodes| && |fs.inodes[i].addrs| == |inodes[i].addrs| == NDIRECT + 1
      && lg <= Near(addr, inodes[i].addrs[NDIRECT], |blocks|)
      && (fs.inodes[i].addrs[NDIRECT] != 0 ==> inodes[i].addrs[NDIRECT] == fs.inodes[i].addrs[NDIRECT])
    }

    /** bmap of a direct block. */
    method BmapDirect(i: nat, n: nat, ghost k: nat) returns (ok: bool, addr: nat, ghost lg: set<Place>)
      requires Valid() && i < |inodes| && Allocated(Abs(), i, k) && n <= k && n < NDIRECT
      modifies `bitmap, `blocks, `inodes, `owner
      ensures ok ==>
        Valid() && Grown(old(Abs()), Abs(), i) && Allocated(Abs(), i, Max(k, n + 1)) && addr == Ptr(Abs(), i, n)
      ensures ok ==> MapLogged(old(Abs()), i, addr, lg)
      ensures n < k ==> ok && Abs() == old(Abs()) && lg == {}
      ensures !ok ==> Mapped() && Full()
    {
      ghost var fs := Abs();
      ok, addr, lg := true, inodes[i].addrs[n], {};
      assert Ptr(fs, i, n) == addr;
      if addr == 0 {
        ok, addr, lg := MapDirect(i, n);
        if ok {
          AllocatesWithin(addr, |blocks|);
          GiveDirectOwned(fs, i, n, addr);
          GiveDirectAllocates(fs, i, n, addr, false);
        }
      }
    }

    /** bmap's first half for an indirect block: the table. */
    method EnsureTable(i: nat, ghost k: nat) returns (ok: bool, a: nat, ghost lg: set<Place>)
      requires Valid() && i < |inodes| && Allocated(Abs(), i, k) && k >= NDIRECT
      modifies `bitmap, `blocks, `inodes, `owner
      ensures ok ==> Valid() && Grown(old(Abs()), Abs(), i) && AllocatedWith(Abs(), i, k, true)
      ensures ok ==> a == inodes[i].addrs[NDIRECT] && MapLogged(old(Abs()), i, a, lg)
      ensures k > NDIRECT ==> ok && Abs() == old(Abs()) && lg == {}
      ensures !ok ==> Mapped() && Full()
    {
      ghost var fs := Abs();
      ok, a, lg := true, inodes[i].addrs[NDIRECT], {};
      if a == 0 {
        ok, a, lg := MapDirect(i, NDIRECT);
        if ok {
          AllocatesWithin(a, |blocks|);
          GiveDirectOwned(fs, i, NDIRECT, a);
          GiveTableAllocates(fs, i, k, a);
        }
      }
    }

    /** bmap's second half for an indirect block: the table's entry. */
    method EnsureEntry(i: nat, n: nat, ghost k: nat) returns (ok: bool, addr: nat, ghost lg: set<Place>)
      requires Valid() && i < |inodes| && AllocatedWith(Abs(), i, k, true) && NDIRECT <= n <= k && n < MAXFILE
      modifies `bitmap, `blocks, `owner
      ensures ok ==> Valid() && Grown(old(Abs()), Abs(), i) && AllocatedWith(Abs(), i, Max(k, n + 1), true)
      ensures ok ==> addr == Ptr(Abs(), i, n)
      ensures ok ==> MapLogged(old(Abs()), i, addr, lg)
      ensures n < k ==> ok && Abs() == old(Abs()) && lg == {}
      ensures !ok ==> Mapped() && Full()
    {
      var a := inodes[i].addrs[NDIRECT];
      assert a == Ref(Abs(), i, TABLE);
      ok, addr, lg := true, GetPtr(blocks[a], n - NDIRECT), {};
      assert addr == Ptr(Abs(), i, n);
      if addr == 0 {
        ok, addr, lg := NewEntry(i, n);
      }
    }

    /** The entry of the first block behind the file's end. */
    method NewEntry(i: nat, n: nat) returns (ok: bool, addr: nat, ghost lg: set<Place>)
      requires Valid() && i < |inodes| && AllocatedWith(Abs(), i, n, true) && NDIRECT <= n < MAXFILE
        && Ptr(Abs(), i, n) == 0
      modifies `bitmap, `blocks, `owner
      ensures ok ==>
        Valid() && Grown(old(Abs()), Abs(), i) && AllocatedWith(Abs(), i, n + 1, true) && addr == Ptr(Abs(), i, n)
      ensures ok ==> MapLogged(old(Abs()), i, addr, lg)
      ensures !ok ==> Mapped() && Full()
    {
      ghost var fs := Abs();
      assert inodes[i].addrs[NDIRECT] == Ref(fs, i, TABLE);
      ok, addr, lg := MapIndirect(i, n - NDIRECT);
      if ok {
        EntryWithin(inodes[i].addrs[NDIRECT], addr, |blocks|);
        GiveIndirectOwned(fs, i, n, addr);
        GiveIndirectAllocates(fs, i, n, addr);
        GiveIndirectRef(fs, i, n, addr, i, n);
        assert Ref(Abs(), i, n) == Ptr(Abs(), i, n);
      }
    }

    /** bmap: the disk block of logical block n, allocating it (and the table) if the file ends
        there. An allocated block is returned as it is and nothing changes. */
    method Bmap(i: nat, n: nat, ghost k: nat) returns (ok: bool, addr: nat, ghost lg: set<Place>)
      requires Valid() && i < |inodes| && Allocated(Abs(), i, k) && n <= k && n < MAXFILE
      modifies `bitmap, `blocks, `inodes, `owner
      ensures ok ==>
        Valid() && Grown(old(Abs()), Abs(), i) && Allocated(Abs(), i, Max(k, n + 1)) && addr == Ptr(Abs(), i, n)
      ensures ok ==> MapLogged(old(Abs()), i, addr, lg)
      ensures n < k ==> ok && Abs() == old(Abs()) && lg == {}
      ensures !ok ==> Mapped() && Full()
    {
      if n < NDIRECT {
        ok, addr, lg := BmapDirect(i, n, k);
      } else {
        ghost var fs := Abs();
        ok, addr, lg := EnsureTable(i, k);
        if ok {
          ghost var fs1, more := Abs(), lg;
          ok, addr, lg := EnsureEntry(i, n, k);
          lg := lg + more;
          if ok { GrownTrans(fs, fs1, Abs(), i); }
        }
      }
    }

    /** The first half of an iteration of writei: map the block. */
    method MapChunk(i: nat, src: seq<nat>, off: nat, tot: nat, ghost fs0: Fs, ghost had: set<Place>)
      returns (ok: bool, addr: nat, ghost lg: set<Place>)
      requires Mapped() && i < |inodes| && i < |fs0.inodes| && tot < |src| && off + |src| <= MAXFILE * BSIZE
      requires Writing(fs0, Abs(), i, src, off, tot, had)
      modifies `bitmap, `blocks, `inodes, `owner
      ensures ok ==> Mapped() && i < |inodes| && ChunkMapped(fs0, Abs(), i, src, off, tot, addr, lg)
      ensures ok && off + |src| <= fs0.inodes[i].size ==> inodes == old(inodes)
      ensures !ok ==> Mapped() && Full()
    {
      ghost var fs := Abs();
      WritingOpen(fs0, fs, i, src, off, tot, had);
      ghost var k := BlocksFor(Max(fs0.inodes[i].size, off + tot));
      BlocksReach(fs0.inodes[i].size, off + tot);
      ok, addr, lg := Bmap(i, (off + tot) / BSIZE, k);
      if ok { ChunkMaps(fs0, fs, Abs(), i, src, off, tot, addr, had, lg); }
      lg := had + lg;
    }

    /** The second half: the memmove. */
    method CopyChunk(i: nat, src: seq<nat>, off: nat, tot: nat, addr: nat, ghost fs0: Fs, ghost had: set<Place>)
      returns (end: nat, ghost lg: set<Place>)
      requires Mapped() && i < |inodes| && tot < |src| && off + |src| <= MAXFILE * BSIZE
      requires ChunkMapped(fs0, Abs(), i, src, off, tot, addr, had)
      modifies `blocks
      ensures Mapped() && tot < end <= |src| && Writing(fs0, Abs(), i, src, off, end, lg)
    {
      var o := off + tot;
      var m := if |src| - tot < BSIZE - o % BSIZE then |src| - tot else BSIZE - o % BSIZE;
      end := tot + m;
      ghost var fs1 := Abs();
      ChunkCopies(fs0, fs1, i, src, off, tot, m, addr, had);
      blocks := blocks[addr := Patch(blocks[addr], o % BSIZE, src, tot, m)];
      lg := had + {InBlock(addr)};
      assert Abs() == WithBlock(fs1, addr, Patch(fs1.blocks[addr], o % BSIZE, src, tot, m));
    }

    /** One iteration of writei: map the block, copy up to its end. */
    method WriteChunk(i: nat, src: seq<nat>, off: nat, tot: nat, ghost fs0: Fs, ghost had: set<Place>)
      returns (ok: bool, end: nat, ghost lg: set<Place>)
      requires Mapped() && i < |inodes| && i < |fs0.inodes| && tot < |src| && off + |src| <= MAXFILE * BSIZE
      requires Writing(fs0, Abs(), i, src, off, tot, had)
      modifies `bitmap, `blocks, `inodes, `owner
      ensures ok ==> Mapped() && i < |inodes| && tot < end <= |src|
      ensures ok ==> Writing(fs0, Abs(), i, src, off, end, lg)
      ensures ok && off + |src| <= fs0.inodes[i].size ==> inodes == old(inodes)
      ensures !ok ==> Mapped() && Full()
    {
      var addr;
      end := tot;
      ok, addr, lg := MapChunk(i, src, off, tot, fs0, had);
      if ok { end, lg := CopyChunk(i, src, off, tot, addr, fs0, lg); }
    }

    /** iupdate. */
    method Iupdate(i: nat)
      requires i < |inodes| == |dinodes|
      modifies `dinodes
      ensures dinodes == old(dinodes)[i := inodes[i]]
    {
      dinodes := dinodes[i := inodes[i]];
    }

    /** writei rejects a start past the end, a range that wraps around in 32 bits, and an end
        past the largest file. */
    static predicate BadRange(size: nat, off: nat, n: nat) {
      off > size || (off + n) % 0x1_0000_0000 < off || (off + n) % 0x1_0000_0000 > MAXFILE * BSIZE
    }

    /** writei's loop. */
    method WriteAll(i: nat, src: seq<nat>, off: nat, ghost fs0: Fs) returns (ok: bool, ghost lg: set<Place>)
      requires Mapped() && i < |inodes| && Abs() == fs0 && Writing(fs0, fs0, i, src, off, 0, {})
      requires off + |src| <= MAXFILE * BSIZE
      modifies `bitmap, `blocks, `inodes, `owner
      ensures ok ==> Mapped() && i < |inodes| && Writing(fs0, Abs(), i, src, off, |src|, lg)
      ensures ok && off + |src| <= fs0.inodes[i].size ==> inodes == old(inodes)
      ensures !ok ==> Mapped() && Full()
    {
      var tot := 0;
      ok, lg := true, {};
      while tot < |src|
        invariant tot <= |src| && ok && Mapped() && i < |inodes| && Writing(fs0, Abs(), i, src, off, tot, lg)
        invariant off + |src| <= fs0.inodes[i].size ==> inodes == old(inodes)
      {
        ok, tot, lg := WriteChunk(i, src, off, tot, fs0, lg);
        if !ok { return; }
      }
      assert tot == |src|;
    }

    /** writei's end: the size and the inode are updated only when the file grew. */
    method GrowSize(i: nat, n: nat, end: nat) returns (ghost lg: set<Place>)
      requires Mapped() && i < |inodes| && (n == 0 ==> end <= inodes[i].size)
      requires end <= inodes[i].size ==> dinodes[i] == inodes[i]
      modifies `inodes, `dinodes
      ensures Mapped() && Abs() == WithSize(old(Abs()), i, Max(old(inodes[i].size), end))
      ensures dinodes == old(dinodes)[i := inodes[i]]
      ensures lg == if end > old(inodes[i].size) then {InInode(i / IPB)} else {}
    {
      lg := {};
      if n > 0 && end > inodes[i].size {
        inodes := inodes[i := Inode(end, inodes[i].addrs)];
        Iupdate(i);
        lg := {InInode(i / IPB)};
      } else {
        assert inodes[i := Inode(inodes[i].size, inodes[i].addrs)] == inodes;
      }
    }

    /** What a successful writei leaves: the bytes spliced in, the rest of the system kept.
        WroteMeans opens it. */
    ghost predicate Wrote(fs0: Fs, i: nat, src: seq<nat>, off: nat)
      reads this
    {
      Mapped() && i < |inodes| && dinodes[i] == inodes[i] && SplicedTo(fs0, Abs(), i, src, off)
    }

    lemma WroteMeans(fs0: Fs, i: nat, src: seq<nat>, off: nat)
      ensures Wrote(fs0, i, src, off) <==> Valid() && AtRest(i) && Spliced(fs0, Abs(), i, src, off)
    {
      if Wrote(fs0, i, src, off) { SplicedOpen(fs0, Abs(), i, src, off); }
    }

    lemma WroteMore(fs0: Fs, fs1: Fs, i: nat, a: seq<nat>, b: seq<nat>, off: nat)
      requires SplicedTo(fs0, fs1, i, a, off) && Wrote(fs1, i, b, off + |a|)
      ensures Wrote(fs0, i, a + b, off)
    {
      SplicedToTrans(fs0, fs1, Abs(), i, a, b, off);
    }

    lemma WroteOpen(fs0: Fs, i: nat, src: seq<nat>, off: nat)
      requires Wrote(fs0, i, src, off)
      ensures Valid() && AtRest(i) && off + |src| <= inodes[i].size <= MAXFILE * BSIZE
      ensures |blocks| == |fs0.blocks|
    {
      WroteMeans(fs0, i, src, off);
      SplicedSize(fs0, Abs(), i, src, off);
      SizeBound(Abs(), i);
    }

    /** writei on a file: src is spliced into the bytes at off, across direct and indirect
        blocks; every other file keeps its bytes; and the inode is on disk as it is in memory,
        although it is written only when the size grew. */
    method Writei(i: nat, src: seq<nat>, off: nat) returns (ok: bool, r: int, ghost lg: set<Place>)
      requires Valid() && AtRest(i) && off < 0x1_0000_0000 && |src| < 0x1_0000_0000
      modifies `bitmap, `blocks, `inodes, `owner, `dinodes
      ensures ok ==> r == if off > old(inodes[i].size) || off + |src| > MAXFILE * BSIZE then -1 else |src|
      ensures ok && r == -1 ==> Mapped() && Abs() == old(Abs()) && dinodes == old(dinodes)
      ensures ok && r != -1 ==> Wrote(old(Abs()), i, src, off) && dinodes == old(dinodes)[i := inodes[i]]
      ensures ok && r == -1 ==> lg == {}
      ensures ok && r != -1 ==> LoggedWrite(Abs(), i, off, |src|, off + |src| > old(inodes[i].size), lg)
      ensures !ok ==> Mapped() && Full()
    {
      ok, r, lg := true, -1, {};
      if BadRange(inodes[i].size, off, |src|) { return; }
      ghost var fs0 := Abs();
      WritingStart(fs0, i, src, off);
      ok, lg := WriteAll(i, src, off, fs0);
      if !ok { return; }
      lg := FinishWrite(i, src, off, fs0, lg);
      r := |src|;
    }

    /** The loop is done: set the size. */
    method FinishWrite(i: nat, src: seq<nat>, off: nat, ghost fs0: Fs, ghost data: set<Place>)
      returns (ghost lg: set<Place>)
      requires Mapped() && i < |inodes| && Writing(fs0, Abs(), i, src, off, |src|, data)
      requires i < |fs0.inodes| && (off + |src| <= fs0.inodes[i].size ==> dinodes[i] == inodes[i])
      modifies `inodes, `dinodes
      ensures Wrote(fs0, i, src, off) && dinodes == old(dinodes)[i := inodes[i]]
      ensures LoggedWrite(Abs(), i, off, |src|, off + |src| > fs0.inodes[i].size, lg)
    {
      ghost var fs := Abs();
      WritingDone(fs0, fs, i, src, off, data);
      lg := GrowSize(i, |src|, off + |src|);
      lg := lg + data;
    }

    /** bfree: ok is false where the source panics with "freeing free block". */
    method Bfree(b: nat) returns (ok: bool)
      requires Mapped() && b < |blocks|
      modifies `bitmap
      ensures Mapped() && ok == old(Bits(bitmap, |blocks|))[b]
      ensures Bits(bitmap, |blocks|) == old(Bits(bitmap, |blocks|))[b := false]
    {
      Covered(bitmap, |blocks|, b);
      ok := Test(bitmap, BitOf(b));
      ClearBitBits(bitmap, |blocks|, b);
      if ok { bitmap := ClearBit(bitmap, BitOf(b)); }
    }

    /** itrunc between two calls of bfree: the first n slots of file i are free, those among
        the direct ones have been cleared, and nothing else has changed. */
    ghost predicate Truncating(fs: Fs, i: nat, n: nat)
      reads this
    {
      && Mapped() && Owned(fs) && i < |fs.inodes| == |inodes| && blocks == fs.blocks && meta == fs.meta
      && Bits(bitmap, |blocks|) == FreedBits(fs, i, n)
      && |inodes[i].addrs| == NDIRECT + 1
      && (forall k | 0 <= k < |inodes| && k != i :: inodes[k] == fs.inodes[k])
      && (forall d | 0 <= d <= NDIRECT ::
          inodes[i].addrs[d] == if d < n && d < NDIRECT then 0 else fs.inodes[i].addrs[d])
    }

    method FreeDirect(i: nat, d: nat, ghost fs: Fs) returns (ok: bool)
      requires d < NDIRECT && Truncating(fs, i, d)
      modifies `bitmap, `inodes
      ensures ok && Truncating(fs, i, d + 1)
    {
      FreeNext(fs, i, d);
      assert Ref(fs, i, d) == inodes[i].addrs[d];
      ok := true;
      if inodes[i].addrs[d] != 0 {
        ok := Bfree(inodes[i].addrs[d]);
        inodes := inodes[i := Inode(inodes[i].size, inodes[i].addrs[d := 0])];
      }
    }

    method FreeEntry(i: nat, j: nat, ghost fs: Fs) returns (ok: bool)
      requires j < NINDIRECT && Truncating(fs, i, NDIRECT + j) && 0 < inodes[i].addrs[NDIRECT] < |blocks|
      modifies `bitmap
      ensures ok && Truncating(fs, i, NDIRECT + j + 1)
    {
      EntryRef(fs, i, j);
      ok := FreeRef(GetPtr(blocks[inodes[i].addrs[NDIRECT]], j), i, NDIRECT + j, fs);
    }

    method FreeRef(a: nat, ghost i: nat, ghost n: nat, ghost fs: Fs) returns (ok: bool)
      requires NDIRECT <= n <= TABLE && Truncating(fs, i, n) && a == Ref(fs, i, n)
      modifies `bitmap
      ensures ok && Truncating(fs, i, n + 1)
    {
      FreeNext(fs, i, n);
      ok := true;
      if a != 0 {
        ok := Bfree(a);
      }
    }

    method FreeAllDirect(i: nat, ghost fs: Fs) returns (ok: bool)
      requires Truncating(fs, i, 0)
      modifies `bitmap, `inodes
      ensures ok && Truncating(fs, i, NDIRECT)
    {
      var d := 0;
      ok := true;
      while d < NDIRECT
        invariant d <= NDIRECT && ok && Truncating(fs, i, d)
      {
        ok := FreeDirect(i, d, fs);
        d := d + 1;
      }
    }

    method FreeAllEntries(i: nat, ghost fs: Fs) returns (ok: bool)
      requires Truncating(fs, i, NDIRECT) && 0 < inodes[i].addrs[NDIRECT] < |blocks|
      modifies `bitmap
      ensures ok && Truncating(fs, i, TABLE)
    {
      var j := 0;
      ok := true;
      while j < NINDIRECT
        invariant j <= NINDIRECT && ok && Truncating(fs, i, NDIRECT + j)
      {
        ok := FreeEntry(i, j, fs);
        j := j + 1;
      }
    }

    /** Without a table there is nothing past the direct blocks to free. */
    lemma NoTable(fs: Fs, i: nat, n: nat)
      requires Owned(fs) && i < |fs.inodes| && fs.inodes[i].addrs[NDIRECT] == 0 && NDIRECT <= n <= TABLE + 1
      ensures FreedBits(fs, i, n) == FreedBits(fs, i, NDIRECT)
      decreases n
    {
    }

    /** itrunc's second part: the entries of the table and the table itself. */
    method FreeIndirect(i: nat, ghost fs: Fs) returns (ok: bool)
      requires Truncating(fs, i, NDIRECT)
      modifies `bitmap, `inodes
      ensures ok && Mapped() && blocks == fs.blocks && Bits(bitmap, |blocks|) == FreedBits(fs, i, TABLE + 1)
      ensures |inodes| == |fs.inodes| && forall k | 0 <= k < |inodes| && k != i :: inodes[k] == fs.inodes[k]
      ensures i < |inodes| && |inodes[i].addrs| == NDIRECT + 1 && forall d | 0 <= d <= NDIRECT ::
        inodes[i].addrs[d] == 0
    {
      var a := inodes[i].addrs[NDIRECT];
      assert a == Ref(fs, i, TABLE);
      if a != 0 {
        var more := FreeAllEntries(i, fs);
        FreeNext(fs, i, TABLE);
        ok := Bfree(a);
        ok := ok && more;
        inodes := inodes[i := Inode(inodes[i].size, inodes[i].addrs[NDIRECT := 0])];
      } else {
        NoTable(fs, i, TABLE + 1);
        ok := true;
      }
    }

    /** itrunc: every block of the file is freed, each by one bfree that finds its bit set;
        the file is empty, on disk too; other files are untouched. */
    method Itrunc(i: nat) returns (ok: bool)
      requires Valid() && i < |inodes|
      modifies `bitmap, `inodes, `owner, `dinodes
      ensures ok && Valid() && Abs() == Truncated(old(Abs()), i) && AtRest(i)
      ensures dinodes == old(dinodes)[i := inodes[i]] && OthersKept(old(Abs()), Abs(), i)
    {
      ghost var fs := Abs();
      var direct := FreeAllDirect(i, fs);
      ok := FreeIndirect(i, fs);
      ok := ok && direct;
      inodes := inodes[i := Inode(0, inodes[i].addrs)];
      owner := Truncated(fs, i).owner;
      Iupdate(i);
      assert inodes[i].addrs == Empty().addrs;
      assert Abs() == Truncated(fs, i);
      TruncatedOwned(fs, i);
    }

    /** readi rejects a start past the end and a range that wraps around in 32 bits. */
    static predicate BadRead(size: nat, off: nat, n: nat) {
      off > size || (off + n) % 0x1_0000_0000 < off
    }

    /** One iteration of readi. The block is allocated, so bmap changes nothing. */
    method ReadChunk(i: nat, o: nat, left: nat) returns (part: seq<nat>)
      requires Valid() && AtRest(i) && 0 < left && o + left <= inodes[i].size
      modifies `bitmap, `blocks, `inodes, `owner
      ensures Mapped() && Abs() == old(Abs()) && 0 < |part| <= left
      ensures part == old(Content(Abs(), i))[o..o + |part|]
    {
      ghost var fs := Abs();
      ghost var k := BlocksFor(inodes[i].size);
      var ok, addr, lg := Bmap(i, o / BSIZE, k);
      var m := if left < BSIZE - o % BSIZE then left else BSIZE - o % BSIZE;
      ContentSlice(fs, i, o, m);
      part := blocks[addr].bytes[o % BSIZE..o % BSIZE + m];
    }

    /** readi's loop: n bytes from off on. */
    method ReadLoop(i: nat, off: nat, n: nat) returns (dst: seq<nat>)
      requires Valid() && AtRest(i) && off + n <= inodes[i].size
      modifies `bitmap, `blocks, `inodes, `owner
      ensures Mapped() && Abs() == old(Abs()) && |dst| == n
      ensures dst == old(Content(Abs(), i))[off..off + n]
    {
      dst := [];
      ghost var c, fs := Content(Abs(), i), Abs();
      while |dst| < n
        invariant |dst| <= n && Mapped() && Abs() == fs && dst == c[off..off + |dst|]
      {
        dst := ReadMore(i, off, n, dst, c, fs);
      }
    }

    /** One more piece behind those read. */
    method ReadMore(i: nat, off: nat, n: nat, had: seq<nat>, ghost c: seq<nat>, ghost fs: Fs) returns (dst: seq<nat>)
      requires Valid() && AtRest(i) && off + n <= inodes[i].size && |had| < n && Abs() == fs
      requires c == Content(fs, i) && had == c[off..off + |had|]
      modifies `bitmap, `blocks, `inodes, `owner
      ensures Mapped() && Abs() == fs && |had| < |dst| <= n && dst == c[off..off + |dst|]
    {
      var part := ReadChunk(i, off + |had|, n - |had|);
      dst := had + part;
    }

    /** readi on a file: the bytes from off on, at most n of them and none past the end. It
        allocates nothing, though it goes through bmap. */
    method Readi(i: nat, off: nat, n: nat) returns (r: int, dst: seq<nat>)
      requires Valid() && AtRest(i) && off < 0x1_0000_0000 && n < 0x1_0000_0000
      modifies `bitmap, `blocks, `inodes, `owner
      ensures Mapped() && Abs() == old(Abs())
      ensures r == -1 <==> off > inodes[i].size || off + n >= 0x1_0000_0000
      ensures r != -1 ==> off <= inodes[i].size && r == |dst|
      ensures r != -1 ==> |dst| == if off + n > inodes[i].size then inodes[i].size - off else n
      ensures r != -1 ==> dst == old(Content(Abs(), i))[off..off + |dst|]
    {
      dst := [];
      if BadRead(inodes[i].size, off, n) { return -1, dst; }
      var len := if off + n > inodes[i].size then inodes[i].size - off else n;
      dst := ReadLoop(i, off, len);
      r := len;
    }
  }

  // ------------------------------------------------------------------
  // file.c

  /** An open file on an inode: struct file with type FD_INODE. */
  class OpenFile {
    const fs: FileSystem
    const inum: nat
    const writable: bool
    var off: nat

    constructor (fs: FileSystem, inum: nat, writable: bool)
      ensures this.fs == fs && this.inum == inum && this.writable == writable && off == 0
    {
      this.fs, this.inum, this.writable, off := fs, inum, writable, 0;
    }

    /** ((LOGSIZE - 1 - 1 - 2) / 2) * 512 */
    const MAXCHUNK: nat := 6656

    /** One iteration of filewrite's loop behind what was spliced in before: writei at the file's
        position, which advances; together one splice. */
    method WriteBehind(piece: seq<nat>, ghost before: seq<nat>, ghost fs0: Fs, ghost off0: nat)
      returns (ok: bool, r: int, ghost lg: set<Place>)
      requires fs.Wrote(fs0, inum, before, off0) && off == off0 + |before| && 0 < |piece| <= MAXCHUNK
      modifies this, fs
      ensures ok ==> r == if old(off) + |piece| <= MAXFILE * BSIZE then |piece| else -1
      ensures ok && r != -1 ==> off == old(off) + r && fs.Wrote(fs0, inum, before + piece, off0)
      ensures ok && r == -1 ==> off == old(off) && fs.Wrote(fs0, inum, before, off0)
      ensures ok ==> OpSize(lg, |piece|, |fs0.blocks|, r == -1)
      ensures !ok ==> fs.Mapped() && fs.Full()
    {
      ghost var fs1 := fs.Abs();
      fs.WroteOpen(fs0, inum, before, off0);
      ok, r, lg := fs.Writei(inum, piece, off);
      if ok && r != -1 {
        Sized(fs0, fs1, piece, lg);
        fs.WroteMore(fs0, fs1, inum, before, piece, off0);
        off := off + r;
      }
    }

    /** The number of disk blocks that the write of a piece put in the log. */
    lemma Sized(fs0: Fs, fs1: Fs, piece: seq<nat>, lg: set<Place>)
      requires |piece| <= MAXCHUNK && inum < |fs1.inodes| && |fs1.blocks| == |fs0.blocks|
      requires fs.Wrote(fs1, inum, piece, off)
      requires LoggedWrite(fs.Abs(), inum, off, |piece|, off + |piece| > fs1.inodes[inum].size, lg)
      ensures OpSize(lg, |piece|, |fs0.blocks|, false)
    {
      fs.WroteOpen(fs1, inum, piece, off);
      LoggedCount(fs.Abs(), inum, off, |piece|, off + |piece| > fs1.inodes[inum].size, lg);
      ChunkBlocks(off, |piece|);
    }

    /** What one of filewrite's operations put in the log for n bytes on a disk of the given size: at
        most 14 data blocks, the table, the bitmap and the inode; for a full piece no fewer than 13
        blocks, which is more than MAXOPBLOCKS. Nothing if it failed. */
    ghost predicate OpSize(lg: set<Place>, n: nat, blocks: nat, failed: bool) {
      if failed then lg == {}
      else |lg| <= 16 + BitmapBlocks(blocks) && (n == MAXCHUNK ==> 13 <= |lg|)
    }

    /** filewrite's operations: all but the last write a full piece, and the last too if there
        is more to write. */
    ghost predicate OpSizes(ops: seq<set<Place>>, blocks: nat, more: bool) {
      forall q | 0 <= q < |ops| :: SizedOp(ops, q, blocks, more)
    }

    ghost predicate SizedOp(ops: seq<set<Place>>, q: nat, blocks: nat, more: bool)
      requires q < |ops|
    {
      |ops[q]| <= 16 + BitmapBlocks(blocks) && (more || q < |ops| - 1 ==> 13 <= |ops[q]|)
    }

    lemma OpsMore(ops: seq<set<Place>>, blocks: nat, lg: set<Place>, n: nat, failed: bool, more: bool)
      requires OpSizes(ops, blocks, true) && OpSize(lg, n, blocks, failed) && (more ==> !failed && n == MAXCHUNK)
      ensures OpSizes(ops + [lg], blocks, more)
    {
      forall q | 0 <= q < |ops + [lg]| ensures SizedOp(ops + [lg], q, blocks, more) {
        if q < |ops| { assert SizedOp(ops, q, blocks, true); }
      }
    }

    /** One iteration of filewrite's loop: the next piece goes through one writei. */
    method WritePiece(addr: seq<nat>, k: nat, ghost fs0: Fs, ghost off0: nat)
      returns (ok: bool, end: nat, ghost lg: set<Place>)
      requires k < |addr| && fs.Wrote(fs0, inum, addr[..k], off0) && off == off0 + k
      modifies this, fs
      ensures ok ==> k <= end <= |addr| && off == off0 + end && fs.Wrote(fs0, inum, addr[..end], off0)
      ensures ok && end == k ==> off0 + |addr| > MAXFILE * BSIZE
      ensures ok && end > k ==> off <= MAXFILE * BSIZE && (end < |addr| ==> end == k + MAXCHUNK)
      ensures ok ==> OpSize(lg, end - k, |fs0.blocks|, end == k)
      ensures !ok ==> fs.Mapped() && fs.Full()
    {
      var n1 := if |addr| - k > MAXCHUNK then MAXCHUNK else |addr| - k;
      assert addr[..k] + addr[k..k + n1] == addr[..k + n1];
      var r;
      ok, r, lg := WriteBehind(addr[k..k + n1], addr[..k], fs0, off0);
      end := if ok && r > 0 then k + n1 else k;
    }

    /** filewrite's loop, from a position inside the file. */
    method WriteLoop(addr: seq<nat>, ghost fs0: Fs, ghost off0: nat)
      returns (ok: bool, k: nat, ghost ops: seq<set<Place>>)
      requires |addr| < 0x8000_0000 && fs.Wrote(fs0, inum, addr[..0], off0)
      requires off == off0 && off0 <= MAXFILE * BSIZE
      modifies this, fs
      ensures ok ==> k <= |addr| && off == off0 + k && fs.Wrote(fs0, inum, addr[..k], off0)
      ensures ok ==> (k == |addr| <==> off0 + |addr| <= MAXFILE * BSIZE || |addr| == 0)
      ensures ok ==> OpSizes(ops, |fs0.blocks|, false)
      ensures !ok ==> fs.Mapped() && fs.Full()
    {
      k, ops := 0, [];
      ok := true;
      while k < |addr|
        invariant k <= |addr| && ok && fs.Wrote(fs0, inum, addr[..k], off0) && off == off0 + k <= MAXFILE * BSIZE
        invariant OpSizes(ops, |fs0.blocks|, k < |addr|)
      {
        var was := k;
        ghost var lg;
        ok, k, lg := WritePiece(addr, k, fs0, off0);
        if !ok { return; }
        OpsMore(ops, |fs0.blocks|, lg, k - was, k == was, was < k < |addr|);
        ops := ops + [lg];
        if k == was { return; }
      }
    }

    /** filewrite: although it writes in chunks, one transaction each, a successful call is one
        splice of the whole buffer; it fails exactly when the file is not writable, the position
        is past the end, or the file would grow past the largest one. A call that fails for the
        last reason leaves a prefix of the buffer spliced in. */
    method FileWrite(addr: seq<nat>) returns (ok: bool, r: int, ghost done: nat, ghost ops: seq<set<Place>>)
      requires fs.Valid() && fs.AtRest(inum) && |addr| < 0x8000_0000 && off < 0x1_0000_0000
      modifies this, fs
      ensures ok ==> r == if CanWrite(old(fs.inodes[inum].size), old(off), |addr|) then |addr| else -1
      ensures ok ==> done <= |addr| && off == old(off) + done && (r == |addr| ==> done == |addr|)
      ensures ok && writable && old(off) <= old(fs.inodes[inum].size) ==>
        fs.Wrote(old(fs.Abs()), inum, addr[..done], old(off))
      ensures ok && (!writable || old(off) > old(fs.inodes[inum].size)) ==>
        done == 0 && fs.Mapped() && fs.Abs() == old(fs.Abs())
      ensures ok ==> OpSizes(ops, old(|fs.blocks|), false)
      ensures !ok ==> fs.Mapped() && fs.Full()
    {
      ok, r, done, ops := true, -1, 0, [];
      if !writable { return; }
      if off > fs.inodes[inum].size {
        if |addr| == 0 { r := 0; } else { ok, ops := Refused(addr); }
        return;
      }
      ghost var fs0 := fs.Abs();
      SplicedNothing(fs0, inum, off);
      fs.WroteMeans(fs0, inum, [], off);
      SizeBound(fs0, inum);
      assert addr[..0] == [];
      var k;
      ok, k, ops := WriteLoop(addr, fs0, off);
      done := k;
      if ok && k == |addr| { r := |addr|; }
    }

    /** From past the end writei refuses the first piece. */
    method Refused(addr: seq<nat>) returns (ok: bool, ghost ops: seq<set<Place>>)
      requires fs.Valid() && fs.AtRest(inum) && 0 < |addr| && fs.inodes[inum].size < off < 0x1_0000_0000
      modifies fs
      ensures ok ==> fs.Mapped() && fs.Abs() == old(fs.Abs()) && OpSizes(ops, |fs.blocks|, false)
      ensures !ok ==> fs.Mapped() && fs.Full()
    {
      var m; ghost var lg;
      ok, m, lg := fs.Writei(inum, addr[..if |addr| > MAXCHUNK then MAXCHUNK else |addr|], off);
      ops := [lg];
    }

    predicate CanWrite(size: nat, off: nat, n: nat) {
      writable && (n == 0 || (off <= size && off + n <= MAXFILE * BSIZE))
    }
  }

  /** The bytes of a file from o to the end of o's block lie in that block. */
  lemma ContentSlice(fs: Fs, i: nat, o: nat, m: nat)
    requires Owned(fs) && i < |fs.inodes| && NoHoles(fs, i) && 0 < m <= BSIZE - o % BSIZE && o + m <= fs.inodes[i].size
    ensures InFile(fs, i, o)
    ensures fs.blocks[Ptr(fs, i, o / BSIZE)].bytes[o % BSIZE..o % BSIZE + m] == Content(fs, i)[o..o + m]
  {
    InFileAt(fs, i, o);
    var part := fs.blocks[Ptr(fs, i, o / BSIZE)].bytes[o % BSIZE..o % BSIZE + m];
    forall q | 0 <= q < m ensures part[q] == Content(fs, i)[o..o + m][q] {
      InFileAt(fs, i, o + q);
      assert (o + q) / BSIZE == o / BSIZE && (o + q) % BSIZE == o % BSIZE + q;
    }
  }

  lemma SizeBound(fs: Fs, i: nat)
    requires WellFormed(fs) && i < |fs.inodes| && NoHoles(fs, i)
    ensures fs.inodes[i].size <= MAXFILE * BSIZE
  {
  }
}
