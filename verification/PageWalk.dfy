/** The processor's own walk through the page tables (section 4.5 of the Intel SDM, volume 3A), over
    the words in memory alone, and that it gives a program exactly what the flat page map says. */
module PageWalk {
  import opened Optional
  import opened PageTree
  import opened PageTable
  import opened AddressSpace
  import opened PageBytes
  import opened UserBytes
  import opened UserPages

  type Memory = map<nat, seq<Word>>

  /** PS: the entry is for a large page and not for a table. */
  predicate LargeBit(e: Word) { e.flags / 128 % 2 == 1 }

  /** Where a walk ends: at a page, with the user bit and the write bit set at every level or not. */
  datatype Reach = Missed | Large | Page(frame: nat, user: bool, write: bool)

  function Lookup(mem: Memory, f: nat, i: nat): Word {
    if f in mem && i < |mem[f]| then mem[f][i] else NIL
  }

  /** The walk from the table in frame f through the given indices. */
  function WalkFrom(mem: Memory, f: nat, indices: seq<nat>, user: bool, write: bool): Reach
    requires indices != []
    decreases |indices|
  {
    var e := Lookup(mem, f, indices[0]);
    var u, w := user && UserBit(e), write && WriteBit(e);
    if !Present(e) then Missed
    else if |indices| == 1 then Page(e.frame, u, w)
    else if LargeBit(e) then Large
    else WalkFrom(mem, e.frame, indices[1..], u, w)
  }

  function Indices(va: nat): seq<nat> { [Pmx(va), Pdpx(va), Pdx(va), Ptx(va)] }

  /** An address whose high bits repeat bit 47. */
  predicate Canonical(va: nat) { va < USER_END || KERNBASE <= va < ADDRESS_END }

  /** The walk for an address with the pml4 in frame cr3. */
  function Translate(mem: Memory, cr3: nat, va: nat): Reach {
    if Canonical(va) then WalkFrom(mem, cr3, Indices(va), true, true) else Missed
  }

  /** What a program reads at an address: a byte, or it faults. */
  function Load(mem: Memory, cr3: nat, va: nat): Option<Byte> {
    var r := Translate(mem, cr3, va);
    if r.Page? && r.user && r.frame in mem && |mem[r.frame]| == SLOTS
    then Some(ByteIn(mem[r.frame], va % PAGE)) else None
  }

  /** Whether a program may write there. */
  predicate MayStore(mem: Memory, cr3: nat, va: nat) {
    var r := Translate(mem, cr3, va);
    r.Page? && r.user && r.write
  }

  /** The n bytes from an address on. */
  function LoadBytes(mem: Memory, cr3: nat, va: nat, n: nat): Option<seq<Byte>> {
    if n == 0 then Some([])
    else
      var init, last := LoadBytes(mem, cr3, va, n - 1), Load(mem, cr3, va + n - 1);
      if init.Some? && last.Some? then Some(init.value + [last.value]) else None
  }

  /** The 64-bit number at an address. */
  function LoadQuad(mem: Memory, cr3: nat, va: nat): Option<nat> {
    var b := LoadBytes(mem, cr3, va, WORD);
    if b.Some? then Some(LittleEndian(b.value)) else None
  }

  // ------------------------------------------------------------------
  // User addresses

  /** One level: the walk goes on in the recorded table, or faults where there is none. */
  lemma Level(s: State, k: Key, i: nat, more: seq<nat>)
    requires Ok(s) && k in s.at && Depth(k.path) + 1 < LEVELS && i < Width(k.path) && more != []
    ensures var child := Key(k.space, Slot(k.path, i));
      WalkFrom(s.mem, s.at[k], [i] + more, true, true)
        == if child in s.at then WalkFrom(s.mem, s.at[child], more, true, true) else Missed
  {
    Open(s);
    assert SlotOk(s, k, i);
    assert ([i] + more)[0] == i && ([i] + more)[1..] == more;
  }

  lemma LastLevel(s: State, k: Key, i: nat)
    requires Ok(s) && k in s.at && Depth(k.path) < LEVELS && i < SLOTS
    ensures s.at[k] in s.mem && |s.mem[s.at[k]]| == SLOTS
    ensures var e := s.mem[s.at[k]][i];
      WalkFrom(s.mem, s.at[k], [i], true, true) == if Present(e) then Page(e.frame, UserBit(e), WriteBit(e)) else Missed
  {
    Open(s);
  }

  /** The walk ends at the last-level entry of the page, with the bits of that entry. */
  lemma WalkReaches(s: State, space: nat, va: nat)
    requires Ok(s) && Key(space, Root) in s.at && va < USER_END
    ensures var e := Pte(s, space, va / PAGE);
      Translate(s.mem, space, va) == if Present(e) then Page(e.frame, UserBit(e), WriteBit(e)) else Missed
  {
    IndexSplit(va);
    assert s.at[Key(space, Root)] == space by { Open(s); assert Hangs(s, Key(space, Root)); }
    var pdp := Slot(Root, Pmx(va));
    var pd := Slot(pdp, Pdpx(va));
    assert Depth(pdp) == Depth(Root) + 1 && Depth(pd) == Depth(pdp) + 1;
    assert Indices(va) == [Pmx(va)] + [Pdpx(va), Pdx(va), Ptx(va)];
    Level(s, Key(space, Root), Pmx(va), [Pdpx(va), Pdx(va), Ptx(va)]);
    if Key(space, pdp) in s.at {
      assert [Pdpx(va), Pdx(va), Ptx(va)] == [Pdpx(va)] + [Pdx(va), Ptx(va)];
      Level(s, Key(space, pdp), Pdpx(va), [Pdx(va), Ptx(va)]);
    }
    if Key(space, pd) in s.at {
      assert [Pdx(va), Ptx(va)] == [Pdx(va)] + [Ptx(va)];
      Level(s, Key(space, pd), Pdx(va), [Ptx(va)]);
    }
    PageTable.NoTable(s, space, pdp, Pdpx(va));
    PageTable.NoTable(s, space, pd, Pdx(va));
    if Key(space, TableOf(va / PAGE)) in s.at { LastLevel(s, Key(space, TableOf(va / PAGE)), Ptx(va)); }
  }

  /** A program reads the bytes of the flat map, where it has access to the page, and faults
      elsewhere; it may write exactly where the entry says so too. */
  lemma ProgramSees(s: State, space: nat, va: nat)
    requires Ok(s) && Key(space, Root) in s.at && va < USER_END
    ensures Load(s.mem, space, va)
      == if Accessible(s, space, va / PAGE) then Some(UserByte(s, space, va)) else None
    ensures MayStore(s.mem, space, va) <==> Writable(s, space, va / PAGE)
  {
    WalkReaches(s, space, va);
    assert va / PAGE < PAGES;
    if Present(Pte(s, space, va / PAGE)) {
      PageOwner(s, space, va / PAGE);
      Open(s);
    }
  }

  ghost predicate Shows(s: State, space: nat, a: nat, b: Byte) {
    Accessible(s, space, a / PAGE) && UserByte(s, space, a) == b
  }

  ghost predicate ShowsBytes(s: State, space: nat, va: nat, b: seq<Byte>) {
    forall k | 0 <= k < |b| :: Shows(s, space, va + k, b[k])
  }

  lemma ShowsButLast(s: State, space: nat, va: nat, b: seq<Byte>)
    requires ShowsBytes(s, space, va, b) && b != []
    ensures ShowsBytes(s, space, va, b[..|b| - 1]) && Shows(s, space, va + |b[..|b| - 1]|, b[|b| - 1])
  {
    var c := b[..|b| - 1];
    forall k | 0 <= k < |c| ensures Shows(s, space, va + k, c[k]) { assert Shows(s, space, va + k, b[k]); }
    var last := |b| - 1;
    assert Shows(s, space, va + last, b[last]);
  }

  lemma {:induction false} ProgramSeesBytes(s: State, space: nat, va: nat, b: seq<Byte>)
    requires Ok(s) && Key(space, Root) in s.at && va + |b| <= USER_END && ShowsBytes(s, space, va, b)
    ensures LoadBytes(s.mem, space, va, |b|) == Some(b)
    decreases |b|
  {
    if b != [] {
      var init, x := b[..|b| - 1], b[|b| - 1];
      ShowsButLast(s, space, va, b);
      ProgramSeesBytes(s, space, va, init);
      ProgramSees(s, space, va + |init|);
      LoadsMore(s.mem, space, va, init, x);
      assert b == init + [x];
    }
  }

  lemma LoadsMore(mem: Memory, cr3: nat, va: nat, init: seq<Byte>, x: Byte)
    requires LoadBytes(mem, cr3, va, |init|) == Some(init) && Load(mem, cr3, va + |init|) == Some(x)
    ensures LoadBytes(mem, cr3, va, |init| + 1) == Some(init + [x])
  {
  }

  /** So it does not see the kernel, nor any other address that is not the user's. */
  lemma ProgramSeesNoKernel(s: State, space: nat, va: nat)
    requires Ok(s) && Key(space, Root) in s.at && va >= USER_END
    ensures Load(s.mem, space, va) == None && !MayStore(s.mem, space, va)
  {
    if Canonical(va) {
      KernelSlot(va);
      assert KernelSlots(s, s.mem[space]) && space in s.mem by { Open(s); assert Hangs(s, Key(space, Root)); }
      if Pmx(va) == USER_SLOTS {
        assert Indices(va)[1..] == [Pdpx(va), Pdx(va), Ptx(va)];
        NotForUser(s.mem, s.kpdpt, Indices(va)[1..], true);
      }
    }
  }

  lemma KernelSlot(va: nat)
    requires KERNBASE <= va < ADDRESS_END
    ensures USER_SLOTS <= Pmx(va) < SLOTS
  {
  }

  lemma {:induction false} NotForUser(mem: Memory, f: nat, indices: seq<nat>, write: bool)
    requires indices != []
    ensures var r := WalkFrom(mem, f, indices, false, write); r.Page? ==> !r.user
    decreases |indices|
  {
    var e := Lookup(mem, f, indices[0]);
    if |indices| > 1 && Present(e) { NotForUser(mem, e.frame, indices[1..], write && WriteBit(e)); }
  }

  /** The pages that allocuvm added are the program's to read, as zeros, and to write. */
  lemma GrownIsUsable(s: State, t: State, space: nat, oldsz: nat, newsz: nat, va: nat)
    requires GrownTo(s, t, space, oldsz, newsz) && Key(space, Root) in t.at && oldsz <= va / PAGE * PAGE && va < newsz
    ensures Load(t.mem, space, va) == Some(0) && MayStore(t.mem, space, va)
  {
    ProgramSees(t, space, va);
    var w := va / PAGE;
    assert oldsz <= w * PAGE < newsz;
    var e := Pte(t, space, w);
    assert ZeroPage(t, e);
    ZeroBytes(va % PAGE);
  }

  /** So a program that can write to all its memory up to the old size, but for its first pages, can
      write to all of it up to the new one. */
  lemma SizeIsUsable(s: State, t: State, space: nat, first: nat, oldsz: nat, newsz: nat, va: nat)
    requires GrownTo(s, t, space, oldsz, newsz) && Key(space, Root) in t.at
    requires forall w | first <= w && w * PAGE < oldsz :: Writable(s, space, w)
    requires first * PAGE <= va < newsz
    ensures MayStore(t.mem, space, va)
  {
    ProgramSees(t, space, va);
    var w := va / PAGE;
    if oldsz <= w * PAGE {
      GrownIsUsable(s, t, space, oldsz, newsz, va);
    } else {
      assert Pte(t, space, w) == Pte(s, space, w) && Writable(s, space, w);
    }
  }
}
