/** Which user pages are accessible: clearpteu and uva2ka of vm.c, and the guard page and stack
    page exec sets up with them. */
module UserPages {
  import opened Optional
  import opened PageTree
  import opened PageTable
  import opened AddressSpace
  import opened UserBytes

  predicate WriteBit(e: Word) { e.flags / PTE_W % 2 == 1 }

  predicate UserBit(e: Word) { e.flags / PTE_U % 2 == 1 }

  /** The entry with PTE_U cleared. */
  function WithoutU(e: Word): (r: Word)
    ensures r.frame == e.frame && !UserBit(r) && (Present(r) <==> Present(e)) && r.flags % PTE_U == e.flags % PTE_U
    ensures r.flags / (2 * PTE_U) == e.flags / (2 * PTE_U)
  {
    if UserBit(e) then Word(e.frame, e.flags - PTE_U) else e
  }

  /** The user may access page v: it is mapped, with PTE_U. */
  ghost predicate Accessible(s: State, space: nat, v: nat) {
    v < PAGES && Present(Pte(s, space, v)) && UserBit(Pte(s, space, v))
  }

  /** The user may write to page v. */
  ghost predicate Writable(s: State, space: nat, v: nat) {
    Accessible(s, space, v) && WriteBit(Pte(s, space, v))
  }

  /** The flags of slot i of the table at k changed, not its frame or PTE_P. */
  ghost function Reflagged(s: State, k: Key, i: nat, e: Word): State
    requires k in s.at && s.at[k] in s.mem && i < |s.mem[s.at[k]]|
  {
    s.(mem := s.mem[s.at[k] := Put(s.mem[s.at[k]], i, e)])
  }

  lemma ReflaggedSlot(s: State, k: Key, i: nat, e: Word, q: Key, x: nat)
    requires Inverse(s) && Words(s) && k in s.at && i < SLOTS && q in s.at && x < SLOTS && SlotOk(s, q, x)
    requires e.frame == s.mem[s.at[k]][i].frame && (Present(e) <==> Present(s.mem[s.at[k]][i]))
    requires Depth(k.path) == LEVELS - 1
    ensures var t := Reflagged(s, k, i, e); s.at[q] in t.mem && |t.mem[s.at[q]]| == SLOTS && SlotOk(t, q, x)
  {
  }

  lemma ReflaggedShape(s: State, k: Key, i: nat, e: Word)
    requires Sound(s) && k in s.at && Depth(k.path) == LEVELS - 1 && i < SLOTS
    ensures var t := Reflagged(s, k, i, e); Inverse(t) && Words(t) && FreeOk(t) && Tree(t) && KernelOk(t)
  {
    var t := Reflagged(s, k, i, e);
    assert Depth(Root) == 0 && Words(t);
    forall q | q in t.at ensures Hangs(t, q) { assert Hangs(s, q); }
  }

  lemma ReflaggedSound(s: State, k: Key, i: nat, e: Word)
    requires Sound(s) && k in s.at && Depth(k.path) == LEVELS - 1 && i < SLOTS
    requires e.frame == s.mem[s.at[k]][i].frame && (Present(e) <==> Present(s.mem[s.at[k]][i]))
    ensures Sound(Reflagged(s, k, i, e))
  {
    var t := Reflagged(s, k, i, e);
    ReflaggedShape(s, k, i, e);
    forall q, x | q in t.at && Depth(q.path) < LEVELS && 0 <= x < Width(q.path) ensures SlotOk(t, q, x) {
      assert SlotOk(s, q, x);
      ReflaggedSlot(s, k, i, e, q, x);
    }
  }

  lemma ReflaggedFlat(s: State, space: nat, v: nat, e: Word)
    requires Sound(s) && Key(space, TableOf(v)) in s.at
    ensures FlatPut(s, Reflagged(s, Key(space, TableOf(v)), v % SLOTS, e), space, v, e)
  {
    var k := Key(space, TableOf(v));
    var t := Reflagged(s, k, v % SLOTS, e);
    forall x: nat, w: nat ensures Pte(t, x, w) == if x == space && w == v then e else Pte(s, x, w) {
      var q := Key(x, TableOf(w));
      if q == k && w % SLOTS == v % SLOTS { TableOfInjective(v, w); }
      if q in s.at && q != k { assert s.at[q] != s.at[k]; }
    }
  }

  /** Page v lost PTE_U, and nothing else about tables, pages or free frames changed. */
  ghost predicate Hidden(s: State, t: State, space: nat, v: nat) {
    && Ok(t) && FlatPut(s, t, space, v, WithoutU(Pte(s, space, v)))
    && t.free == s.free && t.at == s.at && t.owner == s.owner
    && (forall f | Still(s, f) :: f in t.mem && t.mem[f] == s.mem[f])
  }

  /** clearpteu: the page is no longer the user's; without a table for it, a panic. */
  method ClearPteu(m: Machine, space: nat, va: nat) returns (ok: bool)
    requires Ok(m.S()) && Key(space, Root) in m.at && va < USER_END
    modifies m
    ensures ok <==> Key(space, TableOf(va / PAGE)) in old(m.at)
    ensures ok ==> Hidden(old(m.S()), m.S(), space, va / PAGE)
    ensures !ok ==> m.S() == old(m.S())
  {
    var w := m.Walk(space, va, false);
    if !w.At? {
      return false;
    }
    ghost var s, k, v := m.S(), Key(space, TableOf(va / PAGE)), va / PAGE;
    EntryOf(s, space, v);
    Open(s);
    ReflaggedSound(s, k, v % SLOTS, WithoutU(Pte(s, space, v)));
    ReflaggedFlat(s, space, v, WithoutU(Pte(s, space, v)));
    m.mem := m.mem[w.f := Put(m.mem[w.f], w.i, WithoutU(m.mem[w.f][w.i]))];
    assert m.S() == Reflagged(s, k, v % SLOTS, WithoutU(Pte(s, space, v)));
    assert Sound(m.S());
    ok := true;
  }

  /** uva2ka finds a frame, refuses, or reads the entry of a page without a table. */
  datatype Kernel = Found(f: nat) | Refused | NoTable

  const TOP: nat := 0xFFFF_FF80_0000_0000             // the addresses of the last pml4 slot
  const ADDRESS_END: nat := 0x1_0000_0000_0000_0000

  /** An address is a user address, or one that a subtraction from a user address wrapped to. */
  predicate Walkable(va: nat) { va < USER_END || TOP <= va < ADDRESS_END }

  lemma TopSlot(va: nat)
    requires TOP <= va < ADDRESS_END
    ensures Pmx(va) == SLOTS - 1
  {
  }

  /** uva2ka: the frame of the page exactly when the user may access it. */
  method Uva2ka(m: Machine, space: nat, va: nat) returns (r: Kernel)
    requires Ok(m.S()) && Key(space, Root) in m.at && Walkable(va)
    modifies m
    ensures m.S() == old(m.S())
    ensures r.Found? <==> Accessible(m.S(), space, va / PAGE)
    ensures r.Found? ==> r.f == Pte(m.S(), space, va / PAGE).frame
    ensures r.NoTable? <==> va >= USER_END || Key(space, TableOf(va / PAGE)) !in m.at
  {
    if va >= USER_END {
      TopSlot(va);
      Open(m.S());
      assert Hangs(m.S(), Key(space, Root));
      if Present(m.mem[space][Pmx(va)]) {
        assert false;
      }
      return NoTable;
    }
    var w := m.Walk(space, va, false);
    if !w.At? {
      return NoTable;
    }
    EntryOf(m.S(), space, va / PAGE);
    if !Present(m.mem[w.f][w.i]) {
      return Refused;
    }
    if !UserBit(m.mem[w.f][w.i]) {
      return Refused;
    }
    return Found(m.mem[w.f][w.i].frame);
  }

  // ------------------------------------------------------------------
  // exec's stack

  /** Below sz lie the stack page, which the user may write to, and the guard page, which it may not access. */
  ghost predicate StackOk(s: State, space: nat, sz: nat) {
    && sz % PAGE == 0 && 2 * PAGE <= sz <= USER_END
    && Writable(s, space, sz / PAGE - 1) && !Accessible(s, space, sz / PAGE - 2)
  }

  /** From s to t the pages below sz became the guard page and the stack page of a space; no other
      mapping changed, and the frames are the same frames. */
  ghost predicate StackMapped(s: State, t: State, space: nat, sz: nat)
    requires 2 * PAGE <= sz
  {
    && (forall f :: f in Frames(t) <==> f in Frames(s))
    && (forall x: nat, w: nat {:trigger Pte(t, x, w)} ::
          x != space || w < sz / PAGE - 2 || sz / PAGE <= w ==> Pte(t, x, w) == Pte(s, x, w))
  }

  /** The stack page reads as zeros, and outside the two pages every space reads as before. */
  ghost predicate StackEmpty(s: State, t: State, space: nat, sz: nat)
    requires 2 * PAGE <= sz
  {
    && (forall x: nat, a: nat {:trigger UserByte(t, x, a)} ::
          x != space || a < sz - 2 * PAGE || sz <= a ==> UserByte(t, x, a) == UserByte(s, x, a))
    && (forall a: nat | sz - PAGE <= a < sz :: UserByte(t, space, a) == 0)
  }

  lemma HiddenByte(s: State, t: State, space: nat, v: nat, x: nat, a: nat)
    requires Ok(s) && Hidden(s, t, space, v)
    ensures UserByte(t, x, a) == UserByte(s, x, a)
  {
    var w := a / PAGE;
    assert Pte(t, x, w) == if x == space && w == v then WithoutU(Pte(s, space, v)) else Pte(s, x, w);
    if w < PAGES && Present(Pte(s, x, w)) { PageOwner(s, x, w); }
  }

  lemma StackAfter(s: State, t: State, u: State, space: nat, sz: nat)
    requires sz % PAGE == 0 && 2 * PAGE <= sz <= USER_END
    requires Grown(s, t, space, sz / PAGE - 2, sz / PAGE) && Hidden(t, u, space, sz / PAGE - 2)
    ensures StackOk(u, space, sz) && StackMapped(s, u, space, sz)
  {
    var guard, top := sz / PAGE - 2, sz / PAGE - 1;
    assert ZeroPage(t, Pte(t, space, top)) && Pte(u, space, top) == Pte(t, space, top);
    assert !UserBit(Pte(u, space, guard));
  }

  lemma StackBytes(s: State, t: State, u: State, space: nat, sz: nat)
    requires sz % PAGE == 0 && 2 * PAGE <= sz <= USER_END
    requires Grown(s, t, space, sz / PAGE - 2, sz / PAGE) && Hidden(t, u, space, sz / PAGE - 2)
    ensures StackEmpty(s, u, space, sz)
  {
    var n := sz / PAGE - 2;
    forall x: nat, a: nat
      ensures x != space || a < sz - 2 * PAGE || sz <= a ==> UserByte(u, x, a) == UserByte(s, x, a)
    {
      HiddenByte(t, u, space, n, x, a);
      GrownByte(s, t, space, n, n + 2, x, a);
    }
    forall a: nat | sz - PAGE <= a < sz ensures UserByte(u, space, a) == 0 {
      HiddenByte(t, u, space, n, space, a);
      GrownByte(s, t, space, n, n + 2, space, a);
    }
  }

  lemma TwoPages(n: nat)
    ensures RoundUp(n * PAGE) == n && RoundUp((n + 2) * PAGE) == n + 2
    ensures n * PAGE / PAGE == n && (n + 2) * PAGE == n * PAGE + 2 * PAGE && (n + 2) * PAGE / PAGE == n + 2
      && (n + 2) * PAGE % PAGE == 0
  {
  }

  /** Page n, just added below the stack page, is taken from the user. */
  method HideGuard(m: Machine, space: nat, n: nat, ghost s: State)
    requires Ok(m.S()) && Key(space, Root) in m.at && Grown(s, m.S(), space, n, n + 2)
    modifies m
    ensures Ok(m.S()) && Key(space, Root) in m.at && StackOk(m.S(), space, (n + 2) * PAGE)
    ensures StackMapped(s, m.S(), space, (n + 2) * PAGE) && StackEmpty(s, m.S(), space, (n + 2) * PAGE)
  {
    ghost var t := m.S();
    TwoPages(n);
    PageOwner(t, space, n);
    var ok := ClearPteu(m, space, n * PAGE);
    StackAfter(s, t, m.S(), space, (n + 2) * PAGE);
    StackBytes(s, t, m.S(), space, (n + 2) * PAGE);
  }

  /** Where exec's stack ends: two pages above the first page that begins at the end of the image or
      after it. */
  function StackEnd(image: nat): (sz: nat)
    ensures sz % PAGE == 0 && image + 2 * PAGE <= sz < image + 3 * PAGE
  {
    (RoundUp(image) + 2) * PAGE
  }

  /** The two pages of exec's stack: the size is rounded up, two pages are added, and the lower
      one is taken from the user. None when allocuvm panics. */
  method StackPages(m: Machine, space: nat, image: nat) returns (sz: Option<nat>)
    requires Ok(m.S()) && Key(space, Root) in m.at && image + (|m.free| + 1) * PAGE <= USER_END
    modifies m
    ensures sz.Some? ==> sz.value == StackEnd(image) && Ok(m.S()) && Key(space, Root) in m.at
    ensures sz.Some? ==> StackOk(m.S(), space, sz.value)
    ensures sz.Some? ==>
      StackMapped(old(m.S()), m.S(), space, sz.value) && StackEmpty(old(m.S()), m.S(), space, sz.value)
    ensures sz.None? ==>
      m.free == [] || exists w :: image <= w * PAGE < image + 2 * PAGE && Present(Pte(old(m.S()), space, w))
  {
    var n := RoundUp(image);
    ghost var s := m.S();
    TwoPages(n);
    var r, size := AllocUvm(m, space, n * PAGE, n * PAGE + 2 * PAGE);
    if r != Done || size == 0 {
      return None;
    }
    GrownIff(s, m.S(), space, n * PAGE, (n + 2) * PAGE);
    HideGuard(m, space, n, s);
    return Some(size);
  }
}
