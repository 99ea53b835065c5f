/** kalloc.c and the page-table code of vm.c working in place on the frames, proved against
    the tree of frames and the flat page map it stands for. */
module PageTable {
  import opened PageTree

  // ------------------------------------------------------------------
  // What growing an address space keeps

  /** Memory that growing an address space leaves alone: pages in use and foreign frames. */
  ghost predicate Still(s: State, f: nat) {
    f in s.mem && f !in s.free && (f in s.owner ==> Depth(s.owner[f].path) == LEVELS)
  }

  /** From s to t frames left the free list for tables and pages; nothing else moved. */
  ghost predicate Grew(s: State, t: State) {
    && t.kpdpt == s.kpdpt && t.end == s.end
    && (forall k | k in s.at :: k in t.at && t.at[k] == s.at[k])
    && (forall k | k in t.at && k.path == Root :: k in s.at)
    && (forall f | f in t.free :: f in s.free)
    && (forall f | f in t.owner :: f in s.owner || f in s.free || Depth(t.owner[f].path) == LEVELS)
    && (forall f | Still(s, f) :: f in t.mem && t.mem[f] == s.mem[f])
  }

  lemma GrewTrans(s: State, t: State, u: State)
    requires Ok(s) && Ok(t) && Ok(u) && Grew(s, t) && Grew(t, u)
    ensures Grew(s, u)
  {
    Open(s);
    Open(t);
    Open(u);
    forall f | Still(s, f) ensures f in u.mem && u.mem[f] == s.mem[f] {
      if f in s.owner { assert t.at[s.owner[f]] == f; }
      assert Still(t, f);
    }
    forall f | f in u.owner ensures f in s.owner || f in s.free || Depth(u.owner[f].path) == LEVELS {
      assert f in t.owner || f in t.free || Depth(u.owner[f].path) == LEVELS;
      if f in t.owner && f !in s.owner && f !in s.free {
        assert Depth(t.owner[f].path) == LEVELS;
        assert u.at[t.owner[f]] == f;
      }
    }
  }

  ghost predicate SameFlat(s: State, t: State)
  {
    forall space: nat, v: nat {:trigger Pte(t, space, v)} :: Pte(t, space, v) == Pte(s, space, v)
  }

  /** The head of the free list taken off. */
  ghost function Popped(s: State): State
    requires s.free != []
  {
    State(s.mem, s.free[1..], s.at, s.owner, s.kpdpt, s.end)
  }

  ghost function Filled(s: State, g: nat, w: seq<Word>): State {
    State(s.mem[g := w], s.free, s.at, s.owner, s.kpdpt, s.end)
  }

  lemma PoppedOk(s: State)
    requires Ok(s) && s.free != []
    ensures Ok(Popped(s)) && InHand(Popped(s), s.free[0]) && SameFlat(s, Popped(s)) && Grew(s, Popped(s))
  {
    Open(s);
    PoppedSound(s);
    assert s.free[0] in s.free;
    forall f | f in Popped(s).free ensures f in s.free && f != s.free[0] {}
  }

  lemma PoppedShape(s: State)
    requires Sound(s) && s.free != []
    ensures Inverse(Popped(s)) && Words(Popped(s)) && FreeOk(Popped(s)) && Tree(Popped(s)) && KernelOk(Popped(s))
  {
    var t := Popped(s);
    assert s.free[0] in s.free;
    forall f | f in t.free ensures f in s.free && f != s.free[0] {}
    forall k | k in t.at ensures Hangs(t, k) { assert Hangs(s, k); }
  }

  lemma PoppedSound(s: State)
    requires Sound(s) && s.free != []
    ensures Sound(Popped(s))
  {
    PoppedShape(s);
    var t := Popped(s);
    forall k, i | k in t.at && Depth(k.path) < LEVELS && 0 <= i < Width(k.path) ensures SlotOk(t, k, i) {
      assert SlotOk(s, k, i);
    }
  }

  lemma FilledOk(s: State, g: nat, w: seq<Word>)
    requires Ok(s) && InHand(s, g) && |w| == SLOTS
    ensures Ok(Filled(s, g, w)) && InHand(Filled(s, g, w), g) && SameFlat(s, Filled(s, g, w))
  {
    Open(s);
    var t := Filled(s, g, w);
    FilledSlots(s, g, w);
    forall space: nat, v: nat ensures Pte(t, space, v) == Pte(s, space, v) {
      var k := Key(space, TableOf(v));
      assert k in s.at ==> s.at[k] != g;
    }
  }

  lemma FilledShape(s: State, g: nat, w: seq<Word>)
    requires Sound(s) && InHand(s, g) && |w| == SLOTS
    ensures Inverse(Filled(s, g, w)) && Words(Filled(s, g, w)) && FreeOk(Filled(s, g, w))
  {
  }

  lemma FilledTree(s: State, g: nat, w: seq<Word>)
    requires Sound(s) && InHand(s, g) && |w| == SLOTS && Inverse(Filled(s, g, w)) && Words(Filled(s, g, w))
    ensures Tree(Filled(s, g, w)) && KernelOk(Filled(s, g, w))
  {
    var t := Filled(s, g, w);
    forall k | k in t.at ensures Hangs(t, k) { assert Hangs(s, k); }
  }

  lemma FilledSlots(s: State, g: nat, w: seq<Word>)
    requires Sound(s) && InHand(s, g) && |w| == SLOTS
    ensures Sound(Filled(s, g, w))
  {
    FilledShape(s, g, w);
    FilledTree(s, g, w);
    var t := Filled(s, g, w);
    forall k, i | k in t.at && Depth(k.path) < LEVELS && 0 <= i < Width(k.path) ensures SlotOk(t, k, i) {
      assert SlotOk(s, k, i);
    }
  }

  /** A table from the free list attached at slot i of the table at k. */
  ghost function WithTable(s: State, k: Key, i: nat): State
    requires s.free != [] && k in s.at && s.at[k] in s.mem && i < |s.mem[s.at[k]]| == SLOTS
  {
    var g := s.free[0];
    Attach(Filled(Popped(s), g, Zeros()), k, i, g, Entry(g, PTE_W + PTE_U))
  }

  lemma WithTableOk(s: State, k: Key, i: nat)
    requires Ok(s) && s.free != [] && Vacant(s, k, i) && Depth(k.path) + 1 < LEVELS
    ensures Ok(WithTable(s, k, i)) && SameFlat(s, WithTable(s, k, i))
    ensures Grew(s, WithTable(s, k, i)) && Frames(WithTable(s, k, i)) == Frames(s)
  {
    Open(s);
    var g, p := s.free[0], Popped(s);
    PoppedOk(s);
    FilledOk(p, g, Zeros());
    var q := Filled(p, g, Zeros());
    Open(q);
    assert q.mem[q.at[k]] == s.mem[s.at[k]];
    AttachSound(q, k, i, g, Entry(g, PTE_W + PTE_U));
    var t := WithTable(s, k, i);
    forall space: nat, v: nat ensures Pte(t, space, v) == Pte(s, space, v) {
      AttachTableFlat(q, k, i, g, Entry(g, PTE_W + PTE_U), space, v);
    }
    WithTableGrew(s, k, i);
  }

  lemma WithTableGrew(s: State, k: Key, i: nat)
    requires Ok(s) && s.free != [] && Vacant(s, k, i) && Depth(k.path) + 1 < LEVELS
    requires Ok(WithTable(s, k, i))
    ensures Grew(s, WithTable(s, k, i)) && Frames(WithTable(s, k, i)) == Frames(s)
  {
    Open(s);
    Open(WithTable(s, k, i));
    var t, g := WithTable(s, k, i), s.free[0];
    assert SlotOk(s, k, i);
    assert s.free == [g] + s.free[1..];
    forall f | Still(s, f) ensures f in t.mem && t.mem[f] == s.mem[f] {
      assert f != g && f != s.at[k];
    }
    forall f ensures f in Frames(t) <==> f in Frames(s) {}
  }

  ghost predicate FlatPut(s: State, t: State, space: nat, v: nat, e: Word)
  {
    forall x: nat, w: nat {:trigger Pte(t, x, w)} :: Pte(t, x, w) == if x == space && w == v then e else Pte(s, x, w)
  }

  /** Pages lo to hi of a space are mapped to the frames from pa on, and no other mapping changed. */
  ghost predicate FlatRange(s: State, t: State, space: nat, lo: nat, hi: nat, pa: nat, perm: nat)
  {
    forall x: nat, w: nat {:trigger Pte(t, x, w)} :: Pte(t, x, w) ==
      if x == space && lo <= w < hi then Entry(pa + w - lo, perm) else Pte(s, x, w)
  }

  lemma FlatRangeNext(s: State, t: State, u: State, space: nat, lo: nat, v: nat, pa: nat, perm: nat)
    requires lo <= v
    requires FlatRange(s, t, space, lo, v, pa, perm) && FlatPut(t, u, space, v, Entry(pa + v - lo, perm))
    ensures FlatRange(s, u, space, lo, v + 1, pa, perm)
  {
  }

  /** Frame g joined the frames in use for page v. */
  ghost predicate MappedOne(t: State, u: State, space: nat, v: nat, g: nat, perm: nat) {
    && Ok(t) && Ok(u) && Grew(t, u) && FlatPut(t, u, space, v, Entry(g, perm))
    && (forall f :: f in Frames(u) <==> f in Frames(t) || f == g)
  }

  /** Pages lo to v of a space are mapped to the frames from pa on; the frames up to `stop` are still in hand. */
  ghost predicate MappedSome(s: State, t: State, space: nat, lo: nat, v: nat, pa: nat, perm: nat, stop: nat) {
    && lo <= v && Ok(s) && Ok(t) && Grew(s, t) && FlatRange(s, t, space, lo, v, pa, perm)
    && (forall f :: f in Frames(t) <==> f in Frames(s) || pa <= f < pa + v - lo)
    && (forall f | pa + v - lo <= f < stop :: InHand(t, f))
  }

  lemma MappedNext(s: State, t: State, u: State, space: nat, lo: nat, v: nat, pa: nat, perm: nat, stop: nat)
    requires MappedSome(s, t, space, lo, v, pa, perm, stop) && pa + v - lo < stop
    requires MappedOne(t, u, space, v, pa + v - lo, perm)
    ensures MappedSome(s, u, space, lo, v + 1, pa, perm, stop)
  {
    Open(t);
    Open(u);
    GrewTrans(s, t, u);
    FlatRangeNext(s, t, u, space, lo, v, pa, perm);
    forall f | pa + v - lo < f < stop ensures InHand(u, f) {
      assert InHand(t, f) && Still(t, f) && f !in Frames(u);
    }
  }

  lemma WithPageOk(s: State, space: nat, v: nat, g: nat, perm: nat)
    requires Ok(s) && Vacant(s, Key(space, TableOf(v)), v % SLOTS) && InHand(s, g)
    ensures var t := Attach(s, Key(space, TableOf(v)), v % SLOTS, g, Entry(g, perm));
      && Ok(t) && Grew(s, t) && FlatPut(s, t, space, v, Entry(g, perm))
      && (forall x :: x in Frames(t) <==> x in Frames(s) || x == g)
  {
    Open(s);
    var k := Key(space, TableOf(v));
    var t := Attach(s, k, v % SLOTS, g, Entry(g, perm));
    assert SlotOk(s, k, v % SLOTS);
    AttachSound(s, k, v % SLOTS, g, Entry(g, perm));
    forall x: nat, w: nat ensures Pte(t, x, w) == if x == space && w == v then Entry(g, perm) else Pte(s, x, w) {
      AttachPageFlat(s, space, v, g, Entry(g, perm), x, w);
    }
    assert Depth(Slot(k.path, v % SLOTS)) == LEVELS;
    forall f | Still(s, f) ensures f in t.mem && t.mem[f] == s.mem[f] {
      assert f != s.at[k];
    }
  }

  // ------------------------------------------------------------------
  // Virtual addresses

  const USER_END: nat := 0x8000_0000_0000            // the addresses of pml4 slots 0 to 255
  const KERNBASE: nat := 0xFFFF_8000_0000_0000

  function Pmx(va: nat): nat { va / 0x80_0000_0000 % SLOTS }
  function Pdpx(va: nat): nat { va / 0x4000_0000 % SLOTS }
  function Pdx(va: nat): nat { va / 0x20_0000 % SLOTS }
  function Ptx(va: nat): nat { va / PAGE % SLOTS }

  /** The four indices of a user address name the entry of its page. */
  lemma IndexSplit(va: nat)
    requires va < USER_END
    ensures TableOf(va / PAGE) == Slot(Slot(Slot(Root, Pmx(va)), Pdpx(va)), Pdx(va))
    ensures Ptx(va) == va / PAGE % SLOTS && Pmx(va) < USER_SLOTS
  {
  }

  /** The pages of a and b agree in the 36 bits the four indices take. */
  predicate SamePage36(a: nat, b: nat) { a / PAGE % 0x10_0000_0000 == b / PAGE % 0x10_0000_0000 }

  /** Addresses use the same entry exactly when their pages agree in those bits. */
  lemma SameEntryIff(a: nat, b: nat)
    ensures Pmx(a) == Pmx(b) && Pdpx(a) == Pdpx(b) && Pdx(a) == Pdx(b) && Ptx(a) == Ptx(b) <==> SamePage36(a, b)
  {
    Digits(a);
    Digits(b);
    if SamePage36(a, b) {
      FourDigits(Pmx(a), Pdpx(a), Pdx(a), Ptx(a), Pmx(b), Pdpx(b), Pdx(b), Ptx(b));
    }
  }

  /** So user addresses share an entry only within one page. */
  lemma UserEntryIff(a: nat, b: nat)
    requires a < USER_END && b < USER_END
    ensures Pmx(a) == Pmx(b) && Pdpx(a) == Pdpx(b) && Pdx(a) == Pdx(b) && Ptx(a) == Ptx(b) <==> a / PAGE == b / PAGE
  {
    SameEntryIff(a, b);
    Remainder(a / PAGE, 0, a / PAGE);
    Remainder(b / PAGE, 0, b / PAGE);
  }

  lemma FourDigits(i: nat, j: nat, k: nat, l: nat, i': nat, j': nat, k': nat, l': nat)
    requires i < SLOTS && j < SLOTS && k < SLOTS && l < SLOTS && i' < SLOTS && j' < SLOTS && k' < SLOTS && l' < SLOTS
    requires Number(Number(Number(i, j), k), l) == Number(Number(Number(i', j'), k'), l')
    ensures i == i' && j == j' && k == k' && l == l'
  {
  }

  function Number(high: nat, digit: nat): nat { high * SLOTS + digit }

  lemma Digits(a: nat)
    ensures a / PAGE % 0x10_0000_0000 == Number(Number(Number(Pmx(a), Pdpx(a)), Pdx(a)), Ptx(a))
  {
    var v := a / PAGE;
    var w := v / SLOTS;
    var x := w / SLOTS;
    var y := x / SLOTS;
    Quotients(a);
    Remainder(v, y / SLOTS, Number(Number(Number(y % SLOTS, x % SLOTS), w % SLOTS), v % SLOTS));
  }

  lemma Quotients(a: nat)
    ensures a / PAGE / SLOTS == a / 0x20_0000
    ensures a / PAGE / SLOTS / SLOTS == a / 0x4000_0000
    ensures a / PAGE / SLOTS / SLOTS / SLOTS == a / 0x80_0000_0000
  {
  }

  lemma Remainder(v: nat, z: nat, r: nat)
    requires v == z * 0x10_0000_0000 + r && r < 0x10_0000_0000
    ensures v % 0x10_0000_0000 == r
  {
  }

  /** Nothing hangs from a missing table. */
  lemma NoTable(s: State, space: nat, up: Path, i: nat)
    requires Ok(s)
    ensures Key(space, up) !in s.at ==> Key(space, Slot(up, i)) !in s.at
  {
    Open(s);
    var k := Key(space, Slot(up, i));
    if k in s.at { assert Hangs(s, k); }
  }

  // ------------------------------------------------------------------
  // The machine

  /** How far a walk got: to an entry, to a missing table, or to a kalloc without a free frame. */
  datatype Walked = At(f: nat, i: nat) | Missing | NoMemory

  /** How mapping ends: done, or in one of the two panics. */
  datatype Outcome = Done | OutOfMemory | Remapped

  class Machine {
    var mem: map<nat, seq<Word>>
    var free: seq<nat>        // kmem.freelist
    const kpdpt: nat
    const end: nat
    ghost var at: map<Key, nat>
    ghost var owner: map<nat, Key>

    ghost function S(): State
      reads this
    {
      State(mem, free, at, owner, kpdpt, end)
    }

    /** freerange over the frames from first to last, and the two frames kvmalloc takes: the
        kernel's pml4 and the table all address spaces share. */
    constructor (first: nat, last: nat, memory: map<nat, seq<Word>>)
      requires 0 < first && first + 2 <= last <= PHYS_FRAMES
      requires forall f | first <= f < last :: f in memory && |memory[f]| == SLOTS
      ensures Ok(S()) && at == map[] && kpdpt == last - 2 && end == first
      ensures forall f :: f in free <==> first <= f < last - 2
    {
      end, kpdpt := first, last - 2;
      mem := memory;
      at, owner, free := map[], map[], [];
      new;
      var p := first;
      while p < last
        invariant first <= p <= last && |free| == p - first && at == map[] && owner == map[]
        invariant forall j | 0 <= j < |free| :: free[j] == p - 1 - j
        invariant forall f | first <= f < last :: f in mem && |mem[f]| == SLOTS
      {
        var ok := Kfree(p);
        p := p + 1;
      }
      free := free[2..];
      forall f | first <= f < last - 2 ensures f in free { assert free[last - 3 - f] == f; }
      assert Sound(S());
    }

    /** kalloc: the head of the list; an empty list is a panic. */
    method Kalloc() returns (ok: bool, g: nat)
      requires Ok(S())
      modifies this`free
      ensures ok <==> old(free) != []
      ensures !ok ==> free == old(free)
      ensures ok ==> g == old(free)[0] && free == old(free)[1..] && InHand(S(), g)
      ensures Ok(S()) && SameFlat(old(S()), S()) && Grew(old(S()), S())
    {
      ok, g := free != [], 0;
      if ok {
        PoppedOk(S());
        g, free := free[0], free[1..];
      }
    }

    /** kfree: the frame is filled with junk and put at the head of the list; a frame outside
        the memory kalloc manages is a panic. */
    method Kfree(g: nat) returns (ok: bool)
      modifies this`mem, this`free
      ensures ok <==> end <= g < PHYS_FRAMES
      ensures ok ==> mem == old(mem)[g := Junk()] && free == [g] + old(free)
    {
      ok := end <= g < PHYS_FRAMES;
      if ok {
        mem, free := mem[g := Junk()], [g] + free;
      }
    }

    /** One level of walkpgdir: the table behind slot i of the table in frame f. */
    method Descend(f: nat, i: nat, alloc: bool, ghost k: Key) returns (r: Walked)
      requires Ok(S()) && k in at && at[k] == f && Depth(k.path) + 1 < LEVELS && i < Width(k.path)
      modifies this
      ensures Ok(S()) && SameFlat(old(S()), S()) && Grew(old(S()), S()) && Frames(S()) == Frames(old(S()))
      ensures !alloc ==> S() == old(S())
      ensures r.At? ==> Key(k.space, Slot(k.path, i)) in at && at[Key(k.space, Slot(k.path, i))] == r.f
      ensures r.Missing? ==> !alloc && Key(k.space, Slot(k.path, i)) !in at
      ensures r.NoMemory? ==> alloc && free == []
    {
      Open(S());
      assert SlotOk(S(), k, i);
      if Present(mem[f][i]) {
        return At(mem[f][i].frame, 0);
      }
      if !alloc {
        return Missing;
      }
      r := NewTable(f, i, k);
    }

    method NewTable(f: nat, i: nat, ghost k: Key) returns (r: Walked)
      requires Ok(S()) && Vacant(S(), k, i) && at[k] == f && Depth(k.path) + 1 < LEVELS
      modifies this
      ensures Ok(S()) && SameFlat(old(S()), S()) && Grew(old(S()), S()) && Frames(S()) == Frames(old(S()))
      ensures r.At? ==> Key(k.space, Slot(k.path, i)) in at && at[Key(k.space, Slot(k.path, i))] == r.f
      ensures !r.Missing? && (r.NoMemory? ==> free == [])
    {
      ghost var s := S();
      var ok, g := Kalloc();
      if !ok {
        return NoMemory;
      }
      WithTableOk(s, k, i);
      mem := mem[g := Zeros()];
      mem := mem[f := Put(mem[f], i, Entry(g, PTE_W + PTE_U))];
      ghost var child := Key(k.space, Slot(k.path, i));
      at, owner := at[child := g], owner[g := child];
      assert S() == WithTable(s, k, i);
      r := At(g, 0);
    }

    /** walkpgdir: the place of the entry for va, tables being created on the way if `alloc`. */
    method Walk(space: nat, va: nat, alloc: bool) returns (r: Walked)
      requires Ok(S()) && Key(space, Root) in at && va < USER_END
      modifies this
      ensures Ok(S()) && SameFlat(old(S()), S()) && Grew(old(S()), S()) && Frames(S()) == Frames(old(S()))
      ensures !alloc ==> S() == old(S())
      ensures r.At? ==>
        Key(space, TableOf(va / PAGE)) in at && at[Key(space, TableOf(va / PAGE))] == r.f && r.i == va / PAGE % SLOTS
      ensures r.Missing? ==> !alloc && Key(space, TableOf(va / PAGE)) !in at
      ensures r.NoMemory? ==> alloc && free == []
    {
      Open(S());
      IndexSplit(va);
      ghost var s := S();
      assert Hangs(s, Key(space, Root));
      ghost var pdp, pd := Slot(Root, Pmx(va)), Slot(Slot(Root, Pmx(va)), Pdpx(va));
      assert Depth(pdp) == Depth(Root) + 1 && Depth(pd) == Depth(pdp) + 1;
      r := Descend(space, Pmx(va), alloc, Key(space, Root));
      if !r.At? {
        NoTable(S(), space, pdp, Pdpx(va));
        NoTable(S(), space, pd, Pdx(va));
        return;
      }
      ghost var s1 := S();
      r := Descend(r.f, Pdpx(va), alloc, Key(space, pdp));
      GrewTrans(s, s1, S());
      if !r.At? {
        NoTable(S(), space, pd, Pdx(va));
        return;
      }
      ghost var s2 := S();
      r := Descend(r.f, Pdx(va), alloc, Key(space, pd));
      GrewTrans(s, s2, S());
      if r.At? {
        r := At(r.f, Ptx(va));
      }
    }

    /** The body of mappages' loop: frame g becomes the page of va. */
    method MapOne(space: nat, va: nat, g: nat, perm: nat) returns (r: Outcome)
      requires Ok(S()) && Key(space, Root) in at && va < USER_END && InHand(S(), g)
      modifies this
      ensures r == Done ==> MappedOne(old(S()), S(), space, va / PAGE, g, perm)
      ensures r != OutOfMemory ==> (r == Remapped <==> Present(Pte(old(S()), space, va / PAGE)))
      ensures r == OutOfMemory ==> free == []
    {
      ghost var s := S();
      var w := Walk(space, va, true);
      if w.NoMemory? {
        return OutOfMemory;
      }
      ghost var s1 := S();
      Open(s1);
      ghost var v := va / PAGE;
      assert s1.mem[w.f][w.i] == Pte(s1, space, v);
      if Present(mem[w.f][w.i]) {
        return Remapped;
      }
      assert Still(s, g) && g !in Frames(s1);
      assert Vacant(s1, Key(space, TableOf(v)), v % SLOTS) && InHand(s1, g);
      SetEntry(w.f, w.i, g, perm, space, v);
      GrewTrans(s, s1, S());
      return Done;
    }

    method SetEntry(f: nat, i: nat, g: nat, perm: nat, ghost space: nat, ghost v: nat)
      requires Ok(S()) && Vacant(S(), Key(space, TableOf(v)), v % SLOTS) && InHand(S(), g)
      requires f == at[Key(space, TableOf(v))] && i == v % SLOTS
      modifies this
      ensures Ok(S()) && Grew(old(S()), S()) && FlatPut(old(S()), S(), space, v, Entry(g, perm))
      ensures forall x :: x in Frames(S()) <==> x in Frames(old(S())) || x == g
    {
      ghost var s, k := S(), Key(space, TableOf(v));
      WithPageOk(s, space, v, g, perm);
      mem := mem[f := Put(mem[f], i, Entry(g, perm))];
      ghost var child := Key(space, Slot(TableOf(v), v % SLOTS));
      at, owner := at[child := g], owner[g := child];
      assert S() == Attach(s, k, v % SLOTS, g, Entry(g, perm));
    }

    /** mappages: the frames from pa on become the pages of va .. va + size. */
    method MapPages(space: nat, va: nat, size: nat, pa: nat, perm: nat) returns (r: Outcome)
      requires Ok(S()) && Key(space, Root) in at && 0 < size && va + size <= USER_END
      requires forall f | pa <= f <= pa + (va + size - 1) / PAGE - va / PAGE :: InHand(S(), f)
      modifies this
      ensures r == Done ==>
        MappedSome(old(S()), S(), space, va / PAGE, (va + size - 1) / PAGE + 1, pa, perm,
          pa + (va + size - 1) / PAGE - va / PAGE + 1)
      ensures r == Done ==> forall w | va / PAGE <= w <= (va + size - 1) / PAGE :: !Present(Pte(old(S()), space, w))
      ensures r == Remapped ==> exists w :: va / PAGE <= w <= (va + size - 1) / PAGE && Present(Pte(old(S()), space, w))
      ensures r == OutOfMemory ==> free == []
    {
      r := MapRun(space, va / PAGE, (va + size - 1) / PAGE, pa, perm);
    }

    /** The loop of mappages, over page numbers. */
    method MapRun(space: nat, first: nat, last: nat, pa: nat, perm: nat) returns (r: Outcome)
      requires Key(space, Root) in at && first <= last < PAGES
      requires MappedSome(S(), S(), space, first, first, pa, perm, pa + last - first + 1)
      modifies this
      ensures r == Done ==> MappedSome(old(S()), S(), space, first, last + 1, pa, perm, pa + last - first + 1)
      ensures r == Done ==> forall w | first <= w <= last :: !Present(Pte(old(S()), space, w))
      ensures r == Remapped ==> exists w :: first <= w <= last && Present(Pte(old(S()), space, w))
      ensures r == OutOfMemory ==> free == []
    {
      ghost var s := S();
      var a, f := first, pa;
      while true
        invariant first <= a <= last && f == pa + a - first
        invariant MappedSome(s, S(), space, first, a, pa, perm, pa + last - first + 1)
        invariant forall w | first <= w < a :: !Present(Pte(s, space, w))
        decreases last - a
      {
        r := MapNext(space, a, f, perm, s, first, last, pa);
        if r != Done {
          return;
        }
        if a == last {
          return;
        }
        a, f := a + 1, f + 1;
      }
    }

    /** One more page of the range. */
    method MapNext(space: nat, a: nat, f: nat, perm: nat, ghost s: State, ghost first: nat, ghost last: nat,
                   ghost pa: nat)
      returns (r: Outcome)
      requires first <= a <= last < PAGES && f == pa + a - first && Key(space, Root) in s.at
      requires MappedSome(s, S(), space, first, a, pa, perm, pa + last - first + 1)
      modifies this
      ensures r == Done ==> MappedSome(s, S(), space, first, a + 1, pa, perm, pa + last - first + 1)
      ensures r != OutOfMemory ==> (r == Remapped <==> Present(Pte(s, space, a)))
      ensures r == OutOfMemory ==> free == []
    {
      ghost var s1 := S();
      r := MapAt(space, a, f, perm, s, first, last, pa);
      if r == Done { MappedNext(s, s1, S(), space, first, a, pa, perm, pa + last - first + 1); }
    }

    method MapAt(space: nat, a: nat, f: nat, perm: nat, ghost s: State, ghost first: nat, ghost last: nat,
                 ghost pa: nat)
      returns (r: Outcome)
      requires first <= a <= last < PAGES && f == pa + a - first && Key(space, Root) in s.at
      requires MappedSome(s, S(), space, first, a, pa, perm, pa + last - first + 1)
      modifies this
      ensures r == Done ==> MappedOne(old(S()), S(), space, a, f, perm)
      ensures r != OutOfMemory ==> (r == Remapped <==> Present(Pte(s, space, a)))
      ensures r == OutOfMemory ==> free == []
    {
      assert InHand(S(), f);
      assert Pte(S(), space, a) == Pte(s, space, a);
      assert a * PAGE / PAGE == a;
      r := MapOne(space, a * PAGE, f, perm);
    }
  }
}
