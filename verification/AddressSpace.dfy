/** Making, growing and shrinking an address space: setupkvm, allocuvm and deallocuvm of vm.c. */
module AddressSpace {
  import opened PageTree
  import opened PageTable
  import opened Counting

  /** A present entry names the frame recorded for its page. */
  lemma PageOwner(s: State, space: nat, v: nat)
    requires Ok(s) && v < PAGES && Present(Pte(s, space, v))
    ensures Key(space, TableOf(v)) in s.at && Key(space, Slot(TableOf(v), v % SLOTS)) in s.at
    ensures s.at[Key(space, Slot(TableOf(v), v % SLOTS))] == Pte(s, space, v).frame
    ensures Still(s, Pte(s, space, v).frame) && Pte(s, space, v).frame in s.owner
  {
    Open(s);
    var k := Key(space, TableOf(v));
    assert SlotOk(s, k, v % SLOTS);
    assert Depth(Slot(k.path, v % SLOTS)) == LEVELS;
  }

  /** PGROUNDUP, as a page number: the first page that begins at n or after it. */
  function RoundUp(n: nat): (v: nat)
    ensures n <= v * PAGE < n + PAGE
  {
    (n + PAGE - 1) / PAGE
  }

  // ------------------------------------------------------------------
  // setupkvm

  /** A new space came out of the free list; no mapping, page or foreign frame changed. */
  ghost predicate SpaceAdded(s: State, t: State, space: nat) {
    && Ok(s) && Ok(t) && SameFlat(s, t) && Key(space, Root) in t.at && t.kpdpt == s.kpdpt && t.end == s.end
    && (forall k | k in s.at :: k in t.at && t.at[k] == s.at[k] && k.space != space)
    && (forall f :: f in Frames(t) <==> f in Frames(s))
    && (forall f | Still(s, f) :: f in t.mem && t.mem[f] == s.mem[f])
  }

  lemma NewSpaceAdded(s: State)
    requires Ok(s) && s.free != []
    ensures Ok(Popped(s)) && SpaceAdded(s, NewSpace(Popped(s), s.free[0]), s.free[0])
  {
    Open(s);
    var t, g := Popped(s), s.free[0];
    PoppedOk(s);
    Open(t);
    NewSpaceSound(t, g);
    forall k | k in t.at ensures k.space != g { NoSuchSpace(t, g, k); }
    forall x: nat, v: nat ensures Pte(NewSpace(t, g), x, v) == Pte(s, x, v) { NewSpaceFlat(t, g, x, v); }
    assert s.free == [g] + t.free;
  }

  /** setupkvm: a new space with no user mapping that shares the kernel's table. */
  method SetupKvm(m: Machine) returns (ok: bool, space: nat)
    requires Ok(m.S())
    modifies m
    ensures ok <==> old(m.free) != []
    ensures ok ==> SpaceAdded(old(m.S()), m.S(), space)
    ensures !ok ==> m.free == []
  {
    ghost var s := m.S();
    ok, space := m.Kalloc();
    if !ok {
      return;
    }
    NewSpaceAdded(s);
    m.mem := m.mem[space := Zeros()];
    m.mem := m.mem[space := Put(m.mem[space], USER_SLOTS, Entry(m.kpdpt, PTE_W))];
    m.at, m.owner := m.at[Key(space, Root) := space], m.owner[space := Key(space, Root)];
    assert m.S() == NewSpace(Popped(s), space);
  }

  // ------------------------------------------------------------------
  // allocuvm

  /** A user-writable entry for a page of zeros. */
  ghost predicate ZeroPage(s: State, e: Word) {
    Present(e) && e.flags == PTE_W + PTE_U + 1 && e.frame in s.mem && s.mem[e.frame] == Zeros()
  }

  /** Pages lo to hi of a space are new pages of zeros; no other mapping, page or foreign frame changed. */
  ghost predicate Grown(s: State, t: State, space: nat, lo: nat, hi: nat) {
    && Ok(s) && Ok(t) && Grew(s, t) && lo <= hi <= PAGES
    && (forall f :: f in Frames(t) <==> f in Frames(s))
    && (forall x: nat, w: nat {:trigger Pte(t, x, w)} ::
          if x == space && lo <= w < hi then ZeroPage(t, Pte(t, x, w)) else Pte(t, x, w) == Pte(s, x, w))
  }

  /** The pages that begin between the two sizes are new pages of zeros; no other mapping, page or
      foreign frame changed. */
  ghost predicate GrownTo(s: State, t: State, space: nat, oldsz: nat, newsz: nat) {
    && Ok(s) && Ok(t) && Grew(s, t) && newsz <= USER_END
    && (forall f :: f in Frames(t) <==> f in Frames(s))
    && (forall x: nat, w: nat {:trigger Pte(t, x, w)} ::
          if x == space && oldsz <= w * PAGE < newsz then ZeroPage(t, Pte(t, x, w)) else Pte(t, x, w) == Pte(s, x, w))
  }

  lemma GrownIff(s: State, t: State, space: nat, oldsz: nat, newsz: nat)
    requires oldsz <= newsz
    ensures Grown(s, t, space, RoundUp(oldsz), RoundUp(newsz)) <==> GrownTo(s, t, space, oldsz, newsz)
  {
    SizesIff(oldsz, newsz);
    if GrownTo(s, t, space, oldsz, newsz) {
      forall x: nat, w: nat ensures if x == space && RoundUp(oldsz) <= w < RoundUp(newsz)
        then ZeroPage(t, Pte(t, x, w)) else Pte(t, x, w) == Pte(s, x, w)
      {
        PageBegins(oldsz, newsz, w);
      }
    }
    if Grown(s, t, space, RoundUp(oldsz), RoundUp(newsz)) {
      forall x: nat, w: nat ensures if x == space && oldsz <= w * PAGE < newsz
        then ZeroPage(t, Pte(t, x, w)) else Pte(t, x, w) == Pte(s, x, w)
      {
        PageBegins(oldsz, newsz, w);
      }
    }
  }

  lemma PageBegins(oldsz: nat, newsz: nat, w: nat)
    ensures RoundUp(oldsz) <= w < RoundUp(newsz) <==> oldsz <= w * PAGE < newsz
  {
  }

  lemma SizesIff(oldsz: nat, newsz: nat)
    requires oldsz <= newsz
    ensures RoundUp(oldsz) <= RoundUp(newsz) && (RoundUp(newsz) <= PAGES <==> newsz <= USER_END)
  {
  }

  lemma GrownNext(s: State, t: State, u: State, space: nat, lo: nat, v: nat)
    requires Grown(s, t, space, lo, v) && Grown(t, u, space, v, v + 1)
    ensures Grown(s, u, space, lo, v + 1)
  {
    GrewTrans(s, t, u);
    forall x: nat, w: nat
      ensures if x == space && lo <= w < v + 1 then ZeroPage(u, Pte(u, x, w)) else Pte(u, x, w) == Pte(s, x, w)
    {
      assert if x == space && lo <= w < v then ZeroPage(t, Pte(t, x, w)) else Pte(t, x, w) == Pte(s, x, w);
      assert if x == space && w == v then ZeroPage(u, Pte(u, x, w)) else Pte(u, x, w) == Pte(t, x, w);
      if x == space && lo <= w < v { PageOwner(t, x, w); }
    }
  }

  // ------------------------------------------------------------------
  // Counting frames

  /** Growing never lengthens the free list. */
  lemma FewerFree(s: State, t: State)
    requires Ok(s) && Ok(t) && Grew(s, t)
    ensures |t.free| <= |s.free|
  {
    Open(s);
    Open(t);
    NoLonger(t.free, s.free);
  }

  /** Two mapped pages of a space have different frames. */
  lemma PagesApart(s: State, space: nat, v: nat, w: nat)
    requires Ok(s) && v < PAGES && w < PAGES && Present(Pte(s, space, v)) && Present(Pte(s, space, w)) && v != w
    ensures Pte(s, space, v).frame != Pte(s, space, w).frame
  {
    Open(s);
    PageOwner(s, space, v);
    PageOwner(s, space, w);
    if Pte(s, space, v).frame == Pte(s, space, w).frame { TableOfInjective(v, w); }
  }

  /** The frames of the pages from 1 to n, all mapped. */
  ghost function PageFrames(s: State, space: nat, n: nat): seq<nat>
    requires 1 <= n
  {
    seq(n - 1, k requires 0 <= k < n - 1 => Pte(s, space, k + 1).frame)
  }

  lemma PageFramesApart(s: State, space: nat, n: nat)
    requires Ok(s) && 1 <= n <= PAGES && forall v | 1 <= v < n :: Present(Pte(s, space, v))
    ensures Distinct(PageFrames(s, space, n)) && forall f | f in PageFrames(s, space, n) ::
      f < PHYS_FRAMES && f !in s.free
  {
    var q := PageFrames(s, space, n);
    forall i, j | 0 <= i < j < |q| ensures q[i] != q[j] { PagesApart(s, space, i + 1, j + 1); }
    forall k | 0 <= k < |q| ensures q[k] < PHYS_FRAMES && q[k] !in s.free {
      PageOwner(s, space, k + 1);
      Open(s);
    }
  }

  /** A space whose pages up to its size are mapped fits into physical memory beside the free
      frames; its first page is never used. */
  lemma SizeFits(s: State, space: nat, sz: nat)
    requires Ok(s) && sz <= USER_END && forall v | 0 < v * PAGE < sz :: Present(Pte(s, space, v))
    ensures sz + |s.free| * PAGE <= (PHYS_FRAMES + 1) * PAGE
  {
    var n := if RoundUp(sz) == 0 then 1 else RoundUp(sz);
    PageFramesApart(s, space, n);
    FreeBelow(s);
    BothDistinct(PageFrames(s, space, n), s.free);
    AtMost(PageFrames(s, space, n) + s.free, PHYS_FRAMES);
  }

  lemma FreeBelow(s: State)
    requires Ok(s)
    ensures Distinct(s.free) && forall f | f in s.free :: f < PHYS_FRAMES
  {
    Open(s);
  }

  /** kalloc and memset: a frame of zeros in hand. */
  method ZeroFrame(m: Machine) returns (ok: bool, g: nat)
    requires Ok(m.S())
    modifies m
    ensures Ok(m.S()) && SameFlat(old(m.S()), m.S()) && Grew(old(m.S()), m.S())
    ensures !ok ==> m.free == []
    ensures ok ==> |m.free| + 1 == |old(m.free)|
    ensures ok ==>
      && InHand(m.S(), g) && m.mem[g] == Zeros()
      && (forall f :: f in Frames(old(m.S())) <==> f in Frames(m.S()) || f == g)
  {
    ghost var s := m.S();
    ok, g := m.Kalloc();
    if ok {
      ghost var t := m.S();
      assert s.free == [g] + t.free;
      FilledOk(t, g, Zeros());
      m.mem := m.mem[g := Zeros()];
      assert m.S() == Filled(t, g, Zeros());
    }
  }

  lemma PageAdded(s: State, t: State, u: State, space: nat, v: nat, g: nat)
    requires Ok(s) && Ok(t) && Grew(s, t) && SameFlat(s, t) && v < PAGES
    requires InHand(t, g) && t.mem[g] == Zeros() && (forall f :: f in Frames(s) <==> f in Frames(t) || f == g)
    requires MappedSome(t, u, space, v, v + 1, g, PTE_W + PTE_U, g + 1)
    ensures Grown(s, u, space, v, v + 1)
  {
    GrewTrans(s, t, u);
    assert Still(t, g);
    assert ZeroPage(u, Entry(g, PTE_W + PTE_U));
    forall x: nat, w: nat
      ensures Pte(u, x, w) == if x == space && w == v then Entry(g, PTE_W + PTE_U) else Pte(s, x, w)
    {
      assert Pte(t, x, w) == Pte(s, x, w);
      assert Pte(u, x, w) == if x == space && v <= w < v + 1 then Entry(g + w - v, PTE_W + PTE_U) else Pte(t, x, w);
    }
  }

  /** The body of allocuvm's loop. */
  method AllocPage(m: Machine, space: nat, v: nat) returns (r: Outcome)
    requires Ok(m.S()) && Key(space, Root) in m.at && v < PAGES
    modifies m
    ensures r == Done ==> Grown(old(m.S()), m.S(), space, v, v + 1) && |m.free| < |old(m.free)|
    ensures r != OutOfMemory ==> (r == Remapped <==> Present(Pte(old(m.S()), space, v)))
    ensures r == OutOfMemory ==> m.free == []
  {
    ghost var s := m.S();
    var ok, g := ZeroFrame(m);
    if !ok {
      return OutOfMemory;
    }
    ghost var t := m.S();
    assert v * PAGE / PAGE == v && (v * PAGE + PAGE - 1) / PAGE == v;
    r := m.MapPages(space, v * PAGE, PAGE, g, PTE_W + PTE_U);
    assert Pte(t, space, v) == Pte(s, space, v);
    if r == Done {
      PageAdded(s, t, m.S(), space, v, g);
      FewerFree(t, m.S());
    }
  }

  /** Frames enough for the pages from lo to hi, and none of them mapped. */
  ghost predicate RoomFor(s: State, space: nat, lo: nat, hi: nat) {
    hi <= lo + |s.free| && forall w | lo <= w < hi :: !Present(Pte(s, space, w))
  }

  /** The same for the pages that begin between two sizes. */
  ghost predicate RoomTo(s: State, space: nat, oldsz: nat, newsz: nat) {
    RoundUp(newsz) <= RoundUp(oldsz) + |s.free| && forall w | oldsz <= w * PAGE < newsz :: !Present(Pte(s, space, w))
  }

  /** allocuvm: exactly the pages that begin between the two sizes are added, as pages of zeros. It
      ends in a panic when one of them is mapped or there are more of them than free frames. An
      oldsz that is the size of a space leaves the walk below 2^47 (SizeFits). */
  method AllocUvm(m: Machine, space: nat, oldsz: nat, newsz: nat) returns (r: Outcome, size: nat)
    requires Ok(m.S()) && Key(space, Root) in m.at
    requires oldsz <= newsz && USER_END < newsz < KERNBASE ==> oldsz + (|m.free| + 1) * PAGE <= USER_END
    modifies m
    ensures newsz >= KERNBASE ==> r == Done && size == 0 && m.S() == old(m.S())
    ensures newsz < KERNBASE && newsz < oldsz ==> r == Done && size == oldsz && m.S() == old(m.S())
    ensures oldsz <= newsz < KERNBASE && r == Done ==> size == newsz && GrownTo(old(m.S()), m.S(), space, oldsz, newsz)
    ensures oldsz <= newsz < KERNBASE && r == Done ==> RoomTo(old(m.S()), space, oldsz, newsz)
    ensures r == Remapped ==> exists w :: oldsz <= w * PAGE < newsz && Present(Pte(old(m.S()), space, w))
    ensures r == OutOfMemory ==> m.free == []
  {
    if newsz >= KERNBASE {
      return Done, 0;
    }
    if newsz < oldsz {
      return Done, oldsz;
    }
    SizesIff(oldsz, newsz);
    r := AllocRun(m, space, RoundUp(oldsz), newsz);
    size := newsz;
    GrownIff(old(m.S()), m.S(), space, oldsz, newsz);
    RangeIff(old(m.S()), space, oldsz, newsz);
  }

  lemma RangeIff(s: State, space: nat, oldsz: nat, newsz: nat)
    ensures RoomFor(s, space, RoundUp(oldsz), RoundUp(newsz)) ==> RoomTo(s, space, oldsz, newsz)
    ensures (exists w :: RoundUp(oldsz) <= w < RoundUp(newsz) && Present(Pte(s, space, w))) ==>
      exists w :: oldsz <= w * PAGE < newsz && Present(Pte(s, space, w))
  {
    if w :| RoundUp(oldsz) <= w < RoundUp(newsz) && Present(Pte(s, space, w)) {
      PageBegins(oldsz, newsz, w);
    }
    forall w | oldsz <= w * PAGE < newsz ensures RoundUp(oldsz) <= w < RoundUp(newsz) { PageBegins(oldsz, newsz, w); }
  }

  method AllocRun(m: Machine, space: nat, first: nat, newsz: nat) returns (r: Outcome)
    requires Ok(m.S()) && Key(space, Root) in m.at && first <= RoundUp(newsz)
    requires newsz <= USER_END || first + |m.free| < PAGES
    modifies m
    ensures r == Done ==> Grown(old(m.S()), m.S(), space, first, RoundUp(newsz))
    ensures r == Done ==> RoomFor(old(m.S()), space, first, RoundUp(newsz))
    ensures r == Remapped ==> exists w :: first <= w < RoundUp(newsz) && Present(Pte(old(m.S()), space, w))
    ensures r == OutOfMemory ==> m.free == []
  {
    ghost var s := m.S();
    var v := first;
    SizesIff(newsz, newsz);
    while v * PAGE < newsz
      invariant first <= v <= RoundUp(newsz) && GrownSoFar(s, m.S(), space, first, v)
      decreases RoundUp(newsz) - v
    {
      ghost var t := m.S();
      PageBegins(0, newsz, v);
      assert Pte(t, space, v) == Pte(s, space, v);
      r := AllocPage(m, space, v);
      if r != Done {
        return;
      }
      GrownStep(s, t, m.S(), space, first, v);
      v := v + 1;
    }
    PageBegins(0, newsz, v);
    r := Done;
  }

  /** Each page added took a frame off the free list, and was not mapped before. */
  ghost predicate GrownSoFar(s: State, t: State, space: nat, lo: nat, v: nat) {
    Grown(s, t, space, lo, v) && v - lo + |t.free| <= |s.free| && RoomFor(s, space, lo, v)
  }

  lemma GrownStep(s: State, t: State, u: State, space: nat, lo: nat, v: nat)
    requires GrownSoFar(s, t, space, lo, v) && Grown(t, u, space, v, v + 1) && |u.free| < |t.free|
      && !Present(Pte(s, space, v))
    ensures GrownSoFar(s, u, space, lo, v + 1)
  {
    GrownNext(s, t, u, space, lo, v);
  }

  // ------------------------------------------------------------------
  // deallocuvm

  /** Pages lo to hi of a space are unmapped and exactly their frames freed; tables stay. */
  ghost predicate Shrunk(s: State, t: State, space: nat, lo: nat, hi: nat) {
    && Ok(s) && Ok(t) && t.kpdpt == s.kpdpt && t.end == s.end
    && (forall f :: f in Frames(t) <==> f in Frames(s))
    && (forall x: nat, w: nat {:trigger Pte(t, x, w)} ::
          Pte(t, x, w) == if x == space && lo <= w < hi && Present(Pte(s, x, w)) then NIL else Pte(s, x, w))
    && (forall k | k in t.at :: k in s.at && t.at[k] == s.at[k])
    && (forall k | k in s.at && Depth(k.path) < LEVELS :: k in t.at)
    && (forall f | f in s.free :: f in t.free)
    && (forall f | f in t.free && f !in s.free ::
          exists w :: lo <= w < hi && Present(Pte(s, space, w)) && Pte(s, space, w).frame == f)
    && (forall f | Still(s, f) && f !in t.free :: f in t.mem && t.mem[f] == s.mem[f])
  }

  /** The pages that begin between the two sizes are unmapped and exactly their frames freed; tables stay. */
  ghost predicate ShrunkTo(s: State, t: State, space: nat, newsz: nat, oldsz: nat) {
    && Ok(s) && Ok(t) && t.kpdpt == s.kpdpt && t.end == s.end
    && (forall f :: f in Frames(t) <==> f in Frames(s))
    && (forall x: nat, w: nat {:trigger Pte(t, x, w)} ::
          Pte(t, x, w) == if x == space && newsz <= w * PAGE < oldsz && Present(Pte(s, x, w)) then NIL
            else Pte(s, x, w))
    && (forall k | k in t.at :: k in s.at && t.at[k] == s.at[k])
    && (forall k | k in s.at && Depth(k.path) < LEVELS :: k in t.at)
    && (forall f | f in s.free :: f in t.free)
    && (forall f | f in t.free && f !in s.free ::
          exists w :: newsz <= w * PAGE < oldsz && Present(Pte(s, space, w)) && Pte(s, space, w).frame == f)
    && (forall f | Still(s, f) && f !in t.free :: f in t.mem && t.mem[f] == s.mem[f])
  }

  lemma ShrunkSizes(s: State, t: State, space: nat, newsz: nat, oldsz: nat)
    requires Shrunk(s, t, space, RoundUp(newsz), RoundUp(oldsz))
    ensures ShrunkTo(s, t, space, newsz, oldsz)
  {
    forall x: nat, w: nat ensures Pte(t, x, w)
      == if x == space && newsz <= w * PAGE < oldsz && Present(Pte(s, x, w)) then NIL else Pte(s, x, w)
    {
      PageBegins(newsz, oldsz, w);
    }
    forall f | f in t.free && f !in s.free
      ensures exists w :: newsz <= w * PAGE < oldsz && Present(Pte(s, space, w)) && Pte(s, space, w).frame == f
    {
      var w :| RoundUp(newsz) <= w < RoundUp(oldsz) && Present(Pte(s, space, w)) && Pte(s, space, w).frame == f;
      PageBegins(newsz, oldsz, w);
    }
  }

  lemma ShrunkNext(s: State, t: State, u: State, space: nat, lo: nat, v: nat)
    requires Shrunk(s, t, space, lo, v) && Shrunk(t, u, space, v, v + 1) && lo <= v
    ensures Shrunk(s, u, space, lo, v + 1)
  {
    forall x: nat, w: nat
      ensures Pte(u, x, w) == if x == space && lo <= w < v + 1 && Present(Pte(s, x, w)) then NIL else Pte(s, x, w)
    {
      assert Pte(t, x, w) == if x == space && lo <= w < v && Present(Pte(s, x, w)) then NIL else Pte(s, x, w);
    }
    forall f | f in u.free && f !in s.free
      ensures exists w :: lo <= w < v + 1 && Present(Pte(s, space, w)) && Pte(s, space, w).frame == f
    {
      if f !in t.free {
        var w :| v <= w < v + 1 && Present(Pte(t, space, w)) && Pte(t, space, w).frame == f;
        assert Pte(t, space, w) == Pte(s, space, w);
      }
    }
    forall f | Still(s, f) && f !in u.free ensures f in u.mem && u.mem[f] == s.mem[f] {
      StillAfter(s, t, f);
    }
  }

  lemma StillAfter(s: State, t: State, f: nat)
    requires Ok(s) && Ok(t) && Still(s, f) && f !in t.free && f in t.mem
    requires forall k | k in t.at :: k in s.at && t.at[k] == s.at[k]
    ensures Still(t, f)
  {
    Open(s);
    Open(t);
    if f in t.owner { assert s.at[t.owner[f]] == f; }
  }

  lemma PageRemoved(s: State, space: nat, v: nat)
    requires Ok(s) && v < PAGES && Present(Pte(s, space, v))
    ensures Key(space, TableOf(v)) in s.at && Key(space, Slot(TableOf(v), v % SLOTS)) in s.at
    ensures var k, g := Key(space, TableOf(v)), Pte(s, space, v).frame;
      s.at[k] in s.mem && |s.mem[s.at[k]]| == SLOTS && 0 < s.end <= g < PHYS_FRAMES && g != s.at[k]
      && s.at[Key(space, Slot(TableOf(v), v % SLOTS))] == g
    ensures Shrunk(s, Detach(s, Key(space, TableOf(v)), v % SLOTS), space, v, v + 1)
  {
    Open(s);
    PageOwner(s, space, v);
    var k := Key(space, TableOf(v));
    var t := Detach(s, k, v % SLOTS);
    DetachSound(s, k, v % SLOTS);
    forall x: nat, w: nat
      ensures Pte(t, x, w) == if x == space && v <= w < v + 1 && Present(Pte(s, x, w)) then NIL else Pte(s, x, w)
    {
      DetachPageFlat(s, space, v, x, w);
    }
    PageRemovedFrames(s, space, v);
  }

  lemma PageRemovedFrames(s: State, space: nat, v: nat)
    requires Sound(s) && v < PAGES && Present(Pte(s, space, v))
    requires Key(space, TableOf(v)) in s.at && Key(space, Slot(TableOf(v), v % SLOTS)) in s.at
    requires s.at[Key(space, Slot(TableOf(v), v % SLOTS))] == Pte(s, space, v).frame
    ensures var t, g := Detach(s, Key(space, TableOf(v)), v % SLOTS), Pte(s, space, v).frame;
      && (forall f :: f in Frames(t) <==> f in Frames(s))
      && (forall f :: f in t.free <==> f in s.free || f == g)
      && (forall f | Still(s, f) && f !in t.free :: f in t.mem && t.mem[f] == s.mem[f])
      && (forall k | k in s.at && Depth(k.path) < LEVELS :: k in t.at)
  {
  }

  lemma NothingRemoved(s: State, space: nat, v: nat)
    requires Ok(s) && !Present(Pte(s, space, v))
    ensures Shrunk(s, s, space, v, v + 1)
  {
  }

  /** What a walk finds for page v is its entry. */
  lemma EntryOf(s: State, space: nat, v: nat)
    requires Ok(s) && Key(space, TableOf(v)) in s.at
    ensures s.at[Key(space, TableOf(v))] in s.mem && |s.mem[s.at[Key(space, TableOf(v))]]| == SLOTS
    ensures s.mem[s.at[Key(space, TableOf(v))]][v % SLOTS] == Pte(s, space, v)
  {
    Open(s);
  }

  /** The body of deallocuvm's loop. */
  method FreePage(m: Machine, space: nat, v: nat) returns (ok: bool)
    requires Ok(m.S()) && Key(space, Root) in m.at && v < PAGES
    modifies m
    ensures ok && Shrunk(old(m.S()), m.S(), space, v, v + 1)
  {
    assert v * PAGE / PAGE == v;
    var w := m.Walk(space, v * PAGE, false);
    ok := true;
    if w.At? {
      EntryOf(m.S(), space, v);
      if Present(m.mem[w.f][w.i]) {
        ok := Unmap(m, w.f, w.i, space, v);
        return;
      }
    }
    NothingRemoved(m.S(), space, v);
  }

  method Unmap(m: Machine, f: nat, i: nat, ghost space: nat, ghost v: nat) returns (ok: bool)
    requires Ok(m.S()) && v < PAGES && Present(Pte(m.S(), space, v)) && Key(space, TableOf(v)) in m.at
    requires f == m.at[Key(space, TableOf(v))] && i == v % SLOTS
    requires f in m.mem && i < |m.mem[f]| && m.mem[f][i] == Pte(m.S(), space, v)
    modifies m
    ensures ok && Shrunk(old(m.S()), m.S(), space, v, v + 1)
  {
    ghost var s := m.S();
    PageRemoved(s, space, v);
    var g := m.mem[f][i].frame;
    if g == 0 {
      return false;
    }
    ok := m.Kfree(g);
    if !ok {
      return;
    }
    m.mem := m.mem[f := Put(m.mem[f], i, NIL)];
    m.at, m.owner := m.at - {Key(space, Slot(TableOf(v), v % SLOTS))}, m.owner - {g};
    assert m.S() == Detach(s, Key(space, TableOf(v)), v % SLOTS);
  }

  /** deallocuvm: exactly the pages that begin between the two sizes are removed, and kfree never panics. */
  method DeallocUvm(m: Machine, space: nat, oldsz: nat, newsz: nat) returns (ok: bool, size: nat)
    requires Ok(m.S()) && Key(space, Root) in m.at && oldsz <= USER_END
    modifies m
    ensures ok && size == if newsz >= oldsz then oldsz else newsz
    ensures newsz >= oldsz ==> m.S() == old(m.S())
    ensures newsz < oldsz ==> ShrunkTo(old(m.S()), m.S(), space, newsz, oldsz)
  {
    if newsz >= oldsz {
      return true, oldsz;
    }
    SizesIff(newsz, oldsz);
    FreeRun(m, space, RoundUp(newsz), oldsz);
    ShrunkSizes(old(m.S()), m.S(), space, newsz, oldsz);
    return true, newsz;
  }

  method FreeRun(m: Machine, space: nat, first: nat, oldsz: nat)
    requires Ok(m.S()) && Key(space, Root) in m.at && first <= RoundUp(oldsz) && oldsz <= USER_END
    modifies m
    ensures Shrunk(old(m.S()), m.S(), space, first, RoundUp(oldsz))
  {
    ghost var s := m.S();
    var v := first;
    SizesIff(oldsz, oldsz);
    while v * PAGE < oldsz
      invariant first <= v <= RoundUp(oldsz) && Shrunk(s, m.S(), space, first, v)
      decreases RoundUp(oldsz) - v
    {
      ghost var t := m.S();
      PageBegins(0, oldsz, v);
      assert Depth(Key(space, Root).path) < LEVELS;
      var ok := FreePage(m, space, v);
      ShrunkNext(s, t, m.S(), space, first, v);
      v := v + 1;
    }
    PageBegins(0, oldsz, v);
  }

  /** Shrinking back over pages that were not mapped before undoes growing. */
  lemma ShrinkUndoesGrow(s: State, t: State, u: State, space: nat, oldsz: nat, newsz: nat)
    requires GrownTo(s, t, space, oldsz, newsz) && ShrunkTo(t, u, space, oldsz, newsz)
    requires forall w | oldsz <= w * PAGE < newsz :: Pte(s, space, w) == NIL
    ensures SameFlat(s, u) && (forall f :: f in Frames(u) <==> f in Frames(s))
  {
  }
}
