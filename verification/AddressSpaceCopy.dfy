/** copyuvm of vm.c: the address space of a forked child. */
module AddressSpaceCopy {
  import opened PageTree
  import opened PageTable
  import opened AddressSpace

  /** Page w of space d is a private copy of page w of `space`: same flags, same words. */
  ghost predicate CopyOf(s: State, t: State, e: Word, e': Word) {
    && Present(e') && e'.flags == e.flags
    && e.frame in s.mem && e'.frame in t.mem && t.mem[e'.frame] == s.mem[e.frame]
  }

  /** Since s, pages 1 to v of `space` were copied into space d and nothing else changed. */
  ghost predicate Copied(s: State, t: State, space: nat, d: nat, v: nat) {
    && Ok(s) && Ok(t) && Grew(s, t) && 1 <= v <= PAGES
    && (forall f :: f in Frames(t) <==> f in Frames(s))
    && (forall x: nat, w: nat {:trigger Pte(t, x, w)} ::
          if x == d && 1 <= w < v then CopyOf(s, t, Pte(s, space, w), Pte(t, x, w)) else Pte(t, x, w) == Pte(s, x, w))
  }

  /** One page copied: the step from t to u. */
  ghost predicate CopiedOne(t: State, u: State, space: nat, d: nat, v: nat) {
    && Ok(t) && Ok(u) && Grew(t, u)
    && (forall f :: f in Frames(u) <==> f in Frames(t))
    && (forall x: nat, w: nat {:trigger Pte(u, x, w)} ::
          if x == d && w == v then CopyOf(t, u, Pte(t, space, v), Pte(u, x, w)) else Pte(u, x, w) == Pte(t, x, w))
  }

  lemma CopiedNext(s: State, t: State, u: State, space: nat, d: nat, v: nat)
    requires Copied(s, t, space, d, v) && CopiedOne(t, u, space, d, v) && v < PAGES && d != space
    requires Present(Pte(t, space, v))
    ensures Copied(s, u, space, d, v + 1)
  {
    GrewTrans(s, t, u);
    assert Pte(t, space, v) == Pte(s, space, v);
    PageOwner(s, space, v);
    forall x: nat, w: nat
      ensures if x == d && 1 <= w < v + 1 then CopyOf(s, u, Pte(s, space, w), Pte(u, x, w))
        else Pte(u, x, w) == Pte(s, x, w)
    {
      assert if x == d && 1 <= w < v then CopyOf(s, t, Pte(s, space, w), Pte(t, x, w))
        else Pte(t, x, w) == Pte(s, x, w);
      assert if x == d && w == v then CopyOf(t, u, Pte(t, space, v), Pte(u, x, w)) else Pte(u, x, w) == Pte(t, x, w);
      if x == d && 1 <= w < v { PageOwner(t, x, w); }
    }
  }

  /** kalloc and memmove: a copy of frame f in hand. */
  method CopyFrame(m: Machine, f: nat) returns (ok: bool, g: nat)
    requires Ok(m.S()) && Still(m.S(), f) && |m.mem[f]| == SLOTS
    modifies m
    ensures Ok(m.S()) && SameFlat(old(m.S()), m.S()) && Grew(old(m.S()), m.S())
    ensures !ok ==> m.free == []
    ensures ok ==> InHand(m.S(), g) && m.mem[g] == old(m.mem)[f]
    ensures ok ==> forall x :: x in Frames(old(m.S())) <==> x in Frames(m.S()) || x == g
  {
    ghost var s := m.S();
    ok, g := m.Kalloc();
    if ok {
      ghost var t := m.S();
      assert s.free == [g] + t.free;
      FilledOk(t, g, m.mem[f]);
      m.mem := m.mem[g := m.mem[f]];
      assert m.S() == Filled(t, g, t.mem[f]);
    }
  }

  datatype CopyOutcome = Copy | NoFrame | NotPresent

  lemma PageCopied(s: State, t: State, u: State, space: nat, d: nat, v: nat, g: nat)
    requires Ok(s) && Ok(t) && Grew(s, t) && SameFlat(s, t) && v < PAGES && Present(Pte(s, space, v))
    requires InHand(t, g) && (forall f :: f in Frames(s) <==> f in Frames(t) || f == g)
    requires Pte(s, space, v).frame in s.mem && t.mem[g] == s.mem[Pte(s, space, v).frame]
    requires MappedSome(t, u, d, v, v + 1, g, Pte(s, space, v).flags, g + 1)
    ensures CopiedOne(s, u, space, d, v)
  {
    GrewTrans(s, t, u);
    assert Still(t, g);
    var e := Pte(s, space, v);
    assert CopyOf(s, u, e, Entry(g, e.flags));
    forall x: nat, w: nat ensures Pte(u, x, w) == if x == d && w == v then Entry(g, e.flags) else Pte(s, x, w) {
      assert Pte(t, x, w) == Pte(s, x, w);
      assert Pte(u, x, w) == if x == d && v <= w < v + 1 then Entry(g + w - v, e.flags) else Pte(t, x, w);
    }
  }

  /** The body of copyuvm's loop. */
  method CopyPage(m: Machine, space: nat, d: nat, v: nat) returns (r: CopyOutcome)
    requires Ok(m.S()) && Key(space, Root) in m.at && Key(d, Root) in m.at && v < PAGES && !Present(Pte(m.S(), d, v))
    modifies m
    ensures r == Copy ==> Present(Pte(old(m.S()), space, v)) && CopiedOne(old(m.S()), m.S(), space, d, v)
    ensures r == NotPresent <==> !Present(Pte(old(m.S()), space, v))
    ensures r == NoFrame ==> m.free == []
  {
    ghost var s := m.S();
    assert v * PAGE / PAGE == v && (v * PAGE + PAGE - 1) / PAGE == v;
    var w := m.Walk(space, v * PAGE, false);
    if !w.At? {
      return NotPresent;
    }
    EntryOf(m.S(), space, v);
    var e := m.mem[w.f][w.i];
    if !Present(e) {
      return NotPresent;
    }
    PageOwner(s, space, v);
    Open(s);
    r := CopyEntry(m, e, space, d, v);
  }

  method CopyEntry(m: Machine, e: Word, ghost space: nat, d: nat, v: nat) returns (r: CopyOutcome)
    requires Ok(m.S()) && Key(d, Root) in m.at && v < PAGES && !Present(Pte(m.S(), d, v))
    requires e == Pte(m.S(), space, v) && Present(e) && Still(m.S(), e.frame) && |m.mem[e.frame]| == SLOTS
    modifies m
    ensures r == Copy ==> CopiedOne(old(m.S()), m.S(), space, d, v)
    ensures r != NotPresent && (r == NoFrame ==> m.free == [])
  {
    ghost var s := m.S();
    assert v * PAGE / PAGE == v && (v * PAGE + PAGE - 1) / PAGE == v;
    var ok, g := CopyFrame(m, e.frame);
    if !ok {
      return NoFrame;
    }
    ghost var t := m.S();
    assert Pte(t, d, v) == Pte(s, d, v);
    var o := m.MapPages(d, v * PAGE, PAGE, g, e.flags);
    if o != Done {
      return NoFrame;
    }
    PageCopied(s, t, m.S(), space, d, v, g);
    r := Copy;
  }

  /** copyuvm. The child gets its own copy of every page from the second one to the size of
      the parent, with the same words and flags, and nothing of the parent changes; it panics
      exactly when it runs out of frames or meets a page of the parent that is not present. */
  method CopyUvm(m: Machine, space: nat, sz: nat) returns (r: CopyOutcome, d: nat)
    requires Ok(m.S()) && Key(space, Root) in m.at && sz < 0x1_0000_0000
    modifies m
    ensures r == Copy ==>
      d != space && exists s :: SpaceAdded(old(m.S()), s, d) && CopiedTo(s, m.S(), space, d, sz)
    ensures r == Copy ==> forall w | 0 < w * PAGE < sz :: Present(Pte(old(m.S()), space, w))
    ensures r == NotPresent ==> exists w :: 0 < w * PAGE < sz && !Present(Pte(old(m.S()), space, w))
    ensures r == NoFrame ==> m.free == []
  {
    ghost var s0 := m.S();
    var ok;
    ok, d := SetupKvm(m);
    if !ok {
      return NoFrame, d;
    }
    ghost var s := m.S();
    NoMappings(s0, s, d);
    r := CopyRun(m, space, d, sz, s0);
  }

  /** Since s, the pages of `space` that begin before sz, but for the first, were copied into space d
      and nothing else changed. */
  ghost predicate CopiedTo(s: State, t: State, space: nat, d: nat, sz: nat) {
    && Ok(s) && Ok(t) && Grew(s, t)
    && (forall f :: f in Frames(t) <==> f in Frames(s))
    && (forall x: nat, w: nat {:trigger Pte(t, x, w)} ::
          if x == d && 0 < w * PAGE < sz then CopyOf(s, t, Pte(s, space, w), Pte(t, x, w))
            else Pte(t, x, w) == Pte(s, x, w))
  }

  lemma CopiedSize(s: State, t: State, space: nat, d: nat, v: nat, sz: nat)
    requires Copied(s, t, space, d, v) && sz <= v * PAGE && (v == 1 || (v - 1) * PAGE < sz)
    ensures CopiedTo(s, t, space, d, sz)
  {
    forall x: nat, w: nat ensures if x == d && 0 < w * PAGE < sz
      then CopyOf(s, t, Pte(s, space, w), Pte(t, x, w)) else Pte(t, x, w) == Pte(s, x, w)
    {
      assert 1 <= w < v <==> 0 < w * PAGE < sz;
    }
  }

  lemma NoMappings(s: State, t: State, d: nat)
    requires SpaceAdded(s, t, d)
    ensures forall w: nat :: !Present(Pte(t, d, w))
  {
  }

  lemma NotYetCopied(s0: State, s: State, t: State, space: nat, d: nat, v: nat)
    requires Copied(s, t, space, d, v) && SameFlat(s0, s) && space != d
    ensures Pte(t, space, v) == Pte(s, space, v) == Pte(s0, space, v) && Pte(t, d, v) == Pte(s, d, v)
  {
  }

  /** The pages from 1 to v are copied, and were all there. */
  ghost predicate CopiedSoFar(s0: State, s: State, t: State, space: nat, d: nat, v: nat) {
    Copied(s, t, space, d, v) && forall w | 1 <= w < v :: Present(Pte(s0, space, w))
  }

  method CopyNext(m: Machine, space: nat, d: nat, v: nat, ghost s0: State, ghost s: State) returns (r: CopyOutcome)
    requires CopiedSoFar(s0, s, m.S(), space, d, v) && 1 <= v < PAGES && d != space && SameFlat(s0, s)
    requires Key(space, Root) in s.at && Key(d, Root) in s.at && !Present(Pte(s, d, v))
    modifies m
    ensures r == Copy ==> CopiedSoFar(s0, s, m.S(), space, d, v + 1)
    ensures r == NotPresent ==> !Present(Pte(s0, space, v))
    ensures r == NoFrame ==> m.free == []
  {
    ghost var t := m.S();
    NotYetCopied(s0, s, t, space, d, v);
    r := CopyPage(m, space, d, v);
    if r == Copy {
      CopiedNext(s, t, m.S(), space, d, v);
    }
  }

  method CopyRun(m: Machine, space: nat, d: nat, sz: nat, ghost s0: State) returns (r: CopyOutcome)
    requires Ok(m.S()) && Key(space, Root) in m.at && Key(d, Root) in m.at && sz <= USER_END && d != space
    requires (forall w: nat :: !Present(Pte(m.S(), d, w))) && SameFlat(s0, m.S())
    modifies m
    ensures r == Copy ==> CopiedTo(old(m.S()), m.S(), space, d, sz)
    ensures r == Copy ==> forall w | 0 < w * PAGE < sz :: Present(Pte(s0, space, w))
    ensures r == NotPresent ==> exists w :: 0 < w * PAGE < sz && !Present(Pte(s0, space, w))
    ensures r == NoFrame ==> m.free == []
  {
    ghost var s := m.S();
    var v := 1;
    while v * PAGE < sz
      invariant 1 <= v && (v == 1 || (v - 1) * PAGE < sz) && CopiedSoFar(s0, s, m.S(), space, d, v)
      decreases sz - v * PAGE
    {
      r := CopyNext(m, space, d, v, s0, s);
      if r != Copy {
        return;
      }
      v := v + 1;
    }
    CopiedSize(s, m.S(), space, d, v, sz);
    r := Copy;
  }

  /** No frame of the child is a frame of the parent. */
  lemma CopiesDisjoint(t: State, space: nat, d: nat, v: nat, w: nat)
    requires Ok(t) && d != space && v < PAGES && w < PAGES && Present(Pte(t, space, v)) && Present(Pte(t, d, w))
    ensures Pte(t, space, v).frame != Pte(t, d, w).frame
  {
    PageOwner(t, space, v);
    PageOwner(t, d, w);
    Open(t);
  }
}
