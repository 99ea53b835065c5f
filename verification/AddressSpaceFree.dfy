/** freevm of vm.c: every page and table of an address space goes back to the free list. */
module AddressSpaceFree {
  import opened PageTree
  import opened PageTable

  // ------------------------------------------------------------------
  // Paths

  lemma {:induction false} UnderDeeper(p: Path, a: Path)
    requires Under(p, a)
    ensures Depth(p) >= Depth(a)
  {
    if p != a { UnderDeeper(p.up, a); }
  }

  lemma {:induction false} BranchDeeper(p: Path, a: Path, n: nat)
    requires InBranch(p, a, n)
    ensures Depth(p) > Depth(a)
  {
    if !(p.up == a && p.i < n) { BranchDeeper(p.up, a, n); }
  }

  /** What lies below slot i is below none of the slots before it, and below their table. */
  lemma {:induction false} BranchesApart(p: Path, a: Path, i: nat)
    requires Under(p, Slot(a, i))
    ensures !InBranch(p, a, i) && Under(p, a)
  {
    UnderDeeper(p, Slot(a, i));
    if p == Slot(a, i) {
      if InBranch(a, a, i) { BranchDeeper(a, a, i); }
    } else {
      BranchesApart(p.up, a, i);
      UnderDeeper(p.up, Slot(a, i));
    }
  }

  lemma {:induction false} UnderRoot(p: Path)
    ensures Under(p, Root)
  {
    if p.Slot? { UnderRoot(p.up); }
  }

  /** Nothing lies below a slot that holds nothing. */
  lemma {:induction false} NothingBelow(s: State, q: Key, a: Path)
    requires Tree(s) && q in s.at && Under(q.path, a)
    ensures Key(q.space, a) in s.at
    decreases q.path
  {
    assert Hangs(s, q);
    if q.path != a { NothingBelow(s, Key(q.space, q.path.up), a); }
  }

  // ------------------------------------------------------------------
  // One level

  /** The tables at or below k match their slots. */
  ghost predicate Intact(s: State, k: Key)
    requires Inverse(s) && Words(s)
  {
    forall q, x {:trigger SlotOk(s, q, x)} |
      q in s.at && q.space == k.space && Under(q.path, k.path) && Depth(q.path) < LEVELS && 0 <= x < Width(q.path) ::
      SlotOk(s, q, x)
  }

  /** The first i subtrees of the table at k are gone, the rest of the space is as it was. */
  ghost predicate Partly(s: State, t: State, k: Key, i: nat) {
    OkBut(s, {k.space}) && OkBut(t, {k.space}) && Released(s, t, Branches(s, k, i))
  }

  lemma EmptySlot(s: State, k: Key, i: nat)
    requires Tree(s) && Key(k.space, Slot(k.path, i)) !in s.at
    ensures Branches(s, k, i + 1) == Branches(s, k, i)
  {
    forall q | q in s.at && q.space == k.space
      ensures InBranch(q.path, k.path, i + 1) <==> InBranch(q.path, k.path, i)
    {
      BranchNext(q.path, k.path, i);
      if Under(q.path, Slot(k.path, i)) { NothingBelow(s, q, Slot(k.path, i)); }
    }
  }

  lemma FullSlot(s: State, t: State, u: State, k: Key, i: nat)
    requires Partly(s, t, k, i) && OkBut(u, {k.space}) && Released(t, u, Subtree(t, Key(k.space, Slot(k.path, i))))
    ensures Partly(s, u, k, i + 1)
  {
    var child := Key(k.space, Slot(k.path, i));
    ReleasedTrans(s, t, u, Branches(s, k, i), Subtree(t, child));
    forall q | q in s.at && q.space == k.space
      ensures InBranch(q.path, k.path, i + 1) <==> q in Branches(s, k, i) || q in Subtree(t, child)
    {
      BranchNext(q.path, k.path, i);
      if Under(q.path, child.path) { BranchesApart(q.path, k.path, i); }
    }
    assert Branches(s, k, i + 1) == Branches(s, k, i) + Subtree(t, child);
  }

  /** Slot i of the table at k still tells of its subtree once the earlier ones are gone. */
  lemma RestIntact(s: State, t: State, k: Key, i: nat)
    requires Partly(s, t, k, i) && Intact(s, k) && k in s.at && Depth(k.path) < LEVELS && i < Width(k.path)
    ensures k in t.at && t.at[k] == s.at[k] && t.mem[t.at[k]] == s.mem[s.at[k]] && SlotOk(t, k, i)
    ensures Intact(t, Key(k.space, Slot(k.path, i)))
  {
    if InBranch(k.path, k.path, i) { BranchDeeper(k.path, k.path, i); }
    assert Under(k.path, k.path) && SlotOk(s, k, i);
    var child := Key(k.space, Slot(k.path, i));
    BranchesApart(child.path, k.path, i);
    forall q, x | q in t.at && q.space == k.space && Under(q.path, child.path) && Depth(q.path) < LEVELS
      && 0 <= x < Width(q.path)
      ensures SlotOk(t, q, x)
    {
      SlotStays(s, t, k, i, q, x);
    }
  }

  lemma SlotStays(s: State, t: State, k: Key, i: nat, q: Key, x: nat)
    requires Partly(s, t, k, i) && Intact(s, k) && q in t.at && q.space == k.space && Under(q.path, Slot(k.path, i))
    requires Depth(q.path) < LEVELS && x < Width(q.path)
    ensures SlotOk(t, q, x)
  {
    BranchesApart(q.path, k.path, i);
    var below := Key(q.space, Slot(q.path, x));
    assert Under(below.path, Slot(k.path, i));
    BranchesApart(below.path, k.path, i);
    assert SlotOk(s, q, x);
    assert t.mem[t.at[q]] == s.mem[s.at[q]];
  }

  /** A page has nothing below it. */
  lemma PageSubtree(t: State, child: Key)
    requires Tree(t) && child in t.at && Depth(child.path) == LEVELS
    ensures Subtree(t, child) == {child}
    ensures forall q | q in t.at && q.space == child.space && q.path.Slot? :: q.path.up != child.path
  {
    forall q | q in t.at && q.path.Slot? ensures q.path.up != child.path { assert Hangs(t, q); }
    forall q | q in t.at && q.space == child.space && Under(q.path, child.path) ensures q == child {
      assert Hangs(t, q);
      if q.path != child.path { UnderDeeper(q.path.up, child.path); }
    }
  }

  lemma NoneUnder(s: State, t: State, k: Key)
    requires Partly(s, t, k, Width(k.path)) && k in s.at
    ensures k in t.at && t.at[k] == s.at[k]
    ensures forall q | q in t.at && q.space == k.space && q.path.Slot? :: q.path.up != k.path
    ensures k.path == Root ==> forall q | q in t.at && q.space == k.space :: q == k
  {
    if InBranch(k.path, k.path, Width(k.path)) { BranchDeeper(k.path, k.path, Width(k.path)); }
    forall q | q in t.at && q.space == k.space ensures q == k || !Under(q.path, k.path) {
      BranchAll(s, q, k.path);
    }
    forall q | q in t.at && q.space == k.space && q.path.Slot? ensures q.path.up != k.path {
      if q.path.up == k.path { assert Under(q.path, k.path); }
    }
    if k.path == Root {
      forall q | q in t.at && q.space == k.space ensures q == k { UnderRoot(q.path); }
    }
  }

  lemma AllBranches(s: State, k: Key)
    requires Tree(s) && k in s.at
    ensures Subtree(s, k) == Branches(s, k, Width(k.path)) + {k}
  {
    forall q | q in s.at && q.space == k.space
      ensures q in Subtree(s, k) <==> q in Branches(s, k, Width(k.path)) + {k}
    {
      BranchAll(s, q, k.path);
    }
  }

  /** With its subtrees gone the table itself can go. */
  lemma LastRelease(s: State, t: State, k: Key)
    requires Partly(s, t, k, Width(k.path)) && k in s.at
    ensures k in t.at && t.at[k] == s.at[k]
    ensures OkBut(Release(t, k), {k.space}) && Released(s, Release(t, k), Subtree(s, k))
  {
    NoneUnder(s, t, k);
    ReleaseSound(t, k);
    ReleasedTrans(s, t, Release(t, k), Branches(s, k, Width(k.path)), {k});
    AllBranches(s, k);
  }

  /** kfree of the frame recorded at k. */
  method FreeFrame(m: Machine, g: nat, ghost k: Key) returns (ok: bool)
    requires OkBut(m.S(), {k.space}) && k in m.at && m.at[k] == g
    modifies m
    ensures ok && m.S() == Release(old(m.S()), k)
  {
    ok := m.Kfree(g);
    m.at, m.owner := m.at - {k}, m.owner - {g};
  }

  /** One of the four nested loops of freevm, `level` levels above the last: everything below
      the table in frame f is freed, then the table. */
  method FreeLevel(m: Machine, f: nat, level: nat, width: nat, ghost k: Key)
    requires OkBut(m.S(), {k.space}) && k in m.at && m.at[k] == f && Intact(m.S(), k)
    requires Depth(k.path) + level + 1 == LEVELS && width == Width(k.path)
    modifies m
    ensures OkBut(m.S(), {k.space}) && Released(old(m.S()), m.S(), Subtree(old(m.S()), k))
    decreases level, 1
  {
    ghost var s := m.S();
    assert Branches(s, k, 0) == {} by {
      forall q | q in s.at && q.space == k.space ensures !InBranch(q.path, k.path, 0) { NoBranch(q.path, k.path); }
    }
    assert s.at - {} == s.at;
    var i := 0;
    while i < width
      invariant 0 <= i <= width && Partly(s, m.S(), k, i)
    {
      RestIntact(s, m.S(), k, i);
      FreeSlot(m, f, i, level, k, s);
      i := i + 1;
    }
    LastRelease(s, m.S(), k);
    var ok := FreeFrame(m, f, k);
  }

  lemma {:induction false} NoBranch(p: Path, a: Path)
    ensures !InBranch(p, a, 0)
  {
    if p.Slot? { NoBranch(p.up, a); }
  }

  method FreeSlot(m: Machine, f: nat, i: nat, level: nat, ghost k: Key, ghost s: State)
    requires Partly(s, m.S(), k, i) && k in m.at && m.at[k] == f && i < Width(k.path)
    requires Depth(k.path) + level + 1 == LEVELS && SlotOk(m.S(), k, i)
    requires Intact(m.S(), Key(k.space, Slot(k.path, i)))
    modifies m
    ensures Partly(s, m.S(), k, i + 1)
    decreases level, 0
  {
    ghost var t, child := m.S(), Key(k.space, Slot(k.path, i));
    if Present(m.mem[f][i]) {
      var g := m.mem[f][i].frame;
      if level > 0 {
        FreeLevel(m, g, level - 1, SLOTS, child);
      } else {
        PageSubtree(t, child);
        ReleaseSound(t, child);
        var ok := FreeFrame(m, g, child);
      }
      FullSlot(s, t, m.S(), k, i);
    } else {
      NoneThere(s, t, k, i);
      EmptySlot(s, k, i);
    }
  }

  lemma NoneThere(s: State, t: State, k: Key, i: nat)
    requires Partly(s, t, k, i) && Key(k.space, Slot(k.path, i)) !in t.at
    ensures Key(k.space, Slot(k.path, i)) !in s.at
  {
    BranchesApart(Slot(k.path, i), k.path, i);
  }

  /** freevm. Exactly the frames of the space join the free list, each of them once (the list
      has no repetition); the frame of the kernel's table and every other space stay. */
  method FreeVm(m: Machine, space: nat)
    requires Ok(m.S()) && Key(space, Root) in m.at
    modifies m
    ensures Ok(m.S())
    ensures forall f :: f in m.free <==> f in old(m.free) || (f in old(m.owner) && old(m.owner)[f].space == space)
    ensures forall k :: k in m.at <==> k in old(m.at) && k.space != space
    ensures forall f | f in old(m.mem) && (f !in old(m.owner) || old(m.owner)[f].space != space) ::
      f in m.mem && m.mem[f] == old(m.mem)[f]
    ensures forall x: nat, v: nat | x != space :: Pte(m.S(), x, v) == Pte(old(m.S()), x, v)
  {
    ghost var s, k := m.S(), Key(space, Root);
    Open(s);
    assert Hangs(s, k);
    FreeLevel(m, space, LEVELS - 1, USER_SLOTS, k);
    AllGone(s, m.S(), space);
  }

  lemma AllGone(s: State, t: State, space: nat)
    requires Sound(s) && OkBut(t, {space}) && Released(s, t, Subtree(s, Key(space, Root)))
    ensures Ok(t)
    ensures forall f | f in s.owner :: s.owner[f] in Subtree(s, Key(space, Root)) <==> s.owner[f].space == space
    ensures forall k :: k in t.at <==> k in s.at && k.space != space
    ensures forall x: nat, v: nat | x != space :: Pte(t, x, v) == Pte(s, x, v)
  {
    forall q | q in s.at && q.space == space ensures q in Subtree(s, Key(space, Root)) { UnderRoot(q.path); }
    assert SlotsOk(t, {});
  }
}
