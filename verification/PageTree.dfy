/** Physical frames, the kalloc free list and the four-level page tables kept in frames, as a
    value: which frame is the table or page at which path of which address space. */
module PageTree {
  import opened Sealing

  const SLOTS: nat := 512            // NPDENTRIES
  const USER_SLOTS: nat := 256       // pml4 slots of user addresses
  const LEVELS: nat := 4

  /** A place in a tree of tables: the pml4 itself, or slot i of the table at `up`. */
  datatype Path = Root | Slot(up: Path, i: nat)

  datatype Key = Key(space: nat, path: Path)

  function Depth(p: Path): nat {
    match p case Root => 0 case Slot(up, _) => Depth(up) + 1
  }

  /** The slots of the table at p that hold user mappings. */
  function Width(p: Path): nat { if p == Root then USER_SLOTS else SLOTS }

  // ------------------------------------------------------------------
  // Entries: a frame number above twelve flag bits; bit 0 is PTE_P

  const PAGE: nat := 4096
  const PHYS_FRAMES: nat := 0xE000   // PHYSTOP / PAGE
  const PTE_W: nat := 2
  const PTE_U: nat := 4
  const TABLE_FLAGS: nat := 7        // PTE_P | PTE_W | PTE_U

  /** A 64-bit word as the number of the frame it points to and its low twelve bits. */
  datatype Word = Word(frame: nat, flags: nat)

  const NIL := Word(0, 0)

  function Present(e: Word): bool { e.flags % 2 == 1 }

  function WithP(flags: nat): (r: nat)
    ensures r % 2 == 1 && r / 2 == flags / 2
  {
    if flags % 2 == 1 then flags else flags + 1
  }

  /** The entry for frame f with flags `perm` and PTE_P. */
  function Entry(f: nat, perm: nat): (e: Word)
    ensures Present(e) && e.frame == f
  {
    Word(f, WithP(perm))
  }

  function Put(w: seq<Word>, i: nat, e: Word): seq<Word>
    requires i < |w|
  {
    w[i := e]
  }

  function Zeros(): (s: seq<Word>)
    ensures |s| == SLOTS && forall i | 0 <= i < SLOTS :: s[i] == NIL
  {
    seq(SLOTS, _ => NIL)
  }

  /** kfree fills a frame with ones. */
  function Junk(): (s: seq<Word>)
    ensures |s| == SLOTS
  {
    seq(SLOTS, _ => Word(0x1010_1010_1010, 0x101))
  }

  // ------------------------------------------------------------------
  // State

  /** `mem` holds the words of every frame, `free` is the kalloc list from its head. `at` says
      which frame each reachable table and page lives in; `owner` is its inverse. `kpdpt` is
      the frame of the kernel's table, shared by all address spaces; `end` is the first frame
      after the kernel. */
  datatype State = State(mem: map<nat, seq<Word>>, free: seq<nat>, at: map<Key, nat>, owner: map<nat, Key>,
                         kpdpt: nat, end: nat)

  ghost predicate Inverse(s: State) {
    && (forall k | k in s.at :: s.at[k] in s.owner && s.owner[s.at[k]] == k)
    && (forall f | f in s.owner :: s.owner[f] in s.at && s.at[s.owner[f]] == f)
  }

  /** f is a frame kfree accepts, and its words are there. */
  ghost predicate Frame(s: State, f: nat) {
    s.end <= f < PHYS_FRAMES && f in s.mem && |s.mem[f]| == SLOTS
  }

  ghost predicate Words(s: State) {
    && 0 < s.end
    && (forall f | f in s.owner :: Frame(s, f))
    && (forall f | f in s.free :: Frame(s, f))
  }

  /** Free frames are listed once and none of them is a table or a page. */
  ghost predicate FreeOk(s: State) {
    && (forall f | f in s.free :: f !in s.owner)
    && (forall i, j | 0 <= i < j < |s.free| :: s.free[i] != s.free[j])
  }

  /** The table or page at k hangs from a user slot of a table of the same space. */
  ghost predicate Hangs(s: State, k: Key) {
    match k.path
    case Root => k in s.at && s.at[k] == k.space
    case Slot(up, i) => Key(k.space, up) in s.at && i < Width(up) && Depth(up) < LEVELS && Key(k.space, Root) in s.at
  }

  ghost predicate Tree(s: State) {
    forall k {:trigger Hangs(s, k)} | k in s.at :: Hangs(s, k)
  }

  /** Slot i of the table at k is present exactly when a frame is recorded there, and names it; an
      entry for a table lets the user read and write, so that the last-level entry decides. */
  ghost predicate SlotOk(s: State, k: Key, i: nat)
    requires k in s.at && s.at[k] in s.mem && i < |s.mem[s.at[k]]|
  {
    var e, child := s.mem[s.at[k]][i], Key(k.space, Slot(k.path, i));
    && (Present(e) <==> child in s.at) && (Present(e) ==> s.at[child] == e.frame)
    && (Present(e) && Depth(k.path) + 1 < LEVELS ==> e.flags == TABLE_FLAGS)
  }

  /** The tables and pages of space `but` need not match their slots. */
  ghost predicate SlotsOk(s: State, but: set<nat>)
    requires Inverse(s) && Words(s)
  {
    forall k, i {:trigger SlotOk(s, k, i)} | k in s.at && k.space !in but && Depth(k.path) < LEVELS
      && 0 <= i < Width(k.path) ::
      SlotOk(s, k, i)
  }

  /** Every pml4 shares the kernel's table, which is no one's to free, in a slot that is not the
      user's; the slots after it are empty. */
  ghost predicate KernelOk(s: State)
    requires Inverse(s) && Words(s)
  {
    && s.kpdpt !in s.owner && s.kpdpt !in s.free
    && (forall k | k in s.at && k.path == Root :: KernelSlots(s, s.mem[s.at[k]]))
  }

  ghost predicate KernelSlots(s: State, w: seq<Word>)
    requires |w| == SLOTS
  {
    w[USER_SLOTS] == Entry(s.kpdpt, PTE_W) && forall i | USER_SLOTS < i < SLOTS :: w[i] == NIL
  }

  ghost predicate OkBut(s: State, but: set<nat>) {
    Inverse(s) && Words(s) && FreeOk(s) && Tree(s) && KernelOk(s) && SlotsOk(s, but)
  }

  /** The invariant, with nothing left out. */
  ghost predicate Sound(s: State) {
    OkBut(s, {})
  }

  /** The frames that are free or in some address space. */
  ghost function Frames(s: State): set<nat> {
    (set f | f in s.free) + s.owner.Keys
  }

  // ------------------------------------------------------------------
  // Adding and removing one frame

  /** Frame g, neither free nor in use, becomes the child at slot i of the table at k. */
  ghost function Attach(s: State, k: Key, i: nat, g: nat, e: Word): State
    requires k in s.at && s.at[k] in s.mem && i < |s.mem[s.at[k]]|
  {
    var f, child := s.at[k], Key(k.space, Slot(k.path, i));
    State(s.mem[f := Put(s.mem[f], i, e)], s.free, s.at[child := g], s.owner[g := child], s.kpdpt, s.end)
  }

  /** A frame in hand: allocated but not yet in any tree. */
  ghost predicate InHand(s: State, g: nat) {
    g !in s.owner && g !in s.free && Frame(s, g) && g != s.kpdpt
  }

  /** Slot i of the table at k can take a new child. */
  ghost predicate Vacant(s: State, k: Key, i: nat) {
    k in s.at && s.at[k] in s.mem && |s.mem[s.at[k]]| == SLOTS && Depth(k.path) < LEVELS && i < Width(k.path)
      && !Present(s.mem[s.at[k]][i])
  }

  lemma AttachShape(s: State, k: Key, i: nat, g: nat, e: Word)
    requires Sound(s) && Vacant(s, k, i) && InHand(s, g)
    ensures Inverse(Attach(s, k, i, g, e)) && Words(Attach(s, k, i, g, e))
    ensures FreeOk(Attach(s, k, i, g, e)) && Tree(Attach(s, k, i, g, e)) && KernelOk(Attach(s, k, i, g, e))
  {
    var t, child := Attach(s, k, i, g, e), Key(k.space, Slot(k.path, i));
    assert SlotOk(s, k, i) && Hangs(s, k);
    assert child !in s.at;
    forall x | x in t.at ensures Hangs(t, x) {
      assert x == child || Hangs(s, x);
    }
  }

  lemma AttachSlots(s: State, k: Key, i: nat, g: nat, e: Word)
    requires Sound(s) && Vacant(s, k, i) && InHand(s, g)
    requires Present(e) && e.frame == g
    requires Depth(k.path) + 1 < LEVELS ==>
      e.flags == TABLE_FLAGS && forall x | 0 <= x < SLOTS :: s.mem[g][x] == NIL
    requires Inverse(Attach(s, k, i, g, e)) && Words(Attach(s, k, i, g, e))
    ensures SlotsOk(Attach(s, k, i, g, e), {})
  {
    var t, child := Attach(s, k, i, g, e), Key(k.space, Slot(k.path, i));
    assert SlotOk(s, k, i);
    assert child !in s.at;
    forall q, x | q in t.at && Depth(q.path) < LEVELS && 0 <= x < Width(q.path) ensures SlotOk(t, q, x) {
      if q == child {
        var below := Key(k.space, Slot(child.path, x));
        assert below in s.at ==> Hangs(s, below);
        assert t.mem[g][x] == NIL;
      } else {
        assert SlotOk(s, q, x);
        assert t.at[q] != g;
      }
    }
  }

  lemma AttachSound(s: State, k: Key, i: nat, g: nat, e: Word)
    requires Sound(s) && Vacant(s, k, i) && InHand(s, g)
    requires Present(e) && e.frame == g
    requires Depth(k.path) + 1 < LEVELS ==>
      e.flags == TABLE_FLAGS && forall x | 0 <= x < SLOTS :: s.mem[g][x] == NIL
    ensures Sound(Attach(s, k, i, g, e))
  {
    AttachShape(s, k, i, g, e);
    AttachSlots(s, k, i, g, e);
  }

  /** The page at slot i of the last-level table at k is unmapped and its frame freed. */
  ghost function Detach(s: State, k: Key, i: nat): State
    requires k in s.at && s.at[k] in s.mem && i < |s.mem[s.at[k]]| && Key(k.space, Slot(k.path, i)) in s.at
  {
    var f, child := s.at[k], Key(k.space, Slot(k.path, i));
    var g := s.at[child];
    State(s.mem[f := Put(s.mem[f], i, NIL)][g := Junk()], [g] + s.free, s.at - {child}, s.owner - {g}, s.kpdpt, s.end)
  }

  lemma DetachShape(s: State, k: Key, i: nat)
    requires Sound(s) && k in s.at && Depth(k.path) == LEVELS - 1 && i < Width(k.path)
      && Key(k.space, Slot(k.path, i)) in s.at
    ensures var t := Detach(s, k, i); Inverse(t) && Words(t) && FreeOk(t) && Tree(t) && KernelOk(t)
  {
    var t := Detach(s, k, i);
    forall x | x in t.at ensures Hangs(t, x) {
      assert Hangs(s, x);
    }
  }

  lemma DetachSound(s: State, k: Key, i: nat)
    requires Sound(s) && k in s.at && Depth(k.path) == LEVELS - 1 && i < Width(k.path) && Present(s.mem[s.at[k]][i])
    ensures Key(k.space, Slot(k.path, i)) in s.at && s.at[Key(k.space, Slot(k.path, i))] == s.mem[s.at[k]][i].frame
    ensures Sound(Detach(s, k, i))
  {
    assert SlotOk(s, k, i);
    var t := Detach(s, k, i);
    DetachShape(s, k, i);
    forall q, x | q in t.at && Depth(q.path) < LEVELS && 0 <= x < Width(q.path) ensures SlotOk(t, q, x) {
      assert SlotOk(s, q, x);
    }
  }

  /** A new address space whose pml4 is frame g. */
  ghost function NewSpace(s: State, g: nat): State {
    State(s.mem[g := Put(Zeros(), USER_SLOTS, Entry(s.kpdpt, PTE_W))], s.free,
          s.at[Key(g, Root) := g], s.owner[g := Key(g, Root)], s.kpdpt, s.end)
  }

  lemma NoSuchSpace(s: State, g: nat, k: Key)
    requires Inverse(s) && Tree(s) && g !in s.owner && k in s.at
    ensures k.space != g
  {
    assert Hangs(s, k) && (Key(g, Root) in s.at ==> Hangs(s, Key(g, Root)));
  }

  lemma NewSpaceIsNew(s: State, g: nat)
    requires Sound(s) && InHand(s, g)
    ensures Key(g, Root) !in s.at
  {
    if Key(g, Root) in s.at { NoSuchSpace(s, g, Key(g, Root)); }
  }

  lemma NewSpaceShape(s: State, g: nat)
    requires Sound(s) && InHand(s, g)
    ensures Inverse(NewSpace(s, g)) && Words(NewSpace(s, g)) && FreeOk(NewSpace(s, g))
  {
    NewSpaceIsNew(s, g);
  }

  lemma NewSpaceTree(s: State, g: nat)
    requires Sound(s) && InHand(s, g) && Inverse(NewSpace(s, g)) && Words(NewSpace(s, g))
    ensures Tree(NewSpace(s, g)) && KernelOk(NewSpace(s, g))
  {
    var t := NewSpace(s, g);
    NewSpaceIsNew(s, g);
    forall x | x in t.at ensures Hangs(t, x) {
      assert x == Key(g, Root) || Hangs(s, x);
    }
  }

  lemma NewSpaceSound(s: State, g: nat)
    requires Sound(s) && InHand(s, g)
    ensures Sound(NewSpace(s, g))
  {
    NewSpaceShape(s, g);
    NewSpaceTree(s, g);
    var t := NewSpace(s, g);
    forall q, x | q in t.at && Depth(q.path) < LEVELS && 0 <= x < Width(q.path) ensures SlotOk(t, q, x) {
      if q == Key(g, Root) {
        var below := Key(g, Slot(Root, x));
        if below in s.at { NoSuchSpace(s, g, below); }
      } else {
        assert SlotOk(s, q, x);
      }
    }
  }

  // ------------------------------------------------------------------
  // The flat page map

  const PAGES: nat := 0x8_0000_0000   // user pages: 256 * 512 * 512 * 512

  /** The last-level table that maps page v. */
  function TableOf(v: nat): (p: Path)
    ensures Depth(p) == LEVELS - 1
  {
    var pdp := Slot(Root, v / 0x800_0000);
    assert Depth(pdp) == Depth(Root) + 1;
    var pd := Slot(pdp, v / 0x4_0000 % SLOTS);
    assert Depth(pd) == Depth(pdp) + 1;
    Slot(pd, v / SLOTS % SLOTS)
  }

  /** The entry that maps page v of a space, NIL if there is no table for it. */
  ghost function Pte(s: State, space: nat, v: nat): Word {
    var k := Key(space, TableOf(v));
    if k in s.at && s.at[k] in s.mem && |s.mem[s.at[k]]| == SLOTS then s.mem[s.at[k]][v % SLOTS] else NIL
  }

  /** No two pages share an entry. */
  lemma TableOfInjective(v: nat, w: nat)
    requires TableOf(v) == TableOf(w) && v % SLOTS == w % SLOTS
    ensures v == w
  {
    assert v / SLOTS / SLOTS == v / 0x4_0000 && w / SLOTS / SLOTS == w / 0x4_0000;
    assert v / 0x4_0000 / SLOTS == v / 0x800_0000 && w / 0x4_0000 / SLOTS == w / 0x800_0000;
    assert v / 0x4_0000 == w / 0x4_0000;
    assert v / SLOTS == w / SLOTS;
  }

  /** Adding a table changes no mapping. */
  lemma AttachTableFlat(s: State, k: Key, i: nat, g: nat, e: Word, space: nat, v: nat)
    requires Sound(s) && Vacant(s, k, i) && InHand(s, g) && Depth(k.path) + 1 < LEVELS
    requires forall x | 0 <= x < SLOTS :: s.mem[g][x] == NIL
    requires Inverse(Attach(s, k, i, g, e)) && Words(Attach(s, k, i, g, e))
    ensures Pte(Attach(s, k, i, g, e), space, v) == Pte(s, space, v)
  {
    var t, child, q := Attach(s, k, i, g, e), Key(k.space, Slot(k.path, i)), Key(space, TableOf(v));
    assert SlotOk(s, k, i);
    assert child !in s.at;
    assert Depth(q.path) == LEVELS - 1 && q != k;
    if q in s.at { assert s.at[q] != s.at[k]; }
  }

  /** Mapping page v sets its entry and no other. */
  lemma AttachPageFlat(s: State, space: nat, v: nat, g: nat, e: Word, space': nat, w: nat)
    requires Sound(s) && Vacant(s, Key(space, TableOf(v)), v % SLOTS) && InHand(s, g)
    requires var t := Attach(s, Key(space, TableOf(v)), v % SLOTS, g, e); Inverse(t) && Words(t)
    ensures Pte(Attach(s, Key(space, TableOf(v)), v % SLOTS, g, e), space', w)
         == if space' == space && w == v then e else Pte(s, space', w)
  {
    var k, q := Key(space, TableOf(v)), Key(space', TableOf(w));
    assert Depth(q.path) == LEVELS - 1 && Depth(k.path) == LEVELS - 1;
    assert q != Key(k.space, Slot(k.path, v % SLOTS));
    if q == k && w % SLOTS == v % SLOTS { TableOfInjective(v, w); }
    if q in s.at && q != k { assert s.at[q] != s.at[k]; }
  }

  lemma DetachPageFlat(s: State, space: nat, v: nat, space': nat, w: nat)
    requires Sound(s) && Key(space, TableOf(v)) in s.at && Key(space, Slot(TableOf(v), v % SLOTS)) in s.at
    requires var t := Detach(s, Key(space, TableOf(v)), v % SLOTS); Inverse(t) && Words(t)
    ensures Pte(Detach(s, Key(space, TableOf(v)), v % SLOTS), space', w)
         == if space' == space && w == v then NIL else Pte(s, space', w)
  {
    var k, q := Key(space, TableOf(v)), Key(space', TableOf(w));
    assert Depth(q.path) == LEVELS - 1 && Depth(k.path) == LEVELS - 1;
    assert q != Key(k.space, Slot(k.path, v % SLOTS));
    if q == k && w % SLOTS == v % SLOTS { TableOfInjective(v, w); }
    if q in s.at && q != k { assert s.at[q] != s.at[k]; }
  }

  lemma NewSpaceFlat(s: State, g: nat, space: nat, v: nat)
    requires Sound(s) && InHand(s, g) && Inverse(NewSpace(s, g)) && Words(NewSpace(s, g))
    ensures Pte(NewSpace(s, g), space, v) == Pte(s, space, v)
  {
  }

  // ------------------------------------------------------------------
  // Freeing subtrees

  /** p lies at or below a. */
  predicate Under(p: Path, a: Path) {
    p == a || (p.Slot? && Under(p.up, a))
  }

  /** p lies below one of the first n slots of a. */
  predicate InBranch(p: Path, a: Path, n: nat) {
    p.Slot? && ((p.up == a && p.i < n) || InBranch(p.up, a, n))
  }

  lemma {:induction false} BranchNext(p: Path, a: Path, n: nat)
    ensures InBranch(p, a, n + 1) <==> InBranch(p, a, n) || Under(p, Slot(a, n))
  {
    if p.Slot? { BranchNext(p.up, a, n); }
  }

  lemma {:induction false} BranchAll(s: State, q: Key, a: Path)
    requires Tree(s) && q in s.at
    ensures Under(q.path, a) <==> q.path == a || InBranch(q.path, a, Width(a))
    decreases q.path
  {
    assert Hangs(s, q);
    if q.path.Slot? { BranchAll(s, Key(q.space, q.path.up), a); }
  }

  /** The tables and pages at or below k; those below its first n slots. */
  ghost function Subtree(s: State, k: Key): set<Key> {
    set q | q in s.at && q.space == k.space && Under(q.path, k.path)
  }

  ghost function Branches(s: State, k: Key, n: nat): set<Key> {
    set q | q in s.at && q.space == k.space && InBranch(q.path, k.path, n)
  }

  /** From s to t exactly the frames of the tables and pages D went to the free list. */
  ghost predicate Released(s: State, t: State, d: set<Key>) {
    && t.at == s.at - d && t.kpdpt == s.kpdpt && t.end == s.end
    && (forall f :: f in t.free <==> f in s.free || (f in s.owner && s.owner[f] in d))
    && (forall f | f in s.mem && !(f in s.owner && s.owner[f] in d) :: f in t.mem && t.mem[f] == s.mem[f])
  }

  lemma ReleasedTrans(s: State, t: State, u: State, d: set<Key>, d': set<Key>)
    requires Inverse(s) && Inverse(t) && Released(s, t, d) && Released(t, u, d') && d' <= t.at.Keys
    ensures Released(s, u, d + d')
  {
  }

  /** kfree of the frame at k, the slot above it left as it is. */
  ghost function Release(s: State, k: Key): State
    requires k in s.at
  {
    var g := s.at[k];
    State(s.mem[g := Junk()], [g] + s.free, s.at - {k}, s.owner - {g}, s.kpdpt, s.end)
  }

  lemma ReleaseSound(s: State, k: Key)
    requires OkBut(s, {k.space}) && k in s.at
    requires forall q | q in s.at && q.space == k.space && q.path.Slot? :: q.path.up != k.path
    requires k.path != Root || forall q | q in s.at && q.space == k.space :: q == k
    ensures OkBut(Release(s, k), {k.space}) && Released(s, Release(s, k), {k})
  {
    var t := Release(s, k);
    forall x | x in t.at ensures Hangs(t, x) { assert Hangs(s, x); }
    forall q, x | q in t.at && q.space != k.space && Depth(q.path) < LEVELS && 0 <= x < Width(q.path)
      ensures SlotOk(t, q, x)
    {
      assert SlotOk(s, q, x);
    }
  }

  // ------------------------------------------------------------------
  // The invariant, folded

  /** The invariant, with its definition out of sight until Open is called. */
  ghost predicate Ok(s: State) {
    forall u: bool {:trigger Seal(u)} :: Seal(u) ==> Sound(s)
  }

  lemma Open(s: State)
    requires Ok(s)
    ensures Sound(s)
  {
    assert Seal(true);
  }
}
