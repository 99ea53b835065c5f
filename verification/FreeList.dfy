/** The free list of umalloc.c as a value: a circular list of the free blocks in address
    order, closed through `base`, the blocks handed out, and what free and malloc do to
    them. Addresses are in bytes; a header takes UNIT bytes and sizes count such units. */
module FreeList {

  const UNIT: nat := 16   // sizeof(Header)

  /** `ptr` and `size` are the header fields by header address. `free` holds the headers of
      the free blocks, base among them; `used` maps the header of each block in use to its
      units; `top` is the end of the memory obtained from sbrk and `total` its units. */
  datatype Heap = Heap(
    ptr: map<nat, nat>, size: map<nat, nat>, freep: nat,
    base: nat, free: set<nat>, used: map<nat, nat>, top: nat, total: nat)

  function Bytes(units: nat): nat { UNIT * units }

  /** Within s, b is the next address above a. */
  ghost predicate NextUp(s: set<nat>, a: nat, b: nat) {
    a < b && b in s && forall c | c in s :: c <= a || b <= c
  }

  ghost predicate Last(s: set<nat>, a: nat) {
    forall c | c in s :: c <= a
  }

  /** Block a links to the next free block, the last one back to base. */
  ghost predicate Linked(h: Heap, a: nat)
    requires a in h.ptr
  {
    NextUp(h.free, a, h.ptr[a]) || (Last(h.free, a) && h.ptr[a] == h.base)
  }

  /** One cycle through all free blocks, in address order from base. */
  ghost predicate Cycle(h: Heap) {
    && h.base in h.free && h.freep in h.free
    && (forall a | a in h.free :: h.base <= a && a in h.ptr && a in h.size)
    && (forall a {:trigger Linked(h, a)} | a in h.free :: Linked(h, a))
  }

  ghost predicate Disjoint(a: nat, n: nat, b: nat, m: nat) {
    a + Bytes(n) <= b || b + Bytes(m) <= a
  }

  ghost predicate Inside(h: Heap, a: nat, n: nat) {
    n > 0 && h.base + UNIT <= a && a + Bytes(n) <= h.top
  }

  /** Free blocks lie in the memory obtained and do not overlap; base has no units. */
  ghost predicate FreeApart(h: Heap)
    requires Cycle(h)
  {
    && h.size[h.base] == 0 && h.base + UNIT <= h.top
    && (forall a | a in h.free && a != h.base :: Inside(h, a, h.size[a]))
    && (forall a, b {:trigger Disjoint(a, h.size[a], b, h.size[b])} | a in h.free && b in h.free && a != b ::
          Disjoint(a, h.size[a], b, h.size[b]))
  }

  /** Blocks in use keep their header and overlap neither each other nor a free block. */
  ghost predicate UsedApart(h: Heap)
    requires Cycle(h)
  {
    && (forall a | a in h.used :: a in h.size && h.size[a] == h.used[a] && Inside(h, a, h.used[a]))
    && (forall a, b {:trigger Disjoint(a, h.used[a], b, h.used[b])} | a in h.used && b in h.used && a != b ::
          Disjoint(a, h.used[a], b, h.used[b]))
    && (forall a, b {:trigger Disjoint(a, h.used[a], b, h.size[b])} | a in h.used && b in h.free ::
          Disjoint(a, h.used[a], b, h.size[b]))
  }

  // ------------------------------------------------------------------
  // Units

  /** The units of the blocks of s. */
  ghost function Units(size: map<nat, nat>, s: set<nat>): nat
    requires s <= size.Keys
  {
    if s == {} then 0 else var a :| a in s; size[a] + Units(size, s - {a})
  }

  /** Free units plus units in use are the units obtained from sbrk. */
  ghost predicate Conserved(h: Heap)
    requires Cycle(h)
  {
    assert h.free <= h.size.Keys;
    Units(h.size, h.free) + Units(h.used, h.used.Keys) == h.total
  }

  /** Everything but the absence of adjacent free blocks. */
  ghost predicate Loose(h: Heap) {
    Cycle(h) && FreeApart(h) && UsedApart(h) && Conserved(h)
  }

  /** Free block a ends where free block b begins. */
  ghost predicate Touch(h: Heap, a: nat, b: nat)
    requires a in h.size
  {
    a + Bytes(h.size[a]) == b
  }

  /** No two free blocks are adjacent: they would have been coalesced. */
  ghost predicate Coalesced(h: Heap)
    requires Cycle(h)
  {
    forall a, b | a in h.free && b in h.free && a != b :: !Touch(h, a, b)
  }

  /** The invariant between calls. */
  ghost predicate Ok(h: Heap) {
    Loose(h) && Coalesced(h)
  }

  lemma {:induction false} UnitsSplit(size: map<nat, nat>, s: set<nat>, x: nat)
    requires s <= size.Keys && x in s
    ensures Units(size, s) == size[x] + Units(size, s - {x})
  {
    var a :| a in s && Units(size, s) == size[a] + Units(size, s - {a});
    if a != x {
      UnitsSplit(size, s - {a}, x);
      UnitsSplit(size, s - {x}, a);
      assert (s - {a}) - {x} == (s - {x}) - {a};
    }
  }

  lemma {:induction false} UnitsSame(size: map<nat, nat>, size': map<nat, nat>, s: set<nat>)
    requires s <= size.Keys && s <= size'.Keys
    requires forall x | x in s :: size[x] == size'[x]
    ensures Units(size, s) == Units(size', s)
  {
    if s != {} {
      var a :| a in s;
      UnitsSplit(size, s, a);
      UnitsSplit(size', s, a);
      UnitsSame(size, size', s - {a});
    }
  }

  lemma UsedLess(used: map<nat, nat>, x: nat)
    requires x in used
    ensures Units(used, used.Keys) == used[x] + Units(used - {x}, (used - {x}).Keys)
  {
    UnitsSplit(used, used.Keys, x);
    assert (used - {x}).Keys == used.Keys - {x};
    UnitsSame(used, used - {x}, used.Keys - {x});
  }

  lemma UsedMore(used: map<nat, nat>, x: nat, n: nat)
    requires x !in used
    ensures Units(used[x := n], used[x := n].Keys) == n + Units(used, used.Keys)
  {
    UsedLess(used[x := n], x);
    assert used[x := n] - {x} == used;
  }

  // ------------------------------------------------------------------
  // free: put a block into the list, then coalesce

  /** Block bp belongs right after free block t. */
  ghost predicate Place(h: Heap, t: nat, bp: nat) {
    t in h.free && t < bp && forall c | c in h.free :: c <= t || bp < c
  }

  /** Block bp linked in after free block t, nothing coalesced yet. */
  ghost function Insert(h: Heap, t: nat, bp: nat): Heap
    requires t in h.ptr
  {
    Heap(h.ptr[bp := h.ptr[t]][t := bp], h.size, h.freep, h.base, h.free + {bp}, h.used - {bp}, h.top, h.total)
  }

  /** Free block a absorbs its successor b. */
  ghost function Merge(h: Heap, a: nat, b: nat): Heap
    requires b in h.ptr && a in h.size && b in h.size
  {
    Heap(h.ptr[a := h.ptr[b]], h.size[a := h.size[a] + h.size[b]], if h.freep == b then a else h.freep, h.base,
         h.free - {b}, h.used, h.top, h.total)
  }

  lemma InsertCycle(h: Heap, t: nat, bp: nat)
    requires Cycle(h) && Place(h, t, bp) && bp in h.size
    ensures Cycle(Insert(h, t, bp)) && Insert(h, t, bp).ptr[t] == bp && bp !in h.free
  {
    var g := Insert(h, t, bp);
    forall a | a in g.free ensures Linked(g, a) {
      if a != bp && a != t { assert Linked(h, a) && g.ptr[a] == h.ptr[a]; } else { assert Linked(h, t); }
    }
  }

  lemma InsertUnits(h: Heap, t: nat, bp: nat)
    requires Cycle(h) && bp in h.used && bp in h.size && h.used[bp] == h.size[bp] && bp !in h.free && t in h.free
    requires Conserved(h) && Cycle(Insert(h, t, bp))
    ensures Conserved(Insert(h, t, bp))
  {
    UnitsSplit(h.size, h.free + {bp}, bp);
    assert h.free + {bp} - {bp} == h.free;
    UsedLess(h.used, bp);
  }

  lemma InsertApart(h: Heap, t: nat, bp: nat)
    requires Cycle(h) && FreeApart(h) && UsedApart(h) && t in h.free && bp in h.used && Cycle(Insert(h, t, bp))
    ensures FreeApart(Insert(h, t, bp)) && UsedApart(Insert(h, t, bp))
  {
    var g := Insert(h, t, bp);
    forall a, b | a in g.free && b in g.free && a != b ensures Disjoint(a, g.size[a], b, g.size[b]) {
      if a == bp { assert Disjoint(bp, h.used[bp], b, h.size[b]); }
      else if b == bp { assert Disjoint(bp, h.used[bp], a, h.size[a]); }
    }
    forall a, b | a in g.used && b in g.free ensures Disjoint(a, g.used[a], b, g.size[b]) {
      if b == bp { assert Disjoint(a, h.used[a], bp, h.used[bp]); }
    }
  }

  lemma InsertLoose(h: Heap, t: nat, bp: nat)
    requires Loose(h) && Place(h, t, bp) && bp in h.used
    ensures Loose(Insert(h, t, bp))
  {
    InsertCycle(h, t, bp);
    InsertApart(h, t, bp);
    InsertUnits(h, t, bp);
  }

  lemma MergeCycle(h: Heap, a: nat, b: nat)
    requires Cycle(h) && a in h.free && b in h.free && h.ptr[a] == b && a < b
    ensures Cycle(Merge(h, a, b))
  {
    var g := Merge(h, a, b);
    assert h.base <= a;
    forall c | c in g.free ensures Linked(g, c) {
      assert Linked(h, c) && Linked(h, a) && Linked(h, b);
    }
  }

  lemma MergeUnits(h: Heap, a: nat, b: nat)
    requires Cycle(h) && a in h.free && b in h.free && a != b
    requires Conserved(h) && Cycle(Merge(h, a, b))
    ensures Conserved(Merge(h, a, b))
  {
    var g := Merge(h, a, b);
    UnitsSplit(h.size, h.free, a);
    UnitsSplit(h.size, h.free - {a}, b);
    UnitsSplit(g.size, g.free, a);
    assert h.free - {a} - {b} == g.free - {a};
    UnitsSame(h.size, g.size, g.free - {a});
  }

  lemma MergeApart(h: Heap, a: nat, b: nat)
    requires Cycle(h) && FreeApart(h) && UsedApart(h)
    requires a in h.free && b in h.free && Touch(h, a, b) && a < b && a != h.base && Cycle(Merge(h, a, b))
    ensures FreeApart(Merge(h, a, b)) && UsedApart(Merge(h, a, b))
  {
    var g := Merge(h, a, b);
    assert g.size[a] == h.size[a] + h.size[b] && Bytes(g.size[a]) == Bytes(h.size[a]) + Bytes(h.size[b]);
    forall c, d | c in g.free && d in g.free && c != d ensures Disjoint(c, g.size[c], d, g.size[d]) {
      assert Disjoint(c, h.size[c], d, h.size[d]);
      if c == a { assert Disjoint(b, h.size[b], d, h.size[d]); }
      if d == a { assert Disjoint(c, h.size[c], b, h.size[b]); }
    }
    forall c, d | c in g.used && d in g.free ensures Disjoint(c, g.used[c], d, g.size[d]) {
      assert Disjoint(c, h.used[c], d, h.size[d]) && Disjoint(c, h.used[c], b, h.size[b]);
    }
  }

  lemma MergeLoose(h: Heap, a: nat, b: nat)
    requires Loose(h) && a in h.free && b in h.free && h.ptr[a] == b && Touch(h, a, b) && a < b && a != h.base
    ensures Loose(Merge(h, a, b))
  {
    MergeCycle(h, a, b);
    MergeApart(h, a, b);
    MergeUnits(h, a, b);
  }

  /** Free block a with its successor absorbed if they touch. */
  ghost function Coalesce(h: Heap, a: nat, b: nat): Heap
    requires b in h.ptr && a in h.size && b in h.size
  {
    if Touch(h, a, b) then Merge(h, a, b) else h
  }

  ghost function WithFreep(h: Heap, t: nat): Heap {
    Heap(h.ptr, h.size, t, h.base, h.free, h.used, h.top, h.total)
  }

  /** What free does to a block in use that belongs after free block t. */
  ghost function Freed(h: Heap, t: nat, bp: nat): Heap
    requires t in h.ptr && t in h.size && bp in h.size && h.ptr[t] in h.size && h.ptr[t] in h.ptr
  {
    WithFreep(Coalesce(Coalesce(Insert(h, t, bp), bp, h.ptr[t]), t, bp), t)
  }

  /** The only free blocks that touch are a with b or c with d. */
  ghost predicate OnlyTouch(h: Heap, a: nat, b: nat, c: nat, d: nat)
    requires Cycle(h)
  {
    forall x, y {:trigger Touch(h, x, y)} | x in h.free && y in h.free && x != y && Touch(h, x, y) ::
      (x == a && y == b) || (x == c && y == d)
  }

  lemma InsertTouch(h: Heap, t: nat, bp: nat)
    requires Ok(h) && Place(h, t, bp) && bp in h.used
    requires Loose(Insert(h, t, bp))
    ensures OnlyTouch(Insert(h, t, bp), bp, h.ptr[t], t, bp)
  {
    var g := Insert(h, t, bp);
    assert Linked(h, t);
    forall x, y | x in g.free && y in g.free && x != y && Touch(g, x, y)
      ensures (x == bp && y == h.ptr[t]) || (x == t && y == bp)
    {
      assert x == t || Disjoint(x, g.size[x], t, g.size[t]);
      assert y == h.ptr[t] || Disjoint(h.ptr[t], g.size[h.ptr[t]], y, g.size[y]);
      assert bp == h.ptr[t] || Disjoint(bp, g.size[bp], h.ptr[t], g.size[h.ptr[t]]);
      assert x == bp || y == bp || !Touch(h, x, y);
    }
  }

  lemma MergeTouch(h: Heap, a: nat, b: nat, c: nat, d: nat)
    requires Loose(h) && a in h.free && b in h.free && h.ptr[a] == b && Touch(h, a, b) && a < b && a != h.base
    requires OnlyTouch(h, a, b, c, d) && d != b && c != b
    requires Loose(Merge(h, a, b))
    ensures OnlyTouch(Merge(h, a, b), c, d, c, d)
  {
    var g := Merge(h, a, b);
    assert Bytes(g.size[a]) == Bytes(h.size[a]) + Bytes(h.size[b]);
    forall x, y | x in g.free && y in g.free && x != y && Touch(g, x, y) ensures x == c && y == d {
      assert if x == a then Touch(h, b, y) else Touch(h, x, y);
    }
  }

  lemma WithFreepOk(h: Heap, t: nat)
    requires Ok(h) && t in h.free
    ensures Ok(WithFreep(h, t))
  {
    var g := WithFreep(h, t);
    forall a | a in h.free ensures Linked(g, a) { assert Linked(h, a); }
    forall a, b | a in h.free && b in h.free && a != b ensures !Touch(g, a, b) { assert !Touch(h, a, b); }
  }

  lemma CoalesceNext(h: Heap, t: nat, bp: nat)
    requires Ok(h) && Place(h, t, bp) && bp in h.used
    ensures h.ptr[t] in h.free && h.ptr[t] != bp
    ensures var g := Coalesce(Insert(h, t, bp), bp, h.ptr[t]);
      Loose(g) && OnlyTouch(g, t, bp, t, bp) && t in g.free && bp in g.free && g.ptr[t] == bp && g.used == h.used - {bp}
  {
    assert Linked(h, t);
    InsertLoose(h, t, bp);
    InsertTouch(h, t, bp);
    InsertCycle(h, t, bp);
    var n, g := h.ptr[t], Insert(h, t, bp);
    if Touch(g, bp, n) {
      assert Linked(g, bp);
      MergeLoose(g, bp, n);
      MergeTouch(g, bp, n, t, bp);
    }
  }

  lemma CoalescePrevious(h: Heap, t: nat, bp: nat)
    requires Loose(h) && OnlyTouch(h, t, bp, t, bp) && t in h.free && bp in h.free && h.ptr[t] == bp && t < bp
    ensures var g := Coalesce(h, t, bp); Ok(g) && t in g.free && g.used == h.used
  {
    assert Touch(h, t, bp) ==> t != h.base;
    if Touch(h, t, bp) {
      MergeLoose(h, t, bp);
      MergeTouch(h, t, bp, t, t);
    }
  }

  /** Freeing a block puts it back into one cycle of disjoint blocks, no two of them adjacent. */
  lemma FreedOk(h: Heap, t: nat, bp: nat)
    requires Ok(h) && Place(h, t, bp) && bp in h.used
    ensures h.ptr[t] in h.free
    ensures Ok(Freed(h, t, bp)) && Freed(h, t, bp).used == h.used - {bp}
  {
    CoalesceNext(h, t, bp);
    var g := Coalesce(Insert(h, t, bp), bp, h.ptr[t]);
    CoalescePrevious(g, t, bp);
    WithFreepOk(Coalesce(g, t, bp), t);
  }

  /** Freeing a block leaves a free block at least as large. */
  lemma FreedFits(h: Heap, t: nat, bp: nat)
    requires Ok(h) && Place(h, t, bp) && bp in h.used
    requires h.ptr[t] in h.free
    ensures exists c :: c in Freed(h, t, bp).free && c in Freed(h, t, bp).size && Freed(h, t, bp).size[c] >= h.used[bp]
  {
    CoalesceNext(h, t, bp);
    var g := Freed(h, t, bp);
    var g1 := Coalesce(Insert(h, t, bp), bp, h.ptr[t]);
    if Touch(g1, t, bp) {
      assert t in g.free && g.size[t] >= h.used[bp];
    } else {
      assert bp in g.free && g.size[bp] >= h.used[bp];
    }
  }

  /** Some address of s is the last one below bp. */
  lemma LastBelow(s: set<nat>, base: nat, bp: nat) returns (t: nat)
    requires base in s && base < bp && bp !in s
    ensures t in s && t < bp && forall c | c in s :: c <= t || bp < c
  {
    if s == {base} {
      t := base;
    } else {
      var x :| x in s && x != base;
      t := LastBelow(s - {x}, base, bp);
      if t < x < bp { t := x; }
      forall c | c in s ensures c <= t || bp < c { assert c == x || c in s - {x}; }
    }
  }

  // ------------------------------------------------------------------
  // malloc: take a free block or the tail of one

  /** Free block p, which follows prev, is handed out whole. */
  ghost function Whole(h: Heap, prev: nat, p: nat): Heap
    requires p in h.ptr && p in h.size
  {
    Heap(h.ptr[prev := h.ptr[p]], h.size, prev, h.base, h.free - {p}, h.used[p := h.size[p]], h.top, h.total)
  }

  /** The last n units of free block p are handed out as a block at q. */
  ghost function Tail(h: Heap, prev: nat, p: nat, q: nat, n: nat): Heap
    requires p in h.size && h.size[p] >= n
  {
    Heap(h.ptr, h.size[p := h.size[p] - n][q := n], prev, h.base, h.free, h.used[q := n], h.top, h.total)
  }

  /** nu units obtained from sbrk at a, as a block in use. */
  ghost function Grown(h: Heap, a: nat, nu: nat): Heap {
    Heap(h.ptr, h.size[a := nu], h.freep, h.base, h.free, h.used[a := nu], a + Bytes(nu), h.total + nu)
  }

  lemma WholeOk(h: Heap, prev: nat, p: nat)
    requires Ok(h) && prev in h.free && p in h.free && p != h.base && h.ptr[prev] == p
    ensures p !in h.used && Ok(Whole(h, prev, p))
  {
    var g := Whole(h, prev, p);
    assert p in h.used ==> !Disjoint(p, h.used[p], p, h.size[p]);
    forall c | c in g.free ensures Linked(g, c) {
      assert Linked(h, c) && Linked(h, p) && Linked(h, prev);
    }
    UnitsSplit(h.size, h.free, p);
    UsedMore(h.used, p, h.size[p]);
    WholeApart(h, prev, p);
  }

  lemma WholeApart(h: Heap, prev: nat, p: nat)
    requires Ok(h) && prev in h.free && p in h.free && p != h.base && p !in h.used && Cycle(Whole(h, prev, p))
    ensures FreeApart(Whole(h, prev, p)) && UsedApart(Whole(h, prev, p)) && Coalesced(Whole(h, prev, p))
  {
    var g := Whole(h, prev, p);
    forall a, b | a in g.free && b in g.free && a != b
      ensures Disjoint(a, g.size[a], b, g.size[b]) && !Touch(g, a, b)
    {
      assert Disjoint(a, h.size[a], b, h.size[b]) && !Touch(h, a, b);
    }
    forall a, b | a in g.used && b in g.used && a != b ensures Disjoint(a, g.used[a], b, g.used[b]) {
      if a == p { assert Disjoint(b, h.used[b], p, h.size[p]); }
      else if b == p { assert Disjoint(a, h.used[a], p, h.size[p]); }
    }
    forall a, b | a in g.used && b in g.free ensures Disjoint(a, g.used[a], b, g.size[b]) {
      if a == p { assert Disjoint(p, h.size[p], b, h.size[b]); }
    }
  }

  lemma TailOk(h: Heap, prev: nat, p: nat, q: nat, n: nat)
    requires Ok(h) && prev in h.free && p in h.free && 0 < n < h.size[p] && q == p + Bytes(h.size[p] - n)
    ensures q !in h.used && q !in h.free && Ok(Tail(h, prev, p, q, n))
  {
    var g := Tail(h, prev, p, q, n);
    assert Bytes(h.size[p]) == Bytes(h.size[p] - n) + Bytes(n);
    assert q in h.used ==> !Disjoint(q, h.used[q], p, h.size[p]);
    assert q in h.free && q != p ==> !Disjoint(q, h.size[q], p, h.size[p]);
    forall c | c in g.free ensures Linked(g, c) { assert Linked(h, c); }
    TailUnits(h, prev, p, q, n);
    TailFree(h, prev, p, q, n);
    TailUsed(h, prev, p, q, n);
  }

  lemma TailUnits(h: Heap, prev: nat, p: nat, q: nat, n: nat)
    requires Cycle(h) && Conserved(h) && p in h.free && n <= h.size[p] && q !in h.used && q !in h.free
    requires Cycle(Tail(h, prev, p, q, n))
    ensures Conserved(Tail(h, prev, p, q, n))
  {
    var g := Tail(h, prev, p, q, n);
    UnitsSplit(h.size, h.free, p);
    UnitsSplit(g.size, g.free, p);
    UnitsSame(h.size, g.size, h.free - {p});
    UsedMore(h.used, q, n);
  }

  lemma TailFree(h: Heap, prev: nat, p: nat, q: nat, n: nat)
    requires Cycle(h) && FreeApart(h) && Coalesced(h) && p in h.free && 0 < n < h.size[p]
      && q == p + Bytes(h.size[p] - n)
    requires q !in h.free && Cycle(Tail(h, prev, p, q, n))
    ensures FreeApart(Tail(h, prev, p, q, n)) && Coalesced(Tail(h, prev, p, q, n))
  {
    var g := Tail(h, prev, p, q, n);
    assert Bytes(h.size[p]) == Bytes(h.size[p] - n) + Bytes(n);
    forall a, b | a in g.free && b in g.free && a != b
      ensures Disjoint(a, g.size[a], b, g.size[b]) && !Touch(g, a, b)
    {
      assert Disjoint(a, h.size[a], b, h.size[b]) && !Touch(h, a, b);
    }
  }

  /** The used blocks stay apart, the new one at the end of free block p among them. */
  lemma TailUsedApart(h: Heap, prev: nat, p: nat, q: nat, n: nat, a: nat, b: nat)
    requires Cycle(h) && UsedApart(h) && p in h.free && 0 < n < h.size[p] && q == p + Bytes(h.size[p] - n)
    requires var g := Tail(h, prev, p, q, n); a in g.used && b in g.used && a != b
    ensures var g := Tail(h, prev, p, q, n); Disjoint(a, g.used[a], b, g.used[b])
  {
    assert Bytes(h.size[p]) == Bytes(h.size[p] - n) + Bytes(n);
    if a == q {
      assert Disjoint(b, h.used[b], p, h.size[p]);
    } else if b == q {
      assert Disjoint(a, h.used[a], p, h.size[p]);
    }
  }

  /** And apart from the free ones, of which p is shorter. */
  lemma TailFreeApart(h: Heap, prev: nat, p: nat, q: nat, n: nat, a: nat, b: nat)
    requires Cycle(h) && FreeApart(h) && UsedApart(h) && p in h.free && 0 < n < h.size[p]
      && q == p + Bytes(h.size[p] - n)
    requires q !in h.free && q !in h.used
    requires var g := Tail(h, prev, p, q, n); a in g.used && b in g.free && b in g.size
    ensures var g := Tail(h, prev, p, q, n); Disjoint(a, g.used[a], b, g.size[b])
  {
    assert Bytes(h.size[p]) == Bytes(h.size[p] - n) + Bytes(n);
    if a != q {
      assert Disjoint(a, h.used[a], b, h.size[b]);
    } else if b != p {
      assert Disjoint(b, h.size[b], p, h.size[p]);
    }
  }

  lemma TailUsed(h: Heap, prev: nat, p: nat, q: nat, n: nat)
    requires Cycle(h) && FreeApart(h) && UsedApart(h) && p in h.free && 0 < n < h.size[p]
      && q == p + Bytes(h.size[p] - n)
    requires q !in h.free && q !in h.used && Cycle(Tail(h, prev, p, q, n))
    ensures UsedApart(Tail(h, prev, p, q, n))
  {
    var g := Tail(h, prev, p, q, n);
    forall a, b | a in g.used && b in g.used && a != b ensures Disjoint(a, g.used[a], b, g.used[b]) {
      TailUsedApart(h, prev, p, q, n, a, b);
    }
    forall a, b | a in g.used && b in g.free ensures Disjoint(a, g.used[a], b, g.size[b]) {
      TailFreeApart(h, prev, p, q, n, a, b);
    }
  }

  lemma BlocksBelow(h: Heap, c: nat)
    requires Loose(h) && (c in h.free || c in h.used)
    ensures c < h.top
  {
    if c in h.used { assert Inside(h, c, h.used[c]); } else { assert c == h.base || Inside(h, c, h.size[c]); }
  }

  lemma GrownFree(h: Heap, a: nat, nu: nat)
    requires Ok(h) && a >= h.top && nu > 0
    ensures a !in h.free && Cycle(Grown(h, a, nu)) && FreeApart(Grown(h, a, nu)) && Coalesced(Grown(h, a, nu))
  {
    var g := Grown(h, a, nu);
    forall c | c in h.free ensures c < h.top { BlocksBelow(h, c); }
    forall c | c in g.free ensures Linked(g, c) { assert Linked(h, c); }
    forall x, y | x in g.free && y in g.free && x != y
      ensures Disjoint(x, g.size[x], y, g.size[y]) && !Touch(g, x, y)
    {
      assert Disjoint(x, h.size[x], y, h.size[y]) && !Touch(h, x, y);
    }
  }

  lemma GrownPair(h: Heap, a: nat, nu: nat, x: nat, y: nat)
    requires Ok(h) && a >= h.top && nu > 0 && x in Grown(h, a, nu).used && y in Grown(h, a, nu).used && x != y
    ensures Disjoint(x, Grown(h, a, nu).used[x], y, Grown(h, a, nu).used[y])
  {
    if x == a {
      assert Inside(h, y, h.used[y]);
    } else if y == a {
      assert Inside(h, x, h.used[x]);
    } else {
      assert Disjoint(x, h.used[x], y, h.used[y]);
    }
  }

  lemma GrownMixed(h: Heap, a: nat, nu: nat, x: nat, y: nat)
    requires Ok(h) && a >= h.top && nu > 0 && x in Grown(h, a, nu).used && y in h.free && y != a
    ensures Disjoint(x, Grown(h, a, nu).used[x], y, Grown(h, a, nu).size[y])
  {
    if x == a {
      assert y == h.base || Inside(h, y, h.size[y]);
    } else {
      assert Disjoint(x, h.used[x], y, h.size[y]);
    }
  }

  lemma GrownUsed(h: Heap, a: nat, nu: nat)
    requires Ok(h) && a >= h.top && nu > 0 && a !in h.free && Cycle(Grown(h, a, nu))
    ensures a !in h.used && UsedApart(Grown(h, a, nu))
  {
    var g := Grown(h, a, nu);
    forall c | c in h.used ensures c < h.top { BlocksBelow(h, c); }
    forall x, y | x in g.used && y in g.used && x != y ensures Disjoint(x, g.used[x], y, g.used[y]) {
      GrownPair(h, a, nu, x, y);
    }
    forall x, y | x in g.used && y in g.free ensures Disjoint(x, g.used[x], y, g.size[y]) {
      GrownMixed(h, a, nu, x, y);
    }
  }

  lemma GrownOk(h: Heap, a: nat, nu: nat)
    requires Ok(h) && a >= h.top && nu > 0
    ensures a !in h.used && a !in h.free && Ok(Grown(h, a, nu))
  {
    GrownFree(h, a, nu);
    GrownUsed(h, a, nu);
    UnitsSame(h.size, Grown(h, a, nu).size, h.free);
    UsedMore(h.used, a, nu);
  }

  /** No size field exceeds the units obtained, so sizes that fit 32 bits stay so when blocks are coalesced. */
  lemma SizesFit(h: Heap, a: nat)
    requires Loose(h) && (a in h.free || a in h.used)
    ensures a in h.size && h.size[a] <= h.total
  {
    if a in h.free { UnitsSplit(h.size, h.free, a); } else { UnitsSplit(h.used, h.used.Keys, a); }
  }
}
