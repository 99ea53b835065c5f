/** The user-level allocator of umalloc.c: free, morecore and malloc working in place on
    the headers, proved against the free list as a value. */
module Umalloc {
  import opened FreeList
  import opened Optional

  const MIN_UNITS: nat := 4096
  const SIZE_LIMIT: nat := 0x1_0000_0000   // sizes are 32-bit unsigned

  /** Units for nbytes of payload: the payload rounded up, and one header. */
  function UnitsFor(nbytes: nat): (n: nat)
    ensures n > 0 && Bytes(n) >= UNIT + nbytes && Bytes(n) < 2 * UNIT + nbytes
  {
    (nbytes + UNIT - 1) / UNIT + 1
  }

  /** How many units morecore asks for when n are needed: at least 4096. */
  function Chunk(n: nat): (c: nat)
    ensures n <= c && 4096 <= c && (c == n || c == 4096)
  {
    if n < MIN_UNITS then MIN_UNITS else n
  }

  /** Searching from the block after s, every free block before p is too small for n units;
      `wrapped` says the search has passed the end of the list. */
  ghost predicate Scanned(h: Heap, s: nat, p: nat, wrapped: bool, n: nat)
    requires Cycle(h)
  {
    if wrapped then p <= s && forall c | c in h.free && (c > s || c < p) :: h.size[c] < n
    else p > s && forall c | c in h.free && s < c < p :: h.size[c] < n
  }

  /** The search begins with the block after s. */
  lemma ScanStart(h: Heap, s: nat, n: nat)
    requires Cycle(h) && s in h.free
    ensures h.ptr[s] in h.free && Scanned(h, s, h.ptr[s], h.ptr[s] <= s, n)
  {
    assert Linked(h, s);
  }

  lemma ScanNext(h: Heap, s: nat, p: nat, wrapped: bool, n: nat)
    requires Cycle(h) && s in h.free && p in h.free && p != s && Scanned(h, s, p, wrapped, n) && h.size[p] < n
    ensures h.ptr[p] in h.free && Scanned(h, s, h.ptr[p], wrapped || h.ptr[p] <= p, n)
    ensures wrapped ==> h.ptr[p] > p
  {
    assert Linked(h, p);
  }

  /** Back at s, every free block has been found too small. */
  lemma ScanDone(h: Heap, s: nat, wrapped: bool, n: nat)
    requires Cycle(h) && s in h.free && Scanned(h, s, s, wrapped, n) && h.size[s] < n
    ensures forall c | c in h.free :: h.size[c] < n
  {
  }

  lemma BelowTop(h: Heap, p: nat)
    requires Ok(h) && p in h.free
    ensures p < h.top
  {
  }

  ghost predicate Of(u: bool, h: Heap) { true }

  /** Ok, with its definition kept out of sight until OpenSeal is called. */
  ghost predicate SealedOk(h: Heap) {
    forall u: bool {:trigger Of(u, h)} :: Of(u, h) ==> Ok(h)
  }

  lemma OpenSeal(h: Heap)
    requires SealedOk(h)
    ensures Ok(h)
  {
    assert Of(true, h);
  }

  lemma TailSealed(h: Heap, prev: nat, p: nat, q: nat, n: nat)
    requires SealedOk(h) && prev in h.free && p in h.free && p in h.size && 0 < n < h.size[p]
    requires q == p + Bytes(h.size[p] - n)
    ensures q !in h.used && SealedOk(Tail(h, prev, p, q, n))
  {
    OpenSeal(h);
    TailOk(h, prev, p, q, n);
  }

  class Allocator {
    var ptr: map<nat, nat>
    var size: map<nat, nat>
    var freep: nat            // 0 until the first call of malloc
    const base: nat
    ghost var free: set<nat>
    ghost var used: map<nat, nat>
    ghost var top: nat
    ghost var total: nat

    ghost function H(): Heap
      reads this
    {
      Heap(ptr, size, freep, base, free, used, top, total)
    }

    ghost predicate Valid()
      reads this
    {
      && 0 < base && base + UNIT <= top && total < SIZE_LIMIT
      && (freep == 0 ==> used == map[] && total == 0)
      && (freep != 0 ==> Ok(H()))
    }

    constructor (base: nat, ghost top: nat)
      requires 0 < base && base + UNIT <= top
      ensures Valid() && freep == 0 && this.base == base && this.top == top
    {
      this.base := base;
      ptr, size, freep := map[], map[], 0;
      free, used, this.top, total := {}, map[], top, 0;
    }

    /** The search of free: the free block after which bp belongs. */
    method FindPlace(bp: nat) returns (p: nat)
      requires Valid() && freep != 0 && bp in used
      ensures Place(H(), p, bp)
    {
      ghost var h := H();
      assert bp !in free by {
        assert bp in free ==> !Disjoint(bp, used[bp], bp, size[bp]);
      }
      assert Inside(h, bp, used[bp]);
      ghost var t := LastBelow(free, base, bp);
      ghost var wrapped := false;
      p := freep;
      while !(bp > p && bp < ptr[p])
        invariant p in free
        invariant wrapped ==> forall c | c in free && c < p :: !Place(h, c, bp)
        decreases if wrapped then 0 else 1, top - p
      {
        assert Linked(h, p);
        if p >= ptr[p] && (bp > p || bp < ptr[p]) {
          break;
        }
        assert p == base || Inside(h, p, size[p]);
        assert !Place(h, p, bp);
        if p >= ptr[p] {
          assert wrapped ==> Place(h, t, bp);
          wrapped := true;
        }
        p := ptr[p];
      }
      assert Linked(h, p);
    }

    /** The first half of the header updates of free: bp takes the place before p's successor. */
    method LinkNext(p: nat, bp: nat)
      requires p in ptr && p in size && bp in size && ptr[p] in ptr && ptr[p] in size && p < bp && ptr[p] != bp
      modifies this`ptr, this`size
      ensures var g := Coalesce(Insert(old(H()), p, bp), bp, old(ptr)[p]); size == g.size && ptr[p := bp] == g.ptr
      ensures bp in ptr
    {
      if bp + UNIT * size[bp] == ptr[p] {
        size := size[bp := size[bp] + size[ptr[p]]];
        ptr := ptr[bp := ptr[ptr[p]]];
      } else {
        ptr := ptr[bp := ptr[p]];
      }
    }

    /** The second half: p takes the place before bp. */
    method LinkPrevious(p: nat, bp: nat, ghost g: Heap)
      requires p in size && bp in size && bp in ptr && p != bp && size == g.size && ptr[p := bp] == g.ptr
      modifies this`ptr, this`size
      ensures size == Coalesce(g, p, bp).size && ptr == Coalesce(g, p, bp).ptr
    {
      if p + UNIT * size[p] == bp {
        size := size[p := size[p] + size[bp]];
        ptr := ptr[p := ptr[bp]];
      } else {
        ptr := ptr[p := bp];
      }
    }

    /** Both header updates. */
    method Relink(p: nat, bp: nat)
      requires p in ptr && p in size && bp in size && ptr[p] in ptr && ptr[p] in size && p < bp && ptr[p] != bp
      modifies this`ptr, this`size
      ensures var g := Coalesce(Coalesce(Insert(old(H()), p, bp), bp, old(ptr)[p]), p, bp);
        size == g.size && ptr == g.ptr
    {
      ghost var h := H();
      LinkNext(p, bp);
      LinkPrevious(p, bp, Coalesce(Insert(h, p, bp), bp, h.ptr[p]));
    }

    /** free: the block is put back in its place and coalesced with its neighbours. */
    method Free(ap: nat)
      requires Valid() && ap >= UNIT && ap - UNIT in used
      modifies this
      ensures Valid() && freep != 0
      ensures used == old(used) - {ap - UNIT} && top == old(top) && total == old(total)
      ensures exists t ::
        Place(old(H()), t, ap - UNIT) && old(ptr)[t] in old(free) && H() == Freed(old(H()), t, ap - UNIT)
    {
      var bp: nat := ap - UNIT;
      var p: nat := FindPlace(bp);
      ghost var h := H();
      FreedOk(h, p, bp);
      assert bp !in free;
      Relink(p, bp);
      freep := p;
      free, used := Freed(h, p, bp).free, used - {bp};
      assert H() == Freed(h, p, bp);
    }

    /** The new block of morecore, before it is freed. */
    method Sbrk(hp: nat, nu: nat)
      requires Valid() && freep != 0 && hp >= top && nu > 0 && total + nu < SIZE_LIMIT
      modifies this
      ensures Valid() && freep != 0 && hp !in old(used) && used == old(used)[hp := nu] && total == old(total) + nu
    {
      ghost var h := H();
      GrownOk(h, hp, nu);
      size := size[hp := nu];
      used, top, total := used[hp := nu], hp + Bytes(nu), total + nu;
      assert H() == Grown(h, hp, nu);
    }

    /** morecore: at least MIN_UNITS more units from sbrk, freed into the list. `grant` is
        what sbrk returns: nothing, or memory above all memory obtained before. */
    method Morecore(nu: nat, grant: Option<nat>) returns (r: nat)
      requires Valid() && freep != 0 && nu > 0
      requires grant.Some? ==> grant.value >= top && total + Chunk(nu) < SIZE_LIMIT
      modifies this
      ensures Valid() && freep != 0 && used == old(used)
      ensures grant.None? ==> r == 0 && H() == old(H())
      ensures grant.Some? ==> r == freep && total == old(total) + Chunk(nu)
      ensures grant.Some? ==> exists c :: c in free && c in size && size[c] >= nu
    {
      if grant.None? {
        return 0;
      }
      var hp := grant.value;
      Sbrk(hp, Chunk(nu));
      FreeNew(hp);
      assert used == old(used);
      r := freep;
    }

    /** The new block goes to the list, alone or as part of a larger one. */
    method FreeNew(hp: nat)
      requires Valid() && hp in used
      modifies this
      ensures Valid() && freep != 0 && used == old(used) - {hp} && total == old(total)
      ensures exists c :: c in free && c in size && size[c] >= old(used)[hp]
    {
      ghost var g := H();
      Free(hp + UNIT);
      ghost var t :| Place(g, t, hp) && g.ptr[t] in g.free && H() == Freed(g, t, hp);
      FreedFits(g, t, hp);
    }

    /** The allocation step of malloc: n units of block p, which follows prevp. */
    method Take(prevp: nat, p: nat, n: nat) returns (r: nat)
      requires Valid() && freep != 0 && prevp in free && p in free && ptr[prevp] == p && 0 < n <= size[p]
      modifies this
      ensures Valid() && freep != 0 && total == old(total) && top == old(top)
      ensures r >= UNIT && r - UNIT !in old(used) && used == old(used)[r - UNIT := n]
    {
      if size[p] == n {
        r := TakeWhole(prevp, p);
      } else {
        assert prevp >= base;
        r := TakeTail(prevp, p, n);
        OpenSeal(H());
      }
    }

    method TakeWhole(prevp: nat, p: nat) returns (r: nat)
      requires Valid() && freep != 0 && prevp in free && p in free && ptr[prevp] == p && 0 < size[p]
      modifies this
      ensures Valid() && freep != 0 && total == old(total) && top == old(top)
      ensures r == p + UNIT && p !in old(used) && used == old(used)[p := old(size)[p]]
    {
      WholeOk(H(), prevp, p);
      ptr, freep := ptr[prevp := ptr[p]], prevp;
      free, used := free - {p}, used[p := size[p]];
      r := p + UNIT;
    }

    method TakeTail(prevp: nat, p: nat, n: nat) returns (r: nat)
      requires SealedOk(H()) && prevp in free && p in free && p in size && 0 < n < size[p]
      modifies this
      ensures SealedOk(H()) && freep == prevp && total == old(total) && top == old(top)
      ensures r >= UNIT && r - UNIT !in old(used) && used == old(used)[r - UNIT := n]
    {
      TailSealed(H(), prevp, p, p + Bytes(size[p] - n), n);
      r := CutTail(prevp, p, n);
    }

    method CutTail(prevp: nat, p: nat, n: nat) returns (r: nat)
      requires p in size && 0 < n < size[p]
      modifies this
      ensures H() == Tail(old(H()), prevp, p, p + Bytes(old(size)[p] - n), n)
      ensures r == p + Bytes(old(size)[p] - n) + UNIT
    {
      size := size[p := size[p] - n];
      var q: nat := p + UNIT * size[p];
      size := size[q := n];
      freep, used := prevp, used[q := n];
      r := q + UNIT;
    }

    /** The list of the first call of malloc: base alone, linked to itself. */
    method Init()
      requires Valid() && freep == 0
      modifies this
      ensures Valid() && freep != 0 && used == old(used) && total == old(total) && top == old(top)
    {
      ptr, freep := ptr[base := base], base;
      size := size[base := 0];
      free := {base};
      assert Linked(H(), base);
      assert Units(size, {base}) == 0 by { UnitsSplit(size, {base}, base); }
    }

    /** One round of malloc's search, from the block after freep to freep itself: the first
        block that is large enough and the one before it, or none if all are too small. */
    method Search(n: nat) returns (found: bool, prevp: nat, p: nat)
      requires Valid() && freep != 0
      ensures found ==> prevp in free && p in free && ptr[prevp] == p && size[p] >= n
      ensures found ==> exists wrapped :: Scanned(H(), freep, p, wrapped, n)
      ensures !found ==> forall c | c in free :: size[c] < n
    {
      prevp := freep;
      p := ptr[prevp];
      ghost var wrapped := p <= freep;
      ScanStart(H(), freep, n);
      while size[p] < n
        invariant prevp in free && p in free && ptr[prevp] == p && Scanned(H(), freep, p, wrapped, n)
        decreases if wrapped then 0 else 1, top - p
      {
        if p == freep {
          ScanDone(H(), freep, wrapped, n);
          return false, prevp, p;
        }
        ScanNext(H(), freep, p, wrapped, n);
        BelowTop(H(), ptr[p]);
        wrapped := wrapped || ptr[p] <= p;
        prevp := p;
        p := ptr[p];
      }
      found := true;
    }

    /** malloc. It hands out a block of exactly UnitsFor(nbytes) units that was not in use;
        it asks sbrk for more at most once and only when no free block is large enough; it
        fails only when that request fails. */
    method Malloc(nbytes: nat, grant: Option<nat>) returns (r: nat)
      requires Valid() && nbytes < SIZE_LIMIT
      requires grant.Some? ==> grant.value >= top && total + Chunk(UnitsFor(nbytes)) < SIZE_LIMIT
      modifies this
      ensures Valid() && freep != 0
      ensures r != 0 ==> r >= UNIT && r - UNIT !in old(used) && used == old(used)[r - UNIT := UnitsFor(nbytes)]
      ensures r == 0 ==> used == old(used) && grant.None? && forall c | c in free :: size[c] < UnitsFor(nbytes)
      ensures total == old(total) || (r != 0 && total == old(total) + Chunk(UnitsFor(nbytes)))
      ensures total != old(total) && old(freep) != 0 ==> forall c | c in old(free) :: old(size)[c] < UnitsFor(nbytes)
    {
      var n := UnitsFor(nbytes);
      if freep == 0 {
        Init();
      }
      ghost var grown := false;
      while true
        invariant Valid() && freep != 0 && used == old(used)
        invariant !grown ==> total == old(total) && top == old(top) && (old(freep) != 0 ==> H() == old(H()))
        invariant grown ==> total == old(total) + Chunk(n) && grant.Some?
        invariant grown ==> exists c :: c in free && c in size && size[c] >= n
        invariant grown && old(freep) != 0 ==> forall c | c in old(free) :: old(size)[c] < n
        decreases if grown then 0 else 1
      {
        var found, prevp, p := Search(n);
        if found {
          r := Take(prevp, p, n);
          return;
        }
        assert !grown;
        p := Morecore(n, grant);
        if p == 0 {
          return 0;
        }
        grown := true;
      }
    }
  }
}
