/** What a user reads: the bytes of an address space through its page tables, and what storing
    into a frame makes of them. */
module UserBytes {
  import opened PageTree
  import opened PageTable
  import opened AddressSpace
  import opened PageBytes

  /** The byte at address a of a space, 0 where no page is mapped. */
  ghost function UserByte(s: State, space: nat, a: nat): Byte {
    var e := Pte(s, space, a / PAGE);
    if a / PAGE < PAGES && Present(e) && e.frame in s.mem && |s.mem[e.frame]| == SLOTS
    then ByteIn(s.mem[e.frame], a % PAGE) else 0
  }

  /** Two mapped pages, of one space or of two, have different frames. */
  lemma FramesApart(s: State, x: nat, v: nat, y: nat, w: nat)
    requires Ok(s) && v < PAGES && w < PAGES && Present(Pte(s, x, v)) && Present(Pte(s, y, w)) && (x != y || v != w)
    ensures Pte(s, x, v).frame != Pte(s, y, w).frame
  {
    Open(s);
    PageOwner(s, x, v);
    PageOwner(s, y, w);
    if x == y { PagesApart(s, x, v, w); }
  }

  // ------------------------------------------------------------------
  // Storing into the frame of a page

  /** f is the frame of some page. */
  ghost predicate PageFrame(s: State, f: nat) { f in s.owner && Depth(s.owner[f].path) == LEVELS }

  lemma PageFilledSlot(s: State, f: nat, w: seq<Word>, k: Key, i: nat)
    requires Inverse(s) && Words(s) && PageFrame(s, f) && |w| == SLOTS
    requires k in s.at && Depth(k.path) < LEVELS && i < SLOTS && SlotOk(s, k, i)
    ensures var t := Filled(s, f, w); s.at[k] in t.mem && |t.mem[s.at[k]]| == SLOTS && SlotOk(t, k, i)
  {
    assert s.at[k] != f;
  }

  lemma PageFilledShape(s: State, f: nat, w: seq<Word>)
    requires Inverse(s) && Words(s) && FreeOk(s) && Tree(s) && PageFrame(s, f) && |w| == SLOTS
    ensures var t := Filled(s, f, w); Inverse(t) && Words(t) && FreeOk(t) && Tree(t)
  {
    var t := Filled(s, f, w);
    forall k | k in t.at ensures Hangs(t, k) { assert Hangs(s, k); }
  }

  lemma PageFilledKernel(s: State, f: nat, w: seq<Word>)
    requires Inverse(s) && Words(s) && KernelOk(s) && PageFrame(s, f) && |w| == SLOTS
    requires Inverse(Filled(s, f, w)) && Words(Filled(s, f, w))
    ensures KernelOk(Filled(s, f, w))
  {
    assert Depth(Root) == 0;
    forall k | k in s.at && k.path == Root ensures s.at[k] != f {}
  }

  lemma PageFilledSound(s: State, f: nat, w: seq<Word>)
    requires Sound(s) && PageFrame(s, f) && |w| == SLOTS
    ensures Sound(Filled(s, f, w))
  {
    var t := Filled(s, f, w);
    PageFilledShape(s, f, w);
    PageFilledKernel(s, f, w);
    forall k, i | k in t.at && Depth(k.path) < LEVELS && 0 <= i < Width(k.path) ensures SlotOk(t, k, i) {
      assert SlotOk(s, k, i);
      PageFilledSlot(s, f, w, k, i);
    }
  }

  /** The contents of a page are no part of any table. */
  lemma PageFilled(s: State, space: nat, v: nat, w: seq<Word>)
    requires Ok(s) && v < PAGES && Present(Pte(s, space, v)) && |w| == SLOTS
    ensures Ok(Filled(s, Pte(s, space, v).frame, w)) && SameFlat(s, Filled(s, Pte(s, space, v).frame, w))
  {
    var f := Pte(s, space, v).frame;
    OwnerOf(s, space, v);
    Open(s);
    PageFilledSound(s, f, w);
    var t := Filled(s, f, w);
    forall x: nat, u: nat ensures Pte(t, x, u) == Pte(s, x, u) {
      var k := Key(x, TableOf(u));
      if k in s.at { assert s.at[k] != f; }
    }
  }

  lemma PageFilledByte(s: State, space: nat, v: nat, w: seq<Word>, x: nat, a: nat)
    requires Ok(s) && v < PAGES && Present(Pte(s, space, v)) && |w| == SLOTS
    requires SameFlat(s, Filled(s, Pte(s, space, v).frame, w))
    ensures UserByte(Filled(s, Pte(s, space, v).frame, w), x, a)
         == if x == space && a / PAGE == v then ByteIn(w, a % PAGE) else UserByte(s, x, a)
  {
    var t := Filled(s, Pte(s, space, v).frame, w);
    assert Pte(t, x, a / PAGE) == Pte(s, x, a / PAGE);
    if a / PAGE < PAGES && Present(Pte(s, x, a / PAGE)) && (x != space || a / PAGE != v) {
      FramesApart(s, x, a / PAGE, space, v);
    }
  }

  /** From s to t n bytes of the data went to address va of a space. No other byte of any space, no
      mapping, no table, no free frame and no foreign frame changed. */
  ghost predicate Stored(s: State, t: State, space: nat, va: nat, data: seq<Byte>, n: nat)
    requires n <= |data|
  {
    && Ok(s) && Ok(t) && t.free == s.free && t.at == s.at && t.owner == s.owner && t.kpdpt == s.kpdpt && t.end == s.end
    && SameFlat(s, t)
    && (forall f | f in s.mem && !(PageFrame(s, f) && s.owner[f].space == space) ::
          f in t.mem && t.mem[f] == s.mem[f])
    && (forall x: nat, a: nat {:trigger UserByte(t, x, a)} ::
          UserByte(t, x, a) == if x == space && va <= a < va + n then data[a - va] else UserByte(s, x, a))
  }

  /** One round of copyout: a piece that lies in one page. */
  lemma PieceStored(s: State, space: nat, va: nat, data: seq<Byte>, done: nat, n: nat, w: seq<Word>)
    requires Ok(s) && done + n <= |data| && 0 < n <= PAGE - (va + done) % PAGE
    requires (va + done) / PAGE < PAGES && Present(Pte(s, space, (va + done) / PAGE))
    requires var f := Pte(s, space, (va + done) / PAGE).frame;
      f in s.mem && |s.mem[f]| == SLOTS && MovedIn(s.mem[f], w, (va + done) % PAGE, data, done, n)
    ensures Stored(s, Filled(s, Pte(s, space, (va + done) / PAGE).frame, w), space, va + done, data[done..done + n], n)
  {
    var v := (va + done) / PAGE;
    var f := Pte(s, space, v).frame;
    var t := Filled(s, f, w);
    PageOwner(s, space, v);
    PageFilled(s, space, v, w);
    OwnerOf(s, space, v);
    forall x: nat, a: nat
      ensures UserByte(t, x, a) == if x == space && va + done <= a < va + done + n
        then data[done..done + n][a - (va + done)] else UserByte(s, x, a)
    {
      PageFilledByte(s, space, v, w, x, a);
      if x == space { InPiece(va + done, n, a); }
    }
  }

  lemma OwnerOf(s: State, space: nat, v: nat)
    requires Ok(s) && v < PAGES && Present(Pte(s, space, v))
    ensures var f := Pte(s, space, v).frame; PageFrame(s, f) && s.owner[f].space == space
  {
    Open(s);
    PageOwner(s, space, v);
    assert Depth(Slot(TableOf(v), v % SLOTS)) == LEVELS;
  }

  lemma InPiece(at: nat, n: nat, a: nat)
    requires 0 < n <= PAGE - at % PAGE
    ensures at <= a < at + n <==> a / PAGE == at / PAGE && at % PAGE <= a % PAGE < at % PAGE + n
    ensures at <= a < at + n ==> a % PAGE - at % PAGE == a - at
  {
    assert a == a / PAGE * PAGE + a % PAGE && at == at / PAGE * PAGE + at % PAGE;
  }

  lemma StoredMore(s: State, t: State, u: State, space: nat, va: nat, data: seq<Byte>, done: nat, n: nat)
    requires done + n <= |data| && Stored(s, t, space, va, data, done)
      && Stored(t, u, space, va + done, data[done..done + n], n)
    ensures Stored(s, u, space, va, data, done + n)
  {
    forall x: nat, a: nat
      ensures UserByte(u, x, a) == if x == space && va <= a < va + done + n then data[a - va] else UserByte(s, x, a)
    {
      assert UserByte(t, x, a) == if x == space && va <= a < va + done then data[a - va] else UserByte(s, x, a);
      assert UserByte(u, x, a) == if x == space && va + done <= a < va + done + n
        then data[done..done + n][a - (va + done)] else UserByte(t, x, a);
    }
    forall x: nat, v: nat ensures Pte(u, x, v) == Pte(s, x, v) { assert Pte(u, x, v) == Pte(t, x, v); }
  }

  lemma NothingStored(s: State, space: nat, va: nat, data: seq<Byte>)
    requires Ok(s)
    ensures Stored(s, s, space, va, data, 0)
  {
  }

  // ------------------------------------------------------------------
  // Growing a space changes no byte of the pages there were

  lemma GrownByte(s: State, t: State, space: nat, lo: nat, hi: nat, x: nat, a: nat)
    requires Grown(s, t, space, lo, hi)
    ensures x != space || a / PAGE < lo || hi <= a / PAGE ==> UserByte(t, x, a) == UserByte(s, x, a)
    ensures x == space && lo <= a / PAGE < hi ==> UserByte(t, x, a) == 0
  {
    var v := a / PAGE;
    assert if x == space && lo <= v < hi then ZeroPage(t, Pte(t, x, v)) else Pte(t, x, v) == Pte(s, x, v);
    if x == space && lo <= v < hi {
      ZeroBytes(a % PAGE);
    } else if v < PAGES && Present(Pte(s, x, v)) {
      PageOwner(s, x, v);
    }
  }
}
