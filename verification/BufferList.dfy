/** bio.c's data structure: the buffers with their prev/next links, updated in place,
    and the loops of binit, bget and brelse over them. The links implement the list
    `order` of the step model, and each method performs one or more of its steps. */
module BufferList {
  import opened WriteAheadLog
  import opened BufferCache
  import opened Sealing

  /** Index of `bcache.head` in the link arrays. */
  const HEAD: nat := NBUF

  /** The node at position p of the circular list, the head standing on both sides. */
  ghost function At(order: seq<nat>, p: int): nat {
    if 0 <= p < |order| then order[p] else HEAD
  }

  /** next and prev chain the buffers of `order`, through the head, in both directions. */
  ghost predicate Linked(next: seq<nat>, prev: seq<nat>, order: seq<nat>) {
    && |next| == |prev| == NBUF + 1
    && (forall p | 0 <= p < |order| :: order[p] < NBUF)
    && (forall p, q | 0 <= p < q < |order| :: order[p] != order[q])
    && (forall p | -1 <= p < |order| :: next[At(order, p)] == At(order, p + 1))
    && (forall p | 0 <= p <= |order| :: prev[At(order, p)] == At(order, p - 1))
  }

  lemma LinksAt(next: seq<nat>, prev: seq<nat>, order: seq<nat>, p: int)
    requires Linked(next, prev, order) && -1 <= p <= |order|
    ensures At(order, p) <= HEAD
    ensures p < |order| ==> next[At(order, p)] == At(order, p + 1)
    ensures 0 <= p ==> prev[At(order, p)] == At(order, p - 1)
  {
  }

  /** The forward links without the buffer at position p; the backward ones likewise. */
  lemma UnlinkNext(next: seq<nat>, prev: seq<nat>, order: seq<nat>, p: nat, q: int)
    requires Linked(next, prev, order) && p < |order| && -1 <= q < |order| - 1
    ensures var rest, b := order[..p] + order[p + 1..], order[p];
      prev[b] <= HEAD && At(rest, q) <= HEAD && next[prev[b] := next[b]][At(rest, q)] == At(rest, q + 1)
  {
    LinksAt(next, prev, order, p);
    LinksAt(next, prev, order, if q < p then q else q + 1);
  }

  lemma UnlinkPrev(next: seq<nat>, prev: seq<nat>, order: seq<nat>, p: nat, q: int)
    requires Linked(next, prev, order) && p < |order| && 0 <= q < |order|
    ensures var rest, b := order[..p] + order[p + 1..], order[p];
      next[b] <= HEAD && At(rest, q) <= HEAD && prev[next[b] := prev[b]][At(rest, q)] == At(rest, q - 1)
  {
    LinksAt(next, prev, order, p);
    LinksAt(next, prev, order, if q < p then q else q + 1);
  }

  /** Taking the buffer at position p out of the list. */
  lemma UnlinkKeepsLinks(next: seq<nat>, prev: seq<nat>, order: seq<nat>, p: nat)
    requires Linked(next, prev, order) && p < |order|
    ensures var b := order[p];
      prev[b] <= HEAD && next[b] <= HEAD
      && Linked(next[prev[b] := next[b]], prev[next[b] := prev[b]], order[..p] + order[p + 1..])
  {
    var b := order[p];
    LinksAt(next, prev, order, p);
    var rest := order[..p] + order[p + 1..];
    var next', prev' := next[prev[b] := next[b]], prev[next[b] := prev[b]];
    forall q | -1 <= q < |rest| ensures next'[At(rest, q)] == At(rest, q + 1) { UnlinkNext(next, prev, order, p, q); }
    forall q | 0 <= q <= |rest| ensures prev'[At(rest, q)] == At(rest, q - 1) { UnlinkPrev(next, prev, order, p, q); }
  }

  lemma UnlinkKeeps(next: seq<nat>, prev: seq<nat>, order: seq<nat>, i: nat)
    requires Linked(next, prev, order) && i in order
    ensures i < NBUF && prev[i] <= HEAD && next[i] <= HEAD && next[i] != i && i !in Without(order, i)
    ensures Linked(next[prev[i] := next[i]], prev[next[i] := prev[i]], Without(order, i))
  {
    WithoutProperties(order, i);
    var p: nat :| p < |order| && order[p] == i && Without(order, i) == order[..p] + order[p + 1..];
    UnlinkKeepsLinks(next, prev, order, p);
    LinksAt(next, prev, order, p);
  }

  /** Putting a buffer after the head. */
  lemma PushFrontKeepsLinks(next: seq<nat>, prev: seq<nat>, order: seq<nat>, b: nat)
    requires Linked(next, prev, order) && b < NBUF && b !in order
    ensures next[HEAD] <= HEAD && next[HEAD] != b
    ensures Linked(next[b := next[HEAD]][HEAD := b], prev[b := HEAD][next[HEAD] := b], [b] + order)
  {
    var longer := [b] + order;
    LinksAt(next, prev, order, -1);
    var next', prev' := next[b := next[HEAD]][HEAD := b], prev[b := HEAD][next[HEAD] := b];
    forall q | -1 <= q < |longer| ensures next'[At(longer, q)] == At(longer, q + 1) {
      if q > 0 { LinksAt(next, prev, order, q - 1); }
    }
    forall q | 0 <= q <= |longer| ensures prev'[At(longer, q)] == At(longer, q - 1) {
      if q > 0 { LinksAt(next, prev, order, q - 1); }
    }
  }

  /** The representation invariant of the class below. */
  ghost predicate Rep(s: Cache, next: seq<nat>, prev: seq<nat>) {
    |s.bufs| == NBUF && Inv(s) && Linked(next, prev, s.order)
  }

  /** The same, kept closed: code that uses the class works from the methods' contracts and
      never looks inside, so the invariant is spelled out only where a seal is opened. */
  ghost predicate Sealed(s: Cache, next: seq<nat>, prev: seq<nat>) {
    forall u: bool {:trigger Seal(u)} :: Seal(u) ==> Rep(s, next, prev)
  }

  lemma OpenSeal(s: Cache, next: seq<nat>, prev: seq<nat>)
    requires Sealed(s, next, prev)
    ensures Rep(s, next, prev)
  {
    assert Seal(true);
  }

  /** The links, closed in the same way. */
  ghost predicate Chain(next: seq<nat>, prev: seq<nat>, order: seq<nat>) {
    forall u: bool {:trigger Seal(u)} :: Seal(u) ==> Linked(next, prev, order)
  }

  lemma ChainAt(next: seq<nat>, prev: seq<nat>, order: seq<nat>, p: int)
    requires Chain(next, prev, order) && -1 <= p <= |order|
    ensures |next| == |prev| == NBUF + 1 && At(order, p) <= HEAD && (0 <= p < |order| ==> At(order, p) < NBUF)
    ensures p < |order| ==> next[At(order, p)] == At(order, p + 1)
    ensures 0 <= p ==> prev[At(order, p)] == At(order, p - 1)
  {
    assert Seal(true);
    LinksAt(next, prev, order, p);
  }

  ghost predicate HeldBy(bufs: seq<Buf>, k: Key) { exists j :: 0 <= j < |bufs| && bufs[j].key == k && bufs[j].locked }

  /** bget returns a locked buffer exactly if the block is held, and bread then has not begun to fill it. */
  lemma WaitsIff(s: Cache, k: Key)
    requires Inv(s)
    ensures HeldBy(s.bufs, k) ==> Get(s, k).Next? && Lock(Get(s, k).s, Get(s, k).i) == Disabled
    ensures Get(s, k).Next? ==> Get(s, k).i < |Get(s, k).s.bufs| == |s.bufs|
    ensures HeldBy(s.bufs, k) ==> var i := Get(s, k).i;
      Get(s, k).s == s.(bufs := s.bufs[i := s.bufs[i].(refcnt := s.bufs[i].refcnt + 1)])
    ensures Get(s, k).Next? ==>
      Get(s, k).s.bufs[Get(s, k).i].key == k && (Get(s, k).s.bufs[Get(s, k).i].locked <==> HeldBy(s.bufs, k))
  {
    if HeldBy(s.bufs, k) {
      var j :| 0 <= j < |s.bufs| && s.bufs[j].key == k && s.bufs[j].locked;
      GetFindsUser(s, k, j);
    }
  }

  /** How bread comes out: the buffer it read, the one it waits for, or a panic. */
  datatype Reading = Got(i: nat) | Waits(i: nat) | Failed

  class BufCache {
    var bufs: seq<Buf>
    var next: seq<nat>
    var prev: seq<nat>
    var disks: Disks
    ghost var order: seq<nat>
    ghost var touched: set<nat>
    ghost var plain: Disks

    /** The cache as the step model sees it. */
    ghost function Abs(): Cache
      reads this
    {
      Cache(bufs, order, disks, touched, plain)
    }

    ghost predicate Valid()
      reads this
    {
      |bufs| == NBUF && Sealed(Abs(), next, prev)
    }

    /** binit. */
    constructor (ds: Disks)
      ensures Valid() && Abs() == Init(ds)
    {
      var zero := Block(seq(NWORDS, _ => 0));
      bufs := seq(NBUF, _ => Buf(ZERO, false, false, 0, false, zero));
      disks, plain, touched, order := ds, ds, {}, [];
      next := seq(NBUF + 1, _ => HEAD);
      prev := seq(NBUF + 1, _ => HEAD);
      new;
      var b := 0;
      while b < NBUF
        invariant b <= NBUF && Linked(next, prev, order)
        invariant |order| == b && forall q | 0 <= q < b :: order[q] == b - 1 - q
        invariant bufs == Init(ds).bufs && disks == ds && plain == ds && touched == {}
      {
        PushFrontKeepsLinks(next, prev, order, b);
        next := next[b := next[HEAD]];
        prev := prev[b := HEAD];
        prev := prev[next[HEAD] := b];
        next := next[HEAD := b];
        order := [b] + order;
        b := b + 1;
      }
      InitInv(ds);
      assert order == Init(ds).order;
    }

    /** bget's search from the front. */
    method FindBlock(k: Key) returns (i: nat)
      requires |bufs| == NBUF && Chain(next, prev, order) && forall q | 0 <= q < |order| :: order[q] < |bufs|
      ensures i == At(order, FirstFor(bufs, order, k, 0))
    {
      ChainAt(next, prev, order, -1);
      i := next[HEAD];
      ghost var p := 0;
      while i != HEAD
        invariant 0 <= p <= |order| && i == At(order, p)
        invariant FirstFor(bufs, order, k, p) == FirstFor(bufs, order, k, 0)
        decreases |order| - p
      {
        ChainAt(next, prev, order, p);
        if bufs[i].key == k { return; }
        i := next[i];
        p := p + 1;
      }
      assert p == |order|;
    }

    /** bget's search from the back for a buffer to recycle. */
    method FindReusable() returns (i: nat)
      requires |bufs| == NBUF && Chain(next, prev, order) && forall q | 0 <= q < |order| :: order[q] < |bufs|
      ensures i == At(order, LastReusable(bufs, order, |order|) - 1)
    {
      ChainAt(next, prev, order, |order|);
      i := prev[HEAD];
      ghost var p := |order|;
      while i != HEAD
        invariant 0 <= p <= |order| && i == At(order, p - 1)
        invariant LastReusable(bufs, order, p) == LastReusable(bufs, order, |order|)
        decreases p
      {
        ChainAt(next, prev, order, p - 1);
        if bufs[i].refcnt == 0 && !bufs[i].dirty {
          assert LastReusable(bufs, order, p) == p;
          return;
        }
        i := prev[i];
        p := p - 1;
      }
      assert p == 0;
    }

    /** bget up to acquiresleep: reference the buffer that caches the block, or recycle one. */
    method BgetRef(k: Key) returns (ok: bool, i: nat)
      requires |bufs| == NBUF && Linked(next, prev, order)
      modifies `bufs
      ensures ok ==> Get(old(Abs()), k) == Next(Abs(), i)
      ensures !ok ==> Get(old(Abs()), k) == PanicNoBuffers && bufs == old(bufs)
    {
      ghost var s := Abs();
      ok := true;
      i := FindBlock(k);
      if i != HEAD {
        bufs := bufs[i := bufs[i].(refcnt := bufs[i].refcnt + 1)];
        assert Get(s, k) == Next(Abs(), i);
        return;
      }
      i := FindReusable();
      if i != HEAD {
        bufs := bufs[i := bufs[i].(key := k, valid := false, dirty := false, refcnt := 1)];
        assert Get(s, k) == Next(Abs(), i);
        return;
      }
      ok := false;
    }

    /** Go past acquiresleep: the buffer was not locked. */
    method AcquireSleep(i: nat)
      requires Rep(Abs(), next, prev) && Lock(Abs(), i).Next?
      modifies `bufs
      ensures Rep(Abs(), next, prev) && Next(Abs(), i) == Lock(old(Abs()), i)
    {
      LockInv(Abs(), i);
      bufs := bufs[i := bufs[i].(locked := true)];
    }

    /** iderw: write a dirty buffer, otherwise read the block. The flags end as valid and clean. */
    method Iderw(i: nat) returns (ok: bool)
      requires i < |bufs| && |bufs| == NBUF && (bufs[i].dirty || !bufs[i].valid)
      modifies `bufs, `disks
      ensures ok == Has(old(disks), old(bufs[i].key))
      ensures !ok ==> bufs == old(bufs) && disks == old(disks)
      ensures ok && old(bufs[i].dirty) ==>
        && disks == Store(old(disks), old(bufs[i].key), old(bufs[i].data))
        && bufs == old(bufs)[i := old(bufs[i]).(valid := true, dirty := false)]
      ensures ok && !old(bufs[i].dirty) ==>
        && disks == old(disks)
        && bufs == old(bufs)[i := old(bufs[i]).(valid := true, data := Load(disks, old(bufs[i].key)))]
    {
      ok := Has(disks, bufs[i].key);
      if ok {
        if bufs[i].dirty {
          disks := Store(disks, bufs[i].key, bufs[i].data);
          bufs := bufs[i := bufs[i].(dirty := false)];
        } else {
          bufs := bufs[i := bufs[i].(data := Load(disks, bufs[i].key))];
        }
        bufs := bufs[i := bufs[i].(valid := true)];
      }
    }

    /** bread's iderw on a locked buffer. */
    method FillBuffer(i: nat) returns (ok: bool)
      requires Rep(Abs(), next, prev) && i < NBUF && bufs[i].locked
      modifies `bufs, `disks
      ensures ok ==> Rep(Abs(), next, prev) && Fill(old(Abs()), i) == Next(Abs(), i)
      ensures !ok ==> Fill(old(Abs()), i) == PanicDisk
    {
      ok := true;
      if !bufs[i].valid {
        if Has(disks, bufs[i].key) { FillInv(Abs(), i); }
        ok := Iderw(i);
      }
    }

    /** bread, step by step, up to where it may have to wait for the buffer's holder. */
    method BreadSteps(k: Key) returns (r: Reading)
      requires Rep(Abs(), next, prev)
      modifies `bufs, `disks
      ensures r.Got? ==> Rep(Abs(), next, prev) && BufferCache.Bread(old(Abs()), k) == Next(Abs(), r.i)
      ensures r.Waits? ==>
        Rep(Abs(), next, prev) && Get(old(Abs()), k) == Next(Abs(), r.i) && r.i < |bufs| && bufs[r.i].locked
      ensures r.Failed? ==> BufferCache.Bread(old(Abs()), k) in {PanicNoBuffers, PanicDisk}
    {
      ghost var s := Abs();
      var ok, i := BgetRef(k);
      if !ok {
        return Failed;
      }
      StepInv(s, EGet(k));
      if bufs[i].locked {
        return Waits(i);
      }
      AcquireSleep(i);
      ok := FillBuffer(i);
      return if ok then Got(i) else Failed;
    }

    /** bread. It waits exactly if another process holds the block, having taken its reference;
        otherwise it is Get, Lock and Fill, and fails exactly without the block or a buffer for it. */
    method Bread(k: Key) returns (r: Reading)
      requires Valid()
      modifies `bufs, `disks
      ensures r.Waits? <==> HeldBy(old(bufs), k)
      ensures r.Waits? ==>
        Valid() && r.i < |bufs| == |old(bufs)| && bufs[r.i].locked && bufs[r.i].key == k && disks == old(disks)
      ensures r.Waits? ==> bufs == old(bufs)[r.i := old(bufs)[r.i].(refcnt := old(bufs)[r.i].refcnt + 1)]
      ensures r.Got? ==> Valid() && ReadStep(old(Abs()), k, Abs(), r.i)
      ensures r.Failed? <==> !HeldBy(old(bufs), k) && !(Has(old(disks), k) && Available(old(Abs()), k))
    {
      OpenSeal(Abs(), next, prev);
      ghost var s := Abs();
      if !HeldBy(bufs, k) { BreadSucceeds(s, k); }
      WaitsIff(s, k);
      r := BreadSteps(k);
      if r.Got? { BreadEffect(s, k); }
    }

    /** bread of a block nobody holds. */
    method BreadFree(k: Key) returns (ok: bool, i: nat)
      requires Valid() && !HeldBy(bufs, k)
      modifies `bufs, `disks
      ensures ok ==> Valid() && ReadStep(old(Abs()), k, Abs(), i)
      ensures ok <==> Has(old(disks), k) && Available(old(Abs()), k)
    {
      var r := Bread(k);
      ok, i := r.Got?, 0;
      if ok {
        i := r.i;
      }
    }

    /** The holder assigns to b->data. */
    method SetData(i: nat, v: Block)
      requires Valid() && Holds(Abs(), i)
      modifies `bufs, `touched, `plain
      ensures Valid() && Next(Abs(), i) == Modify(old(Abs()), i, v)
    {
      OpenSeal(Abs(), next, prev);
      ModifyInv(Abs(), i, v);
      plain := Store(plain, bufs[i].key, v);
      touched := touched + {i};
      bufs := bufs[i := bufs[i].(data := v)];
    }

    /** log_write's effect on the buffer. */
    method MarkDirty(i: nat)
      requires Valid() && Holds(Abs(), i)
      modifies `bufs, `touched
      ensures Valid() && Next(Abs(), i) == LogWrite(old(Abs()), i)
    {
      OpenSeal(Abs(), next, prev);
      LogWriteInv(Abs(), i);
      touched := touched - {i};
      bufs := bufs[i := bufs[i].(dirty := true)];
    }

    method Bwrite(i: nat)
      requires Valid() && Holds(Abs(), i)
      modifies `bufs, `touched, `disks
      ensures Valid() && Next(Abs(), i) == BufferCache.Bwrite(old(Abs()), i)
    {
      OpenSeal(Abs(), next, prev);
      BwriteInv(Abs(), i);
      ghost var s := Abs();
      touched := touched - {i};
      bufs := bufs[i := bufs[i].(dirty := true)];
      var ok := Iderw(i);
      assert Abs() == BufferCache.Bwrite(s, i).s;
    }

    /** brelse's six pointer assignments: two to unlink, four to link in at the front. */
    method MoveToFront(i: nat)
      requires Linked(next, prev, order) && i in order
      modifies `next, `prev, `order
      ensures Linked(next, prev, order) && order == [i] + Without(old(order), i)
    {
      Unlink(i);
      LinkFront(i);
    }

    method Unlink(i: nat)
      requires Linked(next, prev, order) && i in order
      modifies `next, `prev, `order
      ensures Linked(next, prev, order) && order == Without(old(order), i) && i !in order && i < NBUF
    {
      UnlinkKeeps(next, prev, order, i);
      prev := prev[next[i] := prev[i]];
      next := next[prev[i] := next[i]];
      order := Without(order, i);
    }

    method LinkFront(i: nat)
      requires Linked(next, prev, order) && i !in order && i < NBUF
      modifies `next, `prev, `order
      ensures Linked(next, prev, order) && order == [i] + old(order)
    {
      PushFrontKeepsLinks(next, prev, order, i);
      next := next[i := next[HEAD]];
      prev := prev[i := HEAD];
      prev := prev[next[HEAD] := i];
      next := next[HEAD := i];
      order := [i] + order;
    }

    /** brelse: unlock, drop the reference, and move to the front when it was the last one. */
    method Brelse(i: nat)
      requires Valid() && BufferCache.Brelse(Abs(), i).Next?
      modifies `bufs, `next, `prev, `order
      ensures Valid() && Next(Abs(), i) == BufferCache.Brelse(old(Abs()), i)
    {
      OpenSeal(Abs(), next, prev);
      UnlockInv(Abs(), i);
      bufs := bufs[i := bufs[i].(locked := false)];
      PutInv(Abs(), i);
      assert i in order;
      bufs := bufs[i := bufs[i].(refcnt := bufs[i].refcnt - 1)];
      if bufs[i].refcnt == 0 {
        MoveToFront(i);
      }
    }
  }
}
