/** The list of buffers is in order of last release, and bget recycles the buffer released longest ago.
    When each buffer was released is observed from outside, from the steps of a run. */
module BufferRecency {
  import opened WriteAheadLog
  import opened BufferCache

  /** The time, and for each buffer when its last reference was dropped. */
  datatype Seen = Seen(clock: int, released: seq<int>)

  /** The last reference to a buffer was dropped in this step. */
  predicate Drops(e: Event, t: Cache) { e.EPut? && e.i < |t.bufs| && t.bufs[e.i].refcnt == 0 }

  function Observe(o: Seen, e: Event, t: Cache): Seen {
    Seen(o.clock + 1, if Drops(e, t) && e.i < |o.released| then o.released[e.i := o.clock] else o.released)
  }

  ghost function Watch(o: Seen, s: Cache, es: seq<Event>): Seen
    decreases |es|
  {
    if es == [] || !InOrder(s) || !Step(s, es[0]).Next? then o
    else Watch(Observe(o, es[0], Step(s, es[0]).s), Step(s, es[0]).s, es[1..])
  }

  /** Most recently released first. */
  ghost predicate ByRelease(o: Seen, s: Cache) {
    && |o.released| == |s.bufs| && InOrder(s)
    && (forall i | 0 <= i < |o.released| :: o.released[i] < o.clock) && Falling(o.released, s.order)
  }

  ghost predicate Falling(released: seq<int>, order: seq<nat>)
    requires forall q | 0 <= q < |order| :: order[q] < |released|
  {
    forall p, q | 0 <= p < q < |order| :: released[order[p]] > released[order[q]]
  }

  /** binit counts as releasing the buffers one after the other. */
  function Boot(): Seen { Seen(0, seq(NBUF, i => i - NBUF)) }

  lemma BootByRelease(disks: Disks)
    ensures ByRelease(Boot(), Init(disks))
  {
  }

  lemma FrontFalling(released: seq<int>, order: seq<nat>, p: nat, moved: seq<nat>, now: int)
    requires (forall q | 0 <= q < |order| :: order[q] < |released|) && Falling(released, order)
    requires (forall i | 0 <= i < |released| :: released[i] < now) && p < |order| == |moved|
    requires forall q | 0 <= q < |order| :: moved[q] == order[OldPos(p, q)]
    requires forall a, b | 0 <= a < b < |order| :: order[a] != order[b]
    ensures (forall q | 0 <= q < |moved| :: moved[q] < |released|) && Falling(released[order[p] := now], moved)
  {
    forall a, b | 0 <= a < b < |moved|
      ensures released[order[p] := now][moved[a]] > released[order[p] := now][moved[b]]
    {
      assert moved[a] == order[OldPos(p, a)] && moved[b] == order[OldPos(p, b)] && OldPos(p, b) != p;
    }
  }

  lemma PutByRelease(o: Seen, s: Cache, i: nat)
    requires Permutation(s) && ByRelease(o, s) && Put(s, i).Next?
    ensures ByRelease(Observe(o, EPut(i), Put(s, i).s), Put(s, i).s)
  {
    if s.bufs[i].refcnt == 1 { DroppedToFront(o.released, s.order, i, o.clock); }
  }

  lemma DroppedToFront(released: seq<int>, order: seq<nat>, i: nat, now: int)
    requires (forall q | 0 <= q < |order| :: order[q] < |released|) && Falling(released, order) && i in order
    requires forall k | 0 <= k < |released| :: released[k] < now
    requires forall a, b | 0 <= a < b < |order| :: order[a] != order[b]
    ensures var moved := [i] + Without(order, i);
      (forall q | 0 <= q < |moved| :: moved[q] < |released|) && Falling(released[i := now], moved)
  {
    var p := MovedToFront(order, i);
    FrontFalling(released, order, p, [i] + Without(order, i), now);
  }

  lemma StepByRelease(o: Seen, s: Cache, e: Event)
    requires Permutation(s) && ByRelease(o, s) && Step(s, e).Next?
    ensures ByRelease(Observe(o, e, Step(s, e).s), Step(s, e).s)
  {
    if e.EPut? { PutByRelease(o, s, e.i); }
  }

  lemma {:induction false} RunByRelease(o: Seen, s: Cache, es: seq<Event>, t: Cache)
    requires Inv(s) && ByRelease(o, s) && Reaches(s, es, t)
    ensures ByRelease(Watch(o, s, es), t)
    decreases |es|
  {
    if es != [] {
      StepInv(s, es[0]);
      StepByRelease(o, s, es[0]);
      RunByRelease(Observe(o, es[0], Step(s, es[0]).s), Step(s, es[0]).s, es[1..], t);
    }
  }

  /** In every run, a bget that recycles a buffer takes, among those that are clean and not in use,
      the one released longest ago. */
  lemma RecyclesOldest(disks: Disks, es: seq<Event>, s: Cache, k: Key, j: nat)
    requires Reaches(Init(disks), es, s) && InOrder(s) && Get(s, k).Next? && Get(s, k).i < |s.bufs|
    requires s.bufs[Get(s, k).i].key != k && j < |s.bufs| && Reusable(s.bufs[j]) && j != Get(s, k).i
    ensures var o := Watch(Boot(), Init(disks), es);
      |o.released| == |s.bufs| && o.released[Get(s, k).i] < o.released[j] && Reusable(s.bufs[Get(s, k).i])
  {
    InitInv(disks);
    BootByRelease(disks);
    RunByRelease(Boot(), Init(disks), es, s);
    RunInv(Init(disks), es, s);
    OldestTaken(Watch(Boot(), Init(disks), es), s, k, j);
  }

  lemma OldestTaken(o: Seen, s: Cache, k: Key, j: nat)
    requires Permutation(s) && ByRelease(o, s) && Get(s, k).Next? && Get(s, k).i < |s.bufs|
    requires s.bufs[Get(s, k).i].key != k && j < |s.bufs| && Reusable(s.bufs[j]) && j != Get(s, k).i
    ensures o.released[Get(s, k).i] < o.released[j] && Reusable(s.bufs[Get(s, k).i])
  {
    assert j in s.order;
    var q: nat :| q < |s.order| && s.order[q] == j;
    var r := LastReusable(s.bufs, s.order, |s.order|);
    assert s.order[r - 1] == Get(s, k).i && q < r - 1;
  }
}
