/** The request queue of ide.c as a linked list through the buffers: iderw appends, ideintr
    takes the head. */
module IdeQueue {
  import opened Optional

  class Queue {
    var head: Option<nat>                 // idequeue
    var qnext: map<nat, Option<nat>>      // b->qnext
    ghost var q: seq<nat>                 // the queued buffers, active request first

    ghost function After(k: nat): Option<nat>
      requires k < |q|
      reads this
    {
      if k + 1 < |q| then Some(q[k + 1]) else None
    }

    ghost predicate Valid()
      reads this
    {
      && head == (if q == [] then None else Some(q[0]))
      && (forall k | 0 <= k < |q| :: q[k] in qnext && qnext[q[k]] == After(k))
      && (forall j, k | 0 <= j < k < |q| :: q[j] != q[k])
    }

    constructor ()
      ensures Valid() && q == []
    {
      head, qnext, q := None, map[], [];
    }

    /** The appending loop of iderw. `last` is the buffer whose link the loop has reached, none
        while it is still at idequeue. */
    method Append(b: nat)
      requires Valid() && b !in q
      modifies this
      ensures Valid() && q == old(q) + [b] && (head == Some(b) <==> old(q) == [])
    {
      qnext := qnext[b := None];
      var last, at := None, head;
      ghost var k := 0;
      while at.Some?
        invariant k <= |q| && q == old(q) && head == old(head)
        invariant at == (if k < |q| then Some(q[k]) else None) && last == (if k == 0 then None else Some(q[k - 1]))
        invariant forall j | 0 <= j < |q| :: q[j] in qnext && qnext[q[j]] == After(j)
        decreases |q| - k
      {
        last, at := at, qnext[at.value];
        k := k + 1;
      }
      if last.None? {
        head := Some(b);
      } else {
        qnext := qnext[last.value := Some(b)];
      }
      q := q + [b];
    }

    /** The removal in ideintr. */
    method TakeHead() returns (b: Option<nat>)
      requires Valid()
      modifies this
      ensures Valid()
      ensures old(q) == [] ==> b == None && q == []
      ensures old(q) != [] ==> b == Some(old(q)[0]) && q == old(q)[1..]
    {
      b := head;
      if b.Some? {
        ghost var was := q;
        head := qnext[b.value];
        q := q[1..];
        assert forall k | 0 <= k < |q| :: q[k] == was[k + 1];
      }
    }
  }
}
