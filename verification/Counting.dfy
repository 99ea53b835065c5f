/** How many different numbers there can be. */
module Counting {

  predicate Distinct(q: seq<nat>) { forall i, j | 0 <= i < j < |q| :: q[i] != q[j] }

  function ToSet(q: seq<nat>): (s: set<nat>)
    ensures forall x :: x in s <==> x in q
  {
    set x | x in q
  }

  function Below(n: nat): (s: set<nat>)
    ensures |s| == n && forall x: nat :: x in s <==> x < n
  {
    if n == 0 then {} else Below(n - 1) + {n - 1}
  }

  lemma {:induction false} SetOfDistinct(q: seq<nat>)
    requires Distinct(q)
    ensures |ToSet(q)| == |q|
  {
    if q != [] {
      var rest := q[1..];
      SetOfDistinct(rest);
      assert q == [q[0]] + rest;
      assert ToSet(q) == ToSet(rest) + {q[0]};
    }
  }

  lemma {:induction false} SubsetSize(a: set<nat>, b: set<nat>)
    requires a <= b
    ensures |a| <= |b|
  {
    if a != {} {
      var x :| x in a;
      SubsetSize(a - {x}, b - {x});
    }
  }

  /** A sequence of different elements of another is no longer than it. */
  lemma NoLonger(a: seq<nat>, b: seq<nat>)
    requires Distinct(a) && Distinct(b) && forall x | x in a :: x in b
    ensures |a| <= |b|
  {
    SetOfDistinct(a);
    SetOfDistinct(b);
    SubsetSize(ToSet(a), ToSet(b));
  }

  /** At most n different numbers are below n. */
  lemma AtMost(q: seq<nat>, n: nat)
    requires Distinct(q) && forall x | x in q :: x < n
    ensures |q| <= n
  {
    SetOfDistinct(q);
    SubsetSize(ToSet(q), Below(n));
  }

  lemma BothDistinct(a: seq<nat>, b: seq<nat>)
    requires Distinct(a) && Distinct(b) && forall x | x in a :: x !in b
    ensures Distinct(a + b)
  {
    forall i, j | 0 <= i < j < |a + b| ensures (a + b)[i] != (a + b)[j] {
      if i < |a| <= j { assert (a + b)[i] in a && (a + b)[j] in b; }
    }
  }
}
