/** Finite counting. */
module Counting {

  /** Elements with different ranks between 1 and limit are at most limit many. */
  lemma {:induction false} Pigeonhole(s: set<nat>, rank: map<nat, nat>, limit: nat)
    requires forall p :: p in s ==> p in rank && 1 <= rank[p] <= limit
    requires forall p, q :: p in s && q in s && p != q ==> rank[p] != rank[q]
    ensures |s| <= limit
    decreases limit
  {
    if exists p :: p in s && rank[p] == limit {
      var p :| p in s && rank[p] == limit;
      Pigeonhole(s - {p}, rank, limit - 1);
    } else if limit > 0 {
      Pigeonhole(s, rank, limit - 1);
    }
  }

  /** The numbers below n. */
  function UpTo(n: nat): (s: set<nat>)
    ensures |s| == n && forall p: nat :: p in s <==> p < n
  {
    if n == 0 then {} else UpTo(n - 1) + {n - 1}
  }

  /** The least element of a non-empty set. */
  ghost function Least(s: set<nat>): (m: nat)
    requires s != {}
    ensures m in s && forall x :: x in s ==> m <= x
  {
    var x :| x in s;
    if s == {x} then x
    else
      var rest := s - {x};
      assert s == rest + {x};
      assert rest != {};
      var m := Least(rest);
      if x < m then x else m
  }

  lemma {:induction false} SubsetSize<T>(a: set<T>, b: set<T>)
    requires a <= b
    ensures |a| <= |b|
  {
    assert b == a + (b - a);
    assert |b| == |a| + |b - a|;
  }

  /** A set covered by two sets is no larger than both together. */
  lemma UnionSize<T>(s: set<T>, a: set<T>, b: set<T>)
    requires s <= a + b
    ensures |s| <= |a| + |b|
  {
    SubsetSize(s, a + b);
    assert a + b == a + (b - a);
    SubsetSize(b - a, b);
  }
}
