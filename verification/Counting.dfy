/** Sets of node and server numbers. */
module Counting {

  function Ids(n: nat): (ids: set<nat>)
    ensures forall i: nat :: i in ids <==> i < n
    ensures |ids| == n
  {
    if n == 0 then {} else Ids(n - 1) + {n - 1}
  }

  lemma SubsetCount<T>(a: set<T>, b: set<T>)
    requires a <= b
    ensures |a| <= |b|
    ensures |a| == |b| ==> a == b
  {
    assert |b| == |a| + |b - a| by { assert b == a + (b - a); }
    if |a| == |b| {
      assert b - a == {};
    }
  }

  /** Two sets that are together larger than what contains them have a common element. */
  lemma SetsMeet(p: set<nat>, q: set<nat>, n: nat) returns (i: nat)
    requires p <= Ids(n) && q <= Ids(n) && |p| + |q| > n
    ensures i in p && i in q
  {
    if p * q == {} {
      assert |p + q| == |p| + |q|;
      SubsetCount(p + q, Ids(n));
      assert false;
    }
    i :| i in p * q;
  }

  /** A subset of any smaller size. */
  lemma {:induction false} Pick(q: set<nat>, k: nat) returns (p: set<nat>)
    requires k <= |q|
    ensures p <= q && |p| == k
  {
    if k == 0 {
      p := {};
    } else {
      var x :| x in q;
      var rest := Pick(q - {x}, k - 1);
      p := rest + {x};
    }
  }
}
