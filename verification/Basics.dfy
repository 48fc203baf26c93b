/** What several of the services need. */
module Basics {
  type Byte = x: int | 0 <= x < 256

  lemma SubsetSize<T>(a: set<T>, b: set<T>)
    requires a <= b
    ensures |a| <= |b|
    ensures a != b ==> |a| < |b|
  {
    assert |b| == |a| + |b - a| by { assert b == a + (b - a); }
    if a != b {
      assert b - a != {};
    }
  }

  lemma Associate<T>(x: seq<T>, y: seq<T>, z: seq<T>)
    ensures x + (y + z) == (x + y) + z
  {}

  // ---- induction along the natural numbers ----------------------------------------------------

  ghost predicate Onward(holds: nat -> bool, i: nat) { holds(i) ==> holds(i + 1) }

  lemma {:induction false} AllTheWay(holds: nat -> bool, i: nat, n: nat)
    requires i <= n && holds(i) && forall k: nat | k < n :: Onward(holds, k)
    ensures holds(n)
    decreases n - i
  {
    if i < n {
      assert Onward(holds, i);
      AllTheWay(holds, i + 1, n);
    }
  }
}
