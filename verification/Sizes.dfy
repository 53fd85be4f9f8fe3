/** Sizes of finite sets. */
module Sizes {
  lemma SubsetIsNoBigger<T>(a: set<T>, b: set<T>)
    requires a <= b
    ensures |a| <= |b|
  {
    assert b == a + (b - a);
  }

  lemma RangeSize(low: nat, high: nat) returns (range: set<nat>)
    requires low <= high
    ensures |range| == high - low && forall k: nat :: k in range <==> low <= k < high
    decreases high
  {
    if low == high {
      range := {};
    } else {
      var rest := RangeSize(low, high - 1);
      range := rest + {high - 1};
    }
  }
}
