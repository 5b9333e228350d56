/** How many integers fit into a range, and sums over finite tables. */
module Counting {
  lemma {:induction false} CardinalityBound(s: set<int>, n: nat)
    requires forall x :: x in s ==> 0 <= x < n
    ensures |s| <= n
    decreases n
  {
    if n == 0 {
      assert forall x :: x in s ==> x in {};
      assert s <= {};
    } else {
      CardinalityBound(s - {n - 1}, n - 1);
      if n - 1 !in s { assert s - {n - 1} == s; }
    }
  }

  /** The sum of all values of a table, in no particular order. */
  ghost function MapSum<K(!new)>(m: map<K, nat>): nat {
    if m == map[] then 0
    else
      var k :| k in m;
      m[k] + MapSum(m - {k})
  }

  lemma {:induction false} MapSumRemove<K(!new)>(m: map<K, nat>, k: K)
    requires k in m
    ensures MapSum(m) == m[k] + MapSum(m - {k})
    decreases |m|
  {
    var j :| j in m && MapSum(m) == m[j] + MapSum(m - {j});
    if j != k {
      MapSumRemove(m - {j}, k);
      MapSumRemove(m - {k}, j);
      assert m - {j} - {k} == m - {k} - {j};
    }
  }

  lemma {:induction false} MapSumUpdate<K(!new)>(m: map<K, nat>, k: K, n: nat)
    ensures MapSum(m[k := n]) == MapSum(m) - (if k in m then m[k] else 0) + n
  {
    MapSumRemove(m[k := n], k);
    assert m[k := n] - {k} == m - {k};
    if k in m {
      MapSumRemove(m, k);
    } else {
      assert m - {k} == m;
    }
  }
}
