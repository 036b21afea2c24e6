/** SQL's COALESCE(sum(...), 0) over the rows of a table. */
module Sums {

  ghost function Sum(m: map<nat, int>): int
    decreases |m|
  {
    if m == map[] then 0 else
      var k :| k in m;
      assert (m - {k}).Keys == m.Keys - {k};
      m[k] + Sum(m - {k})
  }

  /** The order of addition does not matter. */
  lemma {:induction false} SumRemove(m: map<nat, int>, k: nat)
    requires k in m
    ensures Sum(m) == m[k] + Sum(m - {k})
    decreases |m|
  {
    var j :| j in m && Sum(m) == m[j] + Sum(m - {j});
    if j != k {
      assert (m - {j}).Keys == m.Keys - {j} && (m - {k}).Keys == m.Keys - {k};
      SumRemove(m - {j}, k);
      SumRemove(m - {k}, j);
      assert m - {j} - {k} == m - {k} - {j};
    }
  }

  lemma SumAdd(m: map<nat, int>, k: nat, v: int)
    requires k !in m
    ensures Sum(m[k := v]) == Sum(m) + v
  {
    SumRemove(m[k := v], k);
    assert m[k := v] - {k} == m;
  }

  /** Rows that contribute nothing may be left out. */
  lemma {:induction false} SumPadded(m: map<nat, int>, all: map<nat, int>)
    requires m.Keys <= all.Keys && forall k | k in all :: all[k] == if k in m then m[k] else 0
    ensures Sum(all) == Sum(m)
    decreases |all|
  {
    if all == map[] {
      assert m == map[];
    } else {
      var k :| k in all;
      assert (all - {k}).Keys == all.Keys - {k};
      SumRemove(all, k);
      if k in m { SumRemove(m, k); } else { assert m - {k} == m; }
      SumPadded(m - {k}, all - {k});
    }
  }

  /** Bounds on every row add up. */
  lemma {:induction false} SumBounds(
    whole: map<nat, int>, left: map<nat, int>, right: map<nat, int>, slack: map<nat, int>)
    requires whole.Keys == left.Keys == right.Keys == slack.Keys
    requires forall k | k in whole :: 0 <= whole[k] - left[k] - right[k] <= slack[k]
    ensures 0 <= Sum(whole) - Sum(left) - Sum(right) <= Sum(slack)
    decreases |whole|
  {
    if whole != map[] {
      var k :| k in whole;
      SumRemove(whole, k);
      SumRemove(left, k);
      SumRemove(right, k);
      SumRemove(slack, k);
      assert (whole - {k}).Keys == whole.Keys - {k};
      SumBounds(whole - {k}, left - {k}, right - {k}, slack - {k});
    } else {
      assert left == map[] && right == map[] && slack == map[];
    }
  }

  lemma {:induction false} SumNonNegative(m: map<nat, int>)
    requires forall k | k in m :: m[k] >= 0
    ensures Sum(m) >= 0
    decreases |m|
  {
    if m != map[] {
      var k :| k in m;
      SumRemove(m, k);
      assert (m - {k}).Keys == m.Keys - {k};
      SumNonNegative(m - {k});
    }
  }

  /** Adding up ones counts the rows. */
  lemma {:induction false} SumOfOnes(m: map<nat, int>)
    requires forall k | k in m :: m[k] == 1
    ensures Sum(m) == |m|
    decreases |m|
  {
    if m != map[] {
      var k :| k in m;
      SumRemove(m, k);
      assert (m - {k}).Keys == m.Keys - {k} && |(m - {k}).Keys| == |m.Keys| - 1;
      SumOfOnes(m - {k});
    }
  }
}
