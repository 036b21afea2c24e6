/**
 Strictly sorted enumerations: what SQL's ORDER BY on a strict total order and
 JavaScript's Array.sort produce. Both are shown to be determined by the
 elements alone.
 */
module Ordering {

  ghost predicate StrictTotalOn<T(!new)>(less: (T, T) -> bool, s: set<T>) {
    && (forall a | a in s :: !less(a, a))
    && (forall a, b | a in s && b in s :: a == b || less(a, b) || less(b, a))
    && (forall a, b, c | a in s && b in s && c in s && less(a, b) && less(b, c) :: less(a, c))
  }

  ghost predicate StrictlySorted<T>(s: seq<T>, less: (T, T) -> bool) {
    forall i, j | 0 <= i < j < |s| :: less(s[i], s[j])
  }

  function Elements<T>(s: seq<T>): set<T> { set x | x in s }

  ghost predicate IsLeast<T(!new)>(s: set<T>, less: (T, T) -> bool, m: T) {
    m in s && forall x | x in s && x != m :: less(m, x)
  }

  /** The first row of ORDER BY: every non-empty finite set has a least element. */
  lemma {:induction false} LeastExists<T(!new)>(s: set<T>, less: (T, T) -> bool) returns (m: T)
    requires s != {} && StrictTotalOn(less, s)
    ensures IsLeast(s, less, m)
    decreases |s|
  {
    var x :| x in s;
    if s == {x} {
      m := x;
    } else {
      var rest := s - {x};
      assert s == rest + {x};
      var y := LeastExists(rest, less);
      m := if less(x, y) then x else y;
    }
  }

  /** A query result: the elements of a set in increasing order. */
  ghost function Ordered<T(!new)>(s: set<T>, less: (T, T) -> bool): (r: seq<T>)
    requires StrictTotalOn(less, s)
    ensures StrictlySorted(r, less) && Elements(r) == s && |r| == |s|
    decreases |s|
  {
    if s == {} then [] else
      assert exists m :: IsLeast(s, less, m) by { var m := LeastExists(s, less); }
      var m :| IsLeast(s, less, m);
      var rest := Ordered(s - {m}, less);
      LeastThenRest(s, less, m, rest);
      [m] + rest
  }

  lemma LeastThenRest<T(!new)>(s: set<T>, less: (T, T) -> bool, m: T, rest: seq<T>)
    requires IsLeast(s, less, m) && StrictlySorted(rest, less) && Elements(rest) == s - {m}
    ensures StrictlySorted([m] + rest, less) && Elements([m] + rest) == s && |s| == 1 + |s - {m}|
  {
    var r := [m] + rest;
    assert forall x :: x in rest <==> x in Elements(rest);
    assert forall x :: x in r <==> x == m || x in rest;
    forall i, j | 0 <= i < j < |r| ensures less(r[i], r[j]) {
      assert r[j] == rest[j - 1] && rest[j - 1] in rest;
    }
  }

  /** A strictly sorted sequence is determined by its elements. */
  lemma {:induction false} SortedUnique<T(!new)>(a: seq<T>, b: seq<T>, less: (T, T) -> bool)
    requires StrictTotalOn(less, Elements(a))
    requires StrictlySorted(a, less) && StrictlySorted(b, less) && Elements(a) == Elements(b)
    ensures a == b
  {
    EmptyElements(a);
    EmptyElements(b);
    if a != [] {
      assert a[0] in Elements(a);
      assert b[0] in Elements(a);
      var i :| 0 <= i < |b| && b[i] == a[0];
      var j :| 0 <= j < |a| && a[j] == b[0];
      assert i == 0;
      assert a[0] == b[0];
      assert Elements(a[1..]) == Elements(b[1..]) by { TailElements(a, less); TailElements(b, less); }
      assert Elements(a[1..]) <= Elements(a);
      SortedUnique(a[1..], b[1..], less);
    }
  }

  lemma EmptyElements<T>(a: seq<T>)
    ensures Elements(a) == {} <==> a == []
  {
    if a != [] { assert a[0] in Elements(a); }
  }

  lemma TailElements<T(!new)>(a: seq<T>, less: (T, T) -> bool)
    requires a != [] && StrictlySorted(a, less) && !less(a[0], a[0])
    ensures Elements(a[1..]) == Elements(a) - {a[0]}
  {
    forall x | x in Elements(a) - {a[0]} ensures x in a[1..] {
      var i :| 0 <= i < |a| && a[i] == x;
      assert a[1..][i - 1] == x;
    }
  }

  /** In a strictly sorted sequence the elements from a position on are those above the one before it. */
  lemma SortedRest<T(!new)>(a: seq<T>, less: (T, T) -> bool, k: nat, x: T)
    requires StrictTotalOn(less, Elements(a)) && StrictlySorted(a, less) && 0 < k <= |a| && x in a
    ensures x in a[k..] <==> less(a[k - 1], x)
  {
    var i :| 0 <= i < |a| && a[i] == x;
    assert a[k - 1] in Elements(a) && x in Elements(a);
    if i >= k {
      assert a[k..][i - k] == x;
    } else {
      forall j | k <= j < |a| ensures a[j] != x { assert less(a[i], a[j]); }
      if i < k - 1 { assert less(a[i], a[k - 1]); }
    }
  }
}
