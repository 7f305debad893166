/** The library sort, known only by its contract: a permutation in order, ties in any order. */
module Sorting {

  ghost predicate StrictWeakOrder<T(!new)>(less: (T, T) -> bool) {
    && (forall x :: !less(x, x))
    && (forall x, y, z :: less(x, y) && less(y, z) ==> less(x, z))
    && (forall x, y, z :: less(x, z) ==> less(x, y) || less(y, z))
  }

  ghost predicate InOrder<T>(less: (T, T) -> bool, s: seq<T>) {
    forall i, j :: 0 <= i < j < |s| ==> !less(s[j], s[i])
  }

  /** `sorted[i]` is `s[from[i]]`, and every position of `s` is used exactly once. */
  ghost predicate Rearranges<T(!new)>(sorted: seq<T>, s: seq<T>, from: seq<nat>) {
    && |sorted| == |from| == |s|
    && (forall i :: 0 <= i < |from| ==> from[i] < |s| && sorted[i] == s[from[i]])
    && (forall i, j :: 0 <= i < j < |from| ==> from[i] != from[j])
    && (forall k: nat :: k < |s| ==> k in from)
  }

  method SortSlice<T(!new)>(s: seq<T>, less: (T, T) -> bool) returns (sorted: seq<T>, ghost from: seq<nat>)
    requires StrictWeakOrder(less)
    ensures Rearranges(sorted, s, from)
    ensures InOrder(less, sorted)
  {
    sorted, from := [], [];
    for n := 0 to |s|
      invariant Rearranges(sorted, s[..n], from)
      invariant InOrder(less, sorted)
    {
      var at := 0;
      while at < |sorted| && !less(s[n], sorted[at])
        invariant 0 <= at <= |sorted|
        invariant forall i :: 0 <= i < at ==> !less(s[n], sorted[i])
      {
        at := at + 1;
      }
      InsertRearranges(sorted, s, from, n, at);
      from := from[..at] + [n] + from[at..];
      sorted := sorted[..at] + [s[n]] + sorted[at..];
    }
    assert s[..|s|] == s;
  }

  lemma InsertRearranges<T(!new)>(sorted: seq<T>, s: seq<T>, from: seq<nat>, n: nat, at: nat)
    requires n < |s| && at <= n && Rearranges(sorted, s[..n], from)
    ensures Rearranges(sorted[..at] + [s[n]] + sorted[at..], s[..n + 1], from[..at] + [n] + from[at..])
  {
    var more := from[..at] + [n] + from[at..];
    forall k: nat | k < n + 1 ensures k in more {
      if k < n {
        assert k < |s[..n]| && k in from;
        var i :| 0 <= i < |from| && from[i] == k;
        assert more[if i < at then i else i + 1] == k;
      } else {
        assert more[at] == n;
      }
    }
  }

  lemma SameMembers<T(!new)>(sorted: seq<T>, s: seq<T>, from: seq<nat>)
    requires Rearranges(sorted, s, from)
    ensures forall x :: x in sorted <==> x in s
  {
    forall x | x in s ensures x in sorted {
      var k: nat :| k < |s| && s[k] == x;
      assert k in from;
      var i :| 0 <= i < |from| && from[i] == k;
      assert sorted[i] == x;
    }
  }
}
