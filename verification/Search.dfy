/** Occurrences of one sequence in another. */
module Search {

  predicate OccursAt<T(==)>(s: seq<T>, p: seq<T>, i: nat) {
    i + |p| <= |s| && s[i..i + |p|] == p
  }

  /** The first occurrence of `p`, or -1. */
  function Index<T(==)>(s: seq<T>, p: seq<T>): (r: int)
    ensures r >= 0 ==> OccursAt(s, p, r)
    ensures forall i: nat :: r < 0 || i < r ==> !OccursAt(s, p, i)
  {
    if |s| < |p| then -1
    else if s[..|p|] == p then 0
    else if s == [] then -1
    else
      var r := Index(s[1..], p);
      OccursLater(s, p);
      if r < 0 then -1 else r + 1
  }

  predicate Contains<T(==)>(s: seq<T>, p: seq<T>) { Index(s, p) >= 0 }

  lemma OccursLater<T>(s: seq<T>, p: seq<T>)
    requires s != [] && !OccursAt(s, p, 0)
    ensures forall i: nat :: OccursAt(s, p, i) <==> i > 0 && OccursAt(s[1..], p, i - 1)
  {
    forall i: nat ensures OccursAt(s, p, i) <==> i > 0 && OccursAt(s[1..], p, i - 1) {
      if i > 0 {
        OccursInSuffix(s, p, 1, i - 1);
      }
    }
  }

  /** Nothing that starts in [from, to) is an occurrence, nor can become one when the stream grows. */
  ghost predicate Passed<T>(s: seq<T>, p: seq<T>, from: nat, to: nat) {
    && from <= to <= |s|
    && (from < to ==> to - 1 + |p| <= |s|)
    && forall i: nat :: from <= i < to ==> !OccursAt(s, p, i)
  }

  ghost predicate Printed<T>(s: seq<T>, p: seq<T>, from: nat) {
    exists i: nat :: from <= i && OccursAt(s, p, i)
  }

  ghost predicate Extends<T>(s: seq<T>, t: seq<T>) { |s| <= |t| && t[..|s|] == s }

  lemma OccursInExtension<T>(s: seq<T>, t: seq<T>, p: seq<T>, i: nat)
    requires Extends(s, t) && i + |p| <= |s|
    ensures OccursAt(t, p, i) <==> OccursAt(s, p, i)
  {
    var a, b := t[i..i + |p|], s[i..i + |p|];
    forall k | 0 <= k < |p| ensures a[k] == b[k] {
      assert t[..|s|][i + k] == t[i + k];
    }
    assert a == b;
  }

  lemma OccursInSuffix<T>(s: seq<T>, p: seq<T>, from: nat, i: nat)
    requires from <= |s|
    ensures OccursAt(s[from..], p, i) <==> OccursAt(s, p, from + i)
  {
    if i + from + |p| <= |s| {
      assert s[from..|s|] == s[from..];
      SliceOfSlice(s, from, |s| - from, i, i + |p|);
    }
  }

  lemma PassedStable<T>(s: seq<T>, t: seq<T>, p: seq<T>, from: nat, to: nat)
    requires Extends(s, t) && Passed(s, p, from, to)
    ensures Passed(t, p, from, to)
  {
    forall i: nat | from <= i < to ensures !OccursAt(t, p, i) {
      OccursInExtension(s, t, p, i);
    }
  }

  lemma SliceOfSlice<T>(s: seq<T>, i: nat, n: nat, a: nat, b: nat)
    requires i + n <= |s| && a <= b <= n
    ensures s[i..i + n][a..b] == s[i + a..i + b]
  {
    var x, y := s[i..i + n][a..b], s[i + a..i + b];
    assert |x| == |y| && forall k :: 0 <= k < |x| ==> x[k] == y[k];
  }
}
