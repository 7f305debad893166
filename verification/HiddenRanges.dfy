/** Suppression intervals: kept sorted, non-empty and strictly separated, so that equal sets of
    positions are equal lists. */
module HiddenRanges {
  import opened Numbers

  datatype Range = Range(start: nat, end: nat) {
    predicate Has(x: nat) { start <= x < end }
  }

  ghost predicate In(ranges: seq<Range>, x: nat) {
    exists k :: 0 <= k < |ranges| && ranges[k].Has(x)
  }

  ghost predicate Canonical(ranges: seq<Range>) {
    && (forall k :: 0 <= k < |ranges| ==> ranges[k].start < ranges[k].end)
    && (forall j, k :: 0 <= j < k < |ranges| ==> ranges[j].end < ranges[k].start)
  }

  /** Adds one interval, absorbing every interval it overlaps or touches. */
  function Merge(ranges: seq<Range>, hidden: Range): (merged: seq<Range>)
  {
    if hidden.end <= hidden.start then ranges
    else if ranges == [] then [hidden]
    else if ranges[0].end < hidden.start then [ranges[0]] + Merge(ranges[1..], hidden)
    else if hidden.end < ranges[0].start then [hidden] + ranges
    else Merge(ranges[1..], Range(Min(hidden.start, ranges[0].start), Max(hidden.end, ranges[0].end)))
  }

  lemma InCons(first: Range, rest: seq<Range>, x: nat)
    ensures In([first] + rest, x) <==> first.Has(x) || In(rest, x)
  {
    var all := [first] + rest;
    if first.Has(x) {
      assert all[0].Has(x);
    }
    if In(rest, x) {
      var k :| 0 <= k < |rest| && rest[k].Has(x);
      assert all[k + 1].Has(x);
    }
    if In(all, x) {
      var k :| 0 <= k < |all| && all[k].Has(x);
      assert k > 0 ==> rest[k - 1].Has(x);
    }
  }

  /** Merging keeps the canonical form and hides exactly the old positions and the new ones. */
  lemma {:induction false} MergeHides(ranges: seq<Range>, hidden: Range)
    requires Canonical(ranges)
    ensures Canonical(Merge(ranges, hidden))
    ensures forall x :: In(Merge(ranges, hidden), x) <==> In(ranges, x) || hidden.Has(x)
    ensures hidden.start < hidden.end && ranges != [] ==>
      Merge(ranges, hidden) != [] && Merge(ranges, hidden)[0].start == Min(ranges[0].start, hidden.start)
    ensures hidden.start < hidden.end && ranges == [] ==> Merge(ranges, hidden) == [hidden]
    decreases |ranges|
  {
    if hidden.end <= hidden.start {
    } else if ranges == [] {
      forall x ensures In([hidden], x) <==> In(ranges, x) || hidden.Has(x) {
        InCons(hidden, [], x);
      }
    } else {
      var first, rest := ranges[0], ranges[1..];
      assert ranges == [first] + rest;
      if first.end < hidden.start {
        MergeHides(rest, hidden);
        var later := Merge(rest, hidden);
        StartsAscend(later);
        forall x ensures In([first] + later, x) <==> In(ranges, x) || hidden.Has(x) {
          InCons(first, later, x);
          InCons(first, rest, x);
        }
      } else if hidden.end < first.start {
        StartsAscend(ranges);
        forall x ensures In([hidden] + ranges, x) <==> In(ranges, x) || hidden.Has(x) {
          InCons(hidden, ranges, x);
        }
      } else {
        var joined := Range(Min(hidden.start, first.start), Max(hidden.end, first.end));
        MergeHides(rest, joined);
        forall x ensures In(Merge(rest, joined), x) <==> In(ranges, x) || hidden.Has(x) {
          InCons(first, rest, x);
        }
      }
    }
  }

  lemma StartsAscend(ranges: seq<Range>)
    requires Canonical(ranges)
    ensures forall k :: 0 <= k < |ranges| ==> ranges[0].start <= ranges[k].start
  {
  }

  /** The canonical form is unique: the list is determined by the set of hidden positions. */
  lemma {:induction false} CanonicalIsUnique(a: seq<Range>, b: seq<Range>)
    requires Canonical(a) && Canonical(b)
    requires forall x :: In(a, x) <==> In(b, x)
    ensures a == b
    decreases |a|
  {
    if a == [] {
      if b != [] {
        assert In(b, b[0].start) by { assert b[0].Has(b[0].start); }
      }
    } else {
      assert a[0].Has(a[0].start);
      assert In(b, a[0].start);
      SameFirst(a, b);
      SameFirst(b, a);
      var x, y := a[1..], b[1..];
      assert a == [a[0]] + x && b == [b[0]] + y;
      forall p ensures In(x, p) <==> In(y, p) {
        InCons(a[0], x, p);
        InCons(b[0], y, p);
        StartsAscend(a);
        StartsAscend(b);
      }
      CanonicalIsUnique(x, y);
    }
  }

  /** The first interval of `b` starts no later and ends no earlier than that of `a`. */
  lemma SameFirst(a: seq<Range>, b: seq<Range>)
    requires Canonical(a) && Canonical(b) && a != [] && b != []
    requires forall x :: In(a, x) ==> In(b, x)
    requires forall x :: In(b, x) ==> In(a, x)
    ensures b[0].start <= a[0].start && a[0].start == b[0].start ==> b[0].end >= a[0].end
    ensures b[0].start <= a[0].start
  {
    assert a[0].Has(a[0].start);
    assert In(a, a[0].start);
    assert In(b, a[0].start);
    StartsAscend(b);
    var first, end := a[0], b[0].end;
    assert !In(b, end);
    assert first.Has(end) ==> In(a, end);
  }
}
