/** The presentation gate object and the visible parts it lets through. */
module AttachPresentation {
  import opened HiddenRanges
  import opened Numbers
  import opened Options
  import opened PresentationGate

  /** `parts` are the maximal stretches of `data` whose positions are visible, in order; `at` says
      where each begins. */
  ghost predicate VisibleStretches<T>(g: Gate, start: nat, data: seq<T>, parts: seq<seq<T>>, at: seq<nat>) {
    && |at| == |parts|
    && (forall k :: 0 <= k < |parts| ==> 0 < |parts[k]| && at[k] + |parts[k]| <= |data|)
    && (forall k :: 0 <= k < |parts| ==> parts[k] == data[at[k]..at[k] + |parts[k]|])
    && (forall k :: 0 < k < |parts| ==> at[k - 1] + |parts[k - 1]| < at[k])
    && (forall i :: 0 <= i < |data| ==> (!HiddenAt(g, start, i) <==> InPart(parts, at, i)))
  }

  ghost predicate HiddenAt(g: Gate, start: nat, i: nat) { Hidden(g, start + i) }

  ghost predicate InPart<T>(parts: seq<seq<T>>, at: seq<nat>, i: int)
    requires |at| == |parts|
  {
    exists k :: 0 <= k < |parts| && at[k] <= i < at[k] + |parts[k]|
  }

  lemma MergePasses(ranges: seq<Range>, n: nat, hidden: Range)
    requires n < |ranges| && hidden.start < hidden.end && ranges[n].end < hidden.start
    ensures ranges[..n] + Merge(ranges[n..], hidden) == ranges[..n + 1] + Merge(ranges[n + 1..], hidden)
  {
    var later := Merge(ranges[n + 1..], hidden);
    assert ranges[n..][1..] == ranges[n + 1..] && ranges[n..][0] == ranges[n];
    assert Merge(ranges[n..], hidden) == [ranges[n]] + later;
    assert ranges[..n] + [ranges[n]] == ranges[..n + 1];
    Associative(ranges[..n], [ranges[n]], later);
  }

  lemma Associative<T>(a: seq<T>, b: seq<T>, c: seq<T>)
    ensures a + (b + c) == (a + b) + c
  {
  }

  lemma MergeJoins(ranges: seq<Range>, n: nat, hidden: Range)
    requires n < |ranges| && Canonical(ranges) && hidden.start < hidden.end
    requires hidden.start <= ranges[n].end && ranges[n].start <= hidden.end
    ensures n + 1 < |ranges| ==> Min(hidden.start, ranges[n].start) <= ranges[n + 1].end
    ensures Min(hidden.start, ranges[n].start) < Max(hidden.end, ranges[n].end)
    ensures Merge(ranges[n..], hidden) ==
      Merge(ranges[n + 1..], Range(Min(hidden.start, ranges[n].start), Max(hidden.end, ranges[n].end)))
  {
    assert ranges[n..][1..] == ranges[n + 1..];
  }

  lemma MergeStops(ranges: seq<Range>, n: nat, hidden: Range)
    requires n <= |ranges|
    requires n < |ranges| && hidden.start < hidden.end ==> hidden.start <= ranges[n].end && hidden.end < ranges[n].start
    ensures hidden.start < hidden.end ==> Merge(ranges[n..], hidden) == [hidden] + ranges[n..]
    ensures hidden.end <= hidden.start ==> Merge(ranges, hidden) == ranges
  {
  }

  class FileTransferPresentation {
    var legacyActive: bool
    var openStart: Cursor
    var ranges: seq<Range>
    var commandOpenStart: Cursor
    var commandId: string
    var commandActive: bool

    ghost function Value(): Gate
      reads this
    {
      Gate(legacyActive, openStart, ranges, commandOpenStart, commandId, commandActive)
    }

    constructor ()
      ensures Value() == CLOSED_GATE
    {
      legacyActive, openStart, ranges := false, None, [];
      commandOpenStart, commandId, commandActive := None, "", false;
    }

    /** Passes the intervals that end before the new one starts. */
    method FirstTouching(hidden: Range) returns (first: nat)
      requires hidden.start < hidden.end
      ensures first <= |ranges| && (first < |ranges| ==> hidden.start <= ranges[first].end)
      ensures Merge(ranges, hidden) == ranges[..first] + Merge(ranges[first..], hidden)
    {
      hide Merge;
      first := 0;
      assert ranges[..0] == [] && ranges[0..] == ranges;
      while first < |ranges| && ranges[first].end < hidden.start
        invariant 0 <= first <= |ranges|
        invariant Merge(ranges, hidden) == ranges[..first] + Merge(ranges[first..], hidden)
      {
        MergePasses(ranges, first, hidden);
        first := first + 1;
      }
    }

    /** Joins the intervals that overlap or touch the new one. */
    method JoinTouching(first: nat, hidden: Range) returns (last: nat, joined: Range)
      requires Canonical(ranges) && hidden.start < hidden.end
      requires first <= |ranges| && (first < |ranges| ==> hidden.start <= ranges[first].end)
      ensures first <= last <= |ranges|
      ensures Merge(ranges[first..], hidden) == [joined] + ranges[last..]
    {
      hide Merge, Min, Max;
      last, joined := first, hidden;
      while last < |ranges| && ranges[last].start <= joined.end
        invariant first <= last <= |ranges| && joined.start < joined.end
        invariant last < |ranges| ==> joined.start <= ranges[last].end
        invariant Merge(ranges[first..], hidden) == Merge(ranges[last..], joined)
      {
        MergeJoins(ranges, last, joined);
        joined := Range(Min(joined.start, ranges[last].start), Max(joined.end, ranges[last].end));
        last := last + 1;
      }
      MergeStops(ranges, last, joined);
    }

    /** Keeps the intervals ordered and merged, in place. */
    method AddHiddenRange(hidden: Range)
      requires Canonical(ranges)
      modifies `ranges
      ensures Canonical(ranges)
      ensures ranges == Merge(old(ranges), hidden)
    {
      hide Merge, Canonical;
      MergeHides(ranges, hidden);
      if hidden.end <= hidden.start {
        MergeStops(ranges, 0, hidden);
        return;
      }
      var first := FirstTouching(hidden);
      var last, joined := JoinTouching(first, hidden);
      assert ranges[..first] + [joined] + ranges[last..] == ranges[..first] + ([joined] + ranges[last..]);
      ranges := ranges[..first] + [joined] + ranges[last..];
    }

    method CloseTerminalCommandRange(cursor: Cursor)
      requires Canonical(ranges)
      modifies `ranges, `commandOpenStart
      ensures Canonical(ranges) && commandOpenStart == None
      ensures ranges == CloseInterval(old(ranges), old(commandOpenStart), cursor)
    {
      if commandOpenStart == None {
        return;
      }
      if cursor.Some? && cursor.value >= commandOpenStart.value {
        AddHiddenRange(Range(commandOpenStart.value, cursor.value));
      }
      commandOpenStart := None;
    }

    method AddTerminalCommandHiddenRange(start: Cursor, end: Cursor)
      requires Canonical(ranges)
      modifies `ranges
      ensures Canonical(ranges) && ranges == CloseInterval(old(ranges), start, end)
    {
      if start.None? || end.None? || end.value < start.value {
        return;
      }
      AddHiddenRange(Range(start.value, end.value));
    }

    method HandleEvent(event: Event)
      requires Canonical(ranges)
      modifies this
      ensures Canonical(ranges)
      ensures Value() == Handle(old(Value()), event)
    {
      match event
      case LeaseAcquired(cursor) =>
        if cursor.Some? {
          openStart := cursor;
          legacyActive := false;
        } else {
          legacyActive := true;
        }
      case LeaseReleased(cursor) =>
        if openStart.Some? {
          if cursor.Some? && cursor.value >= openStart.value {
            AddHiddenRange(Range(openStart.value, cursor.value));
          }
          openStart := None;
        }
        legacyActive := false;
      case TerminalReleased(cursor) =>
        CloseTerminalCommandRange(cursor);
        commandActive := false;
        commandId := "";
      case CommandStarted(cursor, id) =>
        if cursor.Some? {
          commandOpenStart := cursor;
        }
        commandId := id;
        commandActive := true;
      case OutputStarted(cursor, id) =>
        if commandId == "" || commandId == id {
          CloseTerminalCommandRange(cursor);
        }
      case CommandEnded(start, end) =>
        AddTerminalCommandHiddenRange(start, end);
      case TransferActive =>
        if openStart == None {
          legacyActive := true;
        }
      case TransferEnded =>
        if openStart == None {
          legacyActive := false;
        }
      case OtherEvent =>
    }

    /** Applies the retained events, oldest first, before raw output is shown. */
    method Refresh(retained: seq<Event>)
      requires Canonical(ranges)
      modifies this
      ensures Canonical(ranges)
      ensures Value() == Run(old(Value()), retained)
    {
      assert retained[..0] == [];
      for i := 0 to |retained|
        invariant Canonical(ranges)
        invariant Value() == Run(old(Value()), retained[..i])
      {
        assert retained[..i + 1] == retained[..i] + [retained[i]];
        RunConcat(old(Value()), retained[..i], [retained[i]]);
        assert Run(Value(), [retained[i]]) == Run(Handle(Value(), retained[i]), []);
        HandleEvent(retained[i]);
      }
      assert retained[..|retained|] == retained;
    }

    method IsHidden(cursor: nat) returns (hidden: bool)
      requires !legacyActive
      ensures hidden <==> Hidden(Value(), cursor)
    {
      hidden := openStart.Some? && cursor >= openStart.value;
      if !hidden && commandOpenStart.Some? && cursor >= commandOpenStart.value {
        hidden := true;
      }
      if !hidden {
        for k := 0 to |ranges|
          invariant forall j :: 0 <= j < k ==> !ranges[j].Has(cursor)
        {
          if ranges[k].start <= cursor < ranges[k].end {
            assert ranges[k].Has(cursor);
            return true;
          }
        }
      }
    }

    method VisibleParts<T>(start: nat, data: seq<T>) returns (parts: seq<seq<T>>, ghost at: seq<nat>)
      ensures VisibleStretches(Value(), start, data, parts, at)
    {
      hide Hidden, HiddenAt, Scanned, Stretches, VisibleStretches;
      parts, at := [], [];
      ScanStart(Value(), start, data);
      if legacyActive {
        EverythingHidden(Value(), start, data);
        return;
      }
      var visibleStart := -1;
      var index := 0;
      while index < |data|
        invariant 0 <= index <= |data| && -1 <= visibleStart <= index && |at| == |parts|
        invariant Scanned(Value(), start, data, parts, at, visibleStart, index)
      {
        var hidden := IsHidden(start + index);
        HiddenHere(Value(), start, index);
        ScanByte(Value(), start, data, parts, at, visibleStart, index, hidden);
        if hidden {
          if visibleStart >= 0 {
            parts, at := parts + [data[visibleStart..index]], at + [visibleStart];
            visibleStart := -1;
          }
        } else if visibleStart < 0 {
          visibleStart := index;
        }
        index := index + 1;
      }
      ScanEnd(Value(), start, data, parts, at, visibleStart);
      if visibleStart >= 0 {
        parts, at := parts + [data[visibleStart..]], at + [visibleStart];
      }
    }
  }

  lemma EverythingHidden<T>(g: Gate, start: nat, data: seq<T>)
    requires g.legacy
    ensures VisibleStretches(g, start, data, [], [])
  {
  }

  /** The scan up to `index`: the stretch begun at `visibleStart`, if any, is still growing. */
  ghost predicate Scanned<T>(g: Gate, start: nat, data: seq<T>, parts: seq<seq<T>>, at: seq<nat>,
                             visibleStart: int, index: nat) {
    && -1 <= visibleStart < index + 1
    && |at| == |parts|
    && (visibleStart < 0 ==>
         Stretches(g, start, data, parts, at, index) && (at != [] ==> at[|at| - 1] + |parts[|at| - 1]| < index))
    && (visibleStart >= 0 ==>
         && visibleStart < index
         && Stretches(g, start, data, parts, at, visibleStart)
         && (at != [] ==> at[|at| - 1] + |parts[|at| - 1]| < visibleStart)
         && forall i :: visibleStart <= i < index ==> !HiddenAt(g, start, i))
  }

  lemma HiddenHere(g: Gate, start: nat, i: nat)
    ensures HiddenAt(g, start, i) <==> Hidden(g, start + i)
  {
  }

  lemma ScanStart<T>(g: Gate, start: nat, data: seq<T>)
    ensures Scanned(g, start, data, [], [], -1, 0)
  {
  }

  lemma ScanEnd<T>(g: Gate, start: nat, data: seq<T>, parts: seq<seq<T>>, at: seq<nat>, visibleStart: int)
    requires Scanned(g, start, data, parts, at, visibleStart, |data|)
    ensures visibleStart < 0 ==> VisibleStretches(g, start, data, parts, at)
    ensures visibleStart >= 0 ==>
      visibleStart <= |data| && VisibleStretches(g, start, data, parts + [data[visibleStart..]], at + [visibleStart])
  {
    hide HiddenAt;
    if visibleStart >= 0 {
      OneMoreStretch(g, start, data, parts, at, visibleStart, |data|);
      assert data[visibleStart..|data|] == data[visibleStart..];
    }
  }

  lemma ScanByte<T>(g: Gate, start: nat, data: seq<T>, parts: seq<seq<T>>, at: seq<nat>,
                    visibleStart: int, index: nat, hidden: bool)
    requires index < |data| && Scanned(g, start, data, parts, at, visibleStart, index)
    requires hidden <==> HiddenAt(g, start, index)
    ensures hidden && visibleStart < 0 ==> Scanned(g, start, data, parts, at, -1, index + 1)
    ensures hidden && visibleStart >= 0 ==>
      Scanned(g, start, data, parts + [data[visibleStart..index]], at + [visibleStart], -1, index + 1)
    ensures !hidden ==>
      Scanned(g, start, data, parts, at, if visibleStart < 0 then index else visibleStart, index + 1)
  {
    hide HiddenAt;
    if hidden {
      if visibleStart >= 0 {
        OneMoreStretch(g, start, data, parts, at, visibleStart, index);
        HiddenByte(g, start, data, parts + [data[visibleStart..index]], at + [visibleStart], index);
      } else {
        HiddenByte(g, start, data, parts, at, index);
      }
    }
  }

  /** VisibleStretches for the first `n` bytes. */
  ghost predicate Stretches<T>(g: Gate, start: nat, data: seq<T>, parts: seq<seq<T>>, at: seq<nat>, n: int) {
    && 0 <= n <= |data|
    && |at| == |parts|
    && (forall k :: 0 <= k < |parts| ==> 0 < |parts[k]| && at[k] + |parts[k]| <= n)
    && (forall k :: 0 <= k < |parts| ==> parts[k] == data[at[k]..at[k] + |parts[k]|])
    && (forall k :: 0 < k < |parts| ==> at[k - 1] + |parts[k - 1]| < at[k])
    && (forall i :: 0 <= i < n ==> (!HiddenAt(g, start, i) <==> InPart(parts, at, i)))
  }

  lemma HiddenByte<T>(g: Gate, start: nat, data: seq<T>, parts: seq<seq<T>>, at: seq<nat>, n: int)
    requires Stretches(g, start, data, parts, at, n) && n < |data| && HiddenAt(g, start, n)
    ensures Stretches(g, start, data, parts, at, n + 1)
  {
    assert !InPart(parts, at, n);
  }

  lemma OneMoreStretch<T>(g: Gate, start: nat, data: seq<T>, parts: seq<seq<T>>, at: seq<nat>, from: nat, to: nat)
    requires Stretches(g, start, data, parts, at, from) && from < to <= |data|
    requires at != [] ==> at[|at| - 1] + |parts[|at| - 1]| < from
    requires forall i :: from <= i < to ==> !HiddenAt(g, start, i)
    ensures Stretches(g, start, data, parts + [data[from..to]], at + [from], to)
  {
    hide HiddenAt, InPart;
    forall i | 0 <= i < to
      ensures InPart(parts + [data[from..to]], at + [from], i) <==> InPart(parts, at, i) || from <= i
    {
      InMoreParts(parts, at, data[from..to], from, i);
    }
    forall i | from <= i < to ensures !InPart(parts, at, i) {
      PartsEnd(g, start, data, parts, at, from, i);
    }
  }

  lemma PartsEnd<T>(g: Gate, start: nat, data: seq<T>, parts: seq<seq<T>>, at: seq<nat>, n: int, i: int)
    requires Stretches(g, start, data, parts, at, n) && n <= i
    ensures !InPart(parts, at, i)
  {
  }

  lemma InMoreParts<T>(parts: seq<seq<T>>, at: seq<nat>, part: seq<T>, from: nat, i: int)
    requires |at| == |parts| && i < from + |part|
    ensures InPart(parts + [part], at + [from], i) <==> InPart(parts, at, i) || from <= i
  {
    var more, places, n := parts + [part], at + [from], |parts|;
    if InPart(parts, at, i) {
      var k :| 0 <= k < n && at[k] <= i < at[k] + |parts[k]|;
      assert places[k] <= i < places[k] + |more[k]|;
    }
    if from <= i {
      assert places[n] <= i < places[n] + |more[n]|;
    }
    if InPart(more, places, i) && i < from {
      var k :| 0 <= k < |more| && places[k] <= i < places[k] + |more[k]|;
      assert at[k] <= i < at[k] + |parts[k]|;
    }
  }
}
