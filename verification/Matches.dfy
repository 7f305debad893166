/** Resolving overlapping rule matches of one line into disjoint styled spans. */
module Matches {
  import opened Bytes
  import opened Vt
  import opened Presentation
  import opened Sorting

  datatype Match = Match(start: nat, end: nat, style: string, priority: int) {
    predicate Has(i: int) { start <= i < end }

    /** An empty span or an empty style never shows. */
    predicate Usable() { start != end && style != "" }
  }

  /** Higher priority first, then earlier start, then later end. */
  predicate Precedes(a: Match, b: Match) {
    if a.priority != b.priority then a.priority > b.priority
    else if a.start != b.start then a.start < b.start
    else a.end > b.end
  }

  predicate StartsBefore(a: Match, b: Match) { a.start < b.start }

  ghost predicate Covered(spans: seq<Match>, i: int) {
    exists k :: 0 <= k < |spans| && spans[k].Has(i)
  }

  ghost predicate Spans(spans: seq<Match>, length: nat) {
    && (forall k :: 0 <= k < |spans| ==> spans[k].start < spans[k].end <= length && spans[k].style != "")
    && (forall j, k :: 0 <= j < k < |spans| ==> Disjoint(spans[j], spans[k]))
  }

  predicate Disjoint(a: Match, b: Match) { a.end <= b.start || b.end <= a.start }

  /** `style` is what position i must show: "" where no usable match lies, otherwise the style of a
      usable match there that no other usable match there precedes. */
  ghost predicate Shows(matches: seq<Match>, i: int, style: string) {
    if exists m :: m in matches && m.Usable() && m.Has(i)
    then exists m :: m in matches && m.Usable() && m.Has(i) && m.style == style && Foremost(matches, i, m)
    else style == ""
  }

  ghost predicate Foremost(matches: seq<Match>, i: int, m: Match) {
    forall other :: other in matches && other.Usable() && other.Has(i) ==> !Precedes(other, m)
  }

  method UncoveredMatchFragments(candidate: Match, selected: seq<Match>) returns (fragments: seq<Match>)
    requires candidate.Usable() && candidate.start < candidate.end
    requires forall k :: 0 <= k < |selected| ==> selected[k].start < selected[k].end
    ensures Spans(fragments, candidate.end)
    ensures forall k :: 0 <= k < |fragments| ==> fragments[k].style == candidate.style
    ensures forall i :: Covered(fragments, i) <==> candidate.Has(i) && !Covered(selected, i)
  {
    fragments := [candidate];
    assert forall i :: fragments[0].Has(i) <==> candidate.Has(i);
    var n := 0;
    while n < |selected|
      invariant 0 <= n <= |selected|
      invariant Spans(fragments, candidate.end)
      invariant forall k :: 0 <= k < |fragments| ==> fragments[k].style == candidate.style
      invariant forall i :: Covered(fragments, i) <==> candidate.Has(i) && !Covered(selected[..n], i)
    {
      var next := RemoveBlocker(fragments, selected[n], candidate.end);
      forall i ensures Covered(selected[..n + 1], i) <==> Covered(selected[..n], i) || selected[n].Has(i) {
        assert selected[..n + 1][n].Has(i) <==> selected[n].Has(i);
        if Covered(selected[..n], i) {
          var k :| 0 <= k < n && selected[..n][k].Has(i);
          assert selected[..n + 1][k].Has(i);
        }
        if Covered(selected[..n + 1], i) && !selected[n].Has(i) {
          var k :| 0 <= k < n + 1 && selected[..n + 1][k].Has(i);
          assert selected[..n][k].Has(i);
        }
      }
      forall k | 0 <= k < |next| ensures next[k].style == candidate.style {
        assert Inside(next[k], fragments);
      }
      fragments := next;
      n := n + 1;
      if |fragments| == 0 {
        forall i ensures candidate.Has(i) ==> Covered(selected, i) {
          assert !Covered(fragments, i);
          if Covered(selected[..n], i) {
            var k :| 0 <= k < n && selected[..n][k].Has(i);
            assert selected[k].Has(i);
          }
        }
        return;
      }
    }
    assert selected[..|selected|] == selected;
  }

  /** One blocker: every fragment keeps what lies left and right of it. */
  method RemoveBlocker(fragments: seq<Match>, blocker: Match, length: nat) returns (next: seq<Match>)
    requires Spans(fragments, length) && blocker.start < blocker.end
    ensures Spans(next, length)
    ensures forall k :: 0 <= k < |next| ==> Inside(next[k], fragments)
    ensures forall i :: Covered(next, i) <==> Covered(fragments, i) && !blocker.Has(i)
  {
    next := [];
    for j := 0 to |fragments|
      invariant Spans(next, length)
      invariant forall k :: 0 <= k < |next| ==> Inside(next[k], fragments[..j])
      invariant forall i :: Covered(next, i) <==> Covered(fragments[..j], i) && !blocker.Has(i)
    {
      var pieces := AroundBlocker(fragments[j], blocker);
      assert fragments[..j + 1] == fragments[..j] + [fragments[j]];
      CoveredConcat(next, pieces);
      CoveredConcat(fragments[..j], [fragments[j]]);
      SpansConcat(next, pieces, fragments[..j], fragments[j], length);
      next := next + pieces;
    }
    assert fragments[..|fragments|] == fragments;
  }

  method AroundBlocker(fragment: Match, blocker: Match) returns (pieces: seq<Match>)
    requires fragment.start < fragment.end && fragment.style != "" && blocker.start < blocker.end
    ensures Spans(pieces, fragment.end)
    ensures forall k :: 0 <= k < |pieces| ==> Within(pieces[k], fragment)
    ensures forall i :: Covered(pieces, i) <==> Covered([fragment], i) && !blocker.Has(i)
  {
    pieces := [];
    if fragment.end <= blocker.start || blocker.end <= fragment.start {
      pieces := pieces + [fragment];
    } else {
      if fragment.start < blocker.start {
        pieces := pieces + [fragment.(end := blocker.start)];
      }
      if blocker.end < fragment.end {
        pieces := pieces + [fragment.(start := blocker.end)];
      }
    }
    forall i ensures Covered(pieces, i) <==> Covered([fragment], i) && !blocker.Has(i) {
      assert [fragment][0].Has(i) <==> fragment.Has(i);
      if fragment.Has(i) && !blocker.Has(i) {
        assert if |pieces| == 2 && i >= blocker.end then pieces[1].Has(i) else pieces[0].Has(i);
      }
    }
  }

  lemma SpansConcat(next: seq<Match>, pieces: seq<Match>, done: seq<Match>, fragment: Match, length: nat)
    requires Spans(next, length) && Spans(pieces, fragment.end) && Spans(done + [fragment], length)
    requires forall k :: 0 <= k < |next| ==> Inside(next[k], done)
    requires forall k :: 0 <= k < |pieces| ==> Within(pieces[k], fragment)
    ensures Spans(next + pieces, length)
    ensures forall k :: 0 <= k < |next + pieces| ==> Inside((next + pieces)[k], done + [fragment])
  {
    var all := done + [fragment];
    assert all[|done|] == fragment;
    forall k | 0 <= k < |next + pieces| ensures Inside((next + pieces)[k], all) {
      if k < |next| {
        var q :| 0 <= q < |done| && Within(next[k], done[q]);
        assert Within((next + pieces)[k], all[q]);
      } else {
        assert Within((next + pieces)[k], all[|done|]);
      }
    }
    forall a, b | 0 <= a < |next| && 0 <= b < |pieces| ensures Disjoint(next[a], pieces[b]) {
      var q :| 0 <= q < |done| && Within(next[a], done[q]);
      assert Disjoint(all[q], all[|done|]);
    }
  }

  predicate Within(a: Match, b: Match) { b.start <= a.start <= a.end <= b.end && a.style == b.style }

  ghost predicate Inside(a: Match, spans: seq<Match>) {
    exists q :: 0 <= q < |spans| && Within(a, spans[q])
  }

  lemma CoveredConcat(a: seq<Match>, b: seq<Match>)
    ensures forall i :: Covered(a + b, i) <==> Covered(a, i) || Covered(b, i)
  {
    forall i ensures Covered(a + b, i) <==> Covered(a, i) || Covered(b, i) {
      if Covered(a, i) {
        var k :| 0 <= k < |a| && a[k].Has(i);
        assert (a + b)[k].Has(i);
      }
      if Covered(b, i) {
        var k :| 0 <= k < |b| && b[k].Has(i);
        assert (a + b)[|a| + k].Has(i);
      }
      if Covered(a + b, i) {
        var k :| 0 <= k < |a + b| && (a + b)[k].Has(i);
        assert if k < |a| then a[k].Has(i) else b[k - |a|].Has(i);
      }
    }
  }

  // ---- selection ---------------------------------------------------------------------

  predicate InLine(m: Match, length: nat) { m.start <= m.end <= length }

  /** `spans` gives every position the style of the first usable match there among `ordered`. */
  ghost predicate FirstWins(spans: seq<Match>, ordered: seq<Match>, length: nat) {
    && Spans(spans, length)
    && (forall k, i :: 0 <= k < |spans| && spans[k].Has(i) ==> FirstStyle(ordered, i, spans[k].style))
    && (forall q, i :: 0 <= q < |ordered| && ordered[q].Usable() && ordered[q].Has(i) ==> Covered(spans, i))
  }

  ghost predicate FirstStyle(ordered: seq<Match>, i: int, style: string) {
    exists q :: 0 <= q < |ordered| && IsFirst(ordered, i, q) && ordered[q].style == style
  }

  ghost predicate IsFirst(ordered: seq<Match>, i: int, q: nat)
    requires q < |ordered|
  {
    && ordered[q].Usable() && ordered[q].Has(i)
    && forall p :: 0 <= p < q && ordered[p].Usable() ==> !ordered[p].Has(i)
  }

  /** Taking one more match: skipped when it cannot show, otherwise trimmed around earlier ones. */
  lemma FirstWinsStep(spans: seq<Match>, fragments: seq<Match>, ordered: seq<Match>, m: Match, length: nat)
    requires FirstWins(spans, ordered, length) && InLine(m, length)
    requires !m.Usable() ==> fragments == []
    requires m.Usable() ==> Spans(fragments, m.end)
    requires forall k :: 0 <= k < |fragments| ==> fragments[k].style == m.style
    requires m.Usable() ==> forall i :: Covered(fragments, i) <==> m.Has(i) && !Covered(spans, i)
    ensures FirstWins(spans + fragments, ordered + [m], length)
  {
    var all, more := spans + fragments, ordered + [m];
    CoveredConcat(spans, fragments);
    forall k, i | 0 <= k < |all| && all[k].Has(i) ensures FirstStyle(more, i, all[k].style) {
      if k < |spans| {
        assert spans[k].Has(i);
        var q :| 0 <= q < |ordered| && IsFirst(ordered, i, q) && ordered[q].style == spans[k].style;
        assert IsFirst(more, i, q);
      } else {
        assert fragments[k - |spans|].Has(i);
        assert Covered(fragments, i);
        assert IsFirst(more, i, |ordered|);
      }
    }
    forall q, i | 0 <= q < |more| && more[q].Usable() && more[q].Has(i) ensures Covered(all, i) {
      if q < |ordered| {
        assert ordered[q].Has(i);
      } else {
        assert m.Has(i);
      }
    }
    forall a, b | 0 <= a < b < |all| ensures Disjoint(all[a], all[b]) {
      if b < |spans| {
        assert Disjoint(spans[a], spans[b]);
      } else if |spans| <= a {
        assert Disjoint(fragments[a - |spans|], fragments[b - |spans|]);
      } else {
        forall i | spans[a].Has(i) ensures !fragments[b - |spans|].Has(i) {
          assert Covered(spans, i);
          assert !Covered(fragments, i);
        }
        assert !(spans[a].Has(all[b].start) && all[b].Has(all[b].start));
        assert !(spans[a].Has(all[a].start) && all[b].Has(all[a].start));
      }
    }
  }

  /** In order, the first usable match at a position is one that no other one there precedes. */
  lemma FirstShows(spans: seq<Match>, ordered: seq<Match>, matches: seq<Match>, from: seq<nat>,
                  length: nat, i: int, style: string)
    requires FirstWins(spans, ordered, length)
    requires Rearranges(ordered, matches, from) && InOrder(Precedes, ordered)
    requires SpanStyle(spans, i, style)
    ensures Shows(matches, i, style)
  {
    SameMembers(ordered, matches, from);
    if Covered(spans, i) {
      var k :| 0 <= k < |spans| && spans[k].Has(i) && spans[k].style == style;
      var q :| 0 <= q < |ordered| && IsFirst(ordered, i, q) && ordered[q].style == style;
      var m := ordered[q];
      assert m in matches;
      forall other | other in matches && other.Usable() && other.Has(i) ensures !Precedes(other, m) {
        assert other in ordered;
        var p :| 0 <= p < |ordered| && ordered[p] == other;
        assert p >= q;
      }
      assert Foremost(matches, i, m);
    } else {
      forall m | m in matches && m.Usable() ensures !m.Has(i) {
        assert m in ordered;
        var p :| 0 <= p < |ordered| && ordered[p] == m;
      }
    }
  }

  ghost predicate SpanStyle(spans: seq<Match>, i: int, style: string) {
    if Covered(spans, i) then exists k :: 0 <= k < |spans| && spans[k].Has(i) && spans[k].style == style
    else style == ""
  }

  lemma PrecedesIsWeakOrder()
    ensures StrictWeakOrder(Precedes) && StrictWeakOrder(StartsBefore)
  {
  }

  // ---- rendering ---------------------------------------------------------------------

  /** What rendering a prefix of the line has produced. */
  ghost predicate Rendered(cells: seq<Cell>, line: TextSeq, spans: seq<Match>, core: Core) {
    && Texts(cells) == line
    && SafeFrom(core, false, cells)
    && (forall i :: 0 <= i < |cells| && cells[i].Open? ==> cells[i].style != "")
    && |StylesOf(cells, "")| == |line|
    && (forall i :: 0 <= i < |line| ==> SpanStyle(spans, i, StylesOf(cells, "")[i]))
  }

  /** Disjoint spans ordered by start lie strictly after one another. */
  ghost predicate LeftToRight(spans: seq<Match>, length: nat) {
    && Spans(spans, length)
    && forall j, k :: 0 <= j < k < |spans| ==> spans[j].end <= spans[k].start
  }

  lemma PlainTextRendered(cells: seq<Cell>, line: TextSeq, spans: seq<Match>, core: Core, next: nat, until: nat)
    requires next <= until <= |line| && Rendered(cells, line[..next], spans, core)
    requires forall i :: next <= i < until ==> !Covered(spans, i)
    ensures Rendered(cells + line[next..until], line[..until], spans, core)
  {
    hide Texts, SafeFrom, CoreRun, StylesOf;
    var more := line[next..until];
    TextsConcat(cells, more);
    TextsOfText(more);
    assert line[..next] + more == line[..until];
    TextIsSafe(CoreRun(core, Data(Texts(cells))), more);
    SafeConcat(core, false, cells, more);
    StylesConcat(cells, more, "", core);
    StylesOfText(more, "");
  }

  lemma NothingRendered(spans: seq<Match>, core: Core)
    ensures Rendered([], [], spans, core)
  {
  }

  function Styled(style: string, body: TextSeq): seq<Cell> { [Open(style)] + (body + [Reset]) }

  /** A styled stretch on its own. */
  lemma StyledStretch(style: string, body: TextSeq, core: Core)
    requires style != "" && core.Neutral() && ESC !in Data(body)
    ensures Texts(Styled(style, body)) == body
    ensures SafeFrom(core, false, Styled(style, body))
    ensures StylesOf(Styled(style, body), "") == seq(|body|, i => style)
  {
    var styled := Styled(style, body);
    assert styled[1..] == body + [Reset];
    TextsConcat(body, [Reset]);
    TextsOfText(body);
    StyledTextIsSafe(core, body);
    StylesInside(style, body);
  }

  lemma SpanRendered(cells: seq<Cell>, line: TextSeq, spans: seq<Match>, core: Core, k: nat)
    requires k < |spans| && LeftToRight(spans, |line|)
    requires Rendered(cells, line[..spans[k].start], spans, core)
    requires core.Neutral() && ESC !in Data(line)
    ensures Rendered(cells + Styled(spans[k].style, line[spans[k].start..spans[k].end]), line[..spans[k].end],
                     spans, core)
  {
    hide Texts, SafeFrom, CoreRun, StylesOf;
    var span := spans[k];
    var prefix: TextSeq, body: TextSeq := line[..span.start], line[span.start..span.end];
    var styled := Styled(span.style, body);
    assert forall i :: 0 <= i < |prefix| ==> Data(prefix)[i] == Data(line)[i];
    assert forall i :: 0 <= i < |body| ==> Data(body)[i] == Data(line)[span.start + i];
    PlainTextStaysNeutral(core, Data(prefix));
    StyledStretch(span.style, body, CoreRun(core, Data(prefix)));
    assert prefix + body == line[..span.end];
    TextsConcat(cells, styled);
    SafeConcat(core, false, cells, styled);
    StylesConcat(cells, styled, "", core);
    assert forall i :: span.start <= i < span.end ==> span.Has(i);
  }

  lemma {:induction false} StylesInside(style: string, body: TextSeq)
    ensures StylesOf(body + [Reset], style) == seq(|body|, i => style)
  {
    if body == [] {
      assert body + [Reset] == [Reset];
    } else {
      StylesInside(style, body[1..]);
      assert (body + [Reset])[1..] == body[1..] + [Reset];
    }
  }

  /** Renders one line. The text is unchanged after erasure, every byte shows the style of a foremost
      match, and where the terminal is neutral the styles are safe. */
  method RenderMatches(line: TextSeq, matches: seq<Match>, ghost core: Core) returns (rendered: seq<Cell>)
    requires forall m :: m in matches ==> InLine(m, |line|)
    requires core.Neutral() && ESC !in Data(line)
    ensures Texts(rendered) == line
    ensures SafeFrom(core, false, rendered)
    ensures |StylesOf(rendered, "")| == |line|
    ensures forall i :: 0 <= i < |line| ==> Shows(matches, i, StylesOf(rendered, "")[i])
  {
    if |matches| == 0 {
      TextsOfText(line);
      TextIsSafe(core, line);
      StylesOfText(line, "");
      return line;
    }
    PrecedesIsWeakOrder();
    var ordered, from := SortSlice(matches, Precedes);
    SameMembers(ordered, matches, from);
    var selected: seq<Match> := [];
    for n := 0 to |ordered|
      invariant FirstWins(selected, ordered[..n], |line|)
    {
      var candidate := ordered[n];
      assert candidate in matches;
      var fragments := [];
      if candidate.start != candidate.end && candidate.style != "" {
        fragments := UncoveredMatchFragments(candidate, selected);
      }
      FirstWinsStep(selected, fragments, ordered[..n], candidate, |line|);
      assert ordered[..n + 1] == ordered[..n] + [candidate];
      selected := selected + fragments;
    }
    assert ordered[..|ordered|] == ordered;
    var spans, placed := SortSlice(selected, StartsBefore);
    SortedSpans(selected, spans, placed, ordered, |line|);
    rendered := RenderSpans(line, spans, core);
    forall i | 0 <= i < |line| ensures Shows(matches, i, StylesOf(rendered, "")[i]) {
      FirstShows(spans, ordered, matches, from, |line|, i, StylesOf(rendered, "")[i]);
    }
  }

  /** Sorting by start keeps what the spans say and puts them left to right. */
  lemma SortedSpans(selected: seq<Match>, spans: seq<Match>, from: seq<nat>, ordered: seq<Match>, length: nat)
    requires FirstWins(selected, ordered, length)
    requires Rearranges(spans, selected, from) && InOrder(StartsBefore, spans)
    ensures FirstWins(spans, ordered, length) && LeftToRight(spans, length)
  {
    SameMembers(spans, selected, from);
    forall k | 0 <= k < |spans|
      ensures spans[k].start < spans[k].end <= length && spans[k].style != ""
      ensures forall i :: spans[k].Has(i) ==> FirstStyle(ordered, i, spans[k].style)
    {
      assert spans[k] in selected;
      var j :| 0 <= j < |selected| && selected[j] == spans[k];
    }
    forall a, b | 0 <= a < b < |spans| ensures spans[a].end <= spans[b].start {
      var j, k := from[a], from[b];
      assert Disjoint(selected[if j < k then j else k], selected[if j < k then k else j]);
    }
    forall q, i | 0 <= q < |ordered| && ordered[q].Usable() && ordered[q].Has(i) ensures Covered(spans, i) {
      assert Covered(selected, i);
      var j :| 0 <= j < |selected| && selected[j].Has(i);
      assert selected[j] in spans;
      var k :| 0 <= k < |spans| && spans[k] == selected[j];
    }
  }

  method RenderSpans(line: TextSeq, spans: seq<Match>, ghost core: Core) returns (rendered: seq<Cell>)
    requires LeftToRight(spans, |line|)
    requires core.Neutral() && ESC !in Data(line)
    ensures Rendered(rendered, line, spans, core)
  {
    hide SafeFrom, CoreRun, StylesOf, Texts, Rendered;
    rendered := [];
    var next := 0;
    NothingRendered(spans, core);
    assert line[..0] == [];
    for k := 0 to |spans|
      invariant next == if k == 0 then 0 else spans[k - 1].end
      invariant next <= |line|
      invariant Rendered(rendered, line[..next], spans, core)
    {
      BetweenSpans(spans, k, next, spans[k].start, |line|);
      PlainTextRendered(rendered, line, spans, core, next, spans[k].start);
      rendered := rendered + line[next..spans[k].start];
      SpanRendered(rendered, line, spans, core, k);
      rendered := rendered + Styled(spans[k].style, line[spans[k].start..spans[k].end]);
      next := spans[k].end;
    }
    BetweenSpans(spans, |spans|, next, |line|, |line|);
    PlainTextRendered(rendered, line, spans, core, next, |line|);
    assert line[next..|line|] == line[next..] && line[..|line|] == line;
    rendered := rendered + line[next..];
  }

  lemma BetweenSpans(spans: seq<Match>, k: nat, next: nat, until: nat, length: nat)
    requires LeftToRight(spans, length) && k <= |spans|
    requires next == if k == 0 then 0 else spans[k - 1].end
    requires k < |spans| ==> until == spans[k].start
    ensures forall i :: next <= i < until ==> !Covered(spans, i)
    ensures k < |spans| ==> next <= until
  {
    forall i, j | next <= i < until && 0 <= j < |spans| ensures !spans[j].Has(i) {
      if j < k {
        assert spans[j].end <= next;
      } else {
        assert spans[k].start <= spans[j].start;
      }
    }
  }
}
