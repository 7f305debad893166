/** Tokenised marker lines in a terminal's output stream, and what it means to scan for them. */
module Markers {
  import opened Bytes
  import opened Search

  const AT: Byte := 0x40
  const COLON: Byte := 0x3a

  // ---- marker lines ------------------------------------------------------------------

  /** Printable ASCII: what marker lines are made of. */
  predicate IsPlain(b: Byte) { 0x20 <= b < 0x7f }

  /** What a fresh token makes of the prefix: printable, and the only at-sign is at its start. */
  predicate IsPrefix(p: seq<Byte>) {
    && |p| > 0 && p[0] == AT
    && (forall i :: 0 < i < |p| ==> p[i] != AT)
    && (forall b :: b in p ==> IsPlain(b))
  }

  predicate IsField(f: seq<Byte>) { forall b :: b in f ==> IsPlain(b) && b != AT && b != COLON }

  /** The first occurrence at or after `from` starts at `start`; its line ends at `end`. */
  ghost predicate Found(s: seq<Byte>, p: seq<Byte>, from: nat, start: nat, end: nat) {
    && from <= start && OccursAt(s, p, start)
    && (forall i: nat :: from <= i < start ==> !OccursAt(s, p, i))
    && start <= end < |s| && s[end] == NEWLINE && NEWLINE !in s[start..end]
  }

  function TrimCr(line: seq<Byte>): (r: seq<Byte>) {
    if line != [] && line[|line| - 1] == CR then line[..|line| - 1] else line
  }

  /** The fields of the marker line s[start..end]. */
  function FieldsAt(s: seq<Byte>, p: seq<Byte>, start: nat, end: nat): (fields: seq<seq<Byte>>)
    requires OccursAt(s, p, start) && start <= end < |s|
    ensures |fields| >= 1
  {
    var line := TrimCr(s[start..end]);
    if |p| <= |line| then Split(line[|p|..], COLON) else [[]]
  }

  /** How much output has arrived does not matter: what was found stays found, and nothing else is. */
  lemma FoundStable(s: seq<Byte>, t: seq<Byte>, p: seq<Byte>, from: nat, start: nat, end: nat)
    requires Extends(s, t) && Found(s, p, from, start, end)
    ensures Found(t, p, from, start, end) && FieldsAt(t, p, start, end) == FieldsAt(s, p, start, end)
    ensures forall start': nat, end': nat :: Found(t, p, from, start', end') ==> start' == start && end' == end
  {
    OccursInExtension(s, t, p, start);
    forall i: nat | from <= i < start ensures !OccursAt(t, p, i) {
      OccursInExtension(s, t, p, i);
    }
    assert t == s + t[|s|..];
    assert t[start..end] == s[start..end];
    assert t[end] == t[..|s|][end];
    forall start': nat, end': nat | Found(t, p, from, start', end') ensures start' == start && end' == end {
    }
  }

  // ---- what the board prints ---------------------------------------------------------

  /** A marker with what is printed before it and its line ending. */
  datatype Marker = Marker(noise: seq<Byte>, fields: seq<seq<Byte>>, cr: bool)

  function Line(p: seq<Byte>, m: Marker): seq<Byte> {
    p + Join(m.fields, COLON) + (if m.cr then [CR, NEWLINE] else [NEWLINE])
  }

  /** Nothing in the noise, nor in the noise followed by the prefix, looks like the prefix. */
  predicate Clean(p: seq<Byte>, noise: seq<Byte>) {
    forall i: nat :: i < |noise| ==> !OccursAt(noise + p, p, i)
  }

  predicate IsMarker(p: seq<Byte>, m: Marker) {
    Clean(p, m.noise) && |m.fields| > 0 && forall f :: f in m.fields ==> IsField(f)
  }

  lemma {:induction false} JoinPlain(fields: seq<seq<Byte>>, b: Byte)
    requires b != COLON && forall f :: f in fields ==> b !in f
    ensures b !in Join(fields, COLON)
  {
    if |fields| > 1 {
      JoinPlain(fields[1..], b);
    }
  }

  lemma {:induction false} SplitPlain(data: seq<Byte>)
    requires COLON !in data
    ensures Split(data, COLON) == [data]
  {
    if data != [] {
      SplitPlain(data[1..]);
      assert [data[0]] + data[1..] == data;
    }
  }

  lemma {:induction false} SplitHead(head: seq<Byte>, rest: seq<Byte>)
    requires COLON !in head
    ensures Split(head + [COLON] + rest, COLON) == [head] + Split(rest, COLON)
  {
    var data := head + [COLON] + rest;
    if head == [] {
      assert data[1..] == rest;
    } else {
      assert data[1..] == head[1..] + [COLON] + rest;
      SplitHead(head[1..], rest);
      assert data[0] == head[0] && [head[0]] + head[1..] == head;
      assert ([head[1..]] + Split(rest, COLON))[1..] == Split(rest, COLON);
    }
  }

  lemma {:induction false} JoinSplit(fields: seq<seq<Byte>>)
    requires |fields| > 0 && forall f :: f in fields ==> COLON !in f
    ensures Split(Join(fields, COLON), COLON) == fields
  {
    if |fields| == 1 {
      SplitPlain(fields[0]);
    } else {
      SplitHead(fields[0], Join(fields[1..], COLON));
      JoinSplit(fields[1..]);
    }
  }

  /** Only the at-sign at the front of a marker line can begin an occurrence. */
  lemma LinePlain(p: seq<Byte>, m: Marker)
    requires IsPrefix(p) && IsMarker(p, m)
    ensures var line := Line(p, m);
      && |line| > |p| && line[..|p|] == p && line[|line| - 1] == NEWLINE
      && (forall i :: 0 < i < |line| ==> line[i] != AT)
      && NEWLINE !in line[..|line| - 1]
  {
    var body := Join(m.fields, COLON);
    JoinPlain(m.fields, AT);
    JoinPlain(m.fields, NEWLINE);
  }

  /** Control bytes other than its ending do not occur in a marker line. */
  lemma LineLacks(p: seq<Byte>, m: Marker, b: Byte)
    requires IsPrefix(p) && IsMarker(p, m) && !IsPlain(b) && b != CR && b != NEWLINE
    ensures b !in Line(p, m)
  {
    JoinPlain(m.fields, b);
  }

  lemma LineFields(p: seq<Byte>, m: Marker)
    requires IsPrefix(p) && IsMarker(p, m)
    ensures var line := Line(p, m);
      |line| > |p| && OccursAt(line, p, 0) && FieldsAt(line, p, 0, |line| - 1) == m.fields
  {
    LinePlain(p, m);
    var body := Join(m.fields, COLON);
    JoinPlain(m.fields, CR);
    JoinSplit(m.fields);
    var line := Line(p, m);
    var cut := line[0..|line| - 1];
    assert cut == if m.cr then p + body + [CR] else p + body;
    assert CR !in p && CR !in p + body;
    assert !m.cr ==> cut[|cut| - 1] in p + body;
    assert TrimCr(cut) == p + body;
    assert (p + body)[|p|..] == body;
  }

  /** A stretch at s[from..] that holds noise and then a marker line yields exactly that marker. */
  lemma ScanMarker(s: seq<Byte>, p: seq<Byte>, at: nat, m: Marker, from: nat)
    requires IsPrefix(p) && IsMarker(p, m)
    requires at + |m.noise| + |Line(p, m)| <= |s|
    requires s[at..at + |m.noise|] == m.noise
    requires s[at + |m.noise|..at + |m.noise| + |Line(p, m)|] == Line(p, m)
    requires at <= from <= at + |m.noise|
    ensures var start := at + |m.noise|; var end := start + |Line(p, m)| - 1;
      Found(s, p, from, start, end) && FieldsAt(s, p, start, end) == m.fields
  {
    hide Split, Join, Line, TrimCr;
    var line := Line(p, m);
    var start := at + |m.noise|;
    var end := start + |line| - 1;
    LinePlain(p, m);
    LineFields(p, m);
    LineInPlace(s, p, start, line);
    forall i: nat | from <= i < start ensures !OccursAt(s, p, i) {
      NoiseHasNone(s, p, at, m.noise, i);
    }
  }

  lemma LineInPlace(s: seq<Byte>, p: seq<Byte>, start: nat, line: seq<Byte>)
    requires start + |line| <= |s| && s[start..start + |line|] == line
    requires |p| < |line| && line[..|p|] == p
    ensures OccursAt(s, p, start) && s[start + |line| - 1] == line[|line| - 1]
    ensures s[start..start + |line| - 1] == line[0..|line| - 1] == line[..|line| - 1]
  {
    assert s[start..start + |p|] == s[start..start + |line|][..|p|];
    assert s[start..start + |line| - 1] == s[start..start + |line|][..|line| - 1];
  }

  /** Noise followed by the prefix, or by the end of the stream, holds no occurrence. */
  lemma NoiseHasNone(s: seq<Byte>, p: seq<Byte>, at: nat, noise: seq<Byte>, i: nat)
    requires IsPrefix(p) && Clean(p, noise) && at + |noise| <= |s| && s[at..at + |noise|] == noise
    requires at + |noise| == |s| || OccursAt(s, p, at + |noise|)
    requires at <= i < at + |noise|
    ensures !OccursAt(s, p, i)
  {
    var k := i - at;
    if OccursAt(s, p, i) {
      var both := noise + p;
      forall j | 0 <= j < |p| ensures both[k + j] == p[j] {
        assert s[i..i + |p|][j] == s[i + j];
        if k + j < |noise| {
          assert s[at..at + |noise|][k + j] == s[i + j];
        } else {
          assert s[at + |noise|..at + |noise| + |p|][k + j - |noise|] == s[i + j];
        }
      }
      assert both[k..k + |p|] == p;
      assert OccursAt(both, p, k);
    }
  }

  /** Nothing occurs in a stretch without at-signs followed by clean noise at the end of the stream. */
  lemma NothingMore(s: seq<Byte>, p: seq<Byte>, at: nat, noise: seq<Byte>, from: nat)
    requires IsPrefix(p) && Clean(p, noise) && from <= at && at + |noise| == |s| && s[at..] == noise
    requires forall i :: from <= i < at ==> s[i] != AT
    ensures forall i: nat :: from <= i ==> !OccursAt(s, p, i)
  {
    forall i: nat | from <= i ensures !OccursAt(s, p, i) {
      if i < at {
        assert i + |p| <= |s| ==> s[i..i + |p|][0] == s[i];
      } else if i < |s| {
        NoiseHasNone(s, p, at, noise, i);
      }
    }
  }
}
