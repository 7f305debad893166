/** The highlighting renderer: decorates complete safe lines of a byte stream with local styles. */
module Highlight {
  import opened Bytes
  import opened Vt
  import opened Presentation
  import opened Matches

  const MAX_PENDING_BYTES := 8192

  datatype PromptMatch = NoPrompt | Prompt(spans: seq<Match>)

  /** The regular expressions, UTF-8 validation and colour theme, known only as functions of bytes. */
  datatype Patterns = Patterns(
    validUtf8: seq<Byte> -> bool,
    interactivePrompt: seq<Byte> -> bool,
    prompt: seq<Byte> -> PromptMatch,
    rules: seq<Byte> -> seq<Match>)
  {
    /** A match index lies inside the text it was found in. */
    ghost predicate Valid() {
      && (forall line, m :: m in rules(line) ==> InLine(m, |line|))
      && (forall line, m :: prompt(line).Prompt? && m in prompt(line).spans ==> InLine(m, |line|))
    }
  }

  // ---- passthrough -------------------------------------------------------------------

  datatype Mode = Mode(passthrough: bool, vt: Tracker)

  /** One byte: ESC enters passthrough; a tracker-approved point, or a newline in a neutral state,
      leaves it. */
  function Step(m: Mode, value: Byte): (r: Mode)
    requires m.vt.Valid()
    ensures r.vt.Valid()
  {
    var (vt, ready) := Feed(m.vt, value);
    if m.passthrough then Mode(!(ready || (value == NEWLINE && vt.core.Neutral())), vt)
    else Mode(value == ESC, vt)
  }

  function StepAll(m: Mode, data: seq<Byte>): (r: Mode)
    requires m.vt.Valid()
    ensures r.vt.Valid()
    decreases |data|
  {
    if data == [] then m else StepAll(Step(m, data[0]), data[1..])
  }

  /** Passthrough and tracker do not depend on where the stream was cut. */
  lemma {:induction false} StepAllConcat(m: Mode, a: seq<Byte>, b: seq<Byte>)
    requires m.vt.Valid()
    ensures StepAll(m, a + b) == StepAll(StepAll(m, a), b)
    decreases |a|
  {
    hide Feed;
    if a == [] {
      assert a + b == b;
    } else {
      assert (a + b)[0] == a[0] && (a + b)[1..] == a[1..] + b;
      StepAllConcat(Step(m, a[0]), a[1..], b);
    }
  }

  lemma StepLast(m: Mode, data: seq<Byte>, at: nat)
    requires m.vt.Valid() && at < |data|
    ensures StepAll(m, data[..at]).vt.Valid()
    ensures StepAll(m, data[..at + 1]) == Step(StepAll(m, data[..at]), data[at])
  {
    hide Feed, Step;
    assert data[..at + 1] == data[..at] + [data[at]];
    StepAllConcat(m, data[..at], [data[at]]);
    var before := StepAll(m, data[..at]);
    assert StepAll(before, [data[at]]) == StepAll(Step(before, data[at]), []);
  }

  /** Outside passthrough the tracker is neutral, on every run. */
  lemma {:induction false} NeutralOutsidePassthrough(m: Mode, data: seq<Byte>)
    requires m.vt.Valid() && (!m.passthrough ==> m.vt.core.Neutral())
    ensures var end := StepAll(m, data); !end.passthrough ==> end.vt.core.Neutral()
    decreases |data|
  {
    if data != [] {
      NeutralOutsidePassthrough(Step(m, data[0]), data[1..]);
    }
  }

  lemma {:induction false} StepCore(m: Mode, data: seq<Byte>)
    requires m.vt.Valid()
    ensures StepAll(m, data).vt.core == CoreRun(m.vt.core, data)
    decreases |data|
  {
    if data != [] {
      StepCore(Step(m, data[0]), data[1..]);
    }
  }

  lemma {:induction false} PlainSteps(m: Mode, data: seq<Byte>)
    requires m.vt.Valid() && !m.passthrough && ESC !in data
    ensures StepAll(m, data) == Mode(false, FeedAll(m.vt, data))
    decreases |data|
  {
    if data != [] {
      PlainSteps(Step(m, data[0]), data[1..]);
    }
  }

  lemma CutText(before: TextSeq, text: TextSeq, at: nat)
    requires at <= |text|
    ensures before + text == (before + text[..at]) + text[at..]
    ensures ESC !in Data(text) ==> ESC !in Data(text[..at]) && ESC !in Data(text[at..])
  {
    assert Data(text) == Data(text[..at]) + Data(text[at..]);
  }

  lemma NoSteps(m: Mode)
    requires m.vt.Valid()
    ensures StepAll(m, Data([])) == m
  {
  }

  lemma CutSteps(m: Mode, text: TextSeq, at: nat)
    requires m.vt.Valid() && at <= |text|
    ensures StepAll(m, Data(text)) == StepAll(StepAll(m, Data(text[..at])), Data(text[at..]))
  {
    assert Data(text) == Data(text[..at]) + Data(text[at..]);
    StepAllConcat(m, Data(text[..at]), Data(text[at..]));
  }

  /** Entering passthrough just before an ESC is the same as letting the ESC do it. */
  lemma EscapeEnters(m: Mode, data: seq<Byte>)
    requires m.vt.Valid() && m.vt.core.Neutral() && data != [] && data[0] == ESC
    ensures StepAll(m, data) == StepAll(m.(passthrough := true), data)
  {
  }

  lemma PlainBeforeEscape(text: TextSeq)
    ensures ESC !in Data(text[..FirstIndex(Data(text), ESC)])
  {
    var escape := FirstIndex(Data(text), ESC);
    assert forall i :: 0 <= i < escape ==> Data(text[..escape])[i] == Data(text)[i];
  }

  // ---- line classification -----------------------------------------------------------

  /** Where the run of carriage returns starting at `i` ends. */
  function CrRunEnd(data: seq<Byte>, i: nat): (e: nat)
    requires i <= |data|
    ensures i <= e <= |data|
    decreases |data| - i
  {
    if i < |data| && data[i] == CR then CrRunEnd(data, i + 1) else i
  }

  predicate ControlAt(data: seq<Byte>, i: nat)
    requires i < |data|
  {
    if data[i] == CR then var e := CrRunEnd(data, i); e == |data| || data[e] != NEWLINE
    else data[i] != 9 && data[i] != NEWLINE && (data[i] < 0x20 || data[i] == 0x7f)
  }

  /** Tab, newline and CR runs directly before LF are harmless; any other control byte is not. */
  method ContainsScreenControl(patterns: Patterns, data: seq<Byte>) returns (unsafe: bool)
    ensures unsafe <==> Unsafe(patterns, data)
  {
    if !patterns.validUtf8(data) {
      return true;
    }
    var index := 0;
    while index < |data|
      invariant 0 <= index <= |data|
      invariant forall i :: 0 <= i < index ==> !ControlAt(data, i)
      decreases |data| - index
    {
      var value := data[index];
      if value == 9 || value == NEWLINE {
        index := index + 1;
      } else if value == CR {
        ghost var end := CrRunEnd(data, index);
        ghost var start := index;
        while index + 1 < |data| && data[index + 1] == CR
          invariant start <= index < |data| && data[index] == CR
          invariant CrRunEnd(data, index) == end
          invariant forall i :: start <= i <= index ==> data[i] == CR && CrRunEnd(data, i) == end
          decreases |data| - index
        {
          index := index + 1;
        }
        assert end == index + 1;
        if index + 1 < |data| && data[index + 1] == NEWLINE {
          index := index + 1;
        } else {
          assert ControlAt(data, index);
          return true;
        }
      } else {
        if value < 0x20 || value == 0x7f {
          assert ControlAt(data, index);
          return true;
        }
        index := index + 1;
      }
    }
    return false;
  }

  /** The line ending is a newline with every carriage return directly before it. */
  method SplitLineEnding(line: TextSeq) returns (content: TextSeq, ending: TextSeq)
    ensures content == line[..ContentLength(line)] && ending == line[ContentLength(line)..]
  {
    if |line| > 0 && line[|line| - 1].b == NEWLINE {
      var start := |line| - 1;
      while start > 0 && line[start - 1].b == CR
        invariant 0 <= start <= |line| - 1
        invariant EndingStart(line, start) == ContentLength(line)
      {
        start := start - 1;
      }
      return line[..start], line[start..];
    }
    return line, [];
  }

  // ---- what a drain must emit --------------------------------------------------------

  /** Output is made of stretches forwarded unchanged and stretches decorated by matches. */
  datatype Piece = Plain(text: TextSeq) | Decorated(text: TextSeq, matches: seq<Match>)

  predicate Unsafe(patterns: Patterns, data: seq<Byte>) {
    !patterns.validUtf8(data) || exists i :: 0 <= i < |data| && ControlAt(data, i)
  }

  function EndingStart(line: TextSeq, i: nat): (start: nat)
    requires i <= |line|
    ensures start <= i
  {
    if i > 0 && line[i - 1].b == CR then EndingStart(line, i - 1) else i
  }

  /** Where the line ending, with the carriage returns before it, begins. */
  function ContentLength(line: TextSeq): (n: nat)
    ensures n <= |line|
  {
    if line != [] && line[|line| - 1].b == NEWLINE then EndingStart(line, |line| - 1) else |line|
  }

  function LinePieces(patterns: Patterns, line: TextSeq, raw: bool): seq<Piece>
  {
    var data := Data(line);
    if raw || Unsafe(patterns, data) || patterns.interactivePrompt(data) then [Plain(line)]
    else
      var n := ContentLength(line);
      match patterns.prompt(Data(line[..n]))
      case Prompt(spans) => [Decorated(line[..n], spans), Plain(line[n..])]
      case NoPrompt => [Decorated(line, patterns.rules(data))]
  }

  datatype Drained = Drained(pieces: seq<Piece>, rest: TextSeq, raw: bool)

  /** Every complete line goes out; an incomplete one goes out raw when it is echo, unsafe or too
      long, goes out as a prompt when it is recognised as one, and otherwise stays. */
  function DrainPlan(patterns: Patterns, pending: TextSeq, raw: bool): Drained
    decreases |pending|
  {
    if pending == [] then Drained([], [], raw)
    else
      var data := Data(pending);
      var newline := FirstIndex(data, NEWLINE);
      if newline < |pending| then
        var later := DrainPlan(patterns, pending[newline + 1..], false);
        later.(pieces := LinePieces(patterns, pending[..newline + 1], raw) + later.pieces)
      else if !raw && data[|data| - 1] == CR then Drained([], pending, raw)
      else if raw || Unsafe(patterns, data) || |pending| > MAX_PENDING_BYTES then Drained([Plain(pending)], [], raw)
      else if patterns.interactivePrompt(data) then Drained([Plain(pending)], [], true)
      else
        match patterns.prompt(data)
        case Prompt(spans) => Drained([Decorated(pending, spans)], [], true)
        case NoPrompt => Drained([], pending, raw)
  }

  /** The plan, of which `done` has been carried out and `rest` remains. */
  predicate Continues(plan: Drained, done: seq<Piece>, rest: Drained) { plan == rest.(pieces := done + rest.pieces) }

  lemma LineFirst(patterns: Patterns, pending: TextSeq, raw: bool, plan: Drained, done: seq<Piece>)
    requires pending != [] && FirstIndex(Data(pending), NEWLINE) < |pending|
    requires Continues(plan, done, DrainPlan(patterns, pending, raw))
    ensures var n := FirstIndex(Data(pending), NEWLINE) + 1;
      Continues(plan, done + LinePieces(patterns, pending[..n], raw), DrainPlan(patterns, pending[n..], false))
  {
    var n := FirstIndex(Data(pending), NEWLINE) + 1;
    var pieces, later := LinePieces(patterns, pending[..n], raw), DrainPlan(patterns, pending[n..], false);
    assert done + (pieces + later.pieces) == (done + pieces) + later.pieces;
  }

  lemma NothingLeft(patterns: Patterns, raw: bool, done: seq<Piece>)
    ensures DrainPlan(patterns, [], raw) == Drained([], [], raw) && done + [] == done
  {
  }

  ghost predicate PieceShown(cells: seq<Cell>, piece: Piece) {
    match piece
    case Plain(text) => cells == text
    case Decorated(text, matches) =>
      && Texts(cells) == text
      && |StylesOf(cells, "")| == |text|
      && forall i :: 0 <= i < |text| ==> Shows(matches, i, StylesOf(cells, "")[i])
  }

  ghost predicate Shown(cells: seq<Cell>, pieces: seq<Piece>)
    decreases |pieces|
  {
    if pieces == [] then cells == []
    else exists k :: 0 <= k <= |cells| && PieceShown(cells[..k], pieces[0]) && Shown(cells[k..], pieces[1..])
  }

  lemma {:induction false} ShownConcat(a: seq<Cell>, p: seq<Piece>, b: seq<Cell>, q: seq<Piece>)
    requires Shown(a, p) && Shown(b, q)
    ensures Shown(a + b, p + q)
    decreases |p|
  {
    hide PieceShown;
    if p == [] {
      assert a + b == b && p + q == q;
    } else {
      var k :| 0 <= k <= |a| && PieceShown(a[..k], p[0]) && Shown(a[k..], p[1..]);
      ShownConcat(a[k..], p[1..], b, q);
      assert (a + b)[..k] == a[..k] && (a + b)[k..] == a[k..] + b;
      assert (p + q)[0] == p[0] && (p + q)[1..] == p[1..] + q;
    }
  }

  lemma ShownOne(cells: seq<Cell>, piece: Piece)
    requires PieceShown(cells, piece)
    ensures Shown(cells, [piece])
  {
    assert cells[..|cells|] == cells && cells[|cells|..] == [] && [piece][1..] == [];
    assert Shown(cells[|cells|..], [piece][1..]);
  }

  // ---- the renderer ------------------------------------------------------------------

  /** The tracker core after a text that started with the stream. */
  ghost function After(text: TextSeq): Core { CoreRun(INITIAL.core, Data(text)) }

  lemma AfterConcat(a: TextSeq, b: TextSeq)
    ensures After(a + b) == CoreRun(After(a), Data(b))
  {
    assert Data(a + b) == Data(a) + Data(b);
    CoreRunConcat(INITIAL.core, Data(a), Data(b));
  }

  lemma AfterPlain(a: TextSeq, b: TextSeq)
    requires After(a).Neutral() && ESC !in Data(b)
    ensures After(a + b).Neutral()
  {
    AfterConcat(a, b);
    PlainTextStaysNeutral(After(a), Data(b));
  }

  class Renderer {
    const patterns: Patterns
    const vt: VtTracker
    var output: seq<Cell>
    var pending: TextSeq
    var rawUntilNewline: bool
    var vtPassthrough: bool

    /** Everything written so far: the output with styles and resets erased, then what is pending. */
    ghost function Received(): TextSeq
      reads this
    {
      Texts(output) + pending
    }

    ghost function CurrentMode(): Mode
      reads this, vt
    {
      Mode(vtPassthrough, vt.Value())
    }

    /** The output is safe, and a style may be emitted now. */
    ghost predicate Styleable()
      reads this
    {
      patterns.Valid() && SafeFrom(INITIAL.core, false, output) && After(Texts(output)).Neutral()
    }

    /** Holds at every point of the code: the output is safe and carries the received text, the
        tracker has seen every received byte once, and outside passthrough nothing is open. */
    ghost predicate Consistent()
      reads this, vt
    {
      && patterns.Valid()
      && SafeFrom(INITIAL.core, false, output)
      && vt.Value().Valid()
      && vt.Value().core == After(Received())
      && (vtPassthrough ==> pending == [])
      && (!vtPassthrough ==> Styleable() && ESC !in Data(pending))
    }

    /** Between calls no complete line is held back, and nothing is while a line is echoed. */
    ghost predicate Valid()
      reads this, vt
    {
      Consistent() && NEWLINE !in Data(pending) && (rawUntilNewline ==> pending == [])
    }

    /** What was appended to `before`, stretch by stretch. */
    ghost predicate Added(before: seq<Cell>, pieces: seq<Piece>)
      reads this
    {
      |before| <= |output| && output[..|before|] == before && Shown(output[|before|..], pieces)
    }

    lemma AddedNothing()
      ensures Added(output, [])
    {
    }

    lemma AddedMore(before: seq<Cell>, first: seq<Piece>, middle: seq<Cell>, second: seq<Piece>)
      requires |before| <= |middle| <= |output| && middle[..|before|] == before
      requires Shown(middle[|before|..], first) && Added(middle, second)
      ensures Added(before, first + second)
    {
      assert output[..|before|] == middle[..|before|];
      assert output[|before|..] == middle[|before|..] + output[|middle|..];
      ShownConcat(middle[|before|..], first, output[|middle|..], second);
    }

    constructor (patterns: Patterns)
      requires patterns.Valid()
      ensures Valid() && Received() == [] && CurrentMode() == Mode(false, INITIAL)
      ensures output == [] && pending == [] && this.patterns == patterns
      ensures fresh(vt)
    {
      this.patterns := patterns;
      vt := new VtTracker();
      output, pending, rawUntilNewline, vtPassthrough := [], [], false, false;
    }

    /** No sequence, attribute or alternate screen is open outside passthrough. */
    lemma NeutralOutside()
      requires Consistent() && !vtPassthrough
      ensures vt.Value().core.Neutral()
    {
      AfterPlain(Texts(output), pending);
    }

    /** Writes cells whose text continues the output. */
    method Emit(cells: seq<Cell>)
      requires SafeFrom(INITIAL.core, false, output)
      requires SafeFrom(After(Texts(output)), false, cells)
      modifies `output
      ensures SafeFrom(INITIAL.core, false, output)
      ensures Texts(output) == old(Texts(output)) + Texts(cells)
      ensures output == old(output) + cells
    {
      SafeConcat(INITIAL.core, false, output, cells);
      TextsConcat(output, cells);
      output := output + cells;
    }

    /** Writes text unchanged. */
    method EmitRaw(text: TextSeq)
      requires SafeFrom(INITIAL.core, false, output)
      modifies `output
      ensures SafeFrom(INITIAL.core, false, output)
      ensures Texts(output) == old(Texts(output)) + text
      ensures After(old(Texts(output))).Neutral() && ESC !in Data(text) ==> After(Texts(output)).Neutral()
      ensures output == old(output) + text && Added(old(output), [Plain(text)])
    {
      TextIsSafe(After(Texts(output)), text);
      TextsOfText(text);
      if After(Texts(output)).Neutral() && ESC !in Data(text) {
        AfterPlain(Texts(output), text);
      }
      ghost var before := output;
      Emit(text);
      assert output[|before|..] == text;
      ShownOne(text, Plain(text));
    }

    method EmitStyled(text: TextSeq, matches: seq<Match>)
      requires Styleable() && ESC !in Data(text)
      requires forall m :: m in matches ==> InLine(m, |text|)
      modifies `output
      ensures Styleable()
      ensures Texts(output) == old(Texts(output)) + text
      ensures Added(old(output), [Decorated(text, matches)])
    {
      var rendered := RenderMatches(text, matches, After(Texts(output)));
      AfterPlain(Texts(output), text);
      ghost var before := output;
      Emit(rendered);
      assert output[|before|..] == rendered;
      ShownOne(rendered, Decorated(text, matches));
    }

    /** Writes the pending text unchanged. */
    method EmitPending()
      requires Consistent()
      modifies `output, `pending
      ensures Consistent() && pending == []
      ensures Received() == old(Received())
      ensures output == old(output) + old(pending) && Added(old(output), [Plain(old(pending))])
    {
      ghost var before := Received();
      EmitRaw(pending);
      pending := [];
      assert Received() == Texts(output) == before;
    }

    /** Every byte is fed to the tracker once; the text is then held as pending. */
    method AcceptPlain(text: TextSeq)
      requires Consistent() && !vtPassthrough && ESC !in Data(text)
      modifies `pending, vt
      ensures Consistent()
      ensures pending == old(pending) + text
      ensures Received() == old(Received()) + text
      ensures CurrentMode() == StepAll(old(CurrentMode()), Data(text))
    {
      hide CoreRun, SafeFrom, Texts, Feed, StepAll;
      ghost var data := Data(text);
      PlainSteps(CurrentMode(), data);
      CoreDependsOnBytesOnly(vt.Value(), vt.Value(), data);
      for i := 0 to |text|
        modifies vt
        invariant vt.Value().Valid()
        invariant FeedAll(vt.Value(), data[i..]) == FeedAll(old(vt.Value()), data)
      {
        assert data[i..][0] == text[i].b && data[i..][1..] == data[i + 1..];
        var _ := vt.FeedByte(text[i].b);
      }
      assert data[|text|..] == [];
      AfterConcat(Received(), text);
      assert Received() + text == Texts(output) + (pending + text);
      assert Data(pending + text) == Data(pending) + data;
      pending := pending + text;
    }

    /** Forwards one raw segment, and stops behind the first byte after which styles are safe again. */
    method WriteVtPassthrough(p: TextSeq) returns (consumed: nat)
      requires Valid() && vtPassthrough && |p| > 0
      modifies `output, `vtPassthrough, vt
      ensures Valid() && 0 < consumed <= |p|
      ensures output == old(output) + p[..consumed]
      ensures Received() == old(Received()) + p[..consumed]
      ensures CurrentMode() == StepAll(old(CurrentMode()), Data(p[..consumed]))
      ensures consumed < |p| ==> !vtPassthrough
    {
      hide CoreRun, SafeFrom, Texts, Feed, StepAll;
      ghost var data, mode := Data(p), CurrentMode();
      NoSteps(mode);
      var index := 0;
      var resume := false;
      while index < |p| && !resume
        invariant 0 <= index <= |p|
        invariant vt.Value().Valid()
        invariant StepAll(mode, data[..index]) == Mode(!resume, vt.Value())
        invariant resume ==> index > 0
        modifies vt
        decreases |p| - index, !resume
      {
        ghost var before := CurrentMode();
        StepLast(mode, data, index);
        var ready := vt.FeedByte(p[index].b);
        resume := ready || (p[index].b == NEWLINE && vt.CanResumeHighlighting());
        assert Step(before, data[index]) == Mode(!resume, vt.Value());
        index := index + 1;
      }
      consumed := index;
      assert Data(p[..consumed]) == data[..consumed];
      StepCore(mode, data[..consumed]);
      NeutralOutsidePassthrough(mode, data[..consumed]);
      AfterConcat(Texts(output), p[..consumed]);
      assert Received() == Texts(output);
      ghost var received := Received();
      EmitRaw(p[..consumed]);
      assert Received() == Texts(output) == received + p[..consumed];
      if resume {
        vtPassthrough := false;
      }
    }

    /** Text up to the next escape, which opens passthrough. */
    method WriteText(p: TextSeq) returns (rest: TextSeq)
      requires Valid() && !vtPassthrough && |p| > 0
      modifies this, vt
      ensures Valid() && (|rest| < |p| || (rest == p && vtPassthrough))
      ensures Received() + rest == old(Received()) + p
      ensures StepAll(CurrentMode(), Data(rest)) == StepAll(old(CurrentMode()), Data(p))
      ensures ESC !in Data(p) ==>
        var plan := DrainPlan(patterns, old(pending) + p, old(rawUntilNewline));
        rest == [] && Added(old(output), plan.pieces) && pending == plan.rest && rawUntilNewline == plan.raw
    {
      hide StepAll, Step, CoreRun, SafeFrom, Feed, Texts, FirstIndex, DrainPlan, Shown, After;
      ghost var mode, received := CurrentMode(), Received();
      var escape := FirstIndex(Data(p), ESC);
      PlainBeforeEscape(p);
      CutSteps(mode, p, escape);
      assert received + p == (received + p[..escape]) + p[escape..];
      AcceptPlain(p[..escape]);
      Drain();
      rest := p[escape..];
      if escape == |p| {
        assert p[..escape] == p;
        return;
      }
      EmitPending();
      rawUntilNewline := false;
      NeutralOutside();
      EscapeEnters(CurrentMode(), Data(p[escape..]));
      vtPassthrough := true;
    }

    method Write(p: TextSeq)
      requires Valid()
      modifies this, vt
      ensures Valid()
      ensures Received() == old(Received()) + p
      ensures CurrentMode() == StepAll(old(CurrentMode()), Data(p))
      ensures !old(vtPassthrough) && |p| > 0 && ESC !in Data(p) ==>
        var plan := DrainPlan(patterns, old(pending) + p, old(rawUntilNewline));
        Added(old(output), plan.pieces) && pending == plan.rest && rawUntilNewline == plan.raw
    {
      hide StepAll, Step, CoreRun, SafeFrom, Feed, Texts, FirstIndex, DrainPlan, Shown, After;
      var rest := p;
      while |rest| > 0
        invariant Valid()
        invariant Received() + rest == old(Received()) + p
        invariant StepAll(CurrentMode(), Data(rest)) == StepAll(old(CurrentMode()), Data(p))
        invariant !old(vtPassthrough) && |p| > 0 && ESC !in Data(p) ==>
          if |rest| > 0 then rest == p && unchanged(this)
          else var plan := DrainPlan(patterns, old(pending) + p, old(rawUntilNewline));
               Added(old(output), plan.pieces) && pending == plan.rest && rawUntilNewline == plan.raw
        decreases |rest|, !vtPassthrough
      {
        if vtPassthrough {
          ghost var mode, received := CurrentMode(), Received();
          var consumed := WriteVtPassthrough(rest);
          CutSteps(mode, rest, consumed);
          assert received + rest == (received + rest[..consumed]) + rest[consumed..];
          rest := rest[consumed..];
        } else {
          rest := WriteText(rest);
        }
      }
      NoSteps(CurrentMode());
    }

    /** Chooses raw forwarding for unsafe or echoed lines and otherwise applies the rules. */
    method WriteLine(line: TextSeq, raw: bool)
      requires Styleable() && ESC !in Data(line)
      modifies `output
      ensures Styleable()
      ensures Texts(output) == old(Texts(output)) + line
      ensures Added(old(output), LinePieces(patterns, line, raw))
    {
      hide CoreRun, SafeFrom, Texts, Shown, ControlAt;
      var data := Data(line);
      var unsafe := ContainsScreenControl(patterns, data);
      if raw || unsafe || patterns.interactivePrompt(data) {
        EmitRaw(line);
        return;
      }
      var content, ending := SplitLineEnding(line);
      CutText(Texts(output), line, |content|);
      match patterns.prompt(Data(content))
      case Prompt(spans) =>
        ghost var before := output;
        EmitStyled(content, spans);
        ghost var middle := output;
        EmitRaw(ending);
        AddedMore(before, [Decorated(content, spans)], middle, [Plain(ending)]);
        assert [Decorated(content, spans)] + [Plain(ending)] == [Decorated(content, spans), Plain(ending)];
      case NoPrompt =>
        EmitStyled(line, patterns.rules(data));
    }

    /** Emits the first complete line, which ends prompt echo. */
    method DrainLine(newline: nat)
      requires Consistent() && !vtPassthrough && newline < |pending|
      modifies `output, `pending, `rawUntilNewline
      ensures Consistent() && pending == old(pending)[newline + 1..] && !rawUntilNewline
      ensures Received() == old(Received())
      ensures Added(old(output), LinePieces(patterns, old(pending)[..newline + 1], old(rawUntilNewline)))
    {
      hide CoreRun, SafeFrom, Texts, Shown;
      CutText(Texts(output), pending, newline + 1);
      WriteLine(pending[..newline + 1], rawUntilNewline);
      pending := pending[newline + 1..];
      rawUntilNewline := false;
    }

    /** An incomplete line: out raw, out as a prompt whose echo stays raw, or kept. */
    method DrainTail()
      requires Consistent() && !vtPassthrough && |pending| > 0 && NEWLINE !in Data(pending)
      modifies `output, `pending, `rawUntilNewline
      ensures Valid()
      ensures Received() == old(Received())
      ensures var plan := DrainPlan(patterns, old(pending), old(rawUntilNewline));
        Added(old(output), plan.pieces) && pending == plan.rest && rawUntilNewline == plan.raw
    {
      hide CoreRun, SafeFrom, Texts, Shown, ControlAt, LinePieces;
      AddedNothing();
      var data := Data(pending);
      assert FirstIndex(data, NEWLINE) == |data|;
      if !rawUntilNewline && data[|data| - 1] == CR {
        return;
      }
      var unsafe := ContainsScreenControl(patterns, data);
      if rawUntilNewline || unsafe || |pending| > MAX_PENDING_BYTES {
        EmitPending();
        return;
      }
      if patterns.interactivePrompt(data) {
        EmitPending();
        rawUntilNewline := true;
      } else if patterns.prompt(data).Prompt? {
        ghost var received := Received();
        EmitStyled(pending, patterns.prompt(data).spans);
        pending := [];
        assert Received() == Texts(output) == received;
        rawUntilNewline := true;
      }
    }

    /** Emits complete lines and recognised prompts; keeps an undecided suffix. */
    method Drain()
      requires Consistent() && !vtPassthrough
      modifies `output, `pending, `rawUntilNewline
      ensures Valid()
      ensures Received() == old(Received())
      ensures var plan := DrainPlan(patterns, old(pending), old(rawUntilNewline));
        Added(old(output), plan.pieces) && pending == plan.rest && rawUntilNewline == plan.raw
    {
      hide CoreRun, SafeFrom, Texts, Shown, LinePieces, After, DrainPlan;
      ghost var plan := DrainPlan(patterns, pending, rawUntilNewline);
      ghost var done: seq<Piece> := [];
      AddedNothing();
      while |pending| > 0
        invariant Consistent() && Received() == old(Received())
        invariant Added(old(output), done)
        invariant Continues(plan, done, DrainPlan(patterns, pending, rawUntilNewline))
        decreases |pending|
      {
        ghost var before := output;
        var newline := FirstIndex(Data(pending), NEWLINE);
        if newline < |pending| {
          ghost var pieces := LinePieces(patterns, pending[..newline + 1], rawUntilNewline);
          LineFirst(patterns, pending, rawUntilNewline, plan, done);
          DrainLine(newline);
          AddedMore(old(output), done, before, pieces);
          done := done + pieces;
        } else {
          ghost var last := DrainPlan(patterns, pending, rawUntilNewline).pieces;
          DrainTail();
          AddedMore(old(output), done, before, last);
          return;
        }
      }
      NothingLeft(patterns, rawUntilNewline, done);
    }

    /** Before local status output: nothing stays pending and a new prompt boundary begins. */
    method Flush()
      requires Valid()
      modifies this, vt
      ensures Valid() && pending == [] && !rawUntilNewline
      ensures output == old(output) + old(pending)
      ensures Received() == old(Received())
      ensures CurrentMode() == old(CurrentMode()).(vt := old(vt.Value()).(lineHasText := false))
    {
      if |pending| > 0 {
        EmitPending();
      }
      rawUntilNewline := false;
      vt.lineHasText := false;
    }

    /** Releases an undecided prompt, whose echo then stays raw, without touching the tracker. */
    method ReleasePending()
      requires Valid()
      modifies `output, `pending, `rawUntilNewline
      ensures Valid() && pending == []
      ensures output == old(output) + old(pending)
      ensures rawUntilNewline == (old(rawUntilNewline) || old(pending) != [])
      ensures Received() == old(Received()) && CurrentMode() == old(CurrentMode())
    {
      if |pending| == 0 {
        return;
      }
      EmitPending();
      rawUntilNewline := true;
    }
  }
}
