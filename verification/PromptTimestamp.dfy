/** The prompt timestamp renderer and the presentation pipeline it forms with the highlighter. */
module PromptTimestamp {
  import opened Bytes
  import opened Vt
  import opened Presentation
  import opened Highlight

  const MAX_PROMPT_PENDING_BYTES := 8192

  // ---- what a prompt candidate shows -------------------------------------------------

  datatype Scan = Scan(visible: seq<Byte>, complete: bool, safe: bool)

  /** Where the CSI parameter bytes from `i` on end. */
  function ParametersEnd(data: seq<Byte>, i: nat): (e: nat)
    requires i <= |data|
    ensures i <= e <= |data|
    ensures ParameterBytes(data[i..e])
    ensures e < |data| ==> !(0x30 <= data[e] <= 0x3f)
    decreases |data| - i
  {
    if i < |data| && 0x30 <= data[i] <= 0x3f then ParametersEnd(data, i + 1) else i
  }

  /** Complete SGR sequences are invisible, any other control byte is unsafe, and a sequence cut off
      by the end of the data leaves the answer open. */
  function Visible(data: seq<Byte>, index: nat): Scan
    requires index <= |data|
    decreases |data| - index
  {
    if index == |data| then Scan([], true, true)
    else if data[index] == ESC then
      if index + 1 == |data| then Scan([], false, true)
      else if data[index + 1] != LEFT_BRACKET then Scan([], true, false)
      else
        var end := ParametersEnd(data, index + 2);
        if end == |data| then Scan([], false, true)
        else if data[end] != FINAL_M then Scan([], true, false)
        else Visible(data, end + 1)
    else if data[index] < 0x20 || data[index] == 0x7f then Scan([], true, false)
    else
      var rest := Visible(data, index + 1);
      rest.(visible := [data[index]] + rest.visible)
  }

  method PromptVisibleText(data: seq<Byte>) returns (visible: seq<Byte>, complete: bool, safe: bool)
    ensures Scan(visible, complete, safe) == Visible(data, 0)
  {
    visible := [];
    var index := 0;
    while index < |data|
      invariant 0 <= index <= |data|
      invariant Visible(data, 0) == (var rest := Visible(data, index); rest.(visible := visible + rest.visible))
      decreases |data| - index
    {
      var value := data[index];
      if value == ESC {
        if index + 1 == |data| {
          return visible, false, true;
        }
        if data[index + 1] != LEFT_BRACKET {
          return visible, true, false;
        }
        var end := SkipParameters(data, index + 2);
        if end == |data| {
          return visible, false, true;
        }
        if data[end] != FINAL_M {
          return visible, true, false;
        }
        index := end + 1;
      } else if value < 0x20 || value == 0x7f {
        return visible, true, false;
      } else {
        ghost var rest := Visible(data, index + 1);
        assert visible + ([value] + rest.visible) == (visible + [value]) + rest.visible;
        visible := visible + [value];
        index := index + 1;
      }
    }
    return visible, true, true;
  }

  method SkipParameters(data: seq<Byte>, from: nat) returns (end: nat)
    requires from <= |data|
    ensures end == ParametersEnd(data, from)
  {
    end := from;
    while end < |data| && 0x30 <= data[end] <= 0x3f
      invariant from <= end <= |data|
      invariant ParametersEnd(data, end) == ParametersEnd(data, from)
      decreases |data| - end
    {
      end := end + 1;
    }
  }

  /** CSI parameters are consumed without leaving the sequence, even past the parameter limit. */
  lemma {:induction false} ParametersStayOpen(core: Core, data: seq<Byte>)
    requires core.state.Csi? && ParameterBytes(data)
    ensures var end := CoreRun(core, data); end.state.Csi? && end.alternate == core.alternate
    decreases |data|
  {
    if data != [] {
      ParametersStayOpen(CoreFeed(core, data[0]).0, data[1..]);
    }
  }

  /** A complete SGR sequence ends outside any sequence. */
  lemma SgrCloses(core: Core, inside: seq<Byte>)
    requires core.state.Ground? && ParameterBytes(inside)
    ensures var end := CoreRun(core, [ESC, LEFT_BRACKET] + inside + [FINAL_M]);
      end.state.Ground? && end.alternate == core.alternate
  {
    var opener := [ESC, LEFT_BRACKET];
    assert CoreRun(core, opener) == CoreRun(CoreFeed(core, ESC).0, opener[1..]) == core.(state := Csi, csi := []);
    ParametersStayOpen(core.(state := Csi, csi := []), inside);
    CoreRunConcat(core, opener, inside);
    CoreRunConcat(core, opener + inside, [FINAL_M]);
  }

  /** A candidate accepted as complete and safe never ends inside a sequence that began in it, and
      never switches screens: a stamp is not put behind half a sequence of its own line. */
  lemma {:induction false} CompleteCandidateEndsOutsideSequences(core: Core, data: seq<Byte>, index: nat)
    requires index <= |data| && core.state.Ground?
    requires Visible(data, index).complete && Visible(data, index).safe
    ensures var end := CoreRun(core, data[index..]); end.state.Ground? && end.alternate == core.alternate
    decreases |data| - index
  {
    if index < |data| {
      if data[index] == ESC {
        var end := ParametersEnd(data, index + 2);
        var sequence := [ESC, LEFT_BRACKET] + data[index + 2..end] + [FINAL_M];
        assert data[index..] == sequence + data[end + 1..];
        SgrCloses(core, data[index + 2..end]);
        CoreRunConcat(core, sequence, data[end + 1..]);
        CompleteCandidateEndsOutsideSequences(CoreRun(core, sequence), data, end + 1);
      } else {
        assert data[index..][1..] == data[index + 1..];
        CompleteCandidateEndsOutsideSequences(CoreFeed(core, data[index]).0, data, index + 1);
      }
    }
  }

  datatype Verdict = Keep | ReleaseRaw | StampAndRelease

  /** What becomes of an incomplete line: controlled and oversized lines and interactive prompts are
      released raw, a shell prompt is stamped, and anything else may still become a prompt. */
  function Judge(interactivePrompt: seq<Byte> -> bool, shellPrompt: seq<Byte> -> bool, line: TextSeq): Verdict
  {
    var scan := Visible(Data(line), 0);
    if !scan.safe || |line| > MAX_PROMPT_PENDING_BYTES then ReleaseRaw
    else if !scan.complete then Keep
    else if interactivePrompt(scan.visible) then ReleaseRaw
    else if shellPrompt(scan.visible) then StampAndRelease
    else Keep
  }

  // ---- what the renderer does, as a function -----------------------------------------

  type TimeOfDay = t: (nat, nat, nat) | t.0 < 24 && t.1 < 60 && t.2 < 60 witness (0, 0, 0)

  function TwoDigits(n: nat): (text: seq<Byte>)
    requires n < 100
    ensures forall i :: 0 <= i < |text| ==> 0x20 <= text[i] < 0x7f
  {
    [0x30 + n / 10, 0x30 + n % 10]
  }

  function StampText(t: TimeOfDay): (stamp: TextSeq)
    ensures stamp != [] && forall i :: 0 <= i < |stamp| ==> stamp[i].Stamp? && 0x20 <= stamp[i].b < 0x7f
  {
    LocalText([0x5b] + TwoDigits(t.0) + [0x3a] + TwoDigits(t.1) + [0x3a] + TwoDigits(t.2) + [0x5d, 0x20])
  }

  /** The prompt detectors, and what the clock says when it is read for the n-th time. */
  datatype Rules = Rules(interactivePrompt: seq<Byte> -> bool, shellPrompt: seq<Byte> -> bool, now: nat -> TimeOfDay)

  /** What the renderer holds, what it has handed on, and how often it has read the clock. */
  datatype Timing = Timing(enabled: bool, raw: bool, pending: TextSeq, received: TextSeq, readings: nat)

  datatype Op = Write(data: seq<Byte>) | Toggle | Flush | Release

  /** The board bytes a run of operations delivers. */
  function Delivered(ops: seq<Op>): seq<Byte>
  {
    if ops == [] then []
    else Delivered(ops[..|ops| - 1]) + (match ops[|ops| - 1] case Write(data) => data case _ => [])
  }

  function HandOn(t: Timing): Timing { t.(received := t.received + t.pending, pending := []) }

  function Judged(r: Rules, t: Timing): Verdict { Judge(r.interactivePrompt, r.shellPrompt, t.pending) }

  /** The pending, incomplete line is kept, released raw, or stamped. */
  function Decide(r: Rules, t: Timing): Timing {
    match Judged(r, t)
    case Keep => t
    case ReleaseRaw => HandOn(t).(raw := true)
    case StampAndRelease =>
      t.(received := t.received + (StampText(r.now(t.readings)) + t.pending), pending := [], raw := true,
         readings := t.readings + 1)
  }

  /** Where the first carriage return or newline lies. */
  function LineEnd(text: TextSeq): (n: nat)
    ensures n <= |text|
  {
    var cr, lf := FirstIndex(Data(text), CR), FirstIndex(Data(text), NEWLINE);
    if cr < lf then cr else lf
  }

  /** How far one round of Write gets. */
  function RoundEnd(t: Timing, text: TextSeq): (n: nat)
    requires text != []
    ensures 0 < n <= |text|
  {
    var end := if t.raw then LineEnd(text) else FirstIndex(Data(text), NEWLINE);
    if end < |text| then end + 1 else |text|
  }

  /** One round: echo goes on raw up to the end of its line, a complete line goes on, and an incomplete
      one is decided. */
  function Round(r: Rules, t: Timing, text: TextSeq): Timing
    requires text != []
  {
    var end := if t.raw then LineEnd(text) else FirstIndex(Data(text), NEWLINE);
    var now := text[..RoundEnd(t, text)];
    if t.raw then t.(received := t.received + now, raw := end == |text|)
    else if end < |text| then t.(received := t.received + (t.pending + now), pending := [])
    else Decide(r, t.(pending := t.pending + now))
  }

  function OnText(r: Rules, t: Timing, text: TextSeq): Timing
    decreases |text|
  {
    if text == [] then t else OnText(r, Round(r, t, text), text[RoundEnd(t, text)..])
  }

  function AfterOp(r: Rules, t: Timing, op: Op): Timing {
    match op
    case Write(data) =>
      if t.enabled then OnText(r, t, FromBoard(data)) else t.(received := t.received + FromBoard(data))
    case Toggle => HandOn(t).(raw := false, enabled := !t.enabled)
    case Flush => HandOn(t).(raw := false)
    case Release => if t.pending == [] then t else HandOn(t).(raw := true)
  }

  function AfterOps(r: Rules, t: Timing, ops: seq<Op>): Timing
  {
    if ops == [] then t else AfterOp(r, AfterOps(r, t, ops[..|ops| - 1]), ops[|ops| - 1])
  }

  // ---- stamps inside sequences -------------------------------------------------------

  predicate NoStamps(text: TextSeq) { forall i :: 0 <= i < |text| ==> !text[i].Stamp? }

  /** Some stamp byte stands where the text before it has left a sequence open. */
  ghost predicate StampInside(text: TextSeq) { exists i :: 0 <= i < |text| && InsideAt(text, i) }

  ghost predicate InsideAt(text: TextSeq, i: nat)
    requires i < |text|
  {
    text[i].Stamp? && !After(text[..i]).state.Ground?
  }

  /** The line is stamped although what was handed on before it has left a sequence open. */
  ghost predicate Misplaced(r: Rules, t: Timing) {
    Judged(r, t).StampAndRelease? && !After(t.received).state.Ground?
  }

  ghost predicate RoundMisplaces(r: Rules, t: Timing, text: TextSeq)
    requires text != []
  {
    !t.raw && FirstIndex(Data(text), NEWLINE) == |text| && Misplaced(r, t.(pending := t.pending + text))
  }

  ghost predicate TextMisplaces(r: Rules, t: Timing, text: TextSeq)
    decreases |text|
  {
    text != [] && (RoundMisplaces(r, t, text) || TextMisplaces(r, Round(r, t, text), text[RoundEnd(t, text)..]))
  }

  ghost predicate OpsMisplace(r: Rules, t: Timing, ops: seq<Op>)
  {
    ops != [] &&
    var before, op := AfterOps(r, t, ops[..|ops| - 1]), ops[|ops| - 1];
    OpsMisplace(r, t, ops[..|ops| - 1]) || (op.Write? && before.enabled && TextMisplaces(r, before, FromBoard(op.data)))
  }

  lemma InsideSplits(a: TextSeq, b: TextSeq)
    ensures StampInside(a + b) <==>
      StampInside(a) || exists i :: 0 <= i < |b| && b[i].Stamp? && !After(a + b[..i]).state.Ground?
  {
    hide After;
    var all := a + b;
    forall i | 0 <= i < |a| ensures InsideAt(all, i) <==> InsideAt(a, i) {
      assert all[..i] == a[..i];
    }
    forall i | 0 <= i < |b| ensures InsideAt(all, |a| + i) <==> b[i].Stamp? && !After(a + b[..i]).state.Ground? {
      assert all[..|a| + i] == a + b[..i];
    }
    if StampInside(all) {
      var i :| 0 <= i < |all| && InsideAt(all, i);
      if i >= |a| {
        assert InsideAt(all, |a| + (i - |a|));
      }
    }
  }

  /** Board text adds none. */
  lemma BoardAddsNone(a: TextSeq, b: TextSeq)
    requires NoStamps(b)
    ensures StampInside(a + b) <==> StampInside(a)
  {
    InsideSplits(a, b);
  }

  lemma {:induction false} PrintableStaysGround(core: Core, data: seq<Byte>)
    requires core.state.Ground? && forall i :: 0 <= i < |data| ==> 0x20 <= data[i] < 0x7f
    ensures CoreRun(core, data).state.Ground?
    decreases |data|
  {
    if data != [] {
      PrintableStaysGround(CoreFeed(core, data[0]).0, data[1..]);
    }
  }

  /** A stamp is inside a sequence exactly if it begins there. */
  lemma StampAdds(a: TextSeq, stamp: TextSeq)
    requires stamp != [] && forall i :: 0 <= i < |stamp| ==> stamp[i].Stamp? && 0x20 <= stamp[i].b < 0x7f
    ensures StampInside(a + stamp) <==> StampInside(a) || !After(a).state.Ground?
  {
    InsideSplits(a, stamp);
    assert a + stamp[..0] == a;
    if After(a).state.Ground? {
      forall i | 0 <= i < |stamp| ensures After(a + stamp[..i]).state.Ground? {
        AfterConcat(a, stamp[..i]);
        PrintableStaysGround(After(a), Data(stamp[..i]));
      }
    } else {
      assert !After(a + stamp[..0]).state.Ground? && stamp[0].Stamp?;
    }
  }

  lemma DecideMisplaces(r: Rules, t: Timing)
    requires NoStamps(t.pending)
    ensures NoStamps(Decide(r, t).pending)
    ensures StampInside(Decide(r, t).received) <==> StampInside(t.received) || Misplaced(r, t)
  {
    hide StampInside, After, Judge, StampText;
    match Judged(r, t)
    case Keep =>
    case ReleaseRaw => BoardAddsNone(t.received, t.pending);
    case StampAndRelease =>
      var stamp := StampText(r.now(t.readings));
      StampAdds(t.received, stamp);
      BoardAddsNone(t.received + stamp, t.pending);
      assert t.received + (stamp + t.pending) == (t.received + stamp) + t.pending;
  }

  lemma RoundIff(r: Rules, t: Timing, text: TextSeq)
    requires text != [] && NoStamps(text) && NoStamps(t.pending)
    ensures NoStamps(Round(r, t, text).pending)
    ensures StampInside(Round(r, t, text).received) <==> StampInside(t.received) || RoundMisplaces(r, t, text)
  {
    hide StampInside, After, Decide, Misplaced, FirstIndex, LineEnd;
    var end := if t.raw then LineEnd(text) else FirstIndex(Data(text), NEWLINE);
    var now := text[..RoundEnd(t, text)];
    if t.raw {
      BoardAddsNone(t.received, now);
    } else if end < |text| {
      BoardAddsNone(t.received, t.pending + now);
    } else {
      assert now == text;
      DecideMisplaces(r, t.(pending := t.pending + text));
    }
  }

  lemma {:induction false} TextIff(r: Rules, t: Timing, text: TextSeq)
    requires NoStamps(text) && NoStamps(t.pending)
    ensures NoStamps(OnText(r, t, text).pending)
    ensures StampInside(OnText(r, t, text).received) <==> StampInside(t.received) || TextMisplaces(r, t, text)
    decreases |text|
  {
    hide StampInside, RoundMisplaces, Round, RoundEnd;
    if text != [] {
      RoundIff(r, t, text);
      TextIff(r, Round(r, t, text), text[RoundEnd(t, text)..]);
    }
  }

  /** A run puts a stamp inside a sequence exactly if it stamps a line behind one that is open. */
  lemma {:induction false} OpsIff(r: Rules, t: Timing, ops: seq<Op>)
    requires NoStamps(t.pending)
    ensures NoStamps(AfterOps(r, t, ops).pending)
    ensures StampInside(AfterOps(r, t, ops).received) <==> StampInside(t.received) || OpsMisplace(r, t, ops)
    decreases |ops|
  {
    hide StampInside, OnText, TextMisplaces;
    if ops != [] {
      var before, op := AfterOps(r, t, ops[..|ops| - 1]), ops[|ops| - 1];
      OpsIff(r, t, ops[..|ops| - 1]);
      if op.Write? {
        if before.enabled {
          TextIff(r, before, FromBoard(op.data));
        } else {
          BoardAddsNone(before.received, FromBoard(op.data));
        }
      } else {
        BoardAddsNone(before.received, before.pending);
      }
    }
  }

  // ---- the pipeline ------------------------------------------------------------------

  class TimestampRenderer {
    const next: Renderer
    const promptPattern: seq<Byte> -> bool
    const now: nat -> TimeOfDay
    var enabled: bool
    var pending: TextSeq
    var rawUntilNewline: bool
    /** How often the clock has been read. */
    var readings: nat

    ghost predicate Valid()
      reads this, next, next.vt
    {
      next.Valid() && (!enabled || rawUntilNewline ==> pending == []) && NoStamps(pending)
    }

    /** Erasing every stamp, style and reset from what was written, then what each renderer holds. */
    ghost function Board(): seq<Byte>
      reads this, next, next.vt
    {
      Remotes(next.output) + Remotes(next.pending) + Remotes(pending)
    }

    ghost function Value(): Timing
      reads this, next, next.vt
    {
      Timing(enabled, rawUntilNewline, pending, next.Received(), readings)
    }

    ghost function Given(): Rules
    {
      Rules(next.patterns.interactivePrompt, promptPattern, now)
    }

    constructor (next: Renderer, promptPattern: seq<Byte> -> bool, now: nat -> TimeOfDay)
      requires next.Valid() && next.output == [] && next.pending == []
      ensures Valid() && Board() == [] && this.next == next && !enabled
      ensures Value() == Timing(false, false, [], [], 0)
      ensures Given() == Rules(next.patterns.interactivePrompt, promptPattern, now)
    {
      this.next, this.promptPattern, this.now := next, promptPattern, now;
      enabled, pending, rawUntilNewline, readings := false, [], false, 0;
    }

    /** The board bytes the highlighter has received. */
    lemma Downstream()
      ensures Board() == Remotes(next.Received()) + Remotes(pending)
    {
      RemotesConcat(Texts(next.output), next.pending);
      RemotesOfTexts(next.output);
    }

    /** The tracker knows whether what was handed on has left a sequence open. */
    lemma TrackerKnows()
      requires Valid()
      ensures next.vt.Value().core == After(next.Received())
    {
    }

    /** Hands text on; what is written are exactly its board bytes. */
    method Forward(text: TextSeq)
      requires Valid()
      modifies next, next.vt
      ensures Valid()
      ensures next.Received() == old(next.Received()) + text
      ensures Remotes(next.Received()) == old(Remotes(next.Received())) + Remotes(text)
    {
      RemotesConcat(next.Received(), text);
      next.Write(text);
    }

    method ForwardPending()
      requires Valid()
      modifies `pending, next, next.vt
      ensures Valid() && pending == []
      ensures next.Received() == old(next.Received()) + old(pending)
      ensures Board() == old(Board())
    {
      Downstream();
      Forward(pending);
      pending := [];
      Downstream();
    }

    /** Prompt echo stays raw up to the end of its line. */
    method WriteEcho(text: TextSeq) returns (rest: TextSeq)
      requires Valid() && enabled && rawUntilNewline && |text| > 0
      modifies `rawUntilNewline, next, next.vt
      ensures Valid() && Board() + Remotes(rest) == old(Board()) + Remotes(text)
      ensures rest == text[RoundEnd(old(Value()), text)..]
      ensures Value() == Round(Given(), old(Value()), text)
    {
      hide Remotes, SafeFrom, Texts, CoreRun, FirstIndex, Decide;
      Downstream();
      var lineEnd := LineEnd(text);
      if lineEnd < |text| {
        CutRemotes(text, lineEnd + 1);
        Forward(text[..lineEnd + 1]);
        rest := text[lineEnd + 1..];
        rawUntilNewline := false;
      } else {
        NoRemotes();
        Forward(text);
        rest := [];
        assert text[..|text|] == text;
      }
      Downstream();
      NoRemotes();
    }

    /** A line is held until it is complete or its candidate prompt is decided. */
    method WriteCandidate(text: TextSeq) returns (rest: TextSeq)
      requires Valid() && enabled && !rawUntilNewline && |text| > 0 && NoStamps(text)
      modifies `pending, `rawUntilNewline, `readings, next, next.vt
      ensures Valid() && Board() + Remotes(rest) == old(Board()) + Remotes(text)
      ensures rest == text[RoundEnd(old(Value()), text)..]
      ensures Value() == Round(Given(), old(Value()), text)
    {
      hide Remotes, SafeFrom, Texts, CoreRun, FirstIndex, Judge, Decide;
      var newline := FirstIndex(Data(text), NEWLINE);
      if newline < |text| {
        CutRemotes(text, newline + 1);
        Hold(text[..newline + 1]);
        ForwardPending();
        rest := text[newline + 1..];
      } else {
        Hold(text);
        DecideCandidate();
        NoRemotes();
        rest := [];
        assert text[..|text|] == text;
      }
    }

    method Hold(text: TextSeq)
      requires Valid() && enabled && !rawUntilNewline && NoStamps(text)
      modifies `pending
      ensures Valid() && pending == old(pending) + text
      ensures Board() == old(Board()) + Remotes(text)
    {
      hide Remotes, SafeFrom, Texts, CoreRun;
      RemotesConcat(pending, text);
      pending := pending + text;
    }

    method Write(input: TextSeq)
      requires Valid() && NoStamps(input)
      modifies this, next, next.vt
      ensures Valid() && enabled == old(enabled)
      ensures Board() == old(Board()) + Remotes(input)
      ensures Value() == if enabled then OnText(Given(), old(Value()), input)
                         else old(Value()).(received := old(Value()).received + input)
    {
      hide Remotes, SafeFrom, Texts, CoreRun, Round, RoundEnd;
      NoRemotes();
      if !enabled {
        Downstream();
        Forward(input);
        Downstream();
        return;
      }
      var rest := input;
      while |rest| > 0
        invariant Valid() && enabled && NoStamps(rest)
        invariant Board() + Remotes(rest) == old(Board()) + Remotes(input)
        invariant OnText(Given(), Value(), rest) == OnText(Given(), old(Value()), input)
        decreases |rest|
      {
        if rawUntilNewline {
          rest := WriteEcho(rest);
        } else {
          rest := WriteCandidate(rest);
        }
      }
    }

    /** An incomplete line: released raw, stamped, or kept until more of it arrives. A stamp lands inside
        a sequence exactly if the line is stamped while the tracker is inside one. */
    method DecideCandidate()
      requires Valid() && enabled && !rawUntilNewline
      modifies `pending, `rawUntilNewline, `readings, next, next.vt
      ensures Valid() && Board() == old(Board())
      ensures Value() == Decide(Given(), old(Value()))
      ensures StampInside(next.Received()) <==>
        || old(StampInside(next.Received()))
        || (old(Judged(Given(), Value()).StampAndRelease?) && !old(next.vt.Value().core).state.Ground?)
    {
      hide Remotes, SafeFrom, Texts, CoreRun, Visible, StampInside, StampText, After, FirstIndex;
      TrackerKnows();
      DecideMisplaces(Given(), Value());
      var visible, complete, safe := PromptVisibleText(Data(pending));
      if !safe || |pending| > MAX_PROMPT_PENDING_BYTES {
        ForwardPending();
        rawUntilNewline := true;
        return;
      }
      if !complete {
        return;
      }
      if next.patterns.interactivePrompt(visible) {
        ForwardPending();
        rawUntilNewline := true;
      } else if promptPattern(visible) {
        var stamp := StampText(now(readings));
        readings := readings + 1;
        Downstream();
        StampsErase(stamp);
        RemotesConcat(stamp, pending);
        NoRemotes();
        Forward(stamp + pending);
        pending := [];
        Downstream();
        rawUntilNewline := true;
      }
    }

    /** Ends prompt echo everywhere; nothing stays pending. */
    method Flush()
      requires Valid()
      modifies this, next, next.vt
      ensures Valid() && pending == [] && next.pending == []
      ensures Board() == old(Board())
      ensures Value() == AfterOp(Given(), old(Value()), Op.Flush)
    {
      hide Remotes, SafeFrom, Texts, CoreRun, OnText;
      if |pending| > 0 {
        ForwardPending();
      }
      rawUntilNewline := false;
      Downstream();
      next.Flush();
      Downstream();
    }

    method Toggle() returns (nowEnabled: bool)
      requires Valid()
      modifies this, next, next.vt
      ensures Valid() && enabled == nowEnabled == !old(enabled)
      ensures Board() == old(Board())
      ensures Value() == AfterOp(Given(), old(Value()), Op.Toggle)
    {
      hide Remotes, SafeFrom, Texts, CoreRun, OnText;
      Flush();
      enabled := !enabled;
      return enabled;
    }

    /** The periodic release of undecided prompts, in both renderers. */
    method ReleasePending()
      requires Valid()
      modifies this, next, next.vt
      ensures Valid() && pending == [] && next.pending == []
      ensures Board() == old(Board())
      ensures Value() == AfterOp(Given(), old(Value()), Release)
    {
      hide Remotes, SafeFrom, Texts, CoreRun, OnText;
      if |pending| > 0 {
        ForwardPending();
        rawUntilNewline := true;
      }
      Downstream();
      next.ReleasePending();
      Downstream();
    }

    /** Every run: erasing the insertions gives back the delivered bytes, and every local style was
        opened while nothing of the text before it was left open. A stamp has landed inside a sequence
        exactly if a line was stamped behind an open one. */
    method Run(ops: seq<Op>)
      requires Valid()
      modifies this, next, next.vt
      ensures Valid()
      ensures Board() == old(Board()) + Delivered(ops)
      ensures SafeFrom(INITIAL.core, false, next.output)
      ensures Value() == AfterOps(Given(), old(Value()), ops)
      ensures StampInside(next.Received()) <==>
        old(StampInside(next.Received())) || OpsMisplace(Given(), old(Value()), ops)
    {
      hide Remotes, SafeFrom, Texts, CoreRun, StampInside, OpsMisplace, OnText;
      OpsIff(Given(), Value(), ops);
      for i := 0 to |ops|
        invariant Valid()
        invariant Board() == old(Board()) + Delivered(ops[..i])
        invariant Value() == AfterOps(Given(), old(Value()), ops[..i])
      {
        assert ops[..i + 1][..i] == ops[..i];
        Perform(ops[i]);
      }
      assert ops[..|ops|] == ops;
    }

    method Perform(op: Op)
      requires Valid()
      modifies this, next, next.vt
      ensures Valid() && Value() == AfterOp(Given(), old(Value()), op)
      ensures Board() == old(Board()) + if op.Write? then op.data else []
    {
      hide Remotes, SafeFrom, Texts, CoreRun, OnText;
      match op
      case Write(data) =>
        RemotesFromBoard(data);
        Write(FromBoard(data));
      case Toggle =>
        var _ := Toggle();
      case Flush =>
        Flush();
      case Release =>
        ReleasePending();
    }
  }

  // ---- how it can happen -------------------------------------------------------------

  const PROMPT: seq<Byte> := [0x61, 0x40, 0x62, 0x3a, 0x7e, 0x24, 0x20]

  /** A title sequence that a newline cuts off is forwarded as part of its line; the prompt behind it is
      stamped inside the sequence. No flush or toggle is needed. */
  lemma StampBehindOpenTitle(r: Rules)
    requires r.shellPrompt(PROMPT) && !r.interactivePrompt(PROMPT)
    ensures OpsMisplace(r, Timing(true, false, [], [], 0),
                        [Op.Write([ESC, RIGHT_BRACKET, 0x30, NEWLINE]), Op.Write(PROMPT)])
  {
    var title := FromBoard([ESC, RIGHT_BRACKET, 0x30, NEWLINE]);
    var start := Timing(true, false, [], [], 0);
    TitleLine(r, start);
    var first := OnText(r, start, title);
    PromptIsStamped(r, first);
    var ops := [Op.Write([ESC, RIGHT_BRACKET, 0x30, NEWLINE]), Op.Write(PROMPT)];
    assert ops[..1] == [ops[0]] && ops[..1][..0] == [];
    assert AfterOps(r, start, []) == start;
    assert AfterOps(r, start, ops[..1]) == AfterOp(r, start, ops[0]) == first;
    assert TextMisplaces(r, first, FromBoard(PROMPT));
  }

  lemma TitleLine(r: Rules, t: Timing)
    requires t == Timing(true, false, [], [], 0)
    ensures var title := FromBoard([ESC, RIGHT_BRACKET, 0x30, NEWLINE]);
      OnText(r, t, title) == t.(received := title) && After(title).state.Osc?
  {
    var data: seq<Byte> := [ESC, RIGHT_BRACKET, 0x30, NEWLINE];
    var title := FromBoard(data);
    assert Data(title) == data;
    assert RoundEnd(t, title) == 4;
    assert title[..4] == title && title[4..] == [];
    assert Round(r, t, title).received == title;
    var core := INITIAL.core;
    assert CoreRun(core, data) == CoreRun(core.(state := Escape), data[1..]);
    assert data[1..][1..] == data[2..] && data[2..][1..] == data[3..] && data[3..][1..] == [];
    assert CoreRun(core.(state := Escape), data[1..]) == CoreRun(core.(state := Osc), data[2..]);
    assert CoreRun(core.(state := Osc), data[2..]) == CoreRun(core.(state := Osc), data[3..]) == core.(state := Osc);
  }

  lemma {:induction false} PlainIsVisible(data: seq<Byte>, index: nat)
    requires index <= |data| && forall i :: 0 <= i < |data| ==> 0x20 <= data[i] < 0x7f
    ensures Visible(data, index) == Scan(data[index..], true, true)
    decreases |data| - index
  {
    if index < |data| {
      PlainIsVisible(data, index + 1);
      assert data[index..] == [data[index]] + data[index + 1..];
    }
  }

  lemma PromptIsStamped(r: Rules, t: Timing)
    requires r.shellPrompt(PROMPT) && !r.interactivePrompt(PROMPT)
    requires t.enabled && !t.raw && t.pending == [] && !After(t.received).state.Ground?
    ensures TextMisplaces(r, t, FromBoard(PROMPT))
  {
    var text := FromBoard(PROMPT);
    assert Data(text) == PROMPT;
    PlainIsVisible(PROMPT, 0);
    assert PROMPT[0..] == PROMPT;
    assert t.pending + text == text;
    assert FirstIndex(PROMPT, NEWLINE) == |text|;
    assert RoundMisplaces(r, t, text);
  }

  /** With a flush in between, the sequence need not even end a line. */
  lemma StampBehindFlush(r: Rules, received: TextSeq)
    requires r.shellPrompt(PROMPT) && !r.interactivePrompt(PROMPT) && !After(received).state.Ground?
    ensures OpsMisplace(r, Timing(true, true, [], received, 0), [Op.Flush, Op.Write(PROMPT)])
  {
    var start := Timing(true, true, [], received, 0);
    var ops := [Op.Flush, Op.Write(PROMPT)];
    assert received + [] == received;
    assert ops[..1] == [ops[0]] && ops[..1][..0] == [];
    assert AfterOps(r, start, []) == start;
    assert AfterOps(r, start, ops[..1]) == start.(raw := false);
    PromptIsStamped(r, start.(raw := false));
  }

  lemma NoRemotes()
    ensures Remotes([]) == []
  {
  }

  lemma CutRemotes(text: TextSeq, at: nat)
    requires at <= |text|
    ensures Remotes(text) == Remotes(text[..at]) + Remotes(text[at..])
  {
    hide Remotes;
    RemotesConcat(text[..at], text[at..]);
    assert text[..at] + text[at..] == text;
  }
}
