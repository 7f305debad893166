/** The VT tracker: follows just enough of a byte stream to know when no escape sequence,
    no SGR attribute and no alternate screen is open. */
module Vt {
  import opened Bytes
  import opened Decimals
  import opened Options

  const MAX_CSI_PARAMETER_BYTES := 128
  const MAX_INT := 0x7fff_ffff_ffff_ffff

  const SEMICOLON: Byte := 0x3b
  const COLON: Byte := 0x3a
  const QUESTION: Byte := 0x3f
  const BEL: Byte := 7
  const CAN: Byte := 0x18
  const SUB: Byte := 0x1a
  const LEFT_BRACKET: Byte := 0x5b
  const RIGHT_BRACKET: Byte := 0x5d
  const BACKSLASH: Byte := 0x5c
  const FINAL_M: Byte := 0x6d
  const FINAL_H: Byte := 0x68
  const FINAL_L: Byte := 0x6c

  // ESC 7, ESC [ r, ESC [ 999 ; 999 H, ESC [ 6 n, ESC 8
  const SHELL_SIZE_PROBE: seq<Byte> :=
    [0x1b, 0x37, 0x1b, 0x5b, 0x72, 0x1b, 0x5b, 0x39, 0x39, 0x39, 0x3b, 0x39, 0x39, 0x39, 0x48,
     0x1b, 0x5b, 0x36, 0x6e, 0x1b, 0x38]

  datatype State = Ground | Escape | Csi | Osc | OscEscape | Str | StrEscape

  datatype Attribute =
    | Intensity | Italic | Underline | Blink | Inverse | Conceal | Strike
    | Frame | Overline | Foreground | Background | UnderlineColor | Unknown

  /** The part of the tracker that decides whether a local style would be safe. */
  datatype Core = Core(state: State, csi: seq<Byte>, alternate: bool, sgr: set<Attribute>) {
    predicate Neutral() { state.Ground? && !alternate && sgr == {} }
  }

  datatype Tracker = Tracker(core: Core, lineHasText: bool, probe: nat) {
    predicate Valid() { probe < |SHELL_SIZE_PROBE| }
  }

  const INITIAL := Tracker(Core(Ground, [], false, {}), false, 0)

  // ---- decimal parameters ------------------------------------------------------------

  datatype Number = Value(n: nat) | Invalid

  /** Signs never reach this point: parameter bytes lie in 0x30..0x3f. */
  function Atoi(text: seq<Byte>): Number
  {
    match Parse(text)
    case Some(n) => if n <= MAX_INT then Value(n) else Invalid
    case None => Invalid
  }

  // ---- select graphic rendition ------------------------------------------------------

  /** The attributes a code switches on and off; code 0 switches everything off. */
  function SgrOn(code: nat): set<Attribute>
  {
    if code == 0 then {}
    else if code in {1, 2} then {Intensity}
    else if code == 3 then {Italic}
    else if code in {4, 21} then {Underline}
    else if code in {5, 6} then {Blink}
    else if code == 7 then {Inverse}
    else if code == 8 then {Conceal}
    else if code == 9 then {Strike}
    else if 30 <= code <= 38 || 90 <= code <= 97 then {Foreground}
    else if 40 <= code <= 48 || 100 <= code <= 107 then {Background}
    else if code in {51, 52} then {Frame}
    else if code == 53 then {Overline}
    else if code == 58 then {UnderlineColor}
    else if SgrOff(code) == {} then {Unknown}
    else {}
  }

  function SgrOff(code: nat): set<Attribute>
  {
    if code == 22 then {Intensity}
    else if code == 23 then {Italic}
    else if code == 24 then {Underline}
    else if code == 25 then {Blink}
    else if code == 27 then {Inverse}
    else if code == 28 then {Conceal}
    else if code == 29 then {Strike}
    else if code == 39 then {Foreground}
    else if code == 49 then {Background}
    else if code == 54 then {Frame}
    else if code == 55 then {Overline}
    else if code == 59 then {UnderlineColor}
    else {}
  }

  function SetCode(sgr: set<Attribute>, code: nat): set<Attribute>
  {
    if code == 0 then {} else sgr - SgrOff(code) + SgrOn(code)
  }

  /** How many parameters after 38, 48 or 58 belong to the colour. */
  function ExtendedColorParameters(rest: seq<seq<Byte>>): (n: nat)
    ensures n <= |rest|
  {
    if rest == [] then 0
    else if rest[0] == [0x35] then (if |rest| < 2 then |rest| else 2)
    else if rest[0] == [0x32] then (if |rest| < 4 then |rest| else 4)
    else 0
  }

  predicate IsExtendedColor(code: nat) { code == 38 || code == 48 || code == 58 }

  function PartNumber(part: seq<Byte>): Number
  {
    if part == [] then Value(0) else Atoi(part[..FirstIndex(part, COLON)])
  }

  /** The parameters that `parts[index]` takes along: the components of an extended colour,
      unless they were given as subparameters after a colon. */
  function Skipped(parts: seq<seq<Byte>>, index: nat): (n: nat)
    requires index < |parts|
    ensures index + 1 + n <= |parts|
  {
    var number := PartNumber(parts[index]);
    if number.Value? && IsExtendedColor(number.n) && COLON !in parts[index]
    then ExtendedColorParameters(parts[index + 1..])
    else 0
  }

  function PartEffect(sgr: set<Attribute>, part: seq<Byte>): set<Attribute>
  {
    match PartNumber(part)
    case Invalid => sgr + {Unknown}
    case Value(code) => SetCode(sgr, code)
  }

  /** What the parameters from `parts[index]` on do to the attributes. */
  function ApplyParts(sgr: set<Attribute>, parts: seq<seq<Byte>>, index: nat): set<Attribute>
    requires index <= |parts|
    decreases |parts| - index
  {
    if index == |parts| then sgr
    else ApplyParts(PartEffect(sgr, parts[index]), parts, index + 1 + Skipped(parts, index))
  }

  lemma ZeroIsZero()
    ensures Atoi([0x30]) == Value(0) && FirstIndex([0x30], COLON) == 1
  {
    var zero: seq<Byte> := [0x30];
    assert Decimal(0) == zero;
    ParseDecimal(0);
  }

  function ApplySgr(sgr: set<Attribute>, parameters: seq<Byte>): set<Attribute>
  {
    if parameters == [] then {} else ApplyParts(sgr, Split(parameters, SEMICOLON), 0)
  }

  // ---- private modes -----------------------------------------------------------------

  const ALTERNATE_MODES: set<nat> := {47, 1047, 1049}
  const PROMPT_MODES: set<nat> := {25, 2004}

  predicate IsAlternateMode(part: seq<Byte>) { Atoi(part).Value? && Atoi(part).n in ALTERNATE_MODES }

  /** Whether one mode parameter leaves the text presentation of a following prompt alone. */
  predicate PromptNeutralMode(part: seq<Byte>, enabled: bool)
  {
    Atoi(part).Value? && (Atoi(part).n in PROMPT_MODES || (Atoi(part).n in ALTERNATE_MODES && !enabled))
  }

  function FinishCsi(core: Core, final: Byte): (r: (Core, bool))
  {
    var cleared := core.(csi := []);
    if final == FINAL_M then (cleared.(sgr := ApplySgr(core.sgr, core.csi)), true)
    else if final in {FINAL_H, FINAL_L} && core.csi != [] && core.csi[0] == QUESTION then
      var enabled := final == FINAL_H;
      var modes := Split(core.csi[1..], SEMICOLON);
      (cleared.(alternate := if exists m :: m in modes && IsAlternateMode(m) then enabled else core.alternate),
       forall m :: m in modes ==> PromptNeutralMode(m, enabled))
    else (cleared, false)
  }

  // ---- one byte ----------------------------------------------------------------------

  /** The core's step: it never looks at the line or probe bookkeeping. The second component says
      that a sequence ended that may be followed by a prompt on an empty line. */
  function CoreFeed(core: Core, value: Byte): (r: (Core, bool))
  {
    if value in {CAN, SUB} then (core.(state := Ground, csi := []), false)
    else match core.state
      case Ground => (if value == ESC then core.(state := Escape) else core, false)
      case Escape =>
        if value == LEFT_BRACKET then (core.(state := Csi, csi := []), false)
        else if value == RIGHT_BRACKET then (core.(state := Osc), false)
        else if value in {0x50, 0x58, 0x5e, 0x5f} then (core.(state := Str), false)
        else if value == 0x63 then (Core(Ground, core.csi, false, {}), true)
        else if value == ESC then (core, false)
        else (core.(state := Ground), false)
      case Csi =>
        if value == ESC then (core.(state := Escape), false)
        else if 0x30 <= value <= 0x3f then
          (if |core.csi| < MAX_CSI_PARAMETER_BYTES then core.(csi := core.csi + [value]) else core, false)
        else if 0x20 <= value <= 0x2f then (core, false)
        else if 0x40 <= value <= 0x7e then
          var (finished, boundary) := FinishCsi(core, value);
          (finished.(state := Ground), boundary)
        else (core.(state := Ground), false)
      case Osc =>
        if value == BEL then (core.(state := Ground), true)
        else if value == ESC then (core.(state := OscEscape), false)
        else (core, false)
      case OscEscape =>
        if value == BACKSLASH then (core.(state := Ground), true)
        else if value != ESC then (core.(state := Osc), false)
        else (core, false)
      case Str => (if value == ESC then core.(state := StrEscape) else core, false)
      case StrEscape =>
        if value == BACKSLASH then (core.(state := Ground), false)
        else if value != ESC then (core.(state := Str), false)
        else (core, false)
  }

  function LineAfter(core: Core, lineHasText: bool, value: Byte): bool
  {
    if value in {CAN, SUB} then lineHasText
    else if core.state.Ground? then
      (if value == NEWLINE then false else lineHasText || (value >= 0x20 && value != 0x7f))
    else if core.state.Escape? && value == 0x63 then false
    else lineHasText
  }

  function ProbeAfter(t: Tracker, value: Byte): (nat, bool)
    requires t.Valid()
  {
    if t.probe > 0 && value == SHELL_SIZE_PROBE[t.probe] then
      (if t.probe + 1 == |SHELL_SIZE_PROBE| then (0, true) else (t.probe + 1, false))
    else (if value == ESC && !t.lineHasText && t.core.Neutral() then 1 else 0, false)
  }

  /** One byte. The second component reports a safe point for prompt recognition. */
  function Feed(t: Tracker, value: Byte): (r: (Tracker, bool))
    requires t.Valid()
    ensures r.0.Valid()
    ensures r.0.core == CoreFeed(t.core, value).0
    ensures r.1 ==> r.0.core.Neutral() && !r.0.lineHasText
  {
    var (core, boundary) := CoreFeed(t.core, value);
    var line := LineAfter(t.core, t.lineHasText, value);
    var (probe, complete) := ProbeAfter(t, value);
    var probed := complete && t.core.state.Escape? && value == 0x38;
    (Tracker(core, line, probe), (boundary || probed) && !line && core.Neutral())
  }

  function FeedAll(t: Tracker, data: seq<Byte>): (r: Tracker)
    requires t.Valid()
    ensures r.Valid()
    decreases |data|
  {
    if data == [] then t else FeedAll(Feed(t, data[0]).0, data[1..])
  }

  function CoreRun(core: Core, data: seq<Byte>): Core
    decreases |data|
  {
    if data == [] then core else CoreRun(CoreFeed(core, data[0]).0, data[1..])
  }

  lemma {:induction false} CoreRunConcat(core: Core, a: seq<Byte>, b: seq<Byte>)
    ensures CoreRun(core, a + b) == CoreRun(CoreRun(core, a), b)
    decreases |a|
  {
    if a == [] {
      assert a + b == b;
    } else {
      CoreRunConcat(CoreFeed(core, a[0]).0, a[1..], b);
      assert (a + b)[1..] == a[1..] + b;
    }
  }

  /** Safety is a function of the bytes alone: neither the line nor the probe bookkeeping, which
      Flush resets, can change what the tracker believes about open sequences and attributes. */
  lemma {:induction false} CoreDependsOnBytesOnly(t: Tracker, u: Tracker, data: seq<Byte>)
    requires t.Valid() && u.Valid() && t.core == u.core
    ensures FeedAll(t, data).core == FeedAll(u, data).core == CoreRun(t.core, data)
    decreases |data|
  {
    if data != [] {
      CoreDependsOnBytesOnly(Feed(t, data[0]).0, Feed(u, data[0]).0, data[1..]);
    }
  }

  /** Outside any sequence, bytes other than ESC keep a neutral tracker neutral at every prefix. */
  lemma {:induction false} PlainTextStaysNeutral(core: Core, data: seq<Byte>)
    requires core.Neutral() && ESC !in data
    ensures CoreRun(core, data).Neutral()
    decreases |data|
  {
    if data != [] {
      PlainTextStaysNeutral(CoreFeed(core, data[0]).0, data[1..]);
    }
  }

  // ---- whole sequences ---------------------------------------------------------------

  predicate ParameterBytes(data: seq<Byte>) { forall i :: 0 <= i < |data| ==> 0x30 <= data[i] <= 0x3f }

  lemma {:induction false} CsiParametersAccumulate(core: Core, data: seq<Byte>)
    requires core.state.Csi? && ParameterBytes(data)
    requires |core.csi| + |data| <= MAX_CSI_PARAMETER_BYTES
    ensures CoreRun(core, data) == core.(csi := core.csi + data)
    decreases |data|
  {
    if data == [] {
      assert core.csi + data == core.csi;
    } else {
      CsiParametersAccumulate(CoreFeed(core, data[0]).0, data[1..]);
      assert core.csi + [data[0]] + data[1..] == core.csi + data;
    }
  }

  /** A whole SGR sequence has exactly the effect its parameters spell, whatever came before it. */
  lemma SgrSequence(core: Core, parameters: seq<Byte>)
    requires core.state.Ground? && ParameterBytes(parameters) && |parameters| <= MAX_CSI_PARAMETER_BYTES
    ensures CoreRun(core, [ESC, LEFT_BRACKET] + parameters + [FINAL_M])
         == Core(Ground, [], core.alternate, ApplySgr(core.sgr, parameters))
  {
    hide ApplySgr;
    var entered := core.(state := Csi, csi := []);
    assert CoreRun(core, [ESC, LEFT_BRACKET]) == entered by {
      assert CoreRun(CoreFeed(core, ESC).0, [ESC, LEFT_BRACKET][1..]) == entered;
    }
    CsiParametersAccumulate(entered, parameters);
    assert [] + parameters == parameters;
    CoreRunConcat(core, [ESC, LEFT_BRACKET], parameters);
    CoreRunConcat(core, [ESC, LEFT_BRACKET] + parameters, [FINAL_M]);
  }

  /** SGR 0, and SGR with no parameter, always end in a state without attributes. */
  lemma SgrResetClears(sgr: set<Attribute>)
    ensures ApplySgr(sgr, []) == {} && ApplySgr(sgr, [0x30]) == {}
  {
    ZeroIsZero();
    var zero: seq<Byte> := [0x30];
    var rest := Split(zero[1..], SEMICOLON);
    assert rest == [[]];
    assert Split(zero, SEMICOLON) == [[zero[0]] + rest[0]] + rest[1..];
    assert [zero[0]] + rest[0] == zero && rest[1..] == [];
    assert zero[..1] == zero;
    assert Split(zero, SEMICOLON) == [zero];
    assert PartNumber(zero) == Value(0);
    assert ApplyParts(sgr, [zero], 0) == ApplyParts({}, [zero], 1);
  }

  predicate OscBody(body: seq<Byte>) { forall i :: 0 <= i < |body| ==> body[i] !in {BEL, ESC, CAN, SUB} }

  lemma {:induction false} OscBodyStaysOpen(core: Core, body: seq<Byte>)
    requires core.state.Osc? && OscBody(body)
    ensures CoreRun(core, body) == core
    decreases |body|
  {
    if body != [] {
      OscBodyStaysOpen(core, body[1..]);
    }
  }

  /** A whole OSC string never changes attributes or screens, and only its terminator ends it. */
  lemma OscSequence(core: Core, body: seq<Byte>)
    requires core.state.Ground? && OscBody(body)
    ensures !CoreRun(core, [ESC, RIGHT_BRACKET] + body).Neutral()
    ensures CoreRun(core, [ESC, RIGHT_BRACKET] + body + [BEL]) == core
  {
    var entered := core.(state := Osc);
    assert CoreRun(core, [ESC, RIGHT_BRACKET]) == entered by {
      assert CoreRun(CoreFeed(core, ESC).0, [ESC, RIGHT_BRACKET][1..]) == entered;
    }
    OscBodyStaysOpen(entered, body);
    CoreRunConcat(core, [ESC, RIGHT_BRACKET], body);
    CoreRunConcat(core, [ESC, RIGHT_BRACKET] + body, [BEL]);
  }

  // ---- the tracker object ------------------------------------------------------------

  class VtTracker {
    var state: State
    var csiParameters: seq<Byte>
    var alternateScreen: bool
    var sgrAttributes: set<Attribute>
    var lineHasText: bool
    var sizeProbeOffset: nat

    ghost function Value(): Tracker
      reads this
    {
      Tracker(Core(state, csiParameters, alternateScreen, sgrAttributes), lineHasText, sizeProbeOffset)
    }

    constructor ()
      ensures Value() == INITIAL
    {
      state, csiParameters, alternateScreen := Ground, [], false;
      sgrAttributes, lineHasText, sizeProbeOffset := {}, false, 0;
    }

    predicate CanResumeHighlighting()
      reads this
      ensures CanResumeHighlighting() <==> Value().core.Neutral()
    {
      state == Ground && !alternateScreen && sgrAttributes == {}
    }

    method FeedByte(value: Byte) returns (ready: bool)
      requires Value().Valid()
      modifies this
      ensures (Value(), ready) == Feed(old(Value()), value)
    {
      hide FinishCsi;
      var probeComplete := TrackSizeProbe(value);
      if value == CAN || value == SUB {
        state, csiParameters := Ground, [];
        return false;
      }
      match state
      case Ground =>
        if value == ESC {
          state := Escape;
        } else if value == NEWLINE {
          lineHasText := false;
        } else if value >= 0x20 && value != 0x7f {
          lineHasText := true;
        }
        return false;
      case Escape =>
        if value == 0x38 {
          state := Ground;
          return probeComplete && !lineHasText && CanResumeHighlighting();
        } else if value == LEFT_BRACKET {
          state, csiParameters := Csi, [];
        } else if value == RIGHT_BRACKET {
          state := Osc;
        } else if value in {0x50, 0x58, 0x5e, 0x5f} {
          state := Str;
        } else if value == 0x63 {
          alternateScreen, sgrAttributes, lineHasText, state := false, {}, false, Ground;
          return true;
        } else if value != ESC {
          state := Ground;
        }
        return false;
      case Csi =>
        var promptBoundary := FeedCsi(value);
        return promptBoundary && !lineHasText && CanResumeHighlighting();
      case Osc =>
        if value == BEL {
          state := Ground;
          return !lineHasText && CanResumeHighlighting();
        } else if value == ESC {
          state := OscEscape;
        }
        return false;
      case OscEscape =>
        if value == BACKSLASH {
          state := Ground;
          return !lineHasText && CanResumeHighlighting();
        } else if value != ESC {
          state := Osc;
        }
        return false;
      case Str =>
        if value == ESC {
          state := StrEscape;
        }
        return false;
      case StrEscape =>
        if value == BACKSLASH {
          state := Ground;
        } else if value != ESC {
          state := Str;
        }
        return false;
    }

    method TrackSizeProbe(value: Byte) returns (complete: bool)
      requires Value().Valid()
      modifies `sizeProbeOffset
      ensures (sizeProbeOffset, complete) == ProbeAfter(old(Value()), value)
    {
      complete := false;
      if sizeProbeOffset > 0 && value == SHELL_SIZE_PROBE[sizeProbeOffset] {
        sizeProbeOffset := sizeProbeOffset + 1;
        if sizeProbeOffset == |SHELL_SIZE_PROBE| {
          sizeProbeOffset, complete := 0, true;
        }
      } else {
        sizeProbeOffset := 0;
        if value == ESC && !lineHasText && CanResumeHighlighting() {
          sizeProbeOffset := 1;
        }
      }
    }

    /** Inside a control sequence. */
    method FeedCsi(value: Byte) returns (promptBoundary: bool)
      requires state.Csi? && value !in {CAN, SUB}
      modifies this
      ensures Value() == old(Value()).(core := CoreFeed(old(Value().core), value).0)
      ensures promptBoundary == CoreFeed(old(Value().core), value).1
    {
      hide FinishCsi;
      promptBoundary := false;
      if value == ESC {
        state := Escape;
      } else if 0x30 <= value <= 0x3f {
        if |csiParameters| < MAX_CSI_PARAMETER_BYTES {
          csiParameters := csiParameters + [value];
        }
      } else if 0x20 <= value <= 0x2f {
      } else if 0x40 <= value <= 0x7e {
        promptBoundary := FinishCsiSequence(value);
        state := Ground;
      } else {
        state := Ground;
      }
    }

    method FinishCsiSequence(final: Byte) returns (promptBoundary: bool)
      modifies this
      ensures Value() == old(Value()).(core := FinishCsi(old(Value().core), final).0)
      ensures promptBoundary == FinishCsi(old(Value().core), final).1
    {
      var parameters := csiParameters;
      csiParameters := [];
      if final == FINAL_M {
        ApplySgrParameters(parameters);
        return true;
      }
      if final == FINAL_H || final == FINAL_L {
        if parameters != [] && parameters[0] == QUESTION {
          var enabled := final == FINAL_H;
          promptBoundary := true;
          var modes := Split(parameters[1..], SEMICOLON);
          for i := 0 to |modes|
            invariant csiParameters == [] && unchanged(`state) && unchanged(`sgrAttributes)
            invariant unchanged(`lineHasText) && unchanged(`sizeProbeOffset)
            invariant promptBoundary <==> forall m :: m in modes[..i] ==> PromptNeutralMode(m, enabled)
            invariant alternateScreen ==
              if exists m :: m in modes[..i] && IsAlternateMode(m) then enabled else old(alternateScreen)
          {
            assert modes[..i + 1] == modes[..i] + [modes[i]];
            assert modes[i] in modes[..i + 1];
            match Atoi(modes[i])
            case Invalid =>
              promptBoundary := false;
            case Value(mode) =>
              if mode in PROMPT_MODES {
              } else if mode in ALTERNATE_MODES {
                alternateScreen := enabled;
                promptBoundary := promptBoundary && !enabled;
              } else {
                promptBoundary := false;
              }
          }
          assert modes[..|modes|] == modes;
          return;
        }
      }
      return false;
    }

    method ApplySgrParameters(parameters: seq<Byte>)
      modifies `sgrAttributes
      ensures sgrAttributes == ApplySgr(old(sgrAttributes), parameters)
    {
      if parameters == [] {
        sgrAttributes := {};
        return;
      }
      hide Split, PartEffect, Skipped;
      var parts := Split(parameters, SEMICOLON);
      var index := 0;
      while index < |parts|
        invariant 0 <= index <= |parts|
        invariant ApplyParts(sgrAttributes, parts, index) == ApplySgr(old(sgrAttributes), parameters)
      {
        index := ApplyPart(parts, index);
      }
    }

    /** One parameter and what it takes along. */
    method ApplyPart(parts: seq<seq<Byte>>, index: nat) returns (next: nat)
      requires index < |parts|
      modifies `sgrAttributes
      ensures next == index + 1 + Skipped(parts, index)
      ensures sgrAttributes == PartEffect(old(sgrAttributes), parts[index])
    {
      hide SetCode, Atoi;
      var part := if parts[index] == [] then [0x30] else parts[index];
      ZeroIsZero();
      assert [0x30][..1] == [0x30];
      var separator := FirstIndex(part, COLON);
      var number := Atoi(part[..separator]);
      assert number == PartNumber(parts[index]);
      assert separator == |part| <==> COLON !in parts[index];
      next := index + 1;
      if number.Invalid? {
        sgrAttributes := sgrAttributes + {Unknown};
      } else {
        SetSgrCode(number.n);
        if separator == |part| && IsExtendedColor(number.n) {
          next := index + 1 + ExtendedColorParameters(parts[index + 1..]);
        }
      }
    }

    method SetSgrCode(code: nat)
      modifies `sgrAttributes
      ensures sgrAttributes == SetCode(old(sgrAttributes), code)
    {
      if code == 0 {
        sgrAttributes := {};
      } else if code == 1 || code == 2 {
        sgrAttributes := sgrAttributes + {Intensity};
      } else if code == 3 {
        sgrAttributes := sgrAttributes + {Italic};
      } else if code == 4 || code == 21 {
        sgrAttributes := sgrAttributes + {Underline};
      } else if code == 5 || code == 6 {
        sgrAttributes := sgrAttributes + {Blink};
      } else if code == 7 {
        sgrAttributes := sgrAttributes + {Inverse};
      } else if code == 8 {
        sgrAttributes := sgrAttributes + {Conceal};
      } else if code == 9 {
        sgrAttributes := sgrAttributes + {Strike};
      } else if code == 22 {
        sgrAttributes := sgrAttributes - {Intensity};
      } else if code == 23 {
        sgrAttributes := sgrAttributes - {Italic};
      } else if code == 24 {
        sgrAttributes := sgrAttributes - {Underline};
      } else if code == 25 {
        sgrAttributes := sgrAttributes - {Blink};
      } else if code == 27 {
        sgrAttributes := sgrAttributes - {Inverse};
      } else if code == 28 {
        sgrAttributes := sgrAttributes - {Conceal};
      } else if code == 29 {
        sgrAttributes := sgrAttributes - {Strike};
      } else if (30 <= code <= 37) || (90 <= code <= 97) || code == 38 {
        sgrAttributes := sgrAttributes + {Foreground};
      } else if code == 39 {
        sgrAttributes := sgrAttributes - {Foreground};
      } else if (40 <= code <= 47) || (100 <= code <= 107) || code == 48 {
        sgrAttributes := sgrAttributes + {Background};
      } else if code == 49 {
        sgrAttributes := sgrAttributes - {Background};
      } else if code == 51 || code == 52 {
        sgrAttributes := sgrAttributes + {Frame};
      } else if code == 53 {
        sgrAttributes := sgrAttributes + {Overline};
      } else if code == 54 {
        sgrAttributes := sgrAttributes - {Frame};
      } else if code == 55 {
        sgrAttributes := sgrAttributes - {Overline};
      } else if code == 58 {
        sgrAttributes := sgrAttributes + {UnderlineColor};
      } else if code == 59 {
        sgrAttributes := sgrAttributes - {UnderlineColor};
      } else {
        sgrAttributes := sgrAttributes + {Unknown};
      }
    }
  }
}
