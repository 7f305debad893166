/** The local escape controller: splits typed bytes into remote writes and local commands. */
module EscapeController {
  import opened Bytes

  const DEFAULT_ESCAPE: Byte := 0x1d
  const CTRL_C: Byte := 3

  datatype Action =
    | Remote(data: seq<Byte>)
    | Quit
    | Help
    | TogglePromptTimestamp
    | FileTransfer
    | EscapePending
    | CancelEscape
    | UnknownEscape(command: Byte)

  /** The observable effect of actions: remote bytes one by one, local actions in between. */
  datatype Effect = Sent(b: Byte) | Local(action: Action)

  function SentAll(data: seq<Byte>): (effects: seq<Effect>)
    ensures |effects| == |data|
    ensures forall i :: 0 <= i < |data| ==> effects[i] == Sent(data[i])
  {
    seq(|data|, i requires 0 <= i < |data| => Sent(data[i]))
  }

  function Flatten(actions: seq<Action>): seq<Effect>
  {
    if actions == [] then []
    else Flatten(actions[..|actions| - 1]) + EffectsOf(actions[|actions| - 1])
  }

  function EffectsOf(action: Action): seq<Effect> {
    if action.Remote? then SentAll(action.data) else [Local(action)]
  }

  /** The command byte behind an escape. */
  function Command(escape: Byte, value: Byte): Effect
  {
    if value == 0x71 then Local(Quit)
    else if value == 0x3f then Local(Help)
    else if value == 0x74 then Local(TogglePromptTimestamp)
    else if value == 0x66 then Local(FileTransfer)
    else if value == 0x5d then Sent(escape)
    else if value == CTRL_C then Sent(value)
    else if value == ESC then Local(CancelEscape)
    else Local(UnknownEscape(value))
  }

  /** What a stretch of input means, byte by byte. */
  function Effects(escape: Byte, pending: bool, data: seq<Byte>): seq<Effect>
    decreases |data|
  {
    if data == [] then []
    else if pending then [Command(escape, data[0])] + Effects(escape, false, data[1..])
    else if data[0] == escape then [Local(EscapePending)] + Effects(escape, true, data[1..])
    else [Sent(data[0])] + Effects(escape, false, data[1..])
  }

  function PendingAfter(escape: Byte, pending: bool, data: seq<Byte>): bool
    decreases |data|
  {
    if data == [] then pending else PendingAfter(escape, !pending && data[0] == escape, data[1..])
  }

  /** The meaning does not depend on where reads were cut. */
  lemma {:induction false} EffectsConcat(escape: Byte, pending: bool, a: seq<Byte>, b: seq<Byte>)
    ensures Effects(escape, pending, a + b)
      == Effects(escape, pending, a) + Effects(escape, PendingAfter(escape, pending, a), b)
    ensures PendingAfter(escape, pending, a + b) == PendingAfter(escape, PendingAfter(escape, pending, a), b)
    decreases |a|
  {
    if a == [] {
      assert a + b == b;
    } else {
      assert (a + b)[1..] == a[1..] + b;
      EffectsConcat(escape, !pending && a[0] == escape, a[1..], b);
    }
  }

  /** Typing the escape byte twice over: escape, then a closing bracket. */
  function Quoted(escape: Byte, data: seq<Byte>): seq<Byte>
  {
    if data == [] then []
    else (if data[0] == escape then [escape, 0x5d] else [data[0]]) + Quoted(escape, data[1..])
  }

  function SentBytes(effects: seq<Effect>): seq<Byte>
  {
    if effects == [] then []
    else (if effects[0].Sent? then [effects[0].b] else []) + SentBytes(effects[1..])
  }

  /** Quoting lets every byte string through unchanged, and leaves the controller in normal mode. */
  lemma {:induction false} QuotedArrives(escape: Byte, data: seq<Byte>)
    ensures SentBytes(Effects(escape, false, Quoted(escape, data))) == data
    ensures !PendingAfter(escape, false, Quoted(escape, data))
    decreases |data|
  {
    if data != [] {
      var rest := Quoted(escape, data[1..]);
      QuotedArrives(escape, data[1..]);
      if data[0] == escape {
        assert Quoted(escape, data)[1..] == [0x5d] + rest;
        assert ([0x5d] + rest)[1..] == rest;
        assert Effects(escape, true, [0x5d] + rest) == [Sent(escape)] + Effects(escape, false, rest);
        assert Effects(escape, false, Quoted(escape, data))
          == [Local(EscapePending)] + ([Sent(escape)] + Effects(escape, false, rest));
        assert ([Local(EscapePending)] + ([Sent(escape)] + Effects(escape, false, rest)))[1..]
          == [Sent(escape)] + Effects(escape, false, rest);
      } else {
        assert Quoted(escape, data)[1..] == rest;
        assert Effects(escape, false, Quoted(escape, data)) == [Sent(data[0])] + Effects(escape, false, rest);
      }
    }
  }

  lemma OneMoreByte(escape: Byte, pending: bool, data: seq<Byte>, i: nat)
    requires i < |data|
    ensures var before := PendingAfter(escape, pending, data[..i]);
      && PendingAfter(escape, pending, data[..i + 1]) == (!before && data[i] == escape)
      && Effects(escape, pending, data[..i + 1]) == Effects(escape, pending, data[..i])
           + [if before then Command(escape, data[i])
              else if data[i] == escape then Local(EscapePending) else Sent(data[i])]
  {
    var before := PendingAfter(escape, pending, data[..i]);
    assert data[..i + 1] == data[..i] + [data[i]];
    EffectsConcat(escape, pending, data[..i], [data[i]]);
    assert Effects(escape, false, []) == [] && Effects(escape, true, []) == [];
    assert [data[i]][1..] == [];
    assert PendingAfter(escape, before, [data[i]]) == PendingAfter(escape, !before && data[i] == escape, []);
  }

  lemma OneMoreSent(data: seq<Byte>, start: nat, i: nat)
    requires start <= i < |data|
    ensures SentAll(data[start..i + 1]) == SentAll(data[start..i]) + [Sent(data[i])]
  {
    assert data[start..i + 1] == data[start..i] + [data[i]];
  }

  lemma OneMoreAction(actions: seq<Action>, action: Action)
    ensures Flatten(actions + [action]) == Flatten(actions) + EffectsOf(action)
  {
    assert (actions + [action])[..|actions|] == actions;
  }

  lemma NothingSent(data: seq<Byte>, at: nat)
    requires at <= |data|
    ensures SentAll(data[at..at]) == []
  {
  }

  lemma NothingYet(escape: Byte, pending: bool, data: seq<Byte>)
    ensures data[..0] == [] && data[0..0] == [] && SentAll([]) == [] && Flatten([]) == []
    ensures Effects(escape, pending, []) == [] && PendingAfter(escape, pending, []) == pending
  {
  }

  lemma CommandEffect(escape: Byte, value: Byte, action: Action)
    requires action ==
      if value == 0x71 then Quit
      else if value == 0x3f then Help
      else if value == 0x74 then TogglePromptTimestamp
      else if value == 0x66 then FileTransfer
      else if value == 0x5d then Remote([escape])
      else if value == CTRL_C then Remote([value])
      else if value == ESC then CancelEscape
      else UnknownEscape(value)
    ensures EffectsOf(action) == [Command(escape, value)]
  {
  }

  class Controller {
    const escapeByte: Byte
    var pending: bool

    constructor (escapeByte: Byte)
      ensures this.escapeByte == escapeByte && !pending
    {
      this.escapeByte, pending := escapeByte, false;
    }

    /** Zero selects the conventional Ctrl+]. */
    function EscapeByte(): (b: Byte)
      ensures b != 0
    {
      if escapeByte == 0 then DEFAULT_ESCAPE else escapeByte
    }

    method Process(data: seq<Byte>) returns (actions: seq<Action>)
      modifies this
      ensures Flatten(actions) == Effects(EscapeByte(), old(pending), data)
      ensures pending == PendingAfter(EscapeByte(), old(pending), data)
      ensures forall a :: a in actions && a.Remote? ==> a.data != []
    {
      hide Effects, PendingAfter, Flatten, SentAll;
      actions := [];
      var remoteStart := 0;
      ghost var escape := EscapeByte();
      NothingYet(escape, pending, data);
      for index := 0 to |data|
        invariant 0 <= remoteStart <= index && (pending ==> remoteStart == index)
        invariant pending == PendingAfter(escape, old(pending), data[..index])
        invariant Flatten(actions) + SentAll(data[remoteStart..index]) == Effects(escape, old(pending), data[..index])
        invariant forall a :: a in actions && a.Remote? ==> a.data != []
      {
        var value := data[index];
        OneMoreByte(escape, old(pending), data, index);
        OneMoreSent(data, remoteStart, index);
        NothingSent(data, index + 1);
        if pending {
          actions := FlushRemote(actions, data, remoteStart, index);
          var action :=
            if value == 0x71 then Quit
            else if value == 0x3f then Help
            else if value == 0x74 then TogglePromptTimestamp
            else if value == 0x66 then FileTransfer
            else if value == 0x5d then Remote([EscapeByte()])
            else if value == CTRL_C then Remote([value])
            else if value == ESC then CancelEscape
            else UnknownEscape(value);
          OneMoreAction(actions, action);
          CommandEffect(escape, value, action);
          actions := actions + [action];
          pending := false;
          remoteStart := index + 1;
        } else if value == EscapeByte() {
          actions := FlushRemote(actions, data, remoteStart, index);
          OneMoreAction(actions, EscapePending);
          actions := actions + [EscapePending];
          pending := true;
          remoteStart := index + 1;
        }
      }
      actions := FlushRemote(actions, data, remoteStart, |data|);
      assert data[..|data|] == data;
    }

    static method FlushRemote(before: seq<Action>, data: seq<Byte>, start: nat, end: nat) returns (actions: seq<Action>)
      requires start <= end <= |data|
      ensures Flatten(actions) == Flatten(before) + SentAll(data[start..end])
      ensures forall a :: a in actions && a.Remote? ==> a in before || a.data != []
      ensures start == end ==> actions == before
    {
      NothingSent(data, start);
      if end == start {
        return before;
      }
      actions := before + [Remote(data[start..end])];
      OneMoreAction(before, Remote(data[start..end]));
    }
  }
}
