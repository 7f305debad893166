/** The client side of a file transfer: one target-side shell, and the marker protocol that runs
    through it. */
module FileProtocol {
  import opened Bytes
  import opened Decimals
  import opened Errors
  import opened Markers
  import opened Options
  import opened RemoteBoard
  import opened Search
  import opened TerminalIO

  // ---- the shell ---------------------------------------------------------------------

  /** Some shell reads the terminal: the child, or its parent again. */
  predicate AtShell(b: Board) { b.remote.Prompt? || b.remote.Parent? }

  /** Forwards Session traffic. `idle` says that the shell waits for its next line, so that a
      keep-alive line may be typed; a failed recovery is latched. */
  class ShellSession {
    const terminal: Terminal
    var idle: bool
    var started: bool
    var closed: bool
    var heartbeatErr: Error
    var recoveryErr: Error

    constructor (terminal: Terminal)
      ensures this.terminal == terminal && !idle && !started && !closed && heartbeatErr.NoError? && recoveryErr.NoError?
    {
      this.terminal := terminal;
      idle, started, closed, heartbeatErr, recoveryErr := false, false, false, NoError, NoError;
    }

    /** Idle means that the child shell is at its prompt or gone: a keep-alive line never lands in a raw
        block. */
    ghost predicate Valid()
      reads this, terminal
    {
      && terminal.board.Valid()
      && (idle ==> AtShell(terminal.board))
      && (recoveryErr.NoError? || recoveryErr.Is(RecoveryUnconfirmed))
      && (heartbeatErr.NoError? || IsFailure(heartbeatErr))
    }

    /** Nothing has been typed. */
    twostate predicate Untyped()
      reads this, terminal
    {
      terminal.board == old(terminal.board) && terminal.touched == old(terminal.touched)
    }

    /** One tick of the background keep-alive. */
    method Heartbeat()
      requires Valid()
      modifies this`idle, this`heartbeatErr, terminal
      ensures Valid() && Later(old(terminal.board), terminal.board)
      ensures terminal.board.delivered == old(terminal.board.delivered)
      ensures idle ==> old(idle)
      ensures old(!idle || Silenced()) ==> Untyped()
      ensures old(!idle || Silenced()) ==> heartbeatErr == old(heartbeatErr)
    {
      if !idle || closed || !heartbeatErr.NoError? || !recoveryErr.NoError? {
        LaterReflexive(terminal.board);
        return;
      }
      var err := terminal.KeepAlive();
      if !err.NoError? {
        heartbeatErr := err;
        idle := false;
      }
    }

    /** Any number of ticks. */
    method Heartbeats()
      requires Valid()
      modifies this`idle, this`heartbeatErr, terminal
      ensures Valid() && Later(old(terminal.board), terminal.board)
      ensures terminal.board.delivered == old(terminal.board.delivered)
      ensures idle ==> old(idle)
      ensures old(Silenced()) ==> Untyped()
      ensures old(Silenced()) ==> Silenced() && heartbeatErr == old(heartbeatErr)
    {
      hide Later, Board.Valid;
      LaterReflexive(terminal.board);
      var n: nat :| true;
      while n > 0
        invariant Valid() && Later(old(terminal.board), terminal.board)
        invariant terminal.board.delivered == old(terminal.board.delivered)
        invariant idle ==> old(idle)
        invariant old(Silenced()) ==> Untyped()
        invariant old(Silenced()) ==> Silenced() && heartbeatErr == old(heartbeatErr)
      {
        ghost var before := terminal.board;
        Heartbeat();
        LaterTransitive(old(terminal.board), before, terminal.board);
        n := n - 1;
      }
    }

    /** Closed, or failed: nothing more is typed. */
    predicate Silenced()
      reads this
    {
      closed || !heartbeatErr.NoError? || !recoveryErr.NoError?
    }

    predicate Failed()
      reads this
    {
      !recoveryErr.NoError?
    }

    /** An unconfirmed recovery is never reported without being latched. */
    predicate Latched(err: Error)
      reads this
    {
      err.Is(RecoveryUnconfirmed) ==> recoveryErr.Is(RecoveryUnconfirmed)
    }

    /** Why the shell takes no more input. */
    function Refusal(): Error
      reads this
    {
      if !recoveryErr.NoError? then recoveryErr
      else if closed then Wrapped({Transport})
      else heartbeatErr
    }

    method WriteCommand(command: Command) returns (err: Error)
      requires Valid() && AtShell(terminal.board)
      requires command.Describe? ==> command.phase == META || command.phase == FINAL
      modifies this`idle, this`heartbeatErr, terminal
      ensures Valid()
      ensures Begun(old(terminal.board), command, terminal.board) || Later(old(terminal.board), terminal.board)
      ensures err.NoError? && !Begun(old(terminal.board), command, terminal.board) ==> terminal.board.remote.Parent?
      ensures !err.NoError? ==> IsFailure(err) || err == recoveryErr
      ensures err.NoError? ==> !idle
      ensures old(Silenced()) ==> !err.NoError? && Untyped()
      ensures old(!recoveryErr.NoError?) ==> err == recoveryErr
      ensures Latched(err)
    {
      hide Board.Valid, Later, Begun;
      Heartbeats();
      PromptStays(old(terminal.board), terminal.board);
      err := Refusal();
      if err.NoError? {
        idle := false;
        ghost var before := terminal.board;
        err := terminal.Submit(command);
        BegunLater(old(terminal.board), before, command, terminal.board);
      }
    }

    method WriteContext(data: seq<Byte>) returns (count: nat, err: Error)
      requires Valid()
      modifies this`idle, this`heartbeatErr, terminal
      ensures Valid() && Later(old(terminal.board), terminal.board)
      ensures terminal.board.delivered ==
        old(terminal.board.delivered) + data[..if count <= |data| then count else |data|]
      ensures err.NoError? || IsFailure(err) || err == recoveryErr
      ensures old(Silenced()) ==> !err.NoError? && Untyped()
      ensures Latched(err)
    {
      hide Board.Valid, Later;
      Heartbeats();
      err := Refusal();
      if err.NoError? {
        ghost var before := terminal.board;
        count, err := terminal.Write(data);
        PromptStays(before, terminal.board);
        LaterTransitive(old(terminal.board), before, terminal.board);
      } else {
        count := 0;
        assert data[..0] == [];
      }
    }

    /** Writes all of the data, or reports how much was delivered before it failed. */
    method WritePayload(data: seq<Byte>) returns (written: nat, err: Error)
      requires Valid()
      modifies this`idle, this`heartbeatErr, terminal
      ensures Valid() && Later(old(terminal.board), terminal.board)
      ensures written <= |data| && terminal.board.delivered == old(terminal.board.delivered) + data[..written]
      ensures err.NoError? ==> written == |data|
      ensures err.NoError? || IsFailure(err) || err == recoveryErr || err == Wrapped({ShortWrite})
      ensures Latched(err)
    {
      hide Board.Valid, Later;
      LaterReflexive(terminal.board);
      written := 0;
      ghost var was := terminal.board;
      while written < |data|
        invariant Valid() && Later(was, terminal.board)
        invariant written <= |data| && terminal.board.delivered == was.delivered + data[..written]
      {
        err := SomeFailure();
        if !err.NoError? {
          return;
        }
        var count;
        ghost var before := terminal.board;
        count, err := WriteContext(data[written..]);
        LaterTransitive(was, before, terminal.board);
        if count > |data| - written {
          count := |data| - written;
        }
        AnotherPart(data, written, count);
        written := written + count;
        if !err.NoError? {
          return;
        }
        if count == 0 {
          err := Wrapped({ShortWrite});
          return;
        }
      }
      err := NoError;
    }

    method CommandCompleted()
      requires Valid() && AtShell(terminal.board)
      modifies this`idle
      ensures Valid() && idle == (old(idle) || (!closed && heartbeatErr.NoError?))
    {
      if !closed && heartbeatErr.NoError? {
        idle := true;
      }
    }

    /** Latches a failed recovery and tries to close the Session. */
    method RecoveryError(err: Error) returns (r: Error)
      requires Valid() && !PassesThrough(err)
      modifies this`recoveryErr
      ensures Valid()
      ensures err.NoError? ==> r.NoError? && recoveryErr == old(recoveryErr)
      ensures !err.NoError? ==> r.Is(RecoveryUnconfirmed) && recoveryErr.Is(RecoveryUnconfirmed)
      ensures forall k :: err.Is(k) ==> r.Is(k)
      ensures !old(recoveryErr).NoError? ==> recoveryErr == old(recoveryErr)
      ensures !old(recoveryErr).NoError? && !err.NoError? ==> forall k :: recoveryErr.Is(k) ==> r.Is(k)
      ensures Latched(r) && (old(Failed()) ==> Failed())
    {
      if err.NoError? {
        return NoError;
      }
      if !recoveryErr.NoError? {
        return Joined(recoveryErr, err);
      }
      recoveryErr := Joined(Wrapped({RecoveryUnconfirmed}), err);
      var abortErr := SomeFailure();
      r := Joined(recoveryErr, abortErr);
      recoveryErr := r;
    }
  }

  lemma AnotherPart(data: seq<Byte>, written: nat, count: nat)
    requires written + count <= |data|
    ensures data[..written] + data[written..][..count] == data[..written + count]
  {
    assert data[written..|data|] == data[written..];
    SliceOfSlice(data, written, |data| - written, 0, count);
  }

  /** A finished peer command may still reach the outer shell's exit. */
  predicate PassesThrough(err: Error) { err == RemoteError(READ) || err == RemoteError(WRITE) }

  lemma BegunLater(a: Board, b: Board, command: Command, c: Board)
    requires Later(a, b)
    ensures Begun(b, command, c) ==> Begun(a, command, c)
    ensures Later(b, c) ==> Later(a, c)
  {
    hide Later;
    if Begun(b, command, c) {
      var d: Board :| Later(b, d) && d.remote.Prompt? && Later(Submitted(d, command), c);
      LaterTransitive(a, b, d);
    }
    if Later(b, c) {
      LaterTransitive(a, b, c);
    }
  }

  lemma PromptStays(b: Board, c: Board)
    requires Later(b, c)
    ensures AtShell(b) ==> AtShell(c)
  {
    hide ExitShows;
  }

  // ---- the protocol ------------------------------------------------------------------

  datatype Outcome = Arguments(fields: seq<seq<Byte>>) | Failed(err: Error)

  /** What a marker means to somebody waiting for `phase`. */
  function Classify(fields: seq<seq<Byte>>, phase: seq<Byte>): (r: Outcome)
    requires |fields| > 0
  {
    if fields[0] == ERROR then Failed(RemoteError(Join(fields[1..], COLON)))
    else if fields[0] != phase then Failed(Wrapped({ProtocolViolation}))
    else Arguments(fields[1..])
  }

  /** READY and DATA announce a block that still owns the terminal. */
  predicate CompletesCommand(phase: seq<Byte>) { phase != READY && phase != DATA }

  function Expected(fields: seq<seq<Byte>>, phase: seq<Byte>, arguments: seq<seq<Byte>>): Error
    requires |fields| > 0
  {
    match Classify(fields, phase)
    case Failed(err) => err
    case Arguments(given) => if given == arguments then NoError else Wrapped({ProtocolViolation})
  }

  class FileProtocol {
    const shell: ShellSession
    const terminal: Terminal
    const reader: MarkerReader

    constructor (shell: ShellSession, cursor: nat)
      requires shell.Valid() && cursor <= |shell.terminal.board.Stream()|
      ensures this.shell == shell && fresh(reader) && terminal == shell.terminal && Valid() && reader.Pos() == cursor
    {
      this.shell := shell;
      this.terminal := shell.terminal;
      assert |shell.terminal.board.prefix| > 0;
      this.reader := new MarkerReader(shell.terminal, shell.terminal.board.prefix, cursor);
    }

    ghost predicate Valid()
      reads this, shell, terminal, reader
    {
      && shell.terminal == terminal && shell.Valid()
      && reader.terminal == terminal && reader.Valid() && reader.prefix == terminal.board.prefix
    }

    ghost predicate Awaiting()
      reads this, terminal, reader
    {
      || AwaitsFirst(terminal.board, reader.Pos()) || AwaitsSecond(terminal.board, reader.Pos())
      || Unheard()
    }

    /** The child shell is gone, and nothing it has reported is left to read. */
    ghost predicate Unheard()
      reads this, terminal, reader
    {
      Deaf(terminal.board, reader.Pos())
    }

    ghost predicate Resting()
      reads this, terminal, reader
    {
      AtRest(terminal.board, reader.Pos())
    }

    /** Waits for the next marker. `seen` is the marker consumed, if any; without one the reader is
        still waiting for the same marker. */
    method ExpectPhase(phase: seq<Byte>) returns (r: Outcome, ghost seen: Option<Marker>)
      requires Valid() && Awaiting()
      modifies shell`idle, reader, terminal
      ensures Valid() && Later(old(terminal.board), terminal.board)
      ensures terminal.board.delivered == old(terminal.board.delivered)
      ensures seen.None? ==> r.Failed? && (IsFailure(r.err) || r.err == Wrapped({ProtocolViolation}))
      ensures seen.None? ==>
        && (old(AwaitsFirst(terminal.board, reader.Pos())) ==> AwaitsFirst(terminal.board, reader.Pos()))
        && (old(AwaitsSecond(terminal.board, reader.Pos())) ==> AwaitsSecond(terminal.board, reader.Pos()))
      ensures old(Unheard()) ==> seen.None? && Unheard()
      ensures seen.Some? ==> |seen.value.fields| > 0 && r == Classify(seen.value.fields, phase)
      ensures shell.idle == (old(shell.idle) || (seen.Some? && CompletesCommand(seen.value.fields[0])
                                                 && !shell.closed && shell.heartbeatErr.NoError?))
      ensures seen.Some? && old(AwaitsFirst(terminal.board, reader.Pos())) ==>
        terminal.board.reply.first == seen && reader.Pos() == terminal.board.FirstEnd()
      ensures seen.Some? && old(AwaitsSecond(terminal.board, reader.Pos())) ==>
        terminal.board.reply.second == seen && Resting()
      ensures r.Failed? ==> !r.err.Is(RecoveryUnconfirmed)
    {
      hide Later, Board.Valid, Found, Passed, AwaitsFirst, AwaitsSecond, Deaf, FieldsAt;
      ghost var was, from := terminal.board, reader.Pos();
      var fields, err;
      ghost var start;
      fields, err, start := reader.NextMarker();
      LaterFacts(was, terminal.board);
      LaterAwaits(was, terminal.board, from);
      PromptStays(was, terminal.board);
      if !err.NoError? {
        PassingKeeps(terminal.board, from, reader.Pos());
        return Failed(err), None;
      }
      NoAnswerFrom(terminal.board, from, start, reader.Pos() - 1);
      if AwaitsFirst(terminal.board, from) {
        NextIsFirst(terminal.board, from, start, reader.Pos() - 1);
        seen := terminal.board.reply.first;
      } else {
        NextIsSecond(terminal.board, from, start, reader.Pos() - 1);
        seen := terminal.board.reply.second;
      }
      Exclusive(was, from);
      Exclusive(terminal.board, from);
      if CompletesCommand(fields[0]) {
        CompletedAtPrompt(terminal.board, seen.value);
        shell.CommandCompleted();
      }
      r := Classify(fields, phase);
    }

    method Expect(phase: seq<Byte>, argument: seq<Byte>) returns (err: Error, ghost seen: Option<Marker>)
      requires Valid() && Awaiting()
      modifies shell`idle, reader, terminal
      ensures Valid() && Later(old(terminal.board), terminal.board)
      ensures terminal.board.delivered == old(terminal.board.delivered)
      ensures seen.None? ==> IsFailure(err) || err == Wrapped({ProtocolViolation})
      ensures seen.None? ==>
        && (old(AwaitsFirst(terminal.board, reader.Pos())) ==> AwaitsFirst(terminal.board, reader.Pos()))
        && (old(AwaitsSecond(terminal.board, reader.Pos())) ==> AwaitsSecond(terminal.board, reader.Pos()))
      ensures old(Unheard()) ==> seen.None? && Unheard()
      ensures seen.Some? ==> |seen.value.fields| > 0 && err == Expected(seen.value.fields, phase, [argument])
      ensures seen.Some? && old(AwaitsFirst(terminal.board, reader.Pos())) ==>
        terminal.board.reply.first == seen && reader.Pos() == terminal.board.FirstEnd()
      ensures seen.Some? && old(AwaitsSecond(terminal.board, reader.Pos())) ==>
        terminal.board.reply.second == seen && Resting()
      ensures !err.Is(RecoveryUnconfirmed)
    {
      hide Later, Board.Valid, AwaitsFirst, AwaitsSecond, AtRest, Deaf;
      var r: Outcome;
      r, seen := ExpectPhase(phase);
      match r
      case Failed(e) => err := e;
      case Arguments(fields) => err := if fields == [argument] then NoError else Wrapped({ProtocolViolation});
    }

    /** The command has been typed since, and its answer is still to come. */
    ghost predicate Asked(was: Board, command: Command)
      reads this, terminal, reader
    {
      && AwaitsFirst(terminal.board, reader.Pos()) && terminal.board.command == command
      && terminal.board.delivered == []
      && terminal.board.fileBefore == was.file && terminal.board.namesBefore == was.names
    }

    ghost predicate Unasked(was: Board)
      reads this, terminal, reader
    {
      AtShell(terminal.board) && terminal.board.file == was.file && terminal.board.names == was.names
    }

    /** Types a command. A shell that has gone takes no notice of it. */
    method Command(command: Command) returns (err: Error)
      requires Valid() && Resting()
      requires command.Describe? ==> command.phase == META || command.phase == FINAL
      modifies shell`idle, shell`heartbeatErr, terminal
      ensures Valid() && reader.Pos() == old(reader.Pos())
      ensures old(terminal.board.Stream()) <= terminal.board.Stream()
      ensures Asked(old(terminal.board), command) || Unasked(old(terminal.board))
      ensures err.NoError? ==> Asked(old(terminal.board), command) || Unheard()
      ensures Unheard() ==> Unasked(old(terminal.board))
      ensures !command.SendChunk? && !command.Create? ==> terminal.board.file == old(terminal.board.file)
      ensures !command.Create? ==> terminal.board.names == old(terminal.board.names)
      ensures !err.NoError? ==> IsFailure(err) || err == shell.recoveryErr
      ensures shell.Latched(err)
    {
      hide Later, Board.Valid, AwaitsFirst, AwaitsSecond, Begun;
      ghost var was := terminal.board;
      err := shell.WriteCommand(command);
      BegunFacts(was, command, terminal.board, reader.Pos());
      LaterFacts(was, terminal.board);
      reader.StillValid(was);
    }

    method WritePayload(data: seq<Byte>) returns (written: nat, err: Error)
      requires Valid() && Awaiting()
      modifies shell`idle, shell`heartbeatErr, terminal
      ensures Valid() && Later(old(terminal.board), terminal.board) && reader.Pos() == old(reader.Pos())
      ensures old(AwaitsSecond(terminal.board, reader.Pos())) ==> AwaitsSecond(terminal.board, reader.Pos())
      ensures written <= |data| && terminal.board.delivered == old(terminal.board.delivered) + data[..written]
      ensures err.NoError? ==> written == |data|
      ensures !err.NoError? ==> !PassesThrough(err)
      ensures shell.Latched(err)
    {
      hide Later, Board.Valid, AwaitsFirst, AwaitsSecond, AtRest;
      ghost var was := terminal.board;
      written, err := shell.WritePayload(data);
      LaterFacts(was, terminal.board);
      LaterAwaits(was, terminal.board, reader.Pos());
      reader.StillValid(was);
    }

    method RecoveryError(err: Error) returns (r: Error)
      requires Valid()
      modifies shell`recoveryErr
      ensures Valid()
      ensures if err.NoError? || PassesThrough(err) then r == err else r.Is(RecoveryUnconfirmed)
      ensures (!err.NoError? && !PassesThrough(err) ==> shell.Latched(r)) && (old(shell.Failed()) ==> shell.Failed())
    {
      if PassesThrough(err) {
        return err;
      }
      r := shell.RecoveryError(err);
    }

    /** Waits for a marker with the recovery's own deadline. */
    method FinishPendingMarker(phase: seq<Byte>, argument: seq<Byte>) returns (err: Error, ghost seen: Option<Marker>)
      requires Valid() && Awaiting()
      modifies shell`idle, shell`recoveryErr, reader, terminal
      ensures Valid() && Later(old(terminal.board), terminal.board)
      ensures terminal.board.delivered == old(terminal.board.delivered)
      ensures !err.Is(RecoveryUnconfirmed) ==>
        && seen.Some? && |seen.value.fields| > 0 && err == Expected(seen.value.fields, phase, [argument])
        && (err.NoError? || PassesThrough(err))
      ensures seen.Some? && old(AwaitsFirst(terminal.board, reader.Pos())) ==>
        terminal.board.reply.first == seen && reader.Pos() == terminal.board.FirstEnd()
      ensures seen.Some? && old(AwaitsSecond(terminal.board, reader.Pos())) ==> Resting()
      ensures old(Unheard()) ==> err.Is(RecoveryUnconfirmed) && Unheard()
      ensures shell.Latched(err) && (old(shell.Failed()) ==> shell.Failed())
    {
      hide Later, Board.Valid, AwaitsFirst, AwaitsSecond, AtRest, Deaf;
      err, seen := Expect(phase, argument);
      err := RecoveryError(err);
    }

    /** Completes a block whose `remaining` bytes the board still waits for. */
    method FinishSendChunk(remaining: nat, size: nat) returns (err: Error)
      requires Valid() && AwaitsSecond(terminal.board, reader.Pos())
      modifies shell`idle, shell`heartbeatErr, shell`recoveryErr, reader, terminal
      ensures Valid() && Later(old(terminal.board), terminal.board)
      ensures !err.Is(RecoveryUnconfirmed) ==>
        Resting() && |terminal.board.delivered| == old(|terminal.board.delivered|) + remaining
      ensures shell.Latched(err) && (old(shell.Failed()) ==> shell.Failed())
    {
      hide Later, Board.Valid, AwaitsFirst, AwaitsSecond, AtRest;
      ghost var was := terminal.board;
      LaterReflexive(was);
      if remaining > 0 {
        var written;
        written, err := WritePayload(seq(remaining, _ => 0));
        if !err.NoError? {
          err := RecoveryError(err);
          return;
        }
      }
      ghost var before := terminal.board;
      ghost var seen;
      err, seen := FinishPendingMarker(ACK, Decimal(size));
      LaterTransitive(was, before, terminal.board);
    }

    method FinishUnconfirmedSendChunk(size: nat) returns (err: Error)
      requires Valid() && Awaiting()
      requires Unheard() ||
        (AwaitsFirst(terminal.board, reader.Pos()) && terminal.board.command == RemoteBoard.SendChunk(size))
      modifies shell`idle, shell`heartbeatErr, shell`recoveryErr, reader, terminal
      ensures Valid() && Later(old(terminal.board), terminal.board)
      ensures !err.Is(RecoveryUnconfirmed) ==>
        Resting() && |terminal.board.delivered| == old(|terminal.board.delivered|) + size
      ensures old(Unheard()) ==> err.Is(RecoveryUnconfirmed) && Unheard()
      ensures shell.Latched(err) && (old(shell.Failed()) ==> shell.Failed())
    {
      hide Later, Board.Valid, AwaitsSecond, AtRest, Deaf;
      ghost var was := terminal.board;
      ghost var seen;
      err, seen := FinishPendingMarker(READY, Decimal(size));
      LaterFacts(was, terminal.board);
      if err.Is(RecoveryUnconfirmed) {
        return;
      }
      if !err.NoError? {
        AnnouncementDoesNotPass(terminal.board, READY, err);
        return;
      }
      AnnouncedReady(was, terminal.board);
      ghost var before := terminal.board;
      err := FinishSendChunk(size, size);
      LaterTransitive(was, before, terminal.board);
    }

    method FinishReceiveChunk(remaining: nat, size: nat) returns (err: Error)
      requires Valid() && remaining <= size && AwaitsPayload(terminal.board, reader.Pos(), size - remaining)
      requires terminal.board.command.ReceiveChunk? && terminal.board.command.size == size
      modifies shell`idle, shell`recoveryErr, reader, terminal
      ensures Valid() && Later(old(terminal.board), terminal.board)
      ensures !err.Is(RecoveryUnconfirmed) ==> Resting()
      ensures shell.Latched(err) && (old(shell.Failed()) ==> shell.Failed())
    {
      hide Later, Board.Valid, AwaitsFirst, AwaitsSecond, AtRest;
      ghost var was := terminal.board;
      var drained;
      drained, err := ReadExact(remaining);
      if !err.NoError? {
        err := RecoveryError(err);
        return;
      }
      ghost var before := terminal.board;
      ghost var seen;
      err, seen := FinishPendingMarker(ACK, Decimal(size));
      LaterTransitive(was, before, terminal.board);
    }

    method ReadExact(n: nat) returns (data: seq<Byte>, err: Error)
      requires Valid() && terminal.board.command.ReceiveChunk? && n <= terminal.board.command.size
      requires AwaitsPayload(terminal.board, reader.Pos(), terminal.board.command.size - n)
      modifies reader, terminal
      ensures Valid() && Later(old(terminal.board), terminal.board)
      ensures terminal.board.delivered == old(terminal.board.delivered)
      ensures |data| <= n && terminal.board.command == old(terminal.board.command)
      ensures reader.Pos() == old(reader.Pos()) + |data|
      ensures data == terminal.board.Stream()[old(reader.Pos())..reader.Pos()]
      ensures AwaitsPayload(terminal.board, reader.Pos(), terminal.board.command.size - n + |data|)
      ensures err.NoError? ==> |data| == n && AwaitsSecond(terminal.board, reader.Pos())
      ensures !err.NoError? ==> !PassesThrough(err) && (IsFailure(err) || err == Wrapped({ProtocolViolation}))
    {
      hide Later, Board.Valid;
      ghost var was := terminal.board;
      data, err := reader.ReadExact(n);
      LaterFacts(was, terminal.board);
      PayloadStays(was, terminal.board, old(reader.Pos()), was.command.size - n);
      PromptStays(was, terminal.board);
    }

    method FinishUnconfirmedReceiveChunk(size: nat) returns (err: Error)
      requires Valid() && Awaiting()
      requires Unheard() ||
        (AwaitsFirst(terminal.board, reader.Pos()) && terminal.board.command.ReceiveChunk?
         && terminal.board.command.size == size && |terminal.board.Block()| <= size)
      modifies shell`idle, shell`recoveryErr, reader, terminal
      ensures Valid() && Later(old(terminal.board), terminal.board)
      ensures !err.Is(RecoveryUnconfirmed) ==> Resting()
      ensures old(Unheard()) ==> err.Is(RecoveryUnconfirmed) && Unheard()
      ensures shell.Latched(err) && (old(shell.Failed()) ==> shell.Failed())
    {
      hide Later, Board.Valid, AwaitsSecond, AwaitsPayload, AtRest, Deaf;
      ghost var was := terminal.board;
      ghost var seen;
      err, seen := FinishPendingMarker(DATA, Decimal(size));
      LaterFacts(was, terminal.board);
      if err.Is(RecoveryUnconfirmed) {
        return;
      }
      if !err.NoError? {
        AnnouncementDoesNotPass(terminal.board, DATA, err);
        return;
      }
      AnnouncedData(was, terminal.board);
      ghost var before := terminal.board;
      err := FinishReceiveChunk(size, size);
      LaterTransitive(was, before, terminal.board);
    }
  }

  /** A reply that begins with an error about something else than the block's bytes is not taken for
      a finished block. */
  lemma AnnouncementDoesNotPass(b: Board, phase: seq<Byte>, err: Error)
    requires b.Valid() && (b.command.SendChunk? || b.command.ReceiveChunk?) && (phase == READY || phase == DATA)
    requires b.reply.first.Some? && |b.reply.first.value.fields| > 0
    requires err == Expected(b.reply.first.value.fields, phase, [Decimal(b.command.size)])
    ensures !PassesThrough(err)
  {
    assert Join([OPEN], COLON) == OPEN && Join([TTY], COLON) == TTY;
    assert OPEN != READ && OPEN != WRITE && TTY != READ && TTY != WRITE;
  }

  /** Once READY has been consumed the reader waits for the report. */
  lemma AnnouncedReady(was: Board, b: Board)
    requires Later(was, b) && was.command.SendChunk?
    requires b.reply.first.Some? && |b.reply.first.value.fields| > 0
    requires Expected(b.reply.first.value.fields, READY, [Decimal(was.command.size)]).NoError?
    ensures AwaitsSecond(b, b.FirstEnd())
  {
    var fields := b.reply.first.value.fields;
    assert fields == [fields[0]] + fields[1..];
  }

  lemma AnnouncedData(was: Board, b: Board)
    requires Later(was, b) && was.command.ReceiveChunk?
    requires |was.Block()| <= was.command.size
    requires b.reply.first.Some? && |b.reply.first.value.fields| > 0
    requires Expected(b.reply.first.value.fields, DATA, [Decimal(was.command.size)]).NoError?
    ensures AwaitsPayload(b, b.FirstEnd(), 0) && b.command == was.command
  {
    var fields := b.reply.first.value.fields;
    assert fields == [fields[0]] + fields[1..];
  }

  lemma PayloadStays(was: Board, b: Board, pos: nat, taken: nat)
    requires Later(was, b) && AwaitsPayload(was, pos, taken)
    ensures AwaitsPayload(b, pos, taken) && b.command == was.command
  {
  }

  lemma LaterFacts(b: Board, c: Board)
    ensures Later(b, c) ==>
      && b.prefix == c.prefix && b.Stream() <= c.Stream()
      && b.command == c.command && b.fileBefore == c.fileBefore && b.namesBefore == c.namesBefore
      && (b.command.ReceiveChunk? || b.command.Describe? || b.command.Pick? || Quiet(b) ==> b.file == c.file)
      && (!b.command.Create? || Quiet(b) ==> b.names == c.names)
  {
    hide ExitShows;
  }

  lemma BegunFacts(was: Board, command: Command, now: Board, pos: nat)
    requires AtRest(was, pos) && pos <= |was.Stream()|
    ensures Later(was, now) ==> now.file == was.file && now.names == was.names && AtShell(now)
    ensures Later(was, now) && now.remote.Parent? ==> Deaf(now, pos)
    ensures Begun(was, command, now) ==>
      && now.prefix == was.prefix && was.Stream() <= now.Stream()
      && AwaitsFirst(now, pos) && now.command == command && now.delivered == []
      && now.fileBefore == was.file && now.namesBefore == was.names
      && (!command.SendChunk? && !command.Create? ==> now.file == was.file)
      && (!command.Create? ==> now.names == was.names)
      && !Deaf(now, pos)
  {
    hide ExitShows;
    if Begun(was, command, now) {
      var b: Board :| Later(was, b) && b.remote.Prompt? && Later(Submitted(b, command), now);
      LaterAwaits(was, b, pos);
      SubmittedAwaits(b, command, pos);
      LaterAwaits(Submitted(b, command), now, pos);
    }
  }

  lemma Exclusive(b: Board, pos: nat)
    ensures !(AwaitsFirst(b, pos) && AwaitsSecond(b, pos))
  {
  }

  /** A marker that completes a command is printed when the child shell is back at its prompt. */
  lemma CompletedAtPrompt(b: Board, m: Marker)
    requires b.Valid() && |m.fields| > 0 && CompletesCommand(m.fields[0])
    requires b.reply.first == Some(m) || b.reply.second == Some(m)
    ensures AtShell(b)
  {
  }
}
