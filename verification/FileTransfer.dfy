/** Sending and receiving a file, block by block. */
module FileTransfer {
  import opened Bytes
  import opened Decimals
  import opened Errors
  import opened FileProtocol
  import opened Markers
  import Naming
  import opened Numbers
  import opened Options
  import opened RemoteBoard
  import opened TerminalIO

  /** How far a block got. */
  datatype Stage = Typing | Announcement | Payload | Acknowledgement | Finished

  /** How a block may be left with its raw mode possibly open: the command line was not accepted
      completely, or output was lost or could not be read. No block recovery runs then. */
  predicate Abandoned(stage: Stage, err: Error) {
    stage.Typing? || err == Wrapped({Transport}) || err == Wrapped({ProtocolViolation})
  }

  // ---- sending -----------------------------------------------------------------------

  /** A block is being sent. */
  ghost predicate Sending(was: Board, size: nat, now: Board) {
    now.command == SendChunk(size) && now.fileBefore == was.file
  }

  /** Nothing has been sent, and nothing is going to be. */
  ghost predicate Idle(was: Board, now: Board) { Quiet(now) && now.file == was.file }

  lemma IdleStays(was: Board, b: Board, c: Board)
    requires Later(b, c)
    ensures Idle(was, b) ==> Idle(was, c)
  {
    hide ExitShows;
  }

  method AwaitReady(p: FileProtocol, size: nat) returns (err: Error)
    requires p.Valid() && p.Awaiting()
    requires p.Unheard() || (AwaitsFirst(p.terminal.board, p.reader.Pos())
                             && p.terminal.board.command == SendChunk(size) && p.terminal.board.delivered == [])
    modifies p.shell`idle, p.shell`heartbeatErr, p.shell`recoveryErr, p.reader, p.terminal
    ensures p.Valid() && Later(old(p.terminal.board), p.terminal.board)
    ensures err.NoError? ==> AwaitsSecond(p.terminal.board, p.reader.Pos()) && p.terminal.board.delivered == []
    ensures old(p.Unheard()) ==> !err.NoError?
    ensures err.Interrupted() ==>
      err.Is(RecoveryUnconfirmed) || (p.Resting() && |p.terminal.board.delivered| == size)
    ensures !err.NoError? && BlockOpen(p.terminal.board) ==> err.Is(RecoveryUnconfirmed) || Abandoned(Announcement, err)
    ensures p.shell.Latched(err) && (old(p.shell.Failed()) ==> p.shell.Failed())
  {
    hide Later, Board.Valid, AwaitsFirst, AwaitsSecond, AtRest, Expected, Board.Stream, BlockOpen, Deaf;
    ghost var was := p.terminal.board;
    ghost var seen;
    err, seen := p.Expect(READY, Decimal(size));
    LaterFacts(was, p.terminal.board);
    if err.NoError? {
      AnnouncedReady(was, p.terminal.board);
    } else if err.Interrupted() {
      ghost var before := p.terminal.board;
      InterruptedUnseen(seen, READY, Decimal(size), err);
      var cleanup := p.FinishUnconfirmedSendChunk(size);
      LaterTransitive(was, before, p.terminal.board);
      if p.Resting() {
        RestingOpensNothing(p.terminal.board, p.reader.Pos());
      }
      err := Joined(err, cleanup);
    } else if seen.Some? {
      NotAnnounced(p.terminal.board, READY);
    }
  }

  /** Asks the board to take one block and waits until it does. */
  method StartSend(p: FileProtocol, size: nat) returns (err: Error, ghost stage: Stage)
    requires p.Valid() && p.Resting()
    modifies p.shell`idle, p.shell`heartbeatErr, p.shell`recoveryErr, p.reader, p.terminal
    ensures p.Valid() && old(p.terminal.board.Stream()) <= p.terminal.board.Stream()
    ensures if err.NoError? then stage.Payload? else stage.Typing? || stage.Announcement?
    ensures p.terminal.board.names == old(p.terminal.board.names)
    ensures Sending(old(p.terminal.board), size, p.terminal.board) || Idle(old(p.terminal.board), p.terminal.board)
    ensures err.NoError? ==> Sending(old(p.terminal.board), size, p.terminal.board)
    ensures err.NoError? ==> AwaitsSecond(p.terminal.board, p.reader.Pos()) && p.terminal.board.delivered == []
    ensures stage.Announcement? && err.Interrupted() ==>
      err.Is(RecoveryUnconfirmed) || (p.Resting() && |p.terminal.board.delivered| == size)
    ensures !err.NoError? && BlockOpen(p.terminal.board) ==> err.Is(RecoveryUnconfirmed) || Abandoned(stage, err)
    ensures p.shell.Latched(err) && (old(p.shell.Failed()) ==> p.shell.Failed())
  {
    hide Later, Board.Valid, AwaitsFirst, AwaitsSecond, Expected, Board.Stream, BlockOpen;
    ghost var was := p.terminal.board;
    stage := Typing;
    err := p.Command(SendChunk(size));
    if !err.NoError? {
      return;
    }
    ghost var begun := p.terminal.board;
    stage := Announcement;
    err := AwaitReady(p, size);
    LaterFacts(begun, p.terminal.board);
    IdleStays(was, begun, p.terminal.board);
    if err.NoError? {
      stage := Payload;
    }
  }

  /** Waits for the report on a block whose bytes have been moved. */
  method Acknowledge(p: FileProtocol, size: nat) returns (err: Error, ghost seen: Option<Marker>)
    requires p.Valid() && AwaitsSecond(p.terminal.board, p.reader.Pos())
    modifies p.shell`idle, p.shell`recoveryErr, p.reader, p.terminal
    ensures p.Valid() && Later(old(p.terminal.board), p.terminal.board)
    ensures p.terminal.board.delivered == old(p.terminal.board.delivered)
    ensures err.NoError? ==>
      && p.Resting() && seen.Some? && p.terminal.board.reply.second == seen
      && |seen.value.fields| > 0 && Expected(seen.value.fields, ACK, [Decimal(size)]).NoError?
    ensures err.Interrupted() ==> err.Is(RecoveryUnconfirmed) || p.Resting()
    ensures !p.Resting() ==> err.Is(RecoveryUnconfirmed) || Abandoned(Acknowledgement, err)
    ensures p.shell.Latched(err) && (old(p.shell.Failed()) ==> p.shell.Failed())
  {
    hide Later, Board.Valid, AwaitsFirst, AwaitsSecond, Expected, Board.Stream, AtRest;
    ghost var was := p.terminal.board;
    err, seen := p.Expect(ACK, Decimal(size));
    if err.Interrupted() {
      ghost var before := p.terminal.board;
      InterruptedUnseen(seen, ACK, Decimal(size), err);
      var cleanup;
      cleanup, seen := p.FinishPendingMarker(ACK, Decimal(size));
      LaterTransitive(was, before, p.terminal.board);
      err := Joined(err, cleanup);
    }
  }

  /** Sends one block. If the operation is interrupted while READY or ACK is awaited, or the payload
      fails anywhere, then either recovery is unconfirmed or the board received exactly as many bytes
      as announced, has reported, and is back at its prompt. Otherwise no raw block stays open unless
      the block was abandoned. */
  method SendBlock(p: FileProtocol, chunk: seq<Byte>) returns (err: Error, ghost stage: Stage)
    requires p.Valid() && p.Resting()
    modifies p.shell`idle, p.shell`heartbeatErr, p.shell`recoveryErr, p.reader, p.terminal
    ensures p.Valid() && (err.NoError? <==> stage.Finished?)
    ensures stage.Finished? ==> p.Resting() && p.terminal.board.file == old(p.terminal.board.file) + chunk
    ensures stage.Payload? || ((stage.Announcement? || stage.Acknowledgement?) && err.Interrupted()) ==>
      err.Is(RecoveryUnconfirmed) || (p.Resting() && |p.terminal.board.delivered| == |chunk|)
    ensures old(p.terminal.board.file) <= p.terminal.board.file
    ensures p.terminal.board.names == old(p.terminal.board.names)
    ensures old(p.terminal.board.Stream()) <= p.terminal.board.Stream()
    ensures BlockOpen(p.terminal.board) ==> p.terminal.board.command.SendChunk?
    ensures BlockOpen(p.terminal.board) ==> err.Is(RecoveryUnconfirmed) || Abandoned(stage, err)
    ensures p.shell.Latched(err) && (old(p.shell.Failed()) ==> p.shell.Failed())
  {
    hide Later, Board.Valid, AwaitsFirst, AwaitsSecond, Begun, Expected, Board.Stream, BlockOpen, AtRest;
    ghost var was := p.terminal.board;
    err, stage := StartSend(p, |chunk|);
    if !err.NoError? {
      SentSoFar(was, |chunk|, p.terminal.board);
      return;
    }
    ghost var started := p.terminal.board;
    var written;
    written, err := p.WritePayload(chunk);
    LaterFacts(started, p.terminal.board);
    if !err.NoError? {
      ghost var before := p.terminal.board;
      var cleanup := p.FinishSendChunk(|chunk| - written, |chunk|);
      LaterFacts(before, p.terminal.board);
      SentSoFar(was, |chunk|, p.terminal.board);
      if p.Resting() {
        RestingOpensNothing(p.terminal.board, p.reader.Pos());
      }
      err := Joined(err, cleanup);
      return;
    }
    assert chunk[..written] == chunk;
    stage := Acknowledgement;
    ghost var before := p.terminal.board;
    ghost var seen;
    err, seen := Acknowledge(p, |chunk|);
    LaterFacts(before, p.terminal.board);
    SentSoFar(was, |chunk|, p.terminal.board);
    if p.Resting() {
      RestingOpensNothing(p.terminal.board, p.reader.Pos());
    }
    if err.NoError? {
      AcknowledgedSend(p.terminal.board, chunk);
      stage := Finished;
    }
  }

  /** A first marker that is not the announcement is an error, printed at the prompt. */
  lemma NotAnnounced(b: Board, phase: seq<Byte>)
    requires b.Valid() && b.reply.first.Some? && |b.reply.first.value.fields| > 0
    requires (b.command.SendChunk? && phase == READY) || (b.command.ReceiveChunk? && phase == DATA)
    requires !Expected(b.reply.first.value.fields, phase, [Decimal(b.command.size)]).NoError?
    ensures AtShell(b) && !BlockOpen(b)
  {
  }

  /** A marker never reads as an interruption. */
  lemma InterruptedUnseen(seen: Option<Marker>, phase: seq<Byte>, argument: seq<Byte>, err: Error)
    requires err.Interrupted()
    requires seen.Some? ==> |seen.value.fields| > 0 && err == Expected(seen.value.fields, phase, [argument])
    ensures seen.None?
  {
  }

  /** The remote file only grows. */
  lemma SentSoFar(was: Board, size: nat, now: Board)
    requires now.Valid() && (Sending(was, size, now) || Idle(was, now))
    ensures was.file <= now.file && (BlockOpen(now) ==> now.command.SendChunk?)
  {
  }

  lemma AcknowledgedSend(b: Board, chunk: seq<Byte>)
    requires b.Valid() && b.command == SendChunk(|chunk|) && b.delivered == chunk
    requires b.reply.second.Some? && |b.reply.second.value.fields| > 0
    requires Expected(b.reply.second.value.fields, ACK, [Decimal(|chunk|)]).NoError?
    ensures b.file == b.fileBefore + chunk
  {
    assert chunk[..|chunk|] == chunk;
  }

  // ---- receiving ---------------------------------------------------------------------

  /** Asks for one block and waits for its announcement. */
  method StartReceive(p: FileProtocol, index: nat, size: nat) returns (err: Error, ghost stage: Stage)
    requires p.Valid() && p.Resting() && size == |BlockOf(p.terminal.board.file, index)|
    modifies p.shell`idle, p.shell`heartbeatErr, p.shell`recoveryErr, p.reader, p.terminal
    ensures p.Valid() && p.terminal.board.file == old(p.terminal.board.file)
    ensures if err.NoError? then stage.Payload? else stage.Typing? || stage.Announcement?
    ensures err.NoError? ==>
      AwaitsPayload(p.terminal.board, p.reader.Pos(), 0) && p.terminal.board.command == ReceiveChunk(index, size)
    ensures stage.Announcement? && err.Interrupted() ==> err.Is(RecoveryUnconfirmed) || p.Resting()
    ensures old(p.terminal.board.Stream()) <= p.terminal.board.Stream()
    ensures !err.NoError? && BlockOpen(p.terminal.board) ==> err.Is(RecoveryUnconfirmed) || Abandoned(stage, err)
    ensures p.shell.Latched(err) && (old(p.shell.Failed()) ==> p.shell.Failed())
  {
    hide Later, Board.Valid, AwaitsFirst, AwaitsSecond, Begun, Expected, Board.Stream;
    ghost var seen;
    stage := Typing;
    err := p.Command(ReceiveChunk(index, size));
    if !err.NoError? {
      return;
    }
    ghost var begun := p.terminal.board;
    stage := Announcement;
    err, seen := p.Expect(DATA, Decimal(size));
    LaterFacts(begun, p.terminal.board);
    if !err.NoError? {
      if err.Interrupted() {
        ghost var before := p.terminal.board;
        InterruptedUnseen(seen, DATA, Decimal(size), err);
        var cleanup := p.FinishUnconfirmedReceiveChunk(size);
        LaterFacts(before, p.terminal.board);
        err := Joined(err, cleanup);
      } else if seen.Some? {
        NotAnnounced(p.terminal.board, DATA);
      }
      return;
    }
    AnnouncedData(begun, p.terminal.board);
    stage := Payload;
  }

  /** Reads the announced bytes. */
  method ReadBlock(p: FileProtocol, size: nat) returns (chunk: seq<Byte>, err: Error)
    requires p.Valid() && AwaitsPayload(p.terminal.board, p.reader.Pos(), 0)
    requires p.terminal.board.command.ReceiveChunk? && p.terminal.board.command.size == size
    modifies p.shell`idle, p.shell`recoveryErr, p.reader, p.terminal
    ensures p.Valid() && Later(old(p.terminal.board), p.terminal.board)
    ensures err.NoError? ==>
      && AwaitsPayload(p.terminal.board, p.reader.Pos(), size) && AwaitsSecond(p.terminal.board, p.reader.Pos())
      && |chunk| == size && p.reader.Pos() == old(p.reader.Pos()) + size
      && chunk == p.terminal.board.Stream()[old(p.reader.Pos())..p.reader.Pos()]
    ensures err.Interrupted() ==> err.Is(RecoveryUnconfirmed) || p.Resting()
    ensures !err.NoError? && !p.Resting() ==> err.Is(RecoveryUnconfirmed) || Abandoned(Payload, err)
    ensures p.shell.Latched(err) && (old(p.shell.Failed()) ==> p.shell.Failed())
  {
    hide Later, Board.Valid, AwaitsFirst, AwaitsSecond, Board.Stream, BlockOf, AtRest;
    ghost var was := p.terminal.board;
    chunk, err := p.ReadExact(size);
    if err.Interrupted() {
      ghost var before := p.terminal.board;
      var cleanup := p.FinishReceiveChunk(size - |chunk|, size);
      LaterTransitive(was, before, p.terminal.board);
      err := Joined(err, cleanup);
    }
  }

  /** Receives one block. If the operation is interrupted once the command has been typed, then
      either recovery is unconfirmed or the block has been drained, the board has reported, and is
      back at its prompt. */
  method ReceiveBlock(p: FileProtocol, index: nat, size: nat) returns (chunk: seq<Byte>, err: Error, ghost stage: Stage)
    requires p.Valid() && p.Resting() && size == |BlockOf(p.terminal.board.file, index)|
    modifies p.shell`idle, p.shell`heartbeatErr, p.shell`recoveryErr, p.reader, p.terminal
    ensures p.Valid() && (err.NoError? <==> stage.Finished?)
    ensures p.terminal.board.file == old(p.terminal.board.file)
    ensures stage.Finished? ==> p.Resting() && chunk == BlockOf(p.terminal.board.file, index)
    ensures !stage.Typing? && err.Interrupted() ==> err.Is(RecoveryUnconfirmed) || p.Resting()
    ensures old(p.terminal.board.Stream()) <= p.terminal.board.Stream()
    ensures BlockOpen(p.terminal.board) ==> err.Is(RecoveryUnconfirmed) || Abandoned(stage, err)
    ensures p.shell.Latched(err) && (old(p.shell.Failed()) ==> p.shell.Failed())
  {
    hide Later, Board.Valid, AwaitsFirst, AwaitsSecond, Begun, Expected, Board.Stream, BlockOpen, BlockOf, AtRest;
    chunk := [];
    err, stage := StartReceive(p, index, size);
    if !err.NoError? {
      return;
    }
    ghost var before := p.terminal.board;
    chunk, err := ReadBlock(p, size);
    LaterFacts(before, p.terminal.board);
    if p.Resting() {
      RestingOpensNothing(p.terminal.board, p.reader.Pos());
    }
    if !err.NoError? {
      return;
    }
    stage := Acknowledgement;
    before := p.terminal.board;
    ghost var at := p.reader.Pos();
    ghost var seen;
    err, seen := Acknowledge(p, size);
    LaterFacts(before, p.terminal.board);
    if p.Resting() {
      RestingOpensNothing(p.terminal.board, p.reader.Pos());
    }
    if err.NoError? {
      AcknowledgedReceive(before, p.terminal.board, at, chunk);
      stage := Finished;
    }
  }

  /** What was read between the announcement and an acknowledgement is the block. */
  lemma AcknowledgedReceive(was: Board, b: Board, pos: nat, chunk: seq<Byte>)
    requires Later(was, b) && b.Valid()
    requires was.command.ReceiveChunk? && AwaitsPayload(was, pos, was.command.size)
    requires |chunk| == was.command.size == |was.Block()|
    requires pos - |chunk| >= 0 && pos <= |was.Stream()| && chunk == was.Stream()[pos - |chunk|..pos]
    requires b.reply.second.Some? && |b.reply.second.value.fields| > 0
    requires Expected(b.reply.second.value.fields, ACK, [Decimal(was.command.size)]).NoError?
    ensures chunk == b.Block()
  {
    hide Text, Line, Markers.Clean, IsMarker;
    LaterFacts(was, b);
    Earlier(was.Stream(), b.Stream(), pos - |chunk|, pos);
    PayloadInStream(b);
    assert b.reply.payload == b.Block();
  }

  lemma PayloadInStream(b: Board)
    ensures b.PayloadEnd() <= |b.Stream()| && b.Stream()[b.FirstEnd()..b.PayloadEnd()] == b.reply.payload
  {
    var ahead := b.before + Text(b.prefix, b.reply.first);
    var behind := Text(b.prefix, b.reply.second) + b.tail;
    assert b.Stream() == ahead + b.reply.payload + behind;
  }

  // ---- whole files -------------------------------------------------------------------

  lemma RestingOpensNothing(b: Board, pos: nat)
    requires AtRest(b, pos)
    ensures !BlockOpen(b)
  {
  }

  /** What a cancellation checkpoint, a local read, a local write or a progress callback may report. */
  method Interruption() returns (err: Error)
    ensures err.NoError? || err == Wrapped({Canceled}) || err == Wrapped({Transport}) || err == Wrapped({LocalFailure})
  {
    var outcome: nat :| true;
    err := if outcome == 0 then Wrapped({Canceled}) else if outcome == 1 then Wrapped({Transport})
           else if outcome == 2 then Wrapped({LocalFailure}) else NoError;
  }

  /** A command without a raw block has been answered and the board is at its prompt again. */
  lemma AnsweredRests(b: Board)
    requires b.Valid() && (b.command.Pick? || b.command.Create? || b.command.Describe?) && b.reply.first.Some?
    ensures AtRest(b, b.FirstEnd()) && b.Answers(b.reply.first.value)
  {
  }

  /** What a creation, answered or not, can have made of the board's names. */
  lemma CreatesAtMost(b: Board)
    requires b.Valid() && b.command.Create?
    ensures b.names != b.namesBefore ==>
      b.command.path !in b.namesBefore && b.names == b.namesBefore + {b.command.path}
  {
  }

  /** One round of the search. */
  method PathStatus(p: FileProtocol, path: Naming.Path) returns (r: Outcome)
    requires p.Valid() && p.Resting()
    modifies p.shell`idle, p.shell`heartbeatErr, p.shell`recoveryErr, p.reader, p.terminal
    ensures p.Valid() && p.terminal.board.file == old(p.terminal.board.file)
    ensures p.terminal.board.names == old(p.terminal.board.names)
    ensures r.Arguments? ==> p.Resting() && r.fields == [if path in p.terminal.board.names then EXISTS else FREE]
    ensures old(p.terminal.board.Stream()) <= p.terminal.board.Stream()
    ensures !BlockOpen(p.terminal.board)
    ensures r.Failed? ==> !r.err.NoError? && p.shell.Latched(r.err)
    ensures old(p.shell.Failed()) ==> p.shell.Failed()
  {
    hide Later, Board.Valid, AwaitsFirst, AwaitsSecond, AtRest, Begun, Board.Stream, Board.FirstEnd;
    var err := p.Command(Pick(path));
    PlainCommandsOpenNothing(p.terminal.board);
    if !err.NoError? {
      return Failed(err);
    }
    ghost var begun := p.terminal.board;
    ghost var seen;
    r, seen := p.ExpectPhase(PICK);
    LaterFacts(begun, p.terminal.board);
    PlainCommandsOpenNothing(p.terminal.board);
    if r.Arguments? {
      AnsweredRests(p.terminal.board);
    }
  }

  /** Asks the board about one candidate after the other. */
  method SelectAvailableRemotePath(p: FileProtocol, wanted: Naming.Path) returns (path: Naming.Path, err: Error)
    requires p.Valid() && p.Resting()
    modifies p.shell`idle, p.shell`heartbeatErr, p.shell`recoveryErr, p.reader, p.terminal
    ensures p.Valid() && p.terminal.board.file == old(p.terminal.board.file)
    ensures p.terminal.board.names == old(p.terminal.board.names)
    ensures err.NoError? ==> p.Resting() && Naming.FreeSibling(Naming.FileParts(wanted), p.terminal.board.names, path)
    ensures err.NoError? && wanted !in p.terminal.board.names ==> path == wanted
    ensures old(p.terminal.board.Stream()) <= p.terminal.board.Stream()
    ensures !BlockOpen(p.terminal.board)
    ensures p.shell.Latched(err) && (old(p.shell.Failed()) ==> p.shell.Failed())
  {
    hide Board.Valid, Board.Stream, AtRest, Naming.FileParts, Naming.Candidate, ShellSession.Valid;
    ghost var names := p.terminal.board.names;
    var parts := Naming.FileParts(wanted);
    Naming.PartsRecompose(wanted);
    var sequence := 0;
    path := wanted;
    while true
      invariant p.Valid() && p.Resting() && (old(p.shell.Failed()) ==> p.shell.Failed())
      invariant p.terminal.board.file == old(p.terminal.board.file) && p.terminal.board.names == names
      invariant old(p.terminal.board.Stream()) <= p.terminal.board.Stream()
      invariant path == Naming.Candidate(parts, sequence) && (sequence == 0 ==> path == wanted)
      invariant forall i :: 0 <= i < sequence ==> Naming.Candidate(parts, i) in names
      invariant sequence <= |names| && (sequence > 0 ==> wanted in names)
      decreases |names| - sequence
    {
      var r := PathStatus(p, path);
      match r
      case Failed(e) =>
        return path, e;
      case Arguments(fields) =>
        if |fields| != 1 {
          return path, Wrapped({ProtocolViolation});
        }
        if fields[0] == FREE {
          assert Naming.FirstFree(parts, names, sequence);
          return path, NoError;
        }
        if fields[0] != EXISTS {
          return path, Wrapped({ProtocolViolation});
        }
        Naming.TakenAtLeast(parts, names, sequence + 1);
        sequence := sequence + 1;
        path := Naming.Candidate(parts, sequence);
    }
  }

  /** Creates the remote file empty. */
  method CreateFile(p: FileProtocol, path: Naming.Path) returns (err: Error)
    requires p.Valid() && p.Resting()
    modifies p.shell`idle, p.shell`heartbeatErr, p.shell`recoveryErr, p.reader, p.terminal
    ensures p.Valid()
    ensures err.NoError? ==> p.Resting() && p.terminal.board.file == []
    ensures err.NoError? ==> p.terminal.board.names == old(p.terminal.board.names) + {path}
    ensures p.terminal.board.names != old(p.terminal.board.names) ==>
      path !in old(p.terminal.board.names) && p.terminal.board.names == old(p.terminal.board.names) + {path}
    ensures old(p.terminal.board.Stream()) <= p.terminal.board.Stream()
    ensures !BlockOpen(p.terminal.board)
    ensures p.shell.Latched(err) && (old(p.shell.Failed()) ==> p.shell.Failed())
  {
    hide Later, Board.Valid, AwaitsFirst, AwaitsSecond, AtRest, Begun, Board.Stream, Board.FirstEnd;
    ghost var was := p.terminal.board;
    err := p.Command(Create(path));
    PlainCommandsOpenNothing(p.terminal.board);
    if p.terminal.board.names != was.names {
      CreatesAtMost(p.terminal.board);
    }
    if !err.NoError? {
      return;
    }
    ghost var begun := p.terminal.board;
    ghost var seen;
    err, seen := p.Expect(INIT, OK);
    LaterFacts(begun, p.terminal.board);
    PlainCommandsOpenNothing(p.terminal.board);
    if p.terminal.board.names != was.names {
      CreatesAtMost(p.terminal.board);
    }
    if err.NoError? {
      var fields := seen.value.fields;
      assert fields == [fields[0]] + fields[1..];
      AnsweredRests(p.terminal.board);
    }
  }

  /** Asks for size and digest. The size that comes back is the remote file's. */
  method DescribeFile(p: FileProtocol, phase: seq<Byte>) returns (size: nat, digest: seq<Byte>, err: Error)
    requires p.Valid() && p.Resting() && (phase == META || phase == FINAL)
    modifies p.shell`idle, p.shell`heartbeatErr, p.shell`recoveryErr, p.reader, p.terminal
    ensures p.Valid() && p.terminal.board.file == old(p.terminal.board.file)
    ensures p.terminal.board.names == old(p.terminal.board.names)
    ensures err.NoError? ==> p.Resting() && size == |p.terminal.board.file|
    ensures old(p.terminal.board.Stream()) <= p.terminal.board.Stream()
    ensures !BlockOpen(p.terminal.board)
    ensures p.shell.Latched(err) && (old(p.shell.Failed()) ==> p.shell.Failed())
  {
    hide Later, Board.Valid, AwaitsFirst, AwaitsSecond, AtRest, Begun, Board.Stream, Board.FirstEnd;
    size, digest := 0, [];
    err := p.Command(Describe(phase));
    PlainCommandsOpenNothing(p.terminal.board);
    if !err.NoError? {
      return;
    }
    ghost var begun := p.terminal.board;
    ghost var seen;
    var r;
    r, seen := p.ExpectPhase(phase);
    LaterFacts(begun, p.terminal.board);
    PlainCommandsOpenNothing(p.terminal.board);
    match r
    case Failed(e) => err := e;
    case Arguments(fields) =>
      AnsweredRests(p.terminal.board);
      if |fields| != 2 || Parse(fields[0]).None? {
        err := Wrapped({ProtocolViolation});
        return;
      }
      ParseDecimal(|p.terminal.board.file|);
      size, digest := Parse(fields[0]).value, fields[1];
  }

  /** The blocks of a file, in order, into a remote file that is still empty. */
  method SendBlocks(p: FileProtocol, source: seq<Byte>, size: nat) returns (err: Error, ghost stage: Stage)
    requires p.Valid() && p.Resting() && p.terminal.board.file == []
    modifies p.shell`idle, p.shell`heartbeatErr, p.shell`recoveryErr, p.reader, p.terminal
    ensures p.Valid() && p.terminal.board.names == old(p.terminal.board.names)
    ensures err.NoError? ==> p.Resting() && size <= |source| && p.terminal.board.file == source[..size]
    ensures old(p.terminal.board.Stream()) <= p.terminal.board.Stream()
    ensures BlockOpen(p.terminal.board) ==> p.terminal.board.command.SendChunk?
    ensures BlockOpen(p.terminal.board) ==> err.Is(RecoveryUnconfirmed) || Abandoned(stage, err)
    ensures p.shell.Latched(err) && (old(p.shell.Failed()) ==> p.shell.Failed())
  {
    hide Board.Valid, Board.Stream, AtRest, BlockOpen, Abandoned, ShellSession.Valid, MarkerReader.Valid;
    stage, err := Finished, NoError;
    RestingOpensNothing(p.terminal.board, p.reader.Pos());
    var transferred := 0;
    while transferred < size
      invariant p.Valid() && p.Resting() && !BlockOpen(p.terminal.board) && (old(p.shell.Failed()) ==> p.shell.Failed())
      invariant p.terminal.board.names == old(p.terminal.board.names) && err.NoError?
      invariant old(p.terminal.board.Stream()) <= p.terminal.board.Stream()
      invariant transferred <= size && transferred <= |source| && p.terminal.board.file == source[..transferred]
    {
      err := Interruption();
      if !err.NoError? {
        return;
      }
      var chunkSize := Min(CHUNK, size - transferred);
      if transferred + chunkSize > |source| {
        return Wrapped({LocalFailure}), stage;
      }
      var chunk := source[transferred..transferred + chunkSize];
      err, stage := SendBlock(p, chunk);
      if !err.NoError? {
        return;
      }
      RestingOpensNothing(p.terminal.board, p.reader.Pos());
      assert source[..transferred] + chunk == source[..transferred + chunkSize];
      transferred := transferred + chunkSize;
      err := Interruption();
      if !err.NoError? {
        return;
      }
    }
  }

  /** Sends a file to the requested path or, if that exists, to its first free sibling. Success means that
      this file is the source, whatever the digests say, and that nothing else has come into existence;
      no path that existed is ever written. After a failure no raw block is open, unless recovery is
      unconfirmed or the last block was abandoned; `stage` is how far that block got. */
  method SendFile(p: FileProtocol, source: seq<Byte>, size: nat, wanted: Naming.Path)
    returns (path: Naming.Path, err: Error, ghost stage: Stage)
    requires p.Valid() && p.Resting()
    modifies p.shell`idle, p.shell`heartbeatErr, p.shell`recoveryErr, p.reader, p.terminal
    ensures p.Valid()
    ensures err.NoError? ==> p.Resting() && |source| == size && p.terminal.board.file == source
    ensures err.NoError? ==> p.terminal.board.names == old(p.terminal.board.names) + {path}
    ensures p.terminal.board.names == old(p.terminal.board.names)
      || (path !in old(p.terminal.board.names) && p.terminal.board.names == old(p.terminal.board.names) + {path})
    ensures err.NoError? ==> Naming.FreeSibling(Naming.FileParts(wanted), old(p.terminal.board.names), path)
    ensures err.NoError? && wanted !in old(p.terminal.board.names) ==> path == wanted
    ensures old(p.terminal.board.Stream()) <= p.terminal.board.Stream()
    ensures BlockOpen(p.terminal.board) ==> p.terminal.board.command.SendChunk?
    ensures BlockOpen(p.terminal.board) ==> err.Is(RecoveryUnconfirmed) || Abandoned(stage, err)
    ensures p.shell.Latched(err) && (old(p.shell.Failed()) ==> p.shell.Failed())
  {
    hide Board.Valid, Board.Stream, AtRest, BlockOpen, Abandoned, Naming.FreeSibling, Naming.FileParts;
    hide ShellSession.Valid, MarkerReader.Valid, ShellSession.Failed;
    stage, path := Finished, wanted;
    RestingOpensNothing(p.terminal.board, p.reader.Pos());
    err := Interruption();
    if !err.NoError? {
      return;
    }
    path, err := SelectAvailableRemotePath(p, wanted);
    if !err.NoError? {
      return;
    }
    err := Interruption();
    if !err.NoError? {
      return;
    }
    err := CreateFile(p, path);
    if !err.NoError? {
      return;
    }
    err := Interruption();
    if !err.NoError? {
      return;
    }
    err, stage := SendBlocks(p, source, size);
    if !err.NoError? {
      return;
    }
    RestingOpensNothing(p.terminal.board, p.reader.Pos());
    err := Interruption();
    if !err.NoError? {
      return;
    }
    if |source| > size {
      return path, Wrapped({SizeMismatch}), stage;
    }
    assert source[..size] == source;
    var localDigest: seq<Byte> := *;
    var remoteSize, remoteDigest;
    remoteSize, remoteDigest, err := DescribeFile(p, FINAL);
    if !err.NoError? {
      return;
    }
    if remoteSize != size {
      return path, Wrapped({SizeMismatch}), stage;
    }
    if remoteDigest != localDigest {
      return path, Wrapped({ChecksumMismatch}), stage;
    }
  }

  /** Writes all of the data, or a prefix of it before a failure. */
  method WriteAllTo(destination: seq<Byte>, data: seq<Byte>) returns (now: seq<Byte>, err: Error)
    ensures err.NoError? ==> now == destination + data
    ensures destination <= now <= destination + data && !err.Is(RecoveryUnconfirmed)
  {
    err := Interruption();
    if err.NoError? {
      now := destination + data;
      assert data[..|data|] == data;
    } else {
      var k: nat :| k <= |data|;
      now := destination + data[..k];
    }
  }

  /** The blocks of a file, in order. */
  method ReceiveBlocks(p: FileProtocol, size: nat) returns (destination: seq<Byte>, err: Error, ghost stage: Stage)
    requires p.Valid() && p.Resting() && size == |p.terminal.board.file|
    modifies p.shell`idle, p.shell`heartbeatErr, p.shell`recoveryErr, p.reader, p.terminal
    ensures p.Valid() && p.terminal.board.file == old(p.terminal.board.file)
    ensures destination <= p.terminal.board.file
    ensures err.NoError? ==> p.Resting() && destination == p.terminal.board.file
    ensures old(p.terminal.board.Stream()) <= p.terminal.board.Stream()
    ensures BlockOpen(p.terminal.board) ==> err.Is(RecoveryUnconfirmed) || Abandoned(stage, err)
    ensures p.shell.Latched(err) && (old(p.shell.Failed()) ==> p.shell.Failed())
  {
    hide Board.Valid, Board.Stream, AtRest, BlockOpen, Abandoned, BlockOf, MarkerReader.Valid, ShellSession.Valid;
    stage, err, destination := Finished, NoError, [];
    ghost var file := p.terminal.board.file;
    RestingOpensNothing(p.terminal.board, p.reader.Pos());
    var transferred, blockIndex := 0, 0;
    while transferred < size
      invariant p.Valid() && p.Resting() && p.terminal.board.file == file && size == |file| && err.NoError?
      invariant old(p.shell.Failed()) ==> p.shell.Failed()
      invariant !BlockOpen(p.terminal.board) && old(p.terminal.board.Stream()) <= p.terminal.board.Stream()
      invariant transferred == Min(CHUNK * blockIndex, size) && destination == file[..transferred]
      decreases size - transferred
    {
      err := Interruption();
      if !err.NoError? {
        return;
      }
      var chunkSize := Min(CHUNK, size - transferred);
      BlockInFile(file, blockIndex);
      var chunk;
      chunk, err, stage := ReceiveBlock(p, blockIndex, chunkSize);
      if !err.NoError? {
        return;
      }
      RestingOpensNothing(p.terminal.board, p.reader.Pos());
      destination, err := WriteAllTo(destination, chunk);
      PartOfFile(file, transferred, chunkSize, destination);
      if !err.NoError? {
        return;
      }
      transferred := transferred + chunkSize;
      blockIndex := blockIndex + 1;
      err := Interruption();
      if !err.NoError? {
        return;
      }
    }
    assert file[..transferred] == file;
  }

  /** Receives a file. What has been written is always a prefix of the remote file, and all of it on
      success, whatever the digests say. */
  method ReceiveFile(p: FileProtocol) returns (destination: seq<Byte>, err: Error, ghost stage: Stage)
    requires p.Valid() && p.Resting()
    modifies p.shell`idle, p.shell`heartbeatErr, p.shell`recoveryErr, p.reader, p.terminal
    ensures p.Valid() && p.terminal.board.file == old(p.terminal.board.file)
    ensures destination <= p.terminal.board.file
    ensures err.NoError? ==> p.Resting() && destination == p.terminal.board.file
    ensures old(p.terminal.board.Stream()) <= p.terminal.board.Stream()
    ensures BlockOpen(p.terminal.board) ==> err.Is(RecoveryUnconfirmed) || Abandoned(stage, err)
    ensures p.shell.Latched(err) && (old(p.shell.Failed()) ==> p.shell.Failed())
  {
    hide Board.Valid, Board.Stream, AtRest, BlockOpen, Abandoned;
    stage, destination := Finished, [];
    var size, remoteDigest;
    size, remoteDigest, err := DescribeFile(p, META);
    if !err.NoError? {
      return;
    }
    err := Interruption();
    if !err.NoError? {
      return;
    }
    destination, err, stage := ReceiveBlocks(p, size);
    if !err.NoError? {
      return;
    }
    RestingOpensNothing(p.terminal.board, p.reader.Pos());
    err := Interruption();
    if !err.NoError? {
      return;
    }
    var localDigest: seq<Byte> := *;
    var finalSize, finalDigest;
    finalSize, finalDigest, err := DescribeFile(p, FINAL);
    if !err.NoError? {
      return;
    }
    if finalSize != size {
      err := Wrapped({SizeMismatch});
    } else if finalDigest != remoteDigest || remoteDigest != localDigest {
      err := Wrapped({ChecksumMismatch});
    }
  }

  lemma BlockInFile(file: seq<Byte>, index: nat)
    requires CHUNK * index < |file|
    ensures var from := CHUNK * index; var size := Min(CHUNK, |file| - from);
      BlockOf(file, index) == file[from..from + size] && from + size == Min(CHUNK * (index + 1), |file|)
  {
  }

  lemma PartOfFile(file: seq<Byte>, at: nat, size: nat, now: seq<Byte>)
    requires at + size <= |file|
    ensures file[..at] + file[at..at + size] == file[..at + size]
    ensures now <= file[..at] + file[at..at + size] ==> now <= file
  {
  }
}
