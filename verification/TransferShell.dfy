/** Entering and leaving the target-side shell, and the lease that is held meanwhile. */
module TransferShell {
  import opened Bytes
  import opened Errors
  import opened FileProtocol
  import opened FileTransfer
  import opened Markers
  import Naming
  import opened RemoteBoard
  import Search
  import opened ShellExit
  import opened TerminalIO

  const ECHO_HIDDEN: seq<Byte> := [0x1e, 0x1f]
  const SLEEP: seq<Byte> := [0x73, 0x6c, 0x65, 0x65, 0x70]

  /** Behind `from` the echo has gone off, and a marker line of the child shell has said that it is
      ready. */
  ghost predicate ReadySeen(b: Board, from: nat) {
    && Search.Printed(b.Stream(), ECHO_HIDDEN, from)
    && ReadyReported(b, from)
  }

  ghost predicate ReadyReported(b: Board, from: nat) {
    exists i: nat, j: nat :: from <= i && Report(b.Stream(), b.shellPrefix, i, j, READY)
  }

  /** What a successful wait from `cursor` has seen. */
  lemma HeldIsPrinted(s: seq<Byte>, p: seq<Byte>, cursor: nat, read: nat, from: nat)
    requires Holds(s, p, cursor, read) && from <= cursor
    ensures Search.Printed(s, p, from)
  {
  }

  lemma PrintedEarlier(s: seq<Byte>, p: seq<Byte>, early: nat, from: nat)
    requires early <= from && Search.Printed(s, p, from)
    ensures Search.Printed(s, p, early)
  {
  }

  /** Waits until the echo is off, then defines the child shell's helpers. */
  method Handshake(terminal: Terminal, cursor: nat) returns (err: Error)
    requires Untouched(terminal.board) && cursor <= |terminal.board.Stream()|
    modifies terminal
    ensures Untouched(terminal.board) && Later(old(terminal.board), terminal.board)
    ensures err.NoError? || IsFailure(err) || err == Wrapped({ProtocolViolation})
    ensures err.NoError? ==> Search.Printed(terminal.board.Stream(), ECHO_HIDDEN, cursor)
    ensures err.NoError? ==> terminal.lines == old(terminal.lines) + [Helpers]
  {
    hide Board.Valid, Board.Stream, Later, Search.Printed;
    ghost var was := terminal.board;
    ghost var read;
    err, read := terminal.WaitFor(cursor, ECHO_HIDDEN);
    StaysUntouched(was, terminal.board);
    if err.NoError? {
      HeldIsPrinted(terminal.board.Stream(), ECHO_HIDDEN, cursor, read, cursor);
      ghost var before := terminal.board;
      ghost var taken;
      err, taken := terminal.TypeLine(Helpers);
      StaysUntouched(before, terminal.board);
      PrintedStays(before.Stream(), terminal.board.Stream(), ECHO_HIDDEN, cursor);
      LaterTransitive(was, before, terminal.board);
    }
  }

  /** Reads the child shell's first report. `exited` is set when its exit has been seen. */
  method Greeting(terminal: Terminal, cursor: nat) returns (err: Error, exited: bool)
    requires Untouched(terminal.board) && cursor <= |terminal.board.Stream()|
    modifies terminal`board
    ensures Untouched(terminal.board) && Later(old(terminal.board), terminal.board)
    ensures exited ==> !err.NoError? && ExitSeen(terminal.board, cursor)
    ensures err.NoError? ==> ReadyReported(terminal.board, cursor)
  {
    hide Board.Valid, Board.Stream, Search.OccursAt, FieldsAt, Later, Search.Printed;
    exited := false;
    ghost var was, start := terminal.board, 0;
    var fields;
    ShellPrefixIsPlain(terminal.board);
    var waiter := new MarkerReader(terminal, terminal.board.shellPrefix, cursor);
    fields, err, start := waiter.NextMarker();
    StaysUntouched(was, terminal.board);
    SameShell(was, terminal.board);
    if !err.NoError? {
      return;
    }
    match Classify(fields, SHELL)
    case Failed(e) => err := e;
    case Arguments(given) =>
      if given == [ERROR, SLEEP] {
        ghost var before, read := terminal.board, 0;
        var exitErr;
        exitErr, read := terminal.WaitFor(cursor, EXITED_BYTES);
        StaysUntouched(before, terminal.board);
        LaterTransitive(was, before, terminal.board);
        err := Joined(Wrapped({RemoteFailure}), exitErr);
        exited := exitErr.NoError?;
        if exited {
          HeldIsPrinted(terminal.board.Stream(), EXITED_BYTES, cursor, read, cursor);
        }
      } else if given == [EXITED] {
        assert fields == [fields[0]] + fields[1..];
        assert Report(terminal.board.Stream(), terminal.board.shellPrefix, start, waiter.Pos() - 1, EXITED);
        err := Wrapped({RemoteFailure});
        exited := true;
      } else if given != [READY] {
        err := Wrapped({ProtocolViolation});
      } else {
        assert fields == [fields[0]] + fields[1..];
        assert Report(terminal.board.Stream(), terminal.board.shellPrefix, start, waiter.Pos() - 1, READY);
      }
  }

  lemma ShellPrefixIsPlain(b: Board)
    requires b.Valid()
    ensures |b.shellPrefix| > 0 && NEWLINE !in b.shellPrefix
  {
  }

  lemma SameShell(b: Board, c: Board)
    requires Later(b, c)
    ensures c.shellPrefix == b.shellPrefix && b.Stream() <= c.Stream() && (b.remote.Parent? ==> c.remote.Parent?)
  {
    hide ExitShows;
  }

  /** From the bootstrap to the first report. */
  method BringUp(terminal: Terminal, cursor: nat) returns (err: Error, exited: bool)
    requires Untouched(terminal.board) && cursor <= |terminal.board.Stream()|
    modifies terminal
    ensures Untouched(terminal.board) && Later(old(terminal.board), terminal.board)
    ensures exited ==> !err.NoError? && ExitSeen(terminal.board, cursor)
    ensures err.NoError? ==> ReadySeen(terminal.board, cursor)
    ensures err.NoError? ==> terminal.lines == old(terminal.lines) + [Helpers]
  {
    hide Board.Valid, Board.Stream, Later, ExitSeen, Search.Printed, ReadyReported;
    ghost var was := terminal.board;
    exited := false;
    err := Handshake(terminal, cursor);
    StaysUntouched(was, terminal.board);
    if err.NoError? {
      ghost var before := terminal.board;
      err, exited := Greeting(terminal, cursor);
      LaterTransitive(was, before, terminal.board);
      StaysUntouched(before, terminal.board);
      if err.NoError? {
        PrintedStays(before.Stream(), terminal.board.Stream(), ECHO_HIDDEN, cursor);
      }
    }
  }

  /** Starts the shell. When it fails with the shell not started, nothing was typed, or recovery is latched
      as unconfirmed, or there is no child shell: unless the user's own programs had already printed what
      looks like an exit between the tail and the bootstrap. `typed` is the board at the bootstrap. */
  method Start(s: ShellSession) returns (err: Error, ghost typed: Board)
    requires s.Valid() && !s.started && !s.idle && !s.closed && s.recoveryErr.NoError?
    requires !s.terminal.touched && Untouched(s.terminal.board) && s.terminal.board.remote.Parent?
    modifies s, s.terminal
    ensures s.Valid() && !s.closed
    ensures s.terminal.board.file == old(s.terminal.board.file)
    ensures s.terminal.board.names == old(s.terminal.board.names)
    ensures !BlockOpen(s.terminal.board)
    ensures !s.started ==> !err.NoError?
    ensures !s.started ==>
      || !s.terminal.touched || s.recoveryErr.Is(RecoveryUnconfirmed) || s.terminal.board.remote.Parent?
      || ExitSeen(typed, |old(s.terminal.board.Stream())|)
    ensures Untouched(typed) && typed.remote.Parent? && Later(old(s.terminal.board), typed)
    ensures err.NoError? ==> AtRest(s.terminal.board, 0) && s.recoveryErr.NoError?
    ensures err.NoError? ==> ReadySeen(s.terminal.board, |old(s.terminal.board.Stream())|)
    ensures err.NoError? ==> s.terminal.lines == old(s.terminal.lines) + [Bootstrap, Helpers]
    ensures old(s.terminal.board.Stream()) <= s.terminal.board.Stream()
  {
    hide Board.Valid, Board.Stream, Later, ExitSeen, ReadySeen, Board.Unchanged;
    var terminal := s.terminal;
    ghost var was := terminal.board;
    OpensNothing(was);
    LaterReflexive(was);
    typed := was;
    var cursor;
    cursor, err := terminal.ReadRecent();
    StaysUntouched(was, terminal.board);
    OpensNothing(terminal.board);
    if !err.NoError? {
      return;
    }
    SameShell(was, terminal.board);
    ghost var recent := terminal.board;
    err, typed := terminal.TypeBootstrap();
    LaterTransitive(was, recent, typed);
    StaysUntouched(recent, typed);
    OpensNothing(terminal.board);
    if !err.NoError? {
      err := s.RecoveryError(err);
      return;
    }
    s.started := true;
    ghost var begun := terminal.board;
    var exited;
    err, exited := BringUp(terminal, cursor);
    StaysUntouched(begun, terminal.board);
    OpensNothing(terminal.board);
    if !err.NoError? {
      s.started := !exited;
      if exited {
        GoneOrFooled(typed, begun, terminal.board, |was.Stream()|, cursor);
      }
      return;
    }
    ReadyEarlier(terminal.board, |was.Stream()|, cursor);
    terminal.ShellReads();
    s.idle := true;
  }

  lemma OpensNothing(b: Board)
    requires Untouched(b)
    ensures b.Valid() && !BlockOpen(b)
  {
  }

  lemma ReadyEarlier(b: Board, early: nat, from: nat)
    requires early <= from && ReadySeen(b, from)
    ensures ReadySeen(b, early) && (Untouched(b) ==> ReadySeen(Ready(b), early))
  {
    hide Report;
    PrintedEarlier(b.Stream(), ECHO_HIDDEN, early, from);
    if Untouched(b) {
      ReadyKeeps(b);
    }
  }

  /** An exit that has been seen is one, or was there when the bootstrap was typed. */
  lemma GoneOrFooled(typed: Board, begun: Board, now: Board, early: nat, cursor: nat)
    requires Untouched(typed) && (begun == typed || begun == Booted(typed)) && typed.remote.Parent?
    requires Later(begun, now) && early <= cursor <= |typed.Stream()| && ExitSeen(now, cursor)
    ensures now.remote.Parent? || ExitSeen(typed, early)
  {
    hide Board.Stream, Report;
    SameShell(begun, now);
    if begun.remote.Booting? && !now.remote.Parent? {
      BootedKeeps(typed);
      BootingExitIff(begun, now, cursor);
      ExitStaysSeen(begun, typed, early, cursor);
    }
  }

  /** Leaves the shell. Without an error and with a shell to leave, the exit line has been typed once, the exit
      bytes have been printed since, and the child shell is gone, or more of a received block has been
      printed and contains them. After a failed recovery nothing is typed; otherwise the exit line is taken
      by a raw block only if one is open. */
  method Close(s: ShellSession) returns (err: Error, ghost taken: bool)
    requires s.Valid() && !s.closed
    modifies s, s.terminal
    ensures s.Valid() && s.started == old(s.started) && Later(old(s.terminal.board), s.terminal.board)
    ensures !err.NoError? ==> err.Is(RecoveryUnconfirmed)
    ensures err.NoError? ==> old(s.recoveryErr).NoError?
    ensures taken ==> BlockOpen(old(s.terminal.board)) && !old(s.Failed())
    ensures err.NoError? && s.started ==> s.terminal.lines == old(s.terminal.lines) + [Exit]
    ensures old(s.Failed()) || !s.started ==> s.Untyped()
    ensures err.NoError? && s.started ==>
      && Search.Printed(s.terminal.board.Stream(), EXITED_BYTES, |old(s.terminal.board.Stream())|)
      && (s.terminal.board.remote.Parent? || DumpedExit(old(s.terminal.board), s.terminal.board))
  {
    hide Board.Valid, Board.Stream, Later, Search.Printed;
    var terminal := s.terminal;
    ghost var was := terminal.board;
    LaterReflexive(was);
    taken := false;
    var stuck: bool := *;
    if stuck {
      // the background keep-alive does not end in time
      err := s.RecoveryError(Wrapped({DeadlineExceeded}));
      return;
    }
    if !s.recoveryErr.NoError? {
      return s.recoveryErr, false;
    }
    if !s.started {
      return NoError, false;
    }
    s.closed, s.idle := true, false;
    var cursor;
    cursor, err := terminal.ReadRecent();
    StaysClosed(was, terminal.board);
    if err.NoError? {
      ghost var recent := terminal.board;
      err, taken := terminal.TypeLine(Exit);
      LaterTransitive(was, recent, terminal.board);
      if err.NoError? {
        ghost var before, read := terminal.board, 0;
        SameShell(recent, before);
        err, read := terminal.WaitFor(cursor, EXITED_BYTES);
        LaterTransitive(was, before, terminal.board);
        if err.NoError? {
          HeldIsPrinted(terminal.board.Stream(), EXITED_BYTES, cursor, read, |was.Stream()|);
          SameShell(was, terminal.board);
          if !was.remote.Parent? {
            ExitPrintedIff(was, terminal.board);
          }
        }
      }
    }
    err := s.RecoveryError(err);
  }

  lemma RestsOn(b: Board, c: Board, pos: nat)
    requires Later(b, c) && AtRest(b, 0) && |b.Stream()| <= pos
    ensures AtRest(c, pos) && AtShell(c) && !BlockOpen(c) && c.file == b.file && c.names == b.names
    ensures b.Stream() <= c.Stream()
  {
    hide ExitShows;
  }

  datatype Job = Send(source: seq<Byte>, size: nat, wanted: Naming.Path) | Receive

  /** What a finished job has done to the board, and what it has brought back. */
  ghost predicate Done(was: Board, job: Job, path: Naming.Path, received: seq<Byte>, now: Board) {
    match job
    case Send(source, size, wanted) =>
      && |source| == size && now.file == source && now.names == was.names + {path}
      && Naming.FreeSibling(Naming.FileParts(wanted), was.names, path)
    case Receive => received == was.file
  }

  /** The job itself, inside a shell that has been started. */
  method RunJob(s: ShellSession, job: Job)
    returns (path: Naming.Path, received: seq<Byte>, err: Error, ghost stage: Stage)
    requires s.Valid() && AtRest(s.terminal.board, 0) && s.recoveryErr.NoError?
    modifies s`idle, s`heartbeatErr, s`recoveryErr, s.terminal
    ensures s.Valid() && s.Latched(err)
    ensures err.NoError? ==> AtShell(s.terminal.board)
    ensures err.NoError? ==> Done(old(s.terminal.board), job, path, received, s.terminal.board)
    ensures BlockOpen(s.terminal.board) ==> err.Is(RecoveryUnconfirmed) || Abandoned(stage, err)
    ensures BlockOpen(s.terminal.board) && job.Send? ==> s.terminal.board.command.SendChunk?
  {
    hide Board.Valid, Board.Stream, Later, Naming.FreeSibling, Abandoned, BlockOpen;
    path, received, stage := [], [], Finished;
    ghost var was := s.terminal.board;
    var cursor;
    cursor, err := s.terminal.ReadRecent();
    RestsOn(was, s.terminal.board, cursor);
    if err.NoError? {
      var p := new FileProtocol(s, cursor);
      match job {
        case Send(source, size, wanted) => path, err, stage := SendFile(p, source, size, wanted);
        case Receive => received, err, stage := ReceiveFile(p);
      }
    }
  }

  /** What one transfer inside one shell leaves behind. */
  datatype Trace = Trace(
    /** The board when the bootstrap was typed, and when the shell was left. */
    typed: Board, left: Board,
    /** How the job itself ended. */
    stage: Stage, cause: Error,
    /** Whether the exit line went into an open block. */
    taken: bool)

  /** The two ways in which a child shell that is still there can have looked gone: a program of the user
      printed its exit between `from` and the bootstrap, or a received block that had been abandoned
      contained the exit bytes. */
  ghost predicate LookedGone(trace: Trace, from: nat, job: Job, now: Board) {
    || ExitSeen(trace.typed, from)
    || (job.Receive? && Abandoned(trace.stage, trace.cause) && DumpedExit(trace.left, now))
  }

  /** One transfer inside one shell. If anything was typed and the error does not say that recovery is
      unconfirmed, the child shell is gone, or looked gone in one of two ways. The exit line is typed into
      an open raw block only when the last block was abandoned. */
  method WithFileTransferShell(terminal: Terminal, job: Job)
    returns (path: Naming.Path, received: seq<Byte>, err: Error, ghost trace: Trace)
    requires !terminal.touched && Untouched(terminal.board) && terminal.board.remote.Parent?
    modifies terminal
    ensures terminal.touched && !err.Is(RecoveryUnconfirmed) ==>
      || terminal.board.remote.Parent?
      || LookedGone(trace, |old(terminal.board.Stream())|, job, terminal.board)
    ensures err.NoError? ==> Done(old(terminal.board), job, path, received, terminal.board)
    ensures Later(old(terminal.board), trace.typed) && trace.typed.remote.Parent? && Later(trace.left, terminal.board)
    ensures trace.taken ==> Abandoned(trace.stage, trace.cause) && forall k :: trace.cause.Is(k) ==> err.Is(k)
  {
    hide Board.Valid, Board.Stream, Later, ExitSeen, Search.Printed, Naming.FreeSibling, Undumped, Abandoned, BlockOpen;
    received, path := [], [];
    var s := new ShellSession(terminal);
    ghost var was := terminal.board;
    ghost var typed, stage, taken;
    err, typed := Start(s);
    stage := Finished;
    if err.NoError? {
      path, received, err, stage := RunJob(s, job);
    }
    ghost var cause, left := err, terminal.board;
    var closeErr;
    closeErr, taken := Close(s);
    FileRests(left, terminal.board);
    UndumpedIsOpen(left);
    err := Joined(err, closeErr);
    trace := Trace(typed, left, stage, cause, taken);
  }

  lemma FileRests(b: Board, c: Board)
    requires Later(b, c)
    ensures AtShell(b) ==> c.file == b.file && c.names == b.names
  {
    hide ExitShows;
  }

  lemma UndumpedIsOpen(b: Board)
    ensures Undumped(b) ==> BlockOpen(b) && b.command.ReceiveChunk?
  {
  }

  /** A transfer under a lease. A lease is released only if nothing was typed or the child shell is gone;
      or if it looked gone in one of the two ways, the second of which takes a receive. It is never
      released after a failed renewal. */
  method WithFileTransferLease(terminal: Terminal, job: Job)
    returns (path: Naming.Path, received: seq<Byte>, err: Error, acquired: bool, released: bool, ghost trace: Trace)
    requires !terminal.touched && Untouched(terminal.board) && terminal.board.remote.Parent?
    modifies terminal
    ensures released ==> acquired
    ensures released && terminal.touched ==>
      || terminal.board.remote.Parent?
      || LookedGone(trace, |old(terminal.board.Stream())|, job, terminal.board)
    ensures acquired ==>
      Later(old(terminal.board), trace.typed) && trace.typed.remote.Parent? && Later(trace.left, terminal.board)
    ensures !acquired ==> !terminal.touched
    ensures acquired && !released ==> err.Is(RecoveryUnconfirmed)
    ensures err.NoError? ==> Done(old(terminal.board), job, path, received, terminal.board)
  {
    path, received, released := [], [], false;
    err := SomeFailure();
    acquired := err.NoError?;
    trace := Trace(terminal.board, terminal.board, Finished, NoError, false);
    if !acquired {
      return;
    }
    path, received, err, trace := WithFileTransferShell(terminal, job);
    var heartbeatErr := SomeFailure();
    if !heartbeatErr.NoError? {
      err := Joined(Joined(err, heartbeatErr), Wrapped({RecoveryUnconfirmed}));
    }
    if !err.Is(RecoveryUnconfirmed) {
      released := true;
      var releaseErr := SomeFailure();
      if err.NoError? {
        err := releaseErr;
      }
    }
  }
}
