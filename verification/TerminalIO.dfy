/** The Session as file transfer sees it: a cursor into the board's output and a way to write. How
    fast output arrives, how much one read returns and which calls fail is up to the environment. */
module TerminalIO {
  import opened Bytes
  import opened Errors
  import opened Markers
  import opened RemoteBoard
  import opened Search

  datatype ReadResult = Chunk(data: seq<Byte>) | Dropped | ReadFailed(err: Error)

  /** What a read, a write or an expired context can fail with. */
  predicate IsFailure(e: Error) {
    e == Wrapped({Canceled}) || e == Wrapped({DeadlineExceeded}) || e == Wrapped({Transport})
  }

  /** The command was typed at the prompt and the board has worked on it since. */
  ghost predicate Begun(was: Board, command: Command, now: Board) {
    && now.delivered == []
    && exists b: Board :: Later(was, b) && b.remote.Prompt? && Later(Submitted(b, command), now)
  }

  /** What is typed to enter and to leave the child shell. */
  datatype ShellLine = Bootstrap | Helpers | Exit

  class Terminal {
    var board: Board
    /** Whether anything has ever been written. */
    var touched: bool
    /** The lines of these kinds that have been typed, in order. */
    var lines: seq<ShellLine>

    constructor (board: Board)
      ensures this.board == board && !touched && lines == []
    {
      this.board := board;
      touched, lines := false, [];
    }

    /** The board runs for a while. */
    method Elapse()
      requires board.Valid()
      modifies this`board
      ensures board.Valid() && Later(old(board), board) && board.delivered == old(board.delivered)
    {
      var n: nat :| true;
      while n > 0
        invariant board.Valid() && Later(old(board), board) && board.delivered == old(board.delivered)
      {
        var next: Board := *;
        if Step(board, next) {
          StepKeeps(board, next);
          LaterTransitive(old(board), board, next);
          board := next;
        }
        n := n - 1;
      }
    }

    /** Returns the bytes that follow the cursor, any number of them, or says that they are gone. */
    method ReadOutput(cursor: nat) returns (r: ReadResult)
      requires board.Valid() && cursor <= |board.Stream()|
      modifies this`board
      ensures board.Valid() && Later(old(board), board) && board.delivered == old(board.delivered)
      ensures r.Chunk? ==> cursor + |r.data| <= |board.Stream()| && r.data == board.Stream()[cursor..cursor + |r.data|]
      ensures r.ReadFailed? ==> IsFailure(r.err)
    {
      Elapse();
      var outcome: nat :| true;
      if outcome == 0 {
        r := ReadFailed(Wrapped({Canceled}));
      } else if outcome == 1 {
        r := ReadFailed(Wrapped({DeadlineExceeded}));
      } else if outcome == 2 {
        r := ReadFailed(Wrapped({Transport}));
      } else if outcome == 3 {
        r := Dropped;
      } else {
        var count: nat :| true;
        if cursor + count > |board.Stream()| {
          count := 0;
        }
        r := Chunk(board.Stream()[cursor..cursor + count]);
      }
    }

    /** The Session's output tail at this moment. */
    method ReadRecent() returns (next: nat, err: Error)
      requires board.Valid()
      modifies this`board
      ensures board.Valid() && Later(old(board), board) && board.delivered == old(board.delivered)
      ensures |old(board.Stream())| <= next == |board.Stream()|
      ensures err.NoError? || IsFailure(err)
    {
      Elapse();
      next := |board.Stream()|;
      err := SomeFailure();
    }

    /** Delivers a prefix of the data. The reported count is what was delivered, except that it may
        exceed the data when all of it was. */
    method Write(data: seq<Byte>) returns (count: nat, err: Error)
      requires board.Valid()
      modifies this`board, this`touched
      ensures board.Valid() && Later(old(board), board)
      ensures board.delivered == old(board.delivered) + data[..if count <= |data| then count else |data|]
      ensures err.NoError? || IsFailure(err)
    {
      Elapse();
      count :| true;
      var taken := if count <= |data| then count else |data|;
      DeliveredKeeps(board, data[..taken]);
      LaterTransitive(old(board), board, Delivered(board, data[..taken]));
      board := Delivered(board, data[..taken]);
      touched := true;
      err := SomeFailure();
    }

    /** Types a command line at the child shell's prompt. The shell runs it once the whole line has
        arrived, which may happen although the call reports a failure. If the shell has gone meanwhile,
        the line does nothing. */
    method Submit(command: Command) returns (err: Error)
      requires board.Valid() && (board.remote.Prompt? || board.remote.Parent?)
      requires command.Describe? ==> command.phase == META || command.phase == FINAL
      modifies this`board, this`touched
      ensures board.Valid()
      ensures err.NoError? || IsFailure(err)
      ensures Begun(old(board), command, board) || Later(old(board), board)
      ensures err.NoError? && !Begun(old(board), command, board) ==> board.remote.Parent?
    {
      Elapse();
      touched := true;
      err := SomeFailure();
      var complete: bool := *;
      if board.remote.Prompt? && (err.NoError? || complete) {
        ghost var b := board;
        SubmittedKeeps(board, command);
        board := Submitted(board, command);
        LaterReflexive(board);
        assert Later(old(board), b) && Later(Submitted(b, command), board);
      }
    }

    /** Types a line that asks for no answer. */
    method KeepAlive() returns (err: Error)
      requires board.Valid() && (board.remote.Prompt? || board.remote.Parent?)
      modifies this`board, this`touched
      ensures board.Valid() && Later(old(board), board) && board.delivered == old(board.delivered)
      ensures err.NoError? || IsFailure(err)
    {
      Elapse();
      touched := true;
      err := SomeFailure();
    }

    /** Types the line that starts the child shell. `typed` is the board that has printed everything up to
        then; the user's shell may read the line from there on, or lose it. */
    method TypeBootstrap() returns (err: Error, ghost typed: Board)
      requires Untouched(board) && board.remote.Parent?
      modifies this
      ensures Untouched(board) && touched && lines == old(lines) + [Bootstrap]
      ensures Untouched(typed) && typed.remote.Parent? && Later(old(board), typed)
      ensures (board == typed || board == Booted(typed)) && board.Stream() == typed.Stream()
      ensures err.NoError? || IsFailure(err)
    {
      ghost var was := board;
      Elapse();
      StaysUntouched(was, board);
      typed := board;
      touched, lines := true, lines + [Bootstrap];
      err := SomeFailure();
      var read: bool := *;
      if read {
        BootedKeeps(board);
        board := Booted(board);
      }
    }

    /** Types a line at whatever reads the terminal just now: a shell, which may take it for a request to
        exit, or an open raw block, which takes it for its own bytes (`taken`). */
    method TypeLine(line: ShellLine) returns (err: Error, ghost taken: bool)
      requires board.Valid()
      modifies this
      ensures board.Valid() && touched && Later(old(board), board) && lines == old(lines) + [line]
      ensures err.NoError? || IsFailure(err)
      ensures !BlockOpen(old(board)) ==> !taken
    {
      ghost var was := board;
      Elapse();
      StaysClosed(was, board);
      touched, lines := true, lines + [line];
      err := SomeFailure();
      taken := BlockOpen(board);
      var typed: seq<Byte> := *;
      if !Quiet(board) {
        ghost var before := board;
        DeliveredKeeps(board, typed);
        board := Delivered(board, typed);
        LaterTransitive(was, before, board);
      }
    }

    /** From its own report on, the child shell reads commands. */
    method ShellReads()
      requires Untouched(board)
      modifies this`board
      ensures board == Ready(old(board)) && board.Valid() && AtRest(board, 0) && board.Stream() == old(board.Stream())
    {
      ReadyKeeps(board);
      board := Ready(board);
    }

    /** Waits until the marker's bytes have been printed, in whatever pieces they arrive. `read` is how
        far the output has been searched. */
    method WaitFor(cursor: nat, marker: seq<Byte>) returns (err: Error, ghost read: nat)
      requires board.Valid() && cursor <= |board.Stream()| && |marker| > 0
      modifies this`board
      ensures board.Valid() && Later(old(board), board)
      ensures cursor <= read <= |board.Stream()|
      ensures err.NoError? <==> Holds(board.Stream(), marker, cursor, read)
      ensures err.NoError? || IsFailure(err) || err == Wrapped({ProtocolViolation})
    {
      hide Later, Board.Valid, Board.Stream, Holds, Contains, IsFailure;
      ghost var was, from := board, cursor;
      LaterReflexive(was);
      NothingHeld(board.Stream(), marker, cursor);
      var next, pending := cursor, [];
      var patience: nat :| true;
      err := Expired();
      while patience > 0
        invariant board.Valid() && Later(was, board)
        invariant cursor <= from <= next <= |board.Stream()| && pending == board.Stream()[from..next]
        invariant Searched(board.Stream(), marker, cursor, next)
        invariant |pending| < |marker| && (from == cursor || |pending| + 1 == |marker|)
        invariant !err.NoError? && (IsFailure(err) || err == Wrapped({ProtocolViolation}))
      {
        patience := patience - 1;
        ghost var before := board;
        var data, readErr := ReadAfter(next);
        LaterTransitive(was, before, board);
        StreamGrows(before, board);
        SearchedStays(before.Stream(), board.Stream(), marker, cursor, next);
        if !readErr.NoError? {
          return readErr, next;
        }
        Appended(before.Stream(), board.Stream(), from, next, next + |data|);
        SearchPending(board.Stream(), marker, cursor, next, from, next + |data|);
        pending := pending + data;
        next := next + |data|;
        if Contains(pending, marker) {
          return NoError, next;
        }
        if |pending| >= |marker| {
          var drop := |pending| - |marker| + 1;
          TakenNext(board.Stream(), from, from, next, drop);
          pending := pending[drop..];
          from := from + drop;
        }
      }
      read := next;
    }

    /** Reads on; output that was overwritten is an error. */
    method ReadAfter(cursor: nat) returns (data: seq<Byte>, err: Error)
      requires board.Valid() && cursor <= |board.Stream()|
      modifies this`board
      ensures board.Valid() && Later(old(board), board) && board.delivered == old(board.delivered)
      ensures err.NoError? ==> cursor + |data| <= |board.Stream()| && data == board.Stream()[cursor..cursor + |data|]
      ensures err.NoError? || IsFailure(err) || err == Wrapped({ProtocolViolation})
    {
      hide Later, Board.Valid, Board.Stream;
      var r := ReadOutput(cursor);
      data := [];
      match r
      case ReadFailed(e) => err := e;
      case Dropped => err := Wrapped({ProtocolViolation});
      case Chunk(bytes) => data, err := bytes, NoError;
    }
  }

  /** The operation's own deadline. */
  function Expired(): (err: Error)
    ensures !err.NoError? && IsFailure(err)
  {
    Wrapped({DeadlineExceeded})
  }

  /** An occurrence lies within s[from..to]. */
  ghost predicate Holds(s: seq<Byte>, p: seq<Byte>, from: nat, to: nat) {
    exists i: nat :: from <= i && i + |p| <= to && OccursAt(s, p, i)
  }

  ghost predicate Searched(s: seq<Byte>, p: seq<Byte>, from: nat, to: nat) {
    to <= |s| && !Holds(s, p, from, to)
  }

  lemma NothingHeld(s: seq<Byte>, p: seq<Byte>, from: nat)
    requires |p| > 0
    ensures !Holds(s, p, from, from)
  {
  }

  lemma SearchedStays(s: seq<Byte>, t: seq<Byte>, p: seq<Byte>, from: nat, to: nat)
    requires Extends(s, t) && Searched(s, p, from, to)
    ensures Searched(t, p, from, to)
  {
    forall i: nat | from <= i && i + |p| <= to ensures !OccursAt(t, p, i) {
      OccursInExtension(s, t, p, i);
    }
  }

  /** Searching s[pos..to], where nothing lies within s[from..seen] and pos leaves room for a straddling
      occurrence, searches s[from..to]. */
  lemma SearchPending(s: seq<Byte>, p: seq<Byte>, from: nat, seen: nat, pos: nat, to: nat)
    requires from <= pos <= seen <= to <= |s| && |p| > 0 && Searched(s, p, from, seen)
    requires pos == from || seen - pos + 1 == |p|
    ensures Contains(s[pos..to], p) <==> Holds(s, p, from, to)
  {
    PendingOccurrences(s, p, pos, to);
    var at := Index(s[pos..to], p);
    if at >= 0 {
      assert OccursAt(s[pos..to], p, at);
      assert OccursAt(s, p, pos + at);
    } else {
      forall i: nat | from <= i && i + |p| <= to ensures !OccursAt(s, p, i) {
        if i >= pos {
          assert !OccursAt(s[pos..to], p, i - pos);
        }
      }
    }
  }

  method SomeFailure() returns (err: Error)
    ensures err.NoError? || IsFailure(err)
  {
    var outcome: nat :| true;
    err := if outcome == 0 then Wrapped({Canceled}) else if outcome == 1 then Wrapped({DeadlineExceeded})
           else if outcome == 2 then Wrapped({Transport}) else NoError;
  }

  /** A private cursor into the output, with the bytes already read but not yet used. */
  class MarkerReader {
    const terminal: Terminal
    const prefix: seq<Byte>
    var cursor: nat
    var pending: seq<Byte>

    constructor (terminal: Terminal, prefix: seq<Byte>, cursor: nat)
      requires cursor <= |terminal.board.Stream()| && |prefix| > 0 && NEWLINE !in prefix
      ensures this.terminal == terminal && this.prefix == prefix && this.cursor == cursor && pending == []
      ensures Valid() && Pos() == cursor
    {
      this.terminal := terminal;
      this.prefix := prefix;
      this.cursor := cursor;
      this.pending := [];
    }

    ghost predicate Valid()
      reads this, terminal
    {
      && |prefix| > 0 && NEWLINE !in prefix
      && |pending| <= cursor <= |terminal.board.Stream()|
      && pending == terminal.board.Stream()[cursor - |pending|..cursor]
    }

    /** How much of the output has been used. */
    ghost function Pos(): nat
      reads this
    {
      if |pending| <= cursor then cursor - |pending| else 0
    }

    /** Output that arrives meanwhile does not disturb the reader. */
    lemma StillValid(was: Board)
      requires was.Stream() <= terminal.board.Stream() && |prefix| > 0 && NEWLINE !in prefix
      requires |pending| <= cursor <= |was.Stream()| && pending == was.Stream()[cursor - |pending|..cursor]
      ensures Valid()
    {
      Earlier(was.Stream(), terminal.board.Stream(), cursor - |pending|, cursor);
    }

    method More() returns (err: Error)
      requires Valid() && terminal.board.Valid()
      modifies this, terminal`board
      ensures Valid() && terminal.board.Valid() && Later(old(terminal.board), terminal.board)
      ensures terminal.board.delivered == old(terminal.board.delivered)
      ensures Pos() == old(Pos()) && cursor >= old(cursor)
      ensures err.NoError? || IsFailure(err) || err == Wrapped({ProtocolViolation})
      ensures !err.NoError? ==> pending == old(pending) && cursor == old(cursor)
    {
      hide Later, Board.Valid, Board.Stream;
      var data;
      data, err := terminal.ReadAfter(cursor);
      StreamGrows(old(terminal.board), terminal.board);
      Earlier(old(terminal.board.Stream()), terminal.board.Stream(), cursor - |pending|, cursor);
      if err.NoError? {
        cursor := cursor + |data|;
        pending := pending + data;
      }
    }

    /** Takes the first complete marker line out of the pending bytes, or drops what cannot be part of
        one: all but a partial line, or all but a partial prefix. */
    method TakeLine() returns (found: bool, fields: seq<seq<Byte>>, ghost start: nat)
      requires Valid()
      modifies this
      ensures Valid() && cursor == old(cursor) && Pos() >= old(Pos())
      ensures found ==> var s := terminal.board.Stream();
        Pos() > 0 && Found(s, prefix, old(Pos()), start, Pos() - 1) && fields == FieldsAt(s, prefix, start, Pos() - 1)
      ensures !found ==> Passed(terminal.board.Stream(), prefix, old(Pos()), Pos())
      ensures !found ==> NoLine(terminal.board.Stream(), prefix, old(Pos()), cursor)
    {
      hide Board.Valid, Board.Stream, FieldsAt, OccursAt, ScanPending, Found;
      ghost var s := terminal.board.Stream();
      ScanIsSound(s, prefix, Pos(), cursor);
      match ScanPending(pending, prefix)
      case Partial(drop) =>
        TakenNext(s, Pos(), Pos(), cursor, drop);
        found, fields, start := false, [[]], 0;
        pending := pending[drop..];
      case Complete(at, length) =>
        TakenNext(s, Pos(), Pos(), cursor, at + length + 1);
        found, fields, start := true, FieldsAt(pending, prefix, at, at + length), Pos() + at;
        pending := pending[at + length + 1..];
    }

    /** Scans for the next complete marker line: the first occurrence of the prefix at or after the
        position, however the output was cut into reads. What is dropped on the way can never become
        part of an occurrence. */
    method NextMarker() returns (fields: seq<seq<Byte>>, err: Error, ghost start: nat)
      requires Valid() && terminal.board.Valid()
      modifies this, terminal`board
      ensures Valid() && terminal.board.Valid() && Later(old(terminal.board), terminal.board)
      ensures terminal.board.delivered == old(terminal.board.delivered)
      ensures err.NoError? ==> var s := terminal.board.Stream();
        Pos() > 0 && Found(s, prefix, old(Pos()), start, Pos() - 1) && fields == FieldsAt(s, prefix, start, Pos() - 1)
      ensures !err.NoError? ==> Passed(terminal.board.Stream(), prefix, old(Pos()), Pos())
      ensures !err.NoError? ==> NoLine(terminal.board.Stream(), prefix, old(Pos()), cursor)
      ensures err.NoError? || IsFailure(err) || err == Wrapped({ProtocolViolation})
    {
      hide Later, Board.Valid, Board.Stream, FieldsAt, OccursAt, Found, NoLine;
      ghost var from := Pos();
      ghost var s0 := terminal.board;
      LaterReflexive(s0);
      var patience: nat :| true;
      while true
        invariant Valid() && terminal.board.Valid() && Later(s0, terminal.board)
        invariant terminal.board.delivered == s0.delivered
        invariant Passed(terminal.board.Stream(), prefix, from, Pos())
        decreases patience
      {
        var found: bool;
        ghost var pos := Pos();
        found, fields, start := TakeLine();
        if found {
          FoundFrom(terminal.board.Stream(), prefix, from, pos, start, Pos() - 1);
          err := NoError;
          return;
        }
        NoLineFrom(terminal.board.Stream(), terminal.board.Stream(), prefix, from, pos, cursor);
        if patience == 0 {
          err := Wrapped({DeadlineExceeded});
          return;
        }
        patience := patience - 1;
        ghost var before := terminal.board;
        err := More();
        LaterTransitive(s0, before, terminal.board);
        StreamGrows(before, terminal.board);
        if !err.NoError? {
          NoLineFrom(before.Stream(), terminal.board.Stream(), prefix, from, from, cursor);
        }
        PassedStable(before.Stream(), terminal.board.Stream(), prefix, from, Pos());
        if !err.NoError? {
          return;
        }
      }
    }

    /** Takes exactly the next `n` bytes, even if they look like a marker, or as many as arrived. */
    method ReadExact(n: nat) returns (data: seq<Byte>, err: Error)
      requires Valid() && terminal.board.Valid()
      modifies this, terminal`board
      ensures Valid() && terminal.board.Valid() && Later(old(terminal.board), terminal.board)
      ensures terminal.board.delivered == old(terminal.board.delivered)
      ensures Pos() == old(Pos()) + |data| && data == terminal.board.Stream()[old(Pos())..Pos()]
      ensures if err.NoError? then |data| == n else |data| < n && pending == []
      ensures err.NoError? || IsFailure(err) || err == Wrapped({ProtocolViolation})
    {
      hide Later, Board.Valid, Board.Stream;
      ghost var from := Pos();
      ghost var s0 := terminal.board;
      LaterReflexive(s0);
      data := [];
      err := NoError;
      var patience: nat :| true;
      while |data| < n
        invariant Valid() && terminal.board.Valid() && Later(s0, terminal.board)
        invariant terminal.board.delivered == s0.delivered
        invariant err.NoError? && |data| <= n && Pos() == from + |data| && data == terminal.board.Stream()[from..Pos()]
        decreases patience, n - |data|
      {
        if |pending| > 0 {
          var count := if |pending| <= n - |data| then |pending| else n - |data|;
          TakenNext(terminal.board.Stream(), from, Pos(), cursor, count);
          data := data + pending[..count];
          pending := pending[count..];
        } else {
          if patience == 0 {
            err := Wrapped({DeadlineExceeded});
            return;
          }
          patience := patience - 1;
          ghost var before := terminal.board;
          err := More();
          LaterTransitive(s0, before, terminal.board);
          StreamGrows(before, terminal.board);
          Earlier(before.Stream(), terminal.board.Stream(), from, Pos());
          if !err.NoError? {
            return;
          }
        }
      }
    }
  }

  lemma Earlier(s: seq<Byte>, t: seq<Byte>, from: nat, to: nat)
    requires s <= t && from <= to <= |s|
    ensures t[from..to] == s[from..to] && Extends(s, t)
  {
    assert t == s + t[|s|..];
  }

  lemma Appended(s: seq<Byte>, t: seq<Byte>, from: nat, to: nat, end: nat)
    requires s <= t && from <= to <= |s| && to <= end <= |t|
    ensures s[from..to] + t[to..end] == t[from..end]
  {
    Earlier(s, t, from, to);
  }

  lemma TakenNext(s: seq<Byte>, from: nat, pos: nat, cursor: nat, count: nat)
    requires from <= pos <= cursor <= |s| && pos + count <= cursor
    ensures s[from..pos] + s[pos..cursor][..count] == s[from..pos + count]
    ensures s[pos..cursor][count..] == s[pos + count..cursor]
  {
  }

  /** Occurrences in the pending bytes are occurrences in the stream. */
  lemma PendingOccurrences(s: seq<Byte>, p: seq<Byte>, pos: nat, cursor: nat)
    requires pos <= cursor <= |s|
    ensures forall i: nat :: i + |p| <= cursor - pos ==> (OccursAt(s[pos..cursor], p, i) <==> OccursAt(s, p, pos + i))
  {
    forall i: nat | i + |p| <= cursor - pos ensures OccursAt(s[pos..cursor], p, i) <==> OccursAt(s, p, pos + i) {
      SliceOfSlice(s, pos, cursor - pos, i, i + |p|);
    }
  }

  lemma PendingPassed(s: seq<Byte>, p: seq<Byte>, pos: nat, cursor: nat, drop: nat)
    requires pos <= cursor <= |s| && pos + drop <= cursor
    requires drop > 0 ==> drop - 1 + |p| <= cursor - pos
    requires forall i: nat :: i < drop ==> !OccursAt(s[pos..cursor], p, i)
    ensures Passed(s, p, pos, pos + drop)
  {
    PendingOccurrences(s, p, pos, cursor);
    forall i: nat | pos <= i < pos + drop ensures !OccursAt(s, p, i) {
      assert !OccursAt(s[pos..cursor], p, i - pos);
    }
  }

  datatype Scanned = Partial(drop: nat) | Complete(at: nat, length: nat)

  function ScanPending(pending: seq<Byte>, p: seq<Byte>): Scanned
    requires |p| > 0
  {
    var at := Index(pending, p);
    if at < 0 then Partial(if |pending| < |p| then 0 else |pending| - (|p| - 1))
    else
      var length := FirstIndex(pending[at..], NEWLINE);
      if length < |pending| - at then Complete(at, length) else Partial(at)
  }

  /** What a scan of the pending bytes s[pos..cursor] says about the stream. */
  lemma ScanIsSound(s: seq<Byte>, p: seq<Byte>, pos: nat, cursor: nat)
    requires |p| > 0 && NEWLINE !in p && pos <= cursor <= |s|
    ensures var pending := s[pos..cursor];
      match ScanPending(pending, p)
      case Partial(drop) => drop <= |pending| && Passed(s, p, pos, pos + drop) && NoLine(s, p, pos, cursor)
      case Complete(at, length) =>
        && at + length < |pending| && OccursAt(pending, p, at) && at + |p| <= |pending|
        && Found(s, p, pos, pos + at, pos + at + length)
        && FieldsAt(s, p, pos + at, pos + at + length) == FieldsAt(pending, p, at, at + length)
  {
    hide FieldsAt, NoLine, Found, Passed;
    var pending := s[pos..cursor];
    var at := Index(pending, p);
    if ScanPending(pending, p).Partial? {
      NoLineInPending(s, p, pos, cursor);
    }
    if at < 0 {
      PendingPassed(s, p, pos, cursor, if |pending| < |p| then 0 else |pending| - (|p| - 1));
    } else {
      PendingPassed(s, p, pos, cursor, at);
      var length := FirstIndex(pending[at..], NEWLINE);
      if length < |pending| - at {
        LineInPending(s, p, pos, cursor, at, length);
      }
    }
  }

  lemma LineInPending(s: seq<Byte>, p: seq<Byte>, pos: nat, cursor: nat, at: nat, length: nat)
    requires pos <= cursor <= |s| && at <= cursor - pos
    requires var pending := s[pos..cursor];
      OccursAt(pending, p, at) && length == FirstIndex(pending[at..], NEWLINE) < |pending| - at
    requires Passed(s, p, pos, pos + at)
    ensures Found(s, p, pos, pos + at, pos + at + length)
    ensures FieldsAt(s, p, pos + at, pos + at + length) == FieldsAt(s[pos..cursor], p, at, at + length)
  {
    hide Split, TrimCr;
    var pending := s[pos..cursor];
    PendingOccurrences(s, p, pos, cursor);
    SliceOfSlice(s, pos, cursor - pos, at, at + length);
    FirstNewline(pending, at, length);
    assert s[pos + at + length] == pending[at + length];
  }

  lemma FirstNewline(pending: seq<Byte>, at: nat, length: nat)
    requires at <= |pending| && length == FirstIndex(pending[at..], NEWLINE) < |pending| - at
    ensures NEWLINE !in pending[at..at + length] && pending[at + length] == NEWLINE
  {
    var line := pending[at..];
    assert forall i :: at <= i < at + length ==> pending[i] == line[i - at];
    assert pending[at + length] == line[length];
  }

  /** No marker line after `from` is complete within s[..cursor]. */
  ghost predicate NoLine(s: seq<Byte>, p: seq<Byte>, from: nat, cursor: nat) {
    forall start: nat, end: nat :: end < cursor ==> !Found(s, p, from, start, end)
  }

  lemma LineIsLonger(s: seq<Byte>, p: seq<Byte>, from: nat, start: nat, end: nat)
    requires Found(s, p, from, start, end) && NEWLINE !in p
    ensures start + |p| <= end
  {
    forall i | start <= i < start + |p| ensures s[i] != NEWLINE {
      assert s[i] == s[start..start + |p|][i - start] == p[i - start];
    }
  }

  lemma CompleteInPending(s: seq<Byte>, p: seq<Byte>, pos: nat, cursor: nat, start: nat, end: nat)
    requires |p| > 0 && NEWLINE !in p && pos <= cursor <= |s| && Found(s, p, pos, start, end) && end < cursor
    ensures ScanPending(s[pos..cursor], p).Complete?
  {
    hide FirstIndex, Index, OccursAt;
    var pending := s[pos..cursor];
    PendingOccurrences(s, p, pos, cursor);
    LineIsLonger(s, p, pos, start, end);
    assert OccursAt(pending, p, start - pos);
    var at := Index(pending, p);
    assert OccursAt(pending, p, at) && OccursAt(s, p, pos + at);
    assert at == start - pos;
    NewlineAhead(pending, at, end - start);
  }

  lemma NewlineAhead(pending: seq<Byte>, at: nat, k: nat)
    requires at + k < |pending| && pending[at + k] == NEWLINE
    ensures FirstIndex(pending[at..], NEWLINE) <= k
  {
    assert pending[at..][k] == NEWLINE;
  }

  lemma NoLineInPending(s: seq<Byte>, p: seq<Byte>, pos: nat, cursor: nat)
    requires |p| > 0 && NEWLINE !in p && pos <= cursor <= |s| && ScanPending(s[pos..cursor], p).Partial?
    ensures NoLine(s, p, pos, cursor)
  {
    forall start: nat, end: nat | end < cursor ensures !Found(s, p, pos, start, end) {
      if Found(s, p, pos, start, end) {
        CompleteInPending(s, p, pos, cursor, start, end);
      }
    }
  }

  lemma NoLineFrom(s: seq<Byte>, t: seq<Byte>, p: seq<Byte>, from: nat, pos: nat, cursor: nat)
    requires Extends(s, t) && Passed(s, p, from, pos) && cursor <= |s| && NoLine(s, p, pos, cursor) && NEWLINE !in p
    ensures NoLine(t, p, from, cursor)
  {
    forall start: nat, end: nat | end < cursor ensures !Found(t, p, from, start, end) {
      if Found(t, p, from, start, end) {
        LineIsLonger(t, p, from, start, end);
        FoundEarlier(s, t, p, from, pos, start, end);
      }
    }
  }

  lemma FoundEarlier(s: seq<Byte>, t: seq<Byte>, p: seq<Byte>, from: nat, pos: nat, start: nat, end: nat)
    requires Extends(s, t) && Passed(s, p, from, pos) && Found(t, p, from, start, end) && start + |p| <= end < |s|
    ensures Found(s, p, pos, start, end)
  {
    forall i: nat | from <= i <= start ensures OccursAt(s, p, i) <==> OccursAt(t, p, i) {
      OccursInExtension(s, t, p, i);
    }
    Earlier(s, t, start, end);
    assert s[end] == t[end];
  }

  lemma FoundFrom(s: seq<Byte>, p: seq<Byte>, from: nat, pos: nat, start: nat, end: nat)
    requires Passed(s, p, from, pos) && Found(s, p, pos, start, end)
    ensures Found(s, p, from, start, end)
  {
  }
}
