/** The board's side of a file transfer: an abstract machine in place of its shell scripts. It reads a
    command at its prompt, announces a raw block, moves the block's bytes, and reports. Its output
    is whatever it prints (noise) with marker lines in between. */
module RemoteBoard {
  import opened Bytes
  import opened Decimals
  import opened Markers
  import opened Options
  import opened Search

  const CHUNK: nat := 8192

  const READY: seq<Byte> := [0x52, 0x45, 0x41, 0x44, 0x59]
  const DATA: seq<Byte> := [0x44, 0x41, 0x54, 0x41]
  const ACK: seq<Byte> := [0x41, 0x43, 0x4b]
  const ERROR: seq<Byte> := [0x45, 0x52, 0x52, 0x4f, 0x52]
  const INIT: seq<Byte> := [0x49, 0x4e, 0x49, 0x54]
  const OK: seq<Byte> := [0x4f, 0x4b]
  const META: seq<Byte> := [0x4d, 0x45, 0x54, 0x41]
  const FINAL: seq<Byte> := [0x46, 0x49, 0x4e, 0x41, 0x4c]
  const READ: seq<Byte> := [0x72, 0x65, 0x61, 0x64]
  const WRITE: seq<Byte> := [0x77, 0x72, 0x69, 0x74, 0x65]
  const OPEN: seq<Byte> := [0x6f, 0x70, 0x65, 0x6e]
  const TTY: seq<Byte> := [0x74, 0x74, 0x79]
  const PICK: seq<Byte> := [0x50, 0x49, 0x43, 0x4b]
  const FREE: seq<Byte> := [0x46, 0x52, 0x45, 0x45]
  const EXISTS: seq<Byte> := [0x45, 0x58, 0x49, 0x53, 0x54, 0x53]

  /** The child shell's own markers, and what its parent prints when the child has ended. */
  const SHELL: seq<Byte> := [0x53, 0x48, 0x45, 0x4c, 0x4c]
  const EXITED: seq<Byte> := [0x45, 0x58, 0x49, 0x54, 0x45, 0x44]
  const EXITED_BYTES: seq<Byte> := [0x1d, 0x1c]

  datatype Command =
    | Pick(path: seq<Byte>)
    | Create(path: seq<Byte>)
    | Describe(phase: seq<Byte>)
    | SendChunk(size: nat)
    | ReceiveChunk(index: nat, size: nat)

  /** Parent: the user's own shell, with no child shell in it. Booting: the child shell has been asked
      for and reads no commands yet. Prompt: the child reads its next command. Raw, Dumping and Dumped:
      a raw block owns the terminal. */
  datatype Remote = Parent | Booting | Prompt | Answering | Raw | Dumping | Dumped

  /** What the current command has printed: a marker, raw bytes, a final marker. */
  datatype Reply = Reply(first: Option<Marker>, payload: seq<Byte>, second: Option<Marker>)

  const SILENT := Reply(None, [], None)

  function Text(p: seq<Byte>, m: Option<Marker>): seq<Byte> {
    if m.None? then [] else m.value.noise + Line(p, m.value)
  }

  /** The bytes a receive command reads: the last block may be short, and there is nothing behind it. */
  function BlockOf(file: seq<Byte>, index: nat): seq<Byte> {
    var from := CHUNK * index;
    if from >= |file| then [] else if from + CHUNK <= |file| then file[from..from + CHUNK] else file[from..]
  }

  /** `prefix` is the transfer's own marker prefix and `shellPrefix` the child shell's; `names` are the
      paths that exist, and `file` is the remote file of the transfer. */
  datatype Board = Board(
    prefix: seq<Byte>,
    shellPrefix: seq<Byte>,
    remote: Remote,
    command: Command,
    before: seq<Byte>,
    reply: Reply,
    tail: seq<Byte>,
    delivered: seq<Byte>,
    file: seq<Byte>,
    fileBefore: seq<Byte>,
    names: set<seq<Byte>>,
    namesBefore: set<seq<Byte>>)
  {
    /** Everything the board has printed and the Session has received, the current reply being in three
        parts between. */
    function Stream(): seq<Byte> { before + Printed() + tail }

    function Printed(): seq<Byte> { Text(prefix, reply.first) + reply.payload + Text(prefix, reply.second) }

    predicate Announces(m: Marker) {
      || (command.SendChunk? && m.fields == [READY, Decimal(command.size)])
      || (command.ReceiveChunk? && m.fields == [DATA, Decimal(command.size)])
    }

    /** A refusal before any raw mode, or the whole answer of a command without one. A file is created
        only where nothing exists. */
    predicate Answers(m: Marker) {
      match command
      case SendChunk(_) => m.fields == [ERROR, OPEN] || m.fields == [ERROR, TTY]
      case ReceiveChunk(_, _) => m.fields == [ERROR, OPEN] || m.fields == [ERROR, TTY]
      case Pick(path) => m.fields == [PICK, if path in names then EXISTS else FREE]
      case Create(path) =>
        || (m.fields == [INIT, OK] && file == [] && path !in namesBefore && names == namesBefore + {path})
        || (Fails(m) && Unchanged())
      case Describe(phase) => (|m.fields| == 3 && m.fields[0] == phase && m.fields[1] == Decimal(|file|)) || Fails(m)
    }

    predicate Fails(m: Marker) { |m.fields| == 2 && m.fields[0] == ERROR }

    predicate Unchanged() { file == fileBefore && names == namesBefore }

    function Block(): seq<Byte>
      requires command.ReceiveChunk?
    {
      BlockOf(file, command.index)
    }

    /** An acknowledged block was moved completely; an error may leave part of it moved. */
    predicate Reports(m: Marker)
      requires command.SendChunk? || command.ReceiveChunk?
    {
      match command
      case SendChunk(n) =>
        || (m.fields == [ACK, Decimal(n)] && n <= |delivered| && file == fileBefore + delivered[..n])
        || m.fields == [ERROR, WRITE]
      case ReceiveChunk(_, n) =>
        || (m.fields == [ACK, Decimal(n)] && reply.payload == Block())
        || m.fields == [ERROR, READ]
    }

    ghost predicate Valid() {
      && IsPrefix(prefix) && Clean(prefix, tail) && IsPrefix(shellPrefix)
      && (command.Describe? ==> command.phase == META || command.phase == FINAL)
      && (before == [] || before[|before| - 1] == NEWLINE)
      && (reply.first.Some? ==> IsMarker(prefix, reply.first.value))
      && (reply.first.Some? ==> Announces(reply.first.value) || Answers(reply.first.value))
      && (reply.second.Some? ==> IsMarker(prefix, reply.second.value))
      && Consistent()
    }

    ghost predicate Consistent() {
      match remote
      case Parent => Settled()
      case Booting => before == [] && reply == SILENT && Unchanged()
      case Prompt => Settled()
      case Answering => reply == SILENT && Unchanged()
      case Raw => command.SendChunk? && Announced() && reply.payload == [] && Unchanged()
      case Dumping => command.ReceiveChunk? && Announced() && reply.payload <= Block() && tail == [] && Unchanged()
      case Dumped => command.ReceiveChunk? && Announced() && reply.payload <= Block() && Unchanged()
    }

    /** Nothing is owed to the last command. */
    ghost predicate Settled() {
      && (command.Create? || names == namesBefore)
      && (command.ReceiveChunk? || command.Describe? || command.Pick? ==> file == fileBefore)
      && (command.SendChunk? ==> fileBefore <= file)
      && (reply.first.None? || (Announces(reply.first.value) <==> reply.second.Some?))
      && (reply.first.None? ==> reply == SILENT && Unchanged())
      && (reply.second.None? ==> reply.payload == [])
      && (reply.second.Some? ==>
            && (command.SendChunk? ==> reply.payload == [])
            && (command.ReceiveChunk? ==> reply.payload <= Block())
            && Reports(reply.second.value))
    }

    ghost predicate Announced() {
      reply.first.Some? && Announces(reply.first.value) && reply.second.None?
    }

    /** Positions in the stream. */
    function FirstEnd(): nat { |before| + |Text(prefix, reply.first)| }
    function PayloadEnd(): nat { FirstEnd() + |reply.payload| }
    function ReplyEnd(): nat { |before| + |Printed()| }
  }

  /** A marker line of the child shell. */
  predicate Report(s: seq<Byte>, p: seq<Byte>, start: nat, end: nat, word: seq<Byte>) {
    OccursAt(s, p, start) && start <= end < |s| && s[end] == NEWLINE && FieldsAt(s, p, start, end) == [SHELL, word]
  }

  // ---- what the board may do on its own ----------------------------------------------

  /** One thing the board may do next, unasked. */
  predicate Step(b: Board, c: Board) {
    || Prints(b, c) || Replies(b, c) || Dumps(b, c) || Finishes(b, c) || Exits(b, c)
  }

  /** Noise: a kernel message, or whatever programs say. It is never the transfer's own prefix, which is
      fresh, and does not fall between an announced block and the end of its bytes. While there is a
      child shell, it does not look like its exit either. */
  predicate Prints(b: Board, c: Board) {
    && !b.remote.Dumping? && b.tail <= c.tail && Clean(b.prefix, c.tail) && c == b.(tail := c.tail)
    && (b.remote.Parent? || NoneNew(|b.tail|, c.tail, EXITED_BYTES))
    && (b.remote.Booting? ==> NoExitReport(|b.tail|, c.tail, b.shellPrefix))
  }

  /** No occurrence ends behind the first n bytes. */
  predicate NoneNew(n: nat, s: seq<Byte>, p: seq<Byte>) {
    forall i :: 0 <= i < |s| && n < i + |p| ==> !OccursAt(s, p, i)
  }

  predicate NoExitReport(n: nat, s: seq<Byte>, p: seq<Byte>) {
    forall i, j :: 0 <= i < |s| && n <= j < |s| ==> !Report(s, p, i, j, EXITED)
  }

  predicate Replies(b: Board, c: Board) {
    && b.remote.Answering? && c.reply.first.Some? && c.reply == SILENT.(first := c.reply.first)
    && c.reply.first.value.noise == b.tail && IsMarker(b.prefix, c.reply.first.value)
    && c == b.(remote := c.remote, reply := c.reply, tail := [], file := c.file, names := c.names)
    && (b.command.Create? || (c.file == b.file && c.names == b.names))
    && (if c.Announces(c.reply.first.value)
        then c.remote == (if b.command.SendChunk? then Raw else Dumping)
        else c.Answers(c.reply.first.value) && c.remote.Prompt?)
  }

  /** Some of the block is printed, and then perhaps no more: a read error may cut it short. */
  predicate Dumps(b: Board, c: Board) {
    && b.remote.Dumping? && b.command.ReceiveChunk? && b.reply.payload <= c.reply.payload <= b.Block()
    && (c.remote.Dumping? || c.remote.Dumped?)
    && c == b.(remote := c.remote, reply := b.reply.(payload := c.reply.payload))
  }

  /** The raw block ends, complete or not, and the terminal is restored: then comes the report. What
      an incomplete send has appended is a prefix of what was delivered. */
  predicate Finishes(b: Board, c: Board) {
    && (b.remote.Raw? || b.remote.Dumped?) && c.reply.second.Some? && c.reply == b.reply.(second := c.reply.second)
    && c.reply.second.value.noise == b.tail && IsMarker(b.prefix, c.reply.second.value)
    && c == b.(remote := Prompt, reply := c.reply, tail := [], file := c.file)
    && (b.command.SendChunk? || b.command.ReceiveChunk?)
    && c.Reports(c.reply.second.value)
    && (b.command.SendChunk? ==> exists k :: 0 <= k <= |b.delivered| && c.file == b.file + b.delivered[..k])
    && (b.command.ReceiveChunk? ==> c.file == b.file)
  }

  /** The child shell ends, because it was told to or because its watchdog found it idle for too long;
      its parent prints the exit bytes and reads the terminal again. */
  predicate Exits(b: Board, c: Board) {
    && (b.remote.Prompt? || b.remote.Booting?)
    && b.tail <= c.tail && Clean(b.prefix, c.tail) && c == b.(remote := Parent, tail := c.tail)
    && |b.tail| + |EXITED_BYTES| <= |c.tail| && OccursAt(c.tail, EXITED_BYTES, |c.tail| - |EXITED_BYTES|)
  }

  /** No command is being worked on. */
  predicate Quiet(b: Board) { b.remote.Parent? || b.remote.Booting? || b.remote.Prompt? }

  /** A raw block owns the terminal, or is about to: what is typed now may be taken for its bytes. */
  predicate BlockOpen(b: Board) {
    || b.remote.Raw? || b.remote.Dumping? || b.remote.Dumped?
    || (b.remote.Answering? && (b.command.SendChunk? || b.command.ReceiveChunk?))
  }

  /** Bytes of a received block are still to come. */
  predicate Undumped(b: Board) { b.command.ReceiveChunk? && (b.remote.Answering? || b.remote.Dumping?) }

  ghost predicate InDump(b: Board, i: nat) { b.reply.first.Some? && b.FirstEnd() <= i < b.PayloadEnd() }

  /** How the child shell's exit shows: new exit bytes are the parent's or part of a received block, an
      exit is never silent, and a child that is still starting has not reported its exit. */
  ghost predicate ExitShows(b: Board, c: Board) {
    && (forall i: nat :: OccursAt(c.Stream(), EXITED_BYTES, i) && |b.Stream()| < i + |EXITED_BYTES| ==>
          c.remote.Parent? || InDump(c, i))
    && (!b.remote.Parent? && c.remote.Parent? ==> Search.Printed(c.Stream(), EXITED_BYTES, |b.Stream()|))
    && (c.remote.Booting? ==>
          forall i: nat, j: nat :: Report(c.Stream(), c.shellPrefix, i, j, EXITED) ==> j < |b.Stream()|)
  }

  /** What a command's progress cannot undo. */
  ghost predicate Later(b: Board, c: Board) {
    && c.prefix == b.prefix && c.shellPrefix == b.shellPrefix && c.command == b.command && c.before == b.before
    && b.delivered <= c.delivered && c.fileBefore == b.fileBefore && c.namesBefore == b.namesBefore
    && (b.reply.first.Some? ==> c.reply.first == b.reply.first)
    && (b.reply.second.Some? ==> c.reply == b.reply)
    && b.reply.payload <= c.reply.payload && (c.reply.payload == b.reply.payload || Undumped(b))
    && b.Stream() <= c.Stream()
    && (b.reply.first.None? && c.reply.first.Some? ==> |b.Stream()| <= |c.before| + |c.reply.first.value.noise|)
    && (b.remote.Parent? ==> c.remote.Parent?) && (c.remote.Booting? ==> b.remote.Booting?)
    && (!Quiet(b) && Quiet(c) ==> c.reply.first.Some?)
    && (Undumped(c) ==> Undumped(b))
    && (Quiet(b) ==>
          && c == b.(remote := c.remote, tail := c.tail, delivered := c.delivered)
          && (c.remote == b.remote || c.remote.Parent?))
    && (b.command.ReceiveChunk? || b.command.Describe? || b.command.Pick? ==> c.file == b.file)
    && (!b.command.Create? ==> c.names == b.names)
    && ExitShows(b, c)
  }

  lemma StepKeeps(b: Board, c: Board)
    requires b.Valid() && Step(b, c)
    ensures c.Valid() && Later(b, c) && c.delivered == b.delivered
  {
    hide Board.Valid, Later;
    if Prints(b, c) {
      PrintsKeeps(b, c);
    } else if Replies(b, c) {
      RepliesKeeps(b, c);
    } else if Dumps(b, c) {
      DumpsKeeps(b, c);
    } else if Finishes(b, c) {
      FinishesKeeps(b, c);
    } else {
      ExitsKeeps(b, c);
    }
  }

  lemma PrintsKeeps(b: Board, c: Board)
    requires b.Valid() && Prints(b, c)
    ensures c.Valid() && Later(b, c) && c.delivered == b.delivered
  {
    assert c.Stream() == b.Stream() + c.tail[|b.tail|..];
    NoiseShowsNoExit(b, c);
  }

  lemma NoiseShowsNoExit(b: Board, c: Board)
    requires b.Valid() && Prints(b, c)
    ensures ExitShows(b, c)
  {
    hide Board.Valid, IsMarker, FieldsAt, Board.Stream;
    forall i: nat | OccursAt(c.Stream(), EXITED_BYTES, i) && |b.Stream()| < i + |EXITED_BYTES|
      ensures c.remote.Parent? || InDump(c, i)
    {
      NoiseAt(b, c, i);
    }
    if b.remote.Booting? {
      BootingPrintsTail(b, c);
    }
  }

  lemma BootingPrintsTail(b: Board, c: Board)
    requires b.Valid() && b.remote.Booting? && c == b.(tail := c.tail)
    ensures b.Stream() == b.tail && c.Stream() == c.tail
  {
  }

  /** New exit bytes would lie in the noise, or begin in front of it. */
  lemma NoiseAt(b: Board, c: Board, i: nat)
    requires b.Valid() && Prints(b, c)
    requires OccursAt(c.Stream(), EXITED_BYTES, i) && |b.Stream()| < i + |EXITED_BYTES|
    ensures c.remote.Parent? || InDump(c, i)
  {
    hide IsMarker, Report, NoExitReport, Line, Board.Announces, Board.Answers;
    var n := b.ReplyEnd();
    assert c.Stream() == b.before + b.Printed() + c.tail;
    if i >= n {
      OccursBehind(b.before + b.Printed(), c.tail, EXITED_BYTES, i);
    } else {
      ReplyEndsPlainly(b);
      assert c.Stream()[i] == c.Stream()[i..i + |EXITED_BYTES|][0] == EXITED_BYTES[0];
      assert c.Stream()[n - 1] == b.Stream()[n - 1];
    }
  }

  lemma OccursBehind(front: seq<Byte>, rest: seq<Byte>, p: seq<Byte>, i: nat)
    requires |front| <= i && OccursAt(front + rest, p, i)
    ensures OccursAt(rest, p, i - |front|)
  {
    assert (front + rest)[|front|..] == rest;
    OccursInSuffix(front + rest, p, |front|, i - |front|);
  }

  /** In front of the tail there is a line's end, or a received block. */
  lemma ReplyEndsPlainly(b: Board)
    requires b.Valid() && b.ReplyEnd() > 0
    ensures b.Stream()[b.ReplyEnd() - 1] == NEWLINE || InDump(b, b.ReplyEnd() - 1)
  {
  }

  lemma RepliesKeeps(b: Board, c: Board)
    requires b.Valid() && Replies(b, c)
    ensures c.Valid() && Later(b, c) && c.delivered == b.delivered
  {
    assert c.Stream() == b.Stream() + Line(b.prefix, c.reply.first.value);
    LineShowsNoExit(b, c, c.reply.first.value);
  }

  lemma DumpsKeeps(b: Board, c: Board)
    requires b.Valid() && Dumps(b, c)
    ensures c.Valid() && Later(b, c) && c.delivered == b.delivered
  {
    hide ExitShows, Line, IsMarker, Markers.Clean, IsPrefix;
    assert c.Stream() == b.Stream() + c.reply.payload[|b.reply.payload|..];
    DumpShows(b, c);
  }

  lemma DumpShows(b: Board, c: Board)
    requires b.Valid() && Dumps(b, c)
    ensures ExitShows(b, c)
  {
    hide Line, Markers.Clean, Board.Valid, BlockOf;
    FirstEndsALine(b);
    assert b.Stream() == b.before + Text(b.prefix, b.reply.first) + b.reply.payload;
    assert c.Stream() == b.before + Text(b.prefix, b.reply.first) + c.reply.payload;
    forall i: nat | OccursAt(c.Stream(), EXITED_BYTES, i) && |b.Stream()| < i + |EXITED_BYTES| ensures InDump(c, i) {
      assert c.Stream()[i] == c.Stream()[i..i + |EXITED_BYTES|][0] == EXITED_BYTES[0];
    }
  }

  lemma FirstEndsALine(b: Board)
    requires b.Valid() && b.remote.Dumping?
    ensures b.reply.second.None? && b.tail == []
    ensures b.reply.first.Some? && b.FirstEnd() > 0
    ensures (b.before + Text(b.prefix, b.reply.first))[b.FirstEnd() - 1] == NEWLINE
  {
  }

  lemma FinishesKeeps(b: Board, c: Board)
    requires b.Valid() && Finishes(b, c)
    ensures c.Valid() && Later(b, c) && c.delivered == b.delivered
  {
    assert c.Stream() == b.Stream() + Line(b.prefix, c.reply.second.value);
    LineShowsNoExit(b, c, c.reply.second.value);
  }

  lemma ExitsKeeps(b: Board, c: Board)
    requires b.Valid() && Exits(b, c)
    ensures c.Valid() && Later(b, c) && c.delivered == b.delivered
  {
    assert c.Stream() == b.Stream() + c.tail[|b.tail|..];
    var at := c.ReplyEnd() + |c.tail| - |EXITED_BYTES|;
    assert c.Stream()[at..at + |EXITED_BYTES|] == c.tail[|c.tail| - |EXITED_BYTES|..];
    assert OccursAt(c.Stream(), EXITED_BYTES, at);
  }

  /** A marker line is printable, and begins with an at-sign. */
  lemma LineShowsNoExit(b: Board, c: Board, m: Marker)
    requires b.Valid() && IsMarker(b.prefix, m) && c.Stream() == b.Stream() + Line(b.prefix, m)
    requires !c.remote.Parent? && !c.remote.Booting?
    ensures ExitShows(b, c)
  {
    var line := Line(b.prefix, m);
    LinePlain(b.prefix, m);
    LineLacks(b.prefix, m, EXITED_BYTES[0]);
    LineLacks(b.prefix, m, EXITED_BYTES[1]);
    forall i: nat | |b.Stream()| < i + |EXITED_BYTES| ensures !OccursAt(c.Stream(), EXITED_BYTES, i) {
    }
  }

  lemma LaterReflexive(b: Board)
    ensures Later(b, b)
  {
  }

  lemma StreamGrows(b: Board, c: Board)
    requires Later(b, c)
    ensures b.Stream() <= c.Stream() && Extends(b.Stream(), c.Stream())
  {
  }

  lemma LaterTransitive(a: Board, b: Board, c: Board)
    requires Later(a, b) && Later(b, c)
    ensures Later(a, c)
  {
    hide ExitShows;
    ExitShowsOn(a, b, c);
  }

  lemma ExitShowsOn(a: Board, b: Board, c: Board)
    requires Later(a, b) && Later(b, c)
    ensures ExitShows(a, c)
  {
    hide Report;
    forall i: nat | OccursAt(c.Stream(), EXITED_BYTES, i) && |a.Stream()| < i + |EXITED_BYTES|
      ensures c.remote.Parent? || InDump(c, i)
    {
      if i + |EXITED_BYTES| <= |b.Stream()| {
        OccursInExtension(b.Stream(), c.Stream(), EXITED_BYTES, i);
      }
    }
    if b.remote.Parent? && !a.remote.Parent? {
      var i: nat :| |a.Stream()| <= i && OccursAt(b.Stream(), EXITED_BYTES, i);
      OccursInExtension(b.Stream(), c.Stream(), EXITED_BYTES, i);
    }
    if c.remote.Booting? {
      forall i: nat, j: nat | Report(c.Stream(), c.shellPrefix, i, j, EXITED) ensures j < |a.Stream()| {
        ReportEarlier(b.Stream(), c.Stream(), c.shellPrefix, i, j, EXITED);
      }
    }
  }

  lemma ReportEarlier(s: seq<Byte>, t: seq<Byte>, p: seq<Byte>, start: nat, end: nat, word: seq<Byte>)
    requires s <= t && end < |s|
    ensures Report(t, p, start, end, word) ==> Report(s, p, start, end, word)
  {
    if Report(t, p, start, end, word) {
      assert t[start..end] == s[start..end];
      assert start + |p| <= end;
      OccursInExtension(s, t, p, start);
    }
  }

  // ---- what the client does to it ----------------------------------------------------

  function Delivered(b: Board, data: seq<Byte>): Board { b.(delivered := b.delivered + data) }

  /** No transfer command has been typed. */
  ghost predicate Untouched(b: Board) {
    && b.Valid() && (b.remote.Parent? || b.remote.Booting?)
    && b.before == [] && b.reply == SILENT && b.Unchanged()
  }

  /** The user's shell has read the line that starts the child shell. */
  function Booted(b: Board): Board { b.(remote := Booting) }

  /** The child shell, if it got that far, reads commands from here on. */
  function Ready(b: Board): Board { if b.remote.Booting? then b.(remote := Prompt) else b }

  /** The child shell has read a whole command line at its prompt. */
  function Submitted(b: Board, command: Command): Board {
    b.(remote := Answering, command := command, before := b.before + b.Printed(), reply := SILENT,
       delivered := [], fileBefore := b.file, namesBefore := b.names)
  }

  lemma StaysUntouched(b: Board, c: Board)
    requires Untouched(b) && Later(b, c) && c.Valid()
    ensures Untouched(c) && c.file == b.file && c.names == b.names && b.Stream() <= c.Stream()
  {
    hide ExitShows;
  }

  lemma BootedKeeps(b: Board)
    requires Untouched(b)
    ensures Untouched(Booted(b)) && Booted(b).Stream() == b.Stream()
  {
  }

  lemma ReadyKeeps(b: Board)
    requires Untouched(b)
    ensures Ready(b).Valid() && AtRest(Ready(b), 0) && Ready(b).Stream() == b.Stream()
  {
  }

  lemma DeliveredKeeps(b: Board, data: seq<Byte>)
    requires b.Valid()
    ensures Delivered(b, data).Valid() && Later(b, Delivered(b, data))
  {
    assert forall n :: 0 <= n <= |b.delivered| ==> (b.delivered + data)[..n] == b.delivered[..n];
    SameStreamShows(b, Delivered(b, data));
  }

  lemma SameStreamShows(b: Board, c: Board)
    requires c.Stream() == b.Stream() && c.remote == b.remote
    ensures ExitShows(b, c)
  {
  }

  lemma SubmittedKeeps(b: Board, command: Command)
    requires b.Valid() && b.remote.Prompt?
    requires command.Describe? ==> command.phase == META || command.phase == FINAL
    ensures Submitted(b, command).Valid() && Submitted(b, command).Stream() == b.Stream()
  {
    hide Text, Line, IsMarker, Markers.Clean, IsPrefix;
    EndsALine(b);
    assert (b.before + b.Printed()) + [] + b.tail == b.Stream();
    NothingPrinted(b.prefix);
  }

  lemma NothingPrinted(prefix: seq<Byte>)
    ensures Text(prefix, None) == []
  {
  }

  /** A complete reply ends a line. */
  lemma EndsALine(b: Board)
    requires b.Valid() && b.remote.Prompt?
    ensures var s := b.before + b.Printed(); s == [] || s[|s| - 1] == NEWLINE
  {
    hide IsMarker, Markers.Clean, IsPrefix;
  }

  // ---- what a reader can find --------------------------------------------------------

  /** The reader has not passed the current reply's first marker. */
  ghost predicate AwaitsFirst(b: Board, pos: nat) {
    && |b.before| <= pos
    && (b.reply.first.Some? ==> pos <= |b.before| + |b.reply.first.value.noise|)
  }

  /** The reader has passed the announcement, and as many bytes as it announced. */
  ghost predicate AwaitsSecond(b: Board, pos: nat) {
    && b.reply.first.Some? && b.Announces(b.reply.first.value)
    && b.FirstEnd() + (if b.command.ReceiveChunk? then b.command.size else 0) <= pos
    && (b.command.ReceiveChunk? ==> |b.Block()| <= b.command.size)
  }

  /** The reader is where the raw bytes of the announced block begin. */
  ghost predicate AwaitsPayload(b: Board, pos: nat, taken: nat) {
    && b.command.ReceiveChunk? && b.reply.first.Some? && b.Announces(b.reply.first.value)
    && |b.Block()| <= b.command.size && taken <= b.command.size && pos == b.FirstEnd() + taken
  }

  /** The reader has seen everything that was reported, and the child shell is at its prompt or gone. */
  ghost predicate AtRest(b: Board, pos: nat) { (b.remote.Prompt? || b.remote.Parent?) && b.ReplyEnd() <= pos }

  /** There is no child shell left to answer. */
  ghost predicate Deaf(b: Board, pos: nat) { b.remote.Parent? && b.ReplyEnd() <= pos }

  lemma FindsFirst(b: Board, from: nat)
    requires b.Valid() && b.reply.first.Some? && AwaitsFirst(b, from)
    ensures Found(b.Stream(), b.prefix, from, |b.before| + |b.reply.first.value.noise|, b.FirstEnd() - 1)
    ensures FieldsAt(b.Stream(), b.prefix, |b.before| + |b.reply.first.value.noise|, b.FirstEnd() - 1)
      == b.reply.first.value.fields
  {
    hide Board.Valid, Found, FieldsAt, Line, Join;
    var m := b.reply.first.value;
    var rest := b.reply.payload + Text(b.prefix, b.reply.second) + b.tail;
    assert b.Stream() == b.before + m.noise + Line(b.prefix, m) + rest;
    MarkersAreSound(b);
    ScanMarker(b.Stream(), b.prefix, |b.before|, m, from);
  }

  lemma MarkersAreSound(b: Board)
    requires b.Valid()
    ensures IsPrefix(b.prefix) && Clean(b.prefix, b.tail)
    ensures b.reply.first.Some? ==> IsMarker(b.prefix, b.reply.first.value)
    ensures b.reply.second.Some? ==> IsMarker(b.prefix, b.reply.second.value)
  {
  }

  lemma FindsNothingYet(b: Board, from: nat)
    requires b.Valid() && b.reply.first.None? && AwaitsFirst(b, from)
    ensures forall i: nat :: from <= i ==> !OccursAt(b.Stream(), b.prefix, i)
  {
    assert b.Stream() == b.before + b.tail;
    NothingMore(b.Stream(), b.prefix, |b.before|, b.tail, |b.before|);
  }

  lemma FindsSecond(b: Board, from: nat)
    requires b.Valid() && b.reply.second.Some?
    requires b.PayloadEnd() <= from <= b.PayloadEnd() + |b.reply.second.value.noise|
    ensures Found(b.Stream(), b.prefix, from, b.PayloadEnd() + |b.reply.second.value.noise|, b.ReplyEnd() - 1)
    ensures FieldsAt(b.Stream(), b.prefix, b.PayloadEnd() + |b.reply.second.value.noise|, b.ReplyEnd() - 1)
      == b.reply.second.value.fields
  {
    hide Board.Valid, Found, FieldsAt, Line, Join;
    var m := b.reply.second.value;
    var ahead := b.before + Text(b.prefix, b.reply.first) + b.reply.payload;
    assert b.Stream() == ahead + m.noise + Line(b.prefix, m) + b.tail;
    MarkersAreSound(b);
    ScanMarker(b.Stream(), b.prefix, |ahead|, m, from);
  }

  /** A reader that is past the start of the last marker finds nothing more. */
  lemma FindsNothingMore(b: Board, from: nat)
    requires b.Valid() && AwaitsSecond(b, from)
    requires b.reply.second.Some? ==> b.PayloadEnd() + |b.reply.second.value.noise| < from
    ensures forall i: nat :: from <= i ==> !OccursAt(b.Stream(), b.prefix, i)
  {
    hide Board.Valid, Line, Markers.Clean, IsMarker;
    MarkersAreSound(b);
    var ahead := b.before + Text(b.prefix, b.reply.first) + b.reply.payload;
    if b.reply.second.Some? {
      var m := b.reply.second.value;
      assert b.Stream() == (ahead + m.noise) + Line(b.prefix, m) + b.tail;
      NothingBehindLine(b.prefix, ahead + m.noise, m, b.tail, from);
    } else {
      assert b.Stream() == ahead + b.tail;
      PayloadFits(b);
      NothingMore(b.Stream(), b.prefix, |ahead|, b.tail, |ahead|);
    }
  }

  /** A board never prints more than it has announced. */
  lemma PayloadFits(b: Board)
    requires b.Valid() && b.reply.first.Some?
    ensures |b.reply.payload| <= if b.command.ReceiveChunk? then |b.Block()| else 0
  {
  }

  lemma NothingBehindLine(p: seq<Byte>, ahead: seq<Byte>, m: Marker, tail: seq<Byte>, from: nat)
    requires IsPrefix(p) && IsMarker(p, m) && Clean(p, tail) && |ahead| < from
    ensures forall i: nat :: from <= i ==> !OccursAt(ahead + Line(p, m) + tail, p, i)
  {
    hide Line, Markers.Clean, OccursAt;
    var line := Line(p, m);
    var s := ahead + line + tail;
    LinePlain(p, m);
    assert forall i :: |ahead| < i < |ahead| + |line| ==> s[i] == line[i - |ahead|];
    NothingMore(s, p, |ahead| + |line|, tail, |ahead| + 1);
  }

  /** Waiting does not lose the reader's place. */
  lemma LaterAwaits(b: Board, c: Board, pos: nat)
    requires Later(b, c) && pos <= |b.Stream()|
    ensures AwaitsFirst(b, pos) ==> AwaitsFirst(c, pos)
    ensures AwaitsSecond(b, pos) ==> AwaitsSecond(c, pos)
    ensures AtRest(b, pos) ==> AtRest(c, pos)
    ensures Deaf(b, pos) ==> Deaf(c, pos)
  {
    hide ExitShows;
  }

  /** Nothing that was asked of a shell that is gone is ever answered. */
  lemma NoAnswerFrom(b: Board, pos: nat, start: nat, end: nat)
    requires b.Valid() && Found(b.Stream(), b.prefix, pos, start, end)
    ensures !Deaf(b, pos)
  {
    if b.ReplyEnd() <= pos {
      assert b.Stream() == (b.before + b.Printed()) + b.tail;
      NothingMore(b.Stream(), b.prefix, b.ReplyEnd(), b.tail, b.ReplyEnd());
    }
  }

  lemma NextIsFirst(b: Board, pos: nat, start: nat, end: nat)
    requires b.Valid() && AwaitsFirst(b, pos) && Found(b.Stream(), b.prefix, pos, start, end)
    ensures b.reply.first.Some? && end + 1 == b.FirstEnd()
    ensures FieldsAt(b.Stream(), b.prefix, start, end) == b.reply.first.value.fields
  {
    hide Board.Valid, FieldsAt;
    if b.reply.first.None? {
      FindsNothingYet(b, pos);
    } else {
      FindsFirst(b, pos);
      FoundStable(b.Stream(), b.Stream(), b.prefix, pos, start, end);
    }
  }

  lemma NextIsSecond(b: Board, pos: nat, start: nat, end: nat)
    requires b.Valid() && AwaitsSecond(b, pos) && Found(b.Stream(), b.prefix, pos, start, end)
    ensures b.reply.second.Some? && end + 1 == b.ReplyEnd() && (b.remote.Prompt? || b.remote.Parent?)
    ensures FieldsAt(b.Stream(), b.prefix, start, end) == b.reply.second.value.fields
  {
    hide FieldsAt;
    if b.reply.second.None? || b.PayloadEnd() + |b.reply.second.value.noise| < pos {
      FindsNothingMore(b, pos);
    } else {
      FindsSecond(b, pos);
      FoundStable(b.Stream(), b.Stream(), b.prefix, pos, start, end);
    }
  }

  lemma PassingKeeps(b: Board, pos: nat, to: nat)
    requires b.Valid() && Passed(b.Stream(), b.prefix, pos, to)
    ensures AwaitsFirst(b, pos) ==> AwaitsFirst(b, to)
    ensures AwaitsSecond(b, pos) ==> AwaitsSecond(b, to)
    ensures Deaf(b, pos) ==> Deaf(b, to)
  {
    hide Board.Valid;
    if AwaitsFirst(b, pos) && b.reply.first.Some? {
      FindsFirst(b, pos);
    }
  }

  /** A command typed at the prompt is answered from here on. */
  lemma SubmittedAwaits(b: Board, command: Command, pos: nat)
    requires AtRest(b, pos) && pos <= |b.Stream()|
    ensures AwaitsFirst(Submitted(b, command), pos)
    ensures Submitted(b, command).Stream() == b.Stream()
  {
  }

  lemma PlainCommandsOpenNothing(b: Board)
    requires b.Valid() && (Quiet(b) || b.command.Pick? || b.command.Create? || b.command.Describe?)
    ensures !BlockOpen(b)
  {
  }

  /** A board does not open a block on its own. */
  lemma StaysClosed(b: Board, c: Board)
    requires Later(b, c) && b.Valid() && c.Valid()
    ensures !BlockOpen(b) ==> !BlockOpen(c)
  {
    hide ExitShows;
  }
}
