/** What the client takes for the end of the child shell, and what that says about the board. */
module ShellExit {
  import opened Bytes
  import opened Decimals
  import opened Markers
  import opened Options
  import opened RemoteBoard
  import opened Search

  /** Behind `from` the exit bytes have been printed, or a marker line of the child shell that says so.
      What earlier transfers printed lies before. */
  ghost predicate ExitSeen(b: Board, from: nat) {
    || Search.Printed(b.Stream(), EXITED_BYTES, from)
    || (exists i: nat, j: nat :: from <= i && Report(b.Stream(), b.shellPrefix, i, j, EXITED))
  }

  /** Since `b` the board has printed more of a block it was asked for, and the exit bytes begin there. */
  ghost predicate DumpedExit(b: Board, c: Board) {
    && Undumped(b)
    && exists i: nat :: |b.Stream()| <= i < c.PayloadEnd() && OccursAt(c.Stream(), EXITED_BYTES, i)
  }

  lemma ExitStaysSeen(b: Board, c: Board, early: nat, from: nat)
    requires b.Stream() <= c.Stream() && c.shellPrefix == b.shellPrefix && early <= from && ExitSeen(b, from)
    ensures ExitSeen(c, early)
  {
    if Search.Printed(b.Stream(), EXITED_BYTES, from) {
      PrintedStays(b.Stream(), c.Stream(), EXITED_BYTES, from);
    } else {
      var i: nat, j: nat :| from <= i && Report(b.Stream(), b.shellPrefix, i, j, EXITED);
      ReportStays(b.Stream(), c.Stream(), b.shellPrefix, i, j, EXITED);
    }
  }

  lemma PrintedStays(s: seq<Byte>, t: seq<Byte>, p: seq<Byte>, from: nat)
    requires s <= t && Search.Printed(s, p, from)
    ensures Search.Printed(t, p, from)
  {
    var i: nat :| from <= i && OccursAt(s, p, i);
    OccursInExtension(s, t, p, i);
  }

  lemma ReportStays(s: seq<Byte>, t: seq<Byte>, p: seq<Byte>, start: nat, end: nat, word: seq<Byte>)
    requires s <= t && Report(s, p, start, end, word)
    ensures Report(t, p, start, end, word)
  {
    OccursInExtension(s, t, p, start);
    assert t[start..end] == s[start..end];
  }

  /** What was printed before does not count: at the tail nothing has been seen yet. */
  lemma NothingSeenAtTheTail(b: Board)
    requires |b.shellPrefix| > 0
    ensures !ExitSeen(b, |b.Stream()|)
  {
  }

  /** Once the user's shell has read the bootstrap, an exit shows if and only if it has happened, or
      what was printed before already looked like one. */
  lemma BootingExitIff(b: Board, c: Board, from: nat)
    requires b.Valid() && b.remote.Booting? && Later(b, c) && from <= |b.Stream()|
    ensures ExitSeen(c, from) <==> c.remote.Parent? || ExitSeen(b, from)
  {
    hide Report;
    if ExitSeen(b, from) {
      ExitStaysSeen(b, c, from, from);
    } else if ExitSeen(c, from) && !c.remote.Parent? {
      if i: nat :| from <= i && OccursAt(c.Stream(), EXITED_BYTES, i) {
        if i + |EXITED_BYTES| <= |b.Stream()| {
          OccursInExtension(b.Stream(), c.Stream(), EXITED_BYTES, i);
        }
      } else {
        var i: nat, j: nat :| from <= i && Report(c.Stream(), c.shellPrefix, i, j, EXITED);
        ReportEarlier(b.Stream(), c.Stream(), c.shellPrefix, i, j, EXITED);
      }
    }
  }

  /** Once there is a child shell, the exit bytes are printed if and only if it has gone since, or they
      begin in what a received block has printed since. */
  lemma ExitPrintedIff(b: Board, c: Board)
    requires b.Valid() && c.Valid() && !b.remote.Parent? && Later(b, c)
    ensures Search.Printed(c.Stream(), EXITED_BYTES, |b.Stream()|) <==> c.remote.Parent? || DumpedExit(b, c)
  {
    hide Board.Valid, Report;
    if !c.remote.Parent? {
      forall i: nat | |b.Stream()| <= i && OccursAt(c.Stream(), EXITED_BYTES, i)
        ensures Undumped(b) && i < c.PayloadEnd()
      {
        assert InDump(c, i);
        NewInDump(b, c, i);
      }
    }
  }

  lemma NewInDump(b: Board, c: Board, i: nat)
    requires b.Valid() && Later(b, c) && InDump(c, i) && |b.Stream()| <= i
    ensures Undumped(b)
  {
    hide ExitShows, Line, IsMarker, Markers.Clean;
  }

  // ---- both ways of being wrong ------------------------------------------------------

  /** Before the bootstrap has been read, a program of the user may print anything. */
  lemma ParentMayLookGone(b: Board)
    requires Untouched(b) && b.remote.Parent?
    ensures exists c: Board :: Step(b, c) && Untouched(c) && c.remote.Parent? && ExitSeen(c, |b.Stream()|)
  {
    var c := b.(tail := b.tail + EXITED_BYTES);
    CleanBehind(b.prefix, b.tail);
    StepKeeps(b, c);
    assert c.Stream() == b.Stream() + EXITED_BYTES;
    assert OccursAt(c.Stream(), EXITED_BYTES, |b.Stream()|);
  }

  lemma CleanBehind(p: seq<Byte>, noise: seq<Byte>)
    requires IsPrefix(p) && Clean(p, noise)
    ensures Clean(p, noise + EXITED_BYTES)
  {
    var s := noise + EXITED_BYTES + p;
    forall i: nat | i < |noise + EXITED_BYTES| ensures !OccursAt(s, p, i) {
      if i + |p| <= |noise| {
        assert (noise + p)[i..i + |p|] == s[i..i + |p|];
        assert !OccursAt(noise + p, p, i);
      } else {
        var k := if i < |noise| then |noise| - i else 0;
        assert s[i + k] in EXITED_BYTES && p[k] in p;
      }
    }
  }

  /** From a prompt, asking for a block that contains the exit bytes can lead to a board whose child
      shell is still there although, behind a tail taken at the announcement, its exit seems printed. */
  lemma ReceivedBlockLooksLikeExit(b: Board, index: nat, k: nat)
    requires b.Valid() && b.remote.Prompt? && OccursAt(BlockOf(b.file, index), EXITED_BYTES, k)
    ensures exists open: Board, c: Board ::
      && Step(Submitted(b, ReceiveChunk(index, |BlockOf(b.file, index)|)), open) && BlockOpen(open) && open.Valid()
      && Step(open, c) && c.Valid() && !c.remote.Parent? && DumpedExit(open, c)
      && Search.Printed(c.Stream(), EXITED_BYTES, |open.Stream()|)
  {
    hide OccursAt, BlockOf, IsMarker, Line, Markers.Clean, IsField;
    var block := BlockOf(b.file, index);
    var asked := Submitted(b, ReceiveChunk(index, |block|));
    SubmittedKeeps(b, ReceiveChunk(index, |block|));
    var open := Announcing(asked, DATA);
    AnnouncingSteps(asked);
    StepKeeps(asked, open);
    var c := open.(remote := Dumped, reply := open.reply.(payload := block));
    assert Dumps(open, c);
    StepKeeps(open, c);
    BlockInStream(open, c, block, k);
    ExitPrintedIff(open, c);
  }

  lemma BlockInStream(open: Board, c: Board, block: seq<Byte>, k: nat)
    requires open.tail == [] && open.reply.payload == [] && open.reply.first.Some? && open.reply.second.None?
    requires c == open.(remote := Dumped, reply := open.reply.(payload := block)) && OccursAt(block, EXITED_BYTES, k)
    ensures Search.Printed(c.Stream(), EXITED_BYTES, |open.Stream()|)
  {
    hide Line, FieldsAt;
    var n := |open.Stream()|;
    assert c.Stream() == open.Stream() + block;
    assert c.Stream()[n + k..n + k + 2] == block[k..k + 2];
    assert OccursAt(c.Stream(), EXITED_BYTES, n + k);
  }

  /** The board announces the block it has been asked for. */
  function Announcing(b: Board, phase: seq<Byte>): Board
    requires b.command.SendChunk? || b.command.ReceiveChunk?
  {
    b.(remote := if b.command.SendChunk? then Raw else Dumping, tail := [],
       reply := SILENT.(first := Some(Marker(b.tail, [phase, Decimal(b.command.size)], false))))
  }

  lemma AnnouncingSteps(b: Board)
    requires b.Valid() && b.remote.Answering? && (b.command.SendChunk? || b.command.ReceiveChunk?)
    ensures Step(b, Announcing(b, if b.command.SendChunk? then READY else DATA))
  {
    var phase := if b.command.SendChunk? then READY else DATA;
    PlainField(b.command.size);
    assert Replies(b, Announcing(b, phase));
  }

  lemma PlainField(n: nat)
    ensures IsField(Decimal(n))
  {
    forall b | b in Decimal(n) ensures IsPlain(b) && b != AT && b != COLON {
      var i :| 0 <= i < |Decimal(n)| && Decimal(n)[i] == b;
      assert IsDigit(Decimal(n)[i]);
    }
  }

  // ---- lines typed into an open block ------------------------------------------------

  /** What is typed into an open raw block can become part of the remote file: the block may end with
      the line's bytes acknowledged. */
  lemma OpenBlockTakesTheLine(b: Board, line: seq<Byte>)
    requires b.Valid() && b.remote.Raw? && b.command.size <= |b.delivered| + |line|
    ensures exists c: Board ::
      Step(Delivered(b, line), c) && c.remote.Prompt? && c.file == b.file + (b.delivered + line)[..b.command.size]
  {
    hide Clean;
    var d := Delivered(b, line);
    var n := b.command.size;
    var m := Marker(d.tail, [ACK, Decimal(n)], false);
    PlainField(n);
    var c := d.(remote := Prompt, reply := d.reply.(second := Some(m)), tail := [],
                file := d.fileBefore + d.delivered[..n]);
    DeliveredKeeps(b, line);
    assert Finishes(d, c);
  }

  /** From a prompt, a block of a line's length can be opened and take the line. */
  lemma TypedLineBecomesFile(b: Board, line: seq<Byte>)
    requires b.Valid() && b.remote.Prompt?
    ensures exists open: Board, c: Board ::
      && Step(Submitted(b, SendChunk(|line|)), open) && BlockOpen(open) && open.Valid()
      && Step(Delivered(open, line), c) && c.remote.Prompt? && c.file == b.file + line
  {
    hide Replies, Finishes, Board.Valid, IsMarker, Line;
    var asked := Submitted(b, SendChunk(|line|));
    SubmittedKeeps(b, SendChunk(|line|));
    var open := Announcing(asked, READY);
    AnnouncingSteps(asked);
    StepKeeps(asked, open);
    OpenBlockTakesTheLine(open, line);
    assert ([] + line)[..|line|] == line;
  }
}
