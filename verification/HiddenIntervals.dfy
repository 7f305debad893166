/** What the gate hides after a whole log, stated on the log itself: the positions inside a
    file-transfer or debug lease, inside a command bootstrap, or named by a finished command. */
module HiddenIntervals {
  import opened HiddenRanges
  import opened Options
  import opened PresentationGate

  /** One interval history: a position opens it, a later position closes it. */
  datatype Mark = OpenAt(at: nat) | CloseAt(at: nat) | NoMark

  function MarkAt(c: Cursor, opens: bool): Mark {
    if c.None? then NoMark else if opens then OpenAt(c.value) else CloseAt(c.value)
  }

  function LeaseMark(e: Event): Mark {
    if e.LeaseAcquired? then MarkAt(e.cursor, true)
    else if e.LeaseReleased? then MarkAt(e.cursor, false)
    else NoMark
  }

  /** The command whose bootstrap an output-started event can end. */
  function CommandId(log: seq<Event>): string
  {
    if log == [] then "" else IdAfter(CommandId(log[..|log| - 1]), log[|log| - 1])
  }

  function IdAfter(id: string, e: Event): string {
    if e.CommandStarted? then e.id else if e.TerminalReleased? then "" else id
  }

  function CommandMark(before: seq<Event>, e: Event): Mark {
    if e.CommandStarted? then MarkAt(e.cursor, true)
    else if ClosesCommand(CommandId(before), e) then MarkAt(e.cursor, false)
    else NoMark
  }

  function LeaseMarks(log: seq<Event>): (marks: seq<Mark>)
    ensures |marks| == |log|
  {
    seq(|log|, i requires 0 <= i < |log| => LeaseMark(log[i]))
  }

  function CommandMarks(log: seq<Event>): (marks: seq<Mark>)
    ensures |marks| == |log|
  {
    seq(|log|, i requires 0 <= i < |log| => CommandMark(log[..i], log[i]))
  }

  /** `x` lies behind some opening position and before every later closing position. */
  ghost predicate Inside(marks: seq<Mark>, x: nat) {
    exists i :: 0 <= i < |marks| && InsideFrom(marks, i, x)
  }

  ghost predicate InsideFrom(marks: seq<Mark>, i: nat, x: nat)
    requires i < |marks|
  {
    marks[i].OpenAt? && marks[i].at <= x && forall j :: i < j < |marks| && marks[j].CloseAt? ==> x < marks[j].at
  }

  ghost predicate NamedByCommand(log: seq<Event>, x: nat) {
    exists i :: 0 <= i < |log| && log[i].CommandEnded? && Between(log[i].hiddenStart, log[i].hiddenEnd, x)
  }

  /** Positions never go back, and nothing is opened twice without being closed. */
  ghost predicate Bracketed(marks: seq<Mark>) {
    && (forall i, j :: 0 <= i < j < |marks| && !marks[i].NoMark? && !marks[j].NoMark? ==> marks[i].at <= marks[j].at)
    && (forall i, j :: 0 <= i < j < |marks| && marks[i].OpenAt? && marks[j].OpenAt? ==>
          exists k :: i < k < j && marks[k].CloseAt?)
  }

  /** The open interval after all marks. */
  function OpenEnd(marks: seq<Mark>): Cursor
  {
    if marks == [] then None
    else match marks[|marks| - 1]
      case OpenAt(at) => Some(at)
      case CloseAt(_) => None
      case NoMark => OpenEnd(marks[..|marks| - 1])
  }

  /** The positions of all intervals closed so far. */
  predicate ClosedHas(marks: seq<Mark>, x: nat)
  {
    marks != [] &&
    (|| ClosedHas(marks[..|marks| - 1], x)
     || (marks[|marks| - 1].CloseAt? && Between(OpenEnd(marks[..|marks| - 1]), Some(marks[|marks| - 1].at), x)))
  }

  predicate OpenSince(marks: seq<Mark>, i: nat)
    requires i < |marks|
  {
    marks[i].OpenAt? && OpenEnd(marks) == Some(marks[i].at) && forall j :: i < j < |marks| ==> marks[j].NoMark?
  }

  /** An open interval was opened by a mark that nothing has closed since. */
  lemma {:induction false} OpenEndIsLast(marks: seq<Mark>)
    ensures OpenEnd(marks).Some? ==> exists i :: 0 <= i < |marks| && OpenSince(marks, i)
    ensures OpenEnd(marks).None? ==> forall i :: 0 <= i < |marks| && marks[i].OpenAt? ==>
      exists j :: i < j < |marks| && marks[j].CloseAt?
  {
    if marks != [] {
      var before, last := marks[..|marks| - 1], marks[|marks| - 1];
      OpenEndIsLast(before);
      match last
      case NoMark =>
        if OpenEnd(before).Some? {
          var i :| 0 <= i < |before| && OpenSince(before, i);
          assert OpenSince(marks, i);
        } else {
          forall i | 0 <= i < |marks| && marks[i].OpenAt? ensures exists j :: i < j < |marks| && marks[j].CloseAt? {
            assert before[i] == marks[i];
            var j :| i < j < |before| && before[j].CloseAt?;
            assert marks[j].CloseAt?;
          }
        }
      case OpenAt(at) => assert OpenSince(marks, |marks| - 1);
      case CloseAt(_) => assert marks[|marks| - 1].CloseAt?;
    }
  }

  /** Intervals read off the log are the open one and the closed ones. */
  lemma {:induction false} InsideIsOpenOrClosed(marks: seq<Mark>, x: nat)
    requires Bracketed(marks)
    ensures Inside(marks, x) <==> (OpenEnd(marks).Some? && OpenEnd(marks).value <= x) || ClosedHas(marks, x)
  {
    if marks != [] {
      var before, last := marks[..|marks| - 1], marks[|marks| - 1];
      assert Bracketed(before) by {
        forall i, j | 0 <= i < j < |before| && before[i].OpenAt? && before[j].OpenAt?
          ensures exists k :: i < k < j && before[k].CloseAt?
        {
          var k :| i < k < j && marks[k].CloseAt?;
          assert before[k].CloseAt?;
        }
      }
      InsideIsOpenOrClosed(before, x);
      OneMoreMark(marks, x);
      LastMark(marks, x);
    }
  }

  lemma OneMoreMark(marks: seq<Mark>, x: nat)
    requires marks != []
    ensures var last := marks[|marks| - 1];
      Inside(marks, x) <==>
        (Inside(marks[..|marks| - 1], x) && (last.CloseAt? ==> x < last.at)) || (last.OpenAt? && last.at <= x)
  {
    var n := |marks| - 1;
    var before, last := marks[..n], marks[n];
    if Inside(before, x) && (last.CloseAt? ==> x < last.at) {
      var i :| 0 <= i < n && InsideFrom(before, i, x);
      assert forall j :: i < j < |marks| ==> marks[j] == if j < n then before[j] else last;
      assert InsideFrom(marks, i, x);
    }
    if last.OpenAt? && last.at <= x {
      assert InsideFrom(marks, n, x);
    }
    if Inside(marks, x) {
      var i :| 0 <= i < |marks| && InsideFrom(marks, i, x);
      if i < n {
        assert forall j :: i < j < n ==> before[j] == marks[j];
        assert InsideFrom(before, i, x);
      }
    }
  }

  /** What one more mark does to the positions inside. */
  lemma LastMark(marks: seq<Mark>, x: nat)
    requires marks != [] && Bracketed(marks)
    requires var before, last := marks[..|marks| - 1], marks[|marks| - 1];
      && (Inside(before, x) <==> (OpenEnd(before).Some? && OpenEnd(before).value <= x) || ClosedHas(before, x))
      && (Inside(marks, x) <==>
           (Inside(before, x) && (last.CloseAt? ==> x < last.at)) || (last.OpenAt? && last.at <= x))
    ensures Inside(marks, x) <==> (OpenEnd(marks).Some? && OpenEnd(marks).value <= x) || ClosedHas(marks, x)
  {
    hide Inside;
    var n := |marks| - 1;
    var before, last := marks[..n], marks[n];
    OpenEndIsLast(before);
    ClosedBefore(before, x);
    match last
    case NoMark =>
    case OpenAt(at) =>
      forall i | 0 <= i < n ensures !OpenSince(before, i) {
        if marks[i].OpenAt? {
          var k :| i < k < n && marks[k].CloseAt?;
          assert before[k].CloseAt?;
        }
      }
      assert OpenEnd(before).None?;
    case CloseAt(at) =>
      if ClosedHas(before, x) {
        var k :| 0 <= k < |before| && before[k].CloseAt? && x < before[k].at;
        assert marks[k].at <= at;
      }
  }

  /** A closed interval ends at some closing mark. */
  lemma {:induction false} ClosedBefore(marks: seq<Mark>, x: nat)
    ensures ClosedHas(marks, x) ==> exists k :: 0 <= k < |marks| && marks[k].CloseAt? && x < marks[k].at
  {
    if ClosedHas(marks, x) {
      var before, last := marks[..|marks| - 1], marks[|marks| - 1];
      if ClosedHas(before, x) {
        ClosedBefore(before, x);
        var k :| 0 <= k < |before| && before[k].CloseAt? && x < before[k].at;
        assert marks[k].CloseAt?;
      } else {
        assert marks[|marks| - 1].CloseAt?;
      }
    }
  }

  lemma EmptyLog()
    ensures FieldsAre(CLOSED_GATE, [])
  {
  }

  /** The gate's fields in terms of the two histories. */
  ghost predicate FieldsAre(g: Gate, log: seq<Event>) {
    && Canonical(g.ranges)
    && g.open == OpenEnd(LeaseMarks(log))
    && g.commandOpen == OpenEnd(CommandMarks(log))
    && g.commandId == CommandId(log)
    && forall x: nat :: In(g.ranges, x) <==>
         ClosedHas(LeaseMarks(log), x) || ClosedHas(CommandMarks(log), x) || NamedByCommand(log, x)
  }

  lemma {:induction false} FieldsAfter(log: seq<Event>)
    requires Ordered(log)
    ensures FieldsAre(Run(CLOSED_GATE, log), log)
  {
    hide FieldsAre;
    if log == [] {
      EmptyLog();
    } else {
      var n := |log| - 1;
      var before, e := log[..n], log[n];
      assert log == before + [e];
      FieldsAfter(before);
      RunConcat(CLOSED_GATE, before, [e]);
      assert Run(Run(CLOSED_GATE, before), [e]) == Handle(Run(CLOSED_GATE, before), e);
      FieldsStep(Run(CLOSED_GATE, before), log);
    }
  }

  lemma FieldsStep(g: Gate, log: seq<Event>)
    requires log != [] && FieldsAre(g, log[..|log| - 1])
    requires Positional(log[|log| - 1]) ==> log[|log| - 1].cursor.Some?
    ensures FieldsAre(Handle(g, log[|log| - 1]), log)
  {
    hide In, Canonical, Handle, OpenEnd, ClosedHas, Between, Adds, NamedByCommand;
    var n := |log| - 1;
    var before, e := log[..n], log[n];
    HandleHides(g, e);
    MarksPrefix(log);
    NamedStep(log);
    ClosedStep(LeaseMarks(log));
    ClosedStep(CommandMarks(log));
    MarksStep(g, e, LeaseMarks(log), CommandMarks(log), n, before);
    IdStep(g, log);
  }

  lemma IdStep(g: Gate, log: seq<Event>)
    requires log != [] && g.commandId == CommandId(log[..|log| - 1])
    ensures Handle(g, log[|log| - 1]).commandId == CommandId(log)
  {
    hide Handle, IdAfter;
    HandleId(g, log[|log| - 1]);
  }

  lemma HandleId(g: Gate, e: Event)
    ensures Handle(g, e).commandId == IdAfter(g.commandId, e)
  {
    hide CloseInterval, ClosesCommand;
  }

  lemma ClosedStep(marks: seq<Mark>)
    requires marks != []
    ensures var before, last := marks[..|marks| - 1], marks[|marks| - 1];
      forall x :: ClosedHas(marks, x) <==>
        ClosedHas(before, x) || (last.CloseAt? && Between(OpenEnd(before), Some(last.at), x))
  {
  }

  lemma MarksPrefix(log: seq<Event>)
    requires log != []
    ensures LeaseMarks(log)[..|log| - 1] == LeaseMarks(log[..|log| - 1])
    ensures CommandMarks(log)[..|log| - 1] == CommandMarks(log[..|log| - 1])
  {
    var before := log[..|log| - 1];
    assert forall i :: 0 <= i < |before| ==> before[..i] == log[..i];
  }

  lemma NamedStep(log: seq<Event>)
    requires log != []
    ensures var e := log[|log| - 1]; forall x: nat ::
      NamedByCommand(log, x) <==>
        NamedByCommand(log[..|log| - 1], x) || (e.CommandEnded? && Between(e.hiddenStart, e.hiddenEnd, x))
  {
    var n := |log| - 1;
    var before, e := log[..n], log[n];
    assert forall i :: 0 <= i < n ==> before[i] == log[i];
  }

  lemma MarksStep(g: Gate, e: Event, lease: seq<Mark>, command: seq<Mark>, n: nat, before: seq<Event>)
    requires |lease| == |command| == n + 1
    requires lease[n] == LeaseMark(e) && command[n] == CommandMark(before, e)
    requires Positional(e) ==> e.cursor.Some?
    requires g.open == OpenEnd(lease[..n]) && g.commandOpen == OpenEnd(command[..n]) && g.commandId == CommandId(before)
    ensures Handle(g, e).open == OpenEnd(lease) && Handle(g, e).commandOpen == OpenEnd(command)
    ensures forall x: nat :: Adds(g, e, x) <==>
      || (lease[n].CloseAt? && Between(g.open, Some(lease[n].at), x))
      || (command[n].CloseAt? && Between(g.commandOpen, Some(command[n].at), x))
      || (e.CommandEnded? && Between(e.hiddenStart, e.hiddenEnd, x))
  {
  }

  /** The gate hides a position exactly when the log puts it inside an interval. */
  lemma HiddenIffInside(log: seq<Event>, x: nat)
    requires Ordered(log) && TransfersInsideLease(None, log)
    requires Bracketed(LeaseMarks(log)) && Bracketed(CommandMarks(log))
    ensures Hidden(Run(CLOSED_GATE, log), x) <==>
      Inside(LeaseMarks(log), x) || Inside(CommandMarks(log), x) || NamedByCommand(log, x)
  {
    FieldsAfter(log);
    InsideIsOpenOrClosed(LeaseMarks(log), x);
    InsideIsOpenOrClosed(CommandMarks(log), x);
    assert log + [] == log;
    InsideLeaseSplits(CLOSED_GATE, log, []);
  }

  /** After any refreshes of a growing log the same holds of what has been processed. */
  lemma HiddenAfterRefreshes(log: seq<Event>, windows: seq<Window>, x: nat)
    requires CatchUp(windows, 0, |log|) && Ordered(log) && TransfersInsideLease(None, log)
    requires Processed(windows, 0) <= |log|
    requires Bracketed(LeaseMarks(log[..Processed(windows, 0)]))
    requires Bracketed(CommandMarks(log[..Processed(windows, 0)]))
    ensures var done := log[..Processed(windows, 0)];
      Hidden(Refreshed(CLOSED_GATE, log, windows, 0), x) <==>
        Inside(LeaseMarks(done), x) || Inside(CommandMarks(done), x) || NamedByCommand(done, x)
  {
    hide Ordered, TransfersInsideLease, Bracketed, Inside, NamedByCommand, Hidden;
    assert log[..0] == [] && Run(CLOSED_GATE, []) == CLOSED_GATE;
    AllRefreshes(log, windows, 0);
    OrderedPrefix(log, Processed(windows, 0));
    InsidePrefix(None, log, Processed(windows, 0));
    HiddenIffInside(log[..Processed(windows, 0)], x);
  }
}
