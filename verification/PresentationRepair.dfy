/** An event of the processed log that is handled once more can disturb the gate. This is about whether
    the next refresh repairs it. */
module PresentationRepair {
  import opened HiddenRanges
  import opened Options
  import opened PresentationGate

  /** The first event that sets the lease state, or the window's length. */
  function NextLease(window: seq<Event>): (i: nat)
    ensures i <= |window| && (i < |window| ==> LeaseEvent(window[i]))
    ensures forall j :: 0 <= j < i ==> !LeaseEvent(window[j])
  {
    if window == [] || LeaseEvent(window[0]) then 0 else 1 + NextLease(window[1..])
  }

  /** The first event that sets the command state, or ends this command's bootstrap. */
  function NextCommand(id: string, window: seq<Event>): (i: nat)
    ensures i <= |window| && (i < |window| ==> CommandReset(window[i]) || ClosesCommand(id, window[i]))
    ensures forall j :: 0 <= j < i ==> !CommandReset(window[j]) && !ClosesCommand(id, window[j])
  {
    if window == [] || CommandReset(window[0]) || ClosesCommand(id, window[0]) then 0
    else 1 + NextCommand(id, window[1..])
  }

  ghost predicate Covered(ranges: seq<Range>, open: Cursor, end: Cursor) {
    forall x: nat :: Between(open, end, x) ==> In(ranges, x)
  }

  predicate HasTransferEnd(window: seq<Event>) { exists i :: 0 <= i < |window| && window[i].TransferEnded? }

  /** A refresh that handles `window` undoes the second handling of `e`. An interval that `e` has opened
      again must be given up for a new one, or end where everything in it is hidden anyway. */
  ghost predicate Repairs(g: Gate, e: Event, window: seq<Event>) {
    match e
    case LeaseAcquired(c) =>
      var i := NextLease(window);
      if i == |window| then g.open == c
      else window[i].LeaseReleased? ==> Covered(g.ranges, c, window[i].cursor)
    case LeaseReleased(_) => NextLease(window) < |window| || g.open.None?
    case TransferActive => NextLease(window) < |window| || g.open.Some? || HasTransferEnd(window)
    case CommandStarted(c, id) =>
      var i := NextCommand(id, window);
      if i == |window| then CommandState(g) == (c, id, true)
      else
        window[i].CommandStarted? ||
        (Covered(g.ranges, c, window[i].cursor)
         && (HasCommandReset(window) || CommandState(g) == (None, id, true)))
    case TerminalReleased(_) => HasCommandReset(window) || Settled(g, e)
    case OutputStarted(_, _) => HasCommandReset(window) || Settled(g, e)
    case _ => true
  }

  // ---- ranges ------------------------------------------------------------------------

  /** The window adds nothing to the ranges of `s`. */
  ghost predicate Steady(s: Gate, window: seq<Event>) {
    Ordered(window) && Canonical(s.ranges) && Run(s, window).ranges == s.ranges
  }

  lemma SteadyStep(s: Gate, window: seq<Event>)
    requires window != [] && Steady(s, window)
    ensures Handle(s, window[0]).ranges == s.ranges && Steady(Handle(s, window[0]), window[1..])
  {
    hide In, Canonical, Handle;
    HandleHides(s, window[0]);
    assert Ordered(window[1..]);
    EndOfRun(Handle(s, window[0]), window[1..]);
    CanonicalIsUnique(Handle(s, window[0]).ranges, s.ranges);
  }

  /** Closing an interval leaves the ranges as they are exactly when it is covered. */
  lemma CoveredIff(ranges: seq<Range>, open: Cursor, end: Cursor)
    requires Canonical(ranges)
    ensures CloseInterval(ranges, open, end) == ranges <==> Covered(ranges, open, end)
  {
    hide Canonical, CloseInterval;
    CloseIntervalHides(ranges, open, end);
    if Covered(ranges, open, end) {
      CanonicalIsUnique(CloseInterval(ranges, open, end), ranges);
    }
  }

  lemma NothingToCover(ranges: seq<Range>)
    ensures forall end: Cursor :: Covered(ranges, None, end)
  {
  }

  /** What has been hidden in excess stays hidden. */
  lemma ExcessStays(r: Gate, s: Gate, window: seq<Event>, open: Cursor, end: Cursor)
    requires Steady(s, window) && r.ranges == CloseInterval(s.ranges, open, end)
    requires !Covered(s.ranges, open, end)
    ensures Run(r, window) != Run(s, window)
  {
    hide In, Canonical, CloseInterval;
    CloseIntervalHides(s.ranges, open, end);
    EndOfRun(r, window);
    var x: nat :| Between(open, end, x) && !In(s.ranges, x);
    assert In(Run(r, window).ranges, x);
  }

  // ---- the lease's part --------------------------------------------------------------

  /** Two gates that differ in what concerns leases, and only there. */
  predicate LeasesDiffer(r: Gate, s: Gate) { r == s.(open := r.open, legacy := r.legacy) }

  /** Until the next lease event they stay as different as they were. */
  lemma {:induction false} NoLeaseEvent(r: Gate, s: Gate, window: seq<Event>)
    requires LeasesDiffer(r, s) && NextLease(window) == |window|
    ensures LeasesDiffer(Run(r, window), Run(s, window))
    ensures Run(r, window).open == r.open && Run(s, window).open == s.open
    decreases |window|
  {
    hide CloseInterval;
    if window != [] {
      NoLeaseEvent(Handle(r, window[0]), Handle(s, window[0]), window[1..]);
    }
  }

  lemma {:induction false} LeaseRepaired(r: Gate, s: Gate, window: seq<Event>)
    requires LeasesDiffer(r, s) && Steady(s, window) && NextLease(window) < |window|
    ensures var next := window[NextLease(window)];
      Run(r, window) == Run(s, window) <==> (next.LeaseReleased? ==> Covered(s.ranges, r.open, next.cursor))
    decreases |window|
  {
    hide In, Canonical, CloseInterval, Covered;
    SteadyStep(s, window);
    var e, rest := window[0], window[1..];
    if !LeaseEvent(e) {
      LeaseRepaired(Handle(r, e), Handle(s, e), rest);
    } else if e.LeaseReleased? {
      CoveredIff(s.ranges, r.open, e.cursor);
      if !Covered(s.ranges, r.open, e.cursor) {
        ExcessStays(Handle(r, e), Handle(s, e), rest, r.open, e.cursor);
      }
    }
  }

  /** Without a lease, and without any transfer starting, only the end of a transfer shows output again. */
  lemma {:induction false} LegacyEnds(r: Gate, window: seq<Event>)
    requires r.open.None? && NextLease(window) == |window| && TransferActive !in window
    ensures Run(r, window).legacy <==> r.legacy && !HasTransferEnd(window)
    decreases |window|
  {
    hide CloseInterval;
    if window != [] {
      var rest := window[1..];
      assert window == [window[0]] + rest;
      LegacyEnds(Handle(r, window[0]), rest);
      assert HasTransferEnd(window) <==> window[0].TransferEnded? || HasTransferEnd(rest) by {
        if i :| 0 <= i < |rest| && rest[i].TransferEnded? {
          assert window[i + 1].TransferEnded?;
        }
        if i :| 0 < i < |window| && window[i].TransferEnded? {
          assert rest[i - 1].TransferEnded?;
        }
      }
    }
  }

  lemma {:induction false} NoTransferInside(open: Cursor, window: seq<Event>)
    requires open.None? && TransfersInsideLease(open, window) && NextLease(window) == |window|
    ensures TransferActive !in window
    decreases |window|
  {
    if window != [] {
      NoTransferInside(OpenAfter(open, window[0]), window[1..]);
      assert window == [window[0]] + window[1..];
    }
  }

  // ---- the command's part ------------------------------------------------------------

  predicate CommandsDiffer(r: Gate, s: Gate) {
    r == s.(commandOpen := r.commandOpen, commandId := r.commandId, commandActive := r.commandActive)
  }

  /** Without an open bootstrap on one side, the next reset makes the two gates equal. */
  lemma {:induction false} ResetRepairs(r: Gate, s: Gate, window: seq<Event>)
    requires CommandsDiffer(r, s) && Steady(s, window) && r.commandOpen.None?
    ensures Run(r, window) == Run(s, window) <==>
      HasCommandReset(window) || CommandState(Run(s, window)) == CommandState(r)
    decreases |window|
  {
    hide In, Canonical, HasCommandReset;
    NothingOpened();
    if window != [] {
      HeadOrTail(window);
      SteadyStep(s, window);
      if !CommandReset(window[0]) {
        ResetRepairs(Handle(r, window[0]), Handle(s, window[0]), window[1..]);
      }
    }
  }

  /** What the window's own next event for this command must be like. */
  ghost predicate CommandMended(r: Gate, s: Gate, window: seq<Event>, end: Gate) {
    var i := NextCommand(r.commandId, window);
    if i == |window| then CommandState(end) == CommandState(r)
    else
      window[i].CommandStarted? ||
      (Covered(s.ranges, r.commandOpen, window[i].cursor)
       && (HasCommandReset(window) || CommandState(end) == (None, r.commandId, r.commandActive)))
  }

  lemma CommandMendedNow(r: Gate, s: Gate, window: seq<Event>)
    requires CommandsDiffer(r, s) && Steady(s, window) && window != []
    requires CommandReset(window[0]) || ClosesCommand(r.commandId, window[0])
    ensures Run(r, window) == Run(s, window) <==> CommandMended(r, s, window, Run(s, window))
  {
    hide In, Canonical, HasCommandReset, Covered, CloseInterval;
    HeadOrTail(window);
    SteadyStep(s, window);
    var e, rest := window[0], window[1..];
    if ClosesCommand(r.commandId, e) {
      CoveredIff(s.ranges, r.commandOpen, e.cursor);
      if !Covered(s.ranges, r.commandOpen, e.cursor) {
        ExcessStays(Handle(r, e), Handle(s, e), rest, r.commandOpen, e.cursor);
      } else if e.OutputStarted? {
        ResetRepairs(Handle(r, e), Handle(s, e), rest);
      }
    }
  }

  lemma CommandsStayDifferent(r: Gate, s: Gate, e: Event)
    requires CommandsDiffer(r, s) && !CommandReset(e) && !ClosesCommand(r.commandId, e)
    requires Handle(s, e).ranges == s.ranges
    ensures CommandsDiffer(Handle(r, e), Handle(s, e)) && CommandState(Handle(r, e)) == CommandState(r)
  {
    hide CloseInterval;
  }

  lemma CommandMendedLater(r: Gate, s: Gate, window: seq<Event>, end: Gate)
    requires CommandsDiffer(r, s) && window != []
    requires !CommandReset(window[0]) && !ClosesCommand(r.commandId, window[0])
    requires Handle(s, window[0]).ranges == s.ranges
    ensures var e := window[0];
      CommandMended(r, s, window, end) <==> CommandMended(Handle(r, e), Handle(s, e), window[1..], end)
  {
    hide Handle, HasCommandReset, Covered, CommandsDiffer, ClosesCommand;
    CommandsStayDifferent(r, s, window[0]);
    HeadOrTail(window);
  }

  lemma {:induction false} CommandRepaired(r: Gate, s: Gate, window: seq<Event>)
    requires CommandsDiffer(r, s) && Steady(s, window)
    ensures Run(r, window) == Run(s, window) <==> CommandMended(r, s, window, Run(s, window))
    decreases |window|
  {
    hide In, Canonical, CommandMended, CloseInterval, Handle;
    if window == [] {
      NothingToMend(r, s);
    } else if CommandReset(window[0]) || ClosesCommand(r.commandId, window[0]) {
      CommandMendedNow(r, s, window);
    } else {
      SteadyStep(s, window);
      CommandsStayDifferent(r, s, window[0]);
      CommandMendedLater(r, s, window, Run(s, window));
      CommandRepaired(Handle(r, window[0]), Handle(s, window[0]), window[1..]);
    }
  }

  lemma NothingToMend(r: Gate, s: Gate)
    requires CommandsDiffer(r, s)
    ensures r == s <==> CommandMended(r, s, [], s)
  {
  }

  // ---- the results -------------------------------------------------------------------

  /** The second handling of an event adds nothing to the hidden ranges. */
  lemma SecondTimeAddsNothing(log: seq<Event>, k: nat)
    requires k < |log| && Ordered(log) && TransfersInsideLease(None, log)
    ensures Handle(Run(CLOSED_GATE, log), log[k]).ranges == Run(CLOSED_GATE, log).ranges
  {
    hide In, Canonical, Handle, Merge, CloseInterval, Run;
    var g, e := Run(CLOSED_GATE, log), log[k];
    FromEvent(log, k);
    HandleHides(g, e);
    forall x: nat | Adds(g, e, x) ensures In(g.ranges, x) {
      ClosedInTime(log, k);
    }
    CanonicalIsUnique(Handle(g, e).ranges, g.ranges);
  }

  /** What is open at the end was opened behind every event that would close it. */
  lemma ClosedInTime(log: seq<Event>, k: nat)
    requires k < |log| && Ordered(log)
    ensures var g, e := Run(CLOSED_GATE, log), log[k];
      && (e.LeaseReleased? && g.open.Some? ==> e.cursor.value <= g.open.value)
      && (ClosesCommand(g.commandId, e) && g.commandOpen.Some? ==> e.cursor.value <= g.commandOpen.value)
      && (ClosesCommand(g.commandId, e) && !HasCommandReset(log[k + 1..]) ==> g.commandOpen.None?)
  {
    hide In, Canonical, CloseInterval, Run, OpensLease, OpensCommand;
    var x, e, rest := Run(CLOSED_GATE, log[..k]), log[k], log[k + 1..];
    RunThrough(log, k);
    HandleHides(x, e);
    assert Ordered(rest);
    EndOfRun(Handle(x, e), rest);
    if Positional(e) {
      OpenedLater(log, k);
    }
    OpeningResets(rest);
  }

  lemma OpeningResets(log: seq<Event>)
    ensures forall c: Cursor :: OpensCommand(log, c) ==> HasCommandReset(log)
  {
  }

  lemma WindowIsSteady(log: seq<Event>, from: nat)
    requires from <= |log| && Ordered(log) && TransfersInsideLease(None, log)
    ensures var g := Run(CLOSED_GATE, log);
      Steady(g, log[from..]) && Run(g, log[from..]) == g && !g.legacy
    ensures NextLease(log[from..]) == |log[from..]| && Run(CLOSED_GATE, log).open.None? ==>
      TransferActive !in log[from..]
  {
    hide In, Canonical, Handle, TransfersInsideLease, HasLeaseEvent, HasCommandReset, OpensLease, OpensCommand;
    StartCanonical();
    EndOfRun(CLOSED_GATE, log);
    ReplayIsIdempotent(log, from);
    var before, window := log[..from], log[from..];
    assert before + window == log && log + [] == log;
    InsideLeaseSplits(CLOSED_GATE, before, window);
    InsideLeaseSplits(CLOSED_GATE, log, []);
    if NextLease(window) == |window| && Run(CLOSED_GATE, log).open.None? {
      var x := Run(CLOSED_GATE, before);
      RunConcat(CLOSED_GATE, before, window);
      NoLeaseEvent(x, x, window);
      NoTransferInside(x.open, window);
    }
  }

  /** An event is handled once more, and then a refresh handles what is retained from `from` on: the gate
      is where the log takes it if and only if that window repairs it. */
  lemma RefreshRepairsIff(log: seq<Event>, k: nat, from: nat)
    requires k < |log| && from <= |log| && Ordered(log) && TransfersInsideLease(None, log)
    ensures var g := Run(CLOSED_GATE, log);
      Run(Handle(g, log[k]), log[from..]) == g <==> Repairs(g, log[k], log[from..])
  {
    hide In, Canonical, Merge, CloseInterval, Run, Covered, HasCommandReset, TransfersInsideLease;
    var g, e, window := Run(CLOSED_GATE, log), log[k], log[from..];
    var r := Handle(g, e);
    WindowIsSteady(log, from);
    SecondTimeAddsNothing(log, k);
    FromEvent(log, k);
    match e
    case LeaseAcquired(_) => LeasePart(r, g, window);
    case LeaseReleased(_) => LeasePart(r, g, window); NothingToCover(g.ranges);
    case TransferActive => LeasePart(r, g, window); NothingToCover(g.ranges);
    case CommandStarted(_, _) => CommandRepaired(r, g, window);
    case TerminalReleased(_) => ResetRepairs(r, g, window);
    case OutputStarted(_, _) => if r != g { ResetRepairs(r, g, window); }
    case _ =>
  }

  lemma LeasePart(r: Gate, g: Gate, window: seq<Event>)
    requires LeasesDiffer(r, g) && Steady(g, window) && Run(g, window) == g && !g.legacy
    requires NextLease(window) == |window| && g.open.None? ==> TransferActive !in window
    ensures var i := NextLease(window);
      Run(r, window) == g <==>
        if i < |window| then window[i].LeaseReleased? ==> Covered(g.ranges, r.open, window[i].cursor)
        else r.open == g.open && (r.legacy ==> !Run(r, window).legacy) && (!r.legacy ==> r == g)
    ensures NextLease(window) == |window| && r.open.None? && g.open.None? ==>
      (Run(r, window).legacy <==> r.legacy && !HasTransferEnd(window))
  {
    hide In, Canonical, Run, Covered, HasTransferEnd;
    if NextLease(window) < |window| {
      LeaseRepaired(r, g, window);
    } else {
      NoLeaseEvent(r, g, window);
      if r.open.None? && g.open.None? {
        LegacyEnds(r, window);
      }
    }
  }

  /** A refresh that reaches back to the event repairs what handling it again has done. */
  lemma RefreshRepairs(log: seq<Event>, k: nat, from: nat)
    requires from <= k < |log| && Ordered(log) && TransfersInsideLease(None, log)
    ensures Run(Handle(Run(CLOSED_GATE, log), log[k]), log[from..]) == Run(CLOSED_GATE, log)
  {
    hide In, Canonical, Merge, CloseInterval, Run, Handle, TransfersInsideLease;
    var g, e, window := Run(CLOSED_GATE, log), log[k], log[from..];
    assert window[k - from] == e;
    RefreshRepairsIff(log, k, from);
    WindowIsSteady(log, from);
    if e.OutputStarted? {
      ClosedInTime(log, k);
      ResetLater(log, from, k);
    }
    if Positional(e) {
      EarlierCloses(log, k, from);
    }
  }

  lemma ResetLater(log: seq<Event>, from: nat, k: nat)
    requires from <= k < |log|
    ensures HasCommandReset(log[k + 1..]) ==> HasCommandReset(log[from..])
  {
    var rest, window := log[k + 1..], log[from..];
    if i :| 0 <= i < |rest| && CommandReset(rest[i]) {
      assert window[i + k + 1 - from] == rest[i];
    }
  }

  lemma EarlierCloses(log: seq<Event>, k: nat, from: nat)
    requires from <= k < |log| && Ordered(log) && Positional(log[k])
    ensures forall i, ranges :: 0 <= i <= k - from && Positional(log[from..][i]) ==>
      Covered(ranges, log[k].cursor, log[from..][i].cursor)
  {
  }

  /** A later window does not always: the first acquisition is handled again, and the refresh begins with
      the last release. What lies between the two leases is hidden for good. */
  lemma LaterWindowConceals()
    ensures var log := [LeaseAcquired(Some(0)), LeaseReleased(Some(5)), LeaseAcquired(Some(7)), LeaseReleased(Some(9))];
      var g := Run(CLOSED_GATE, log);
      && Ordered(log) && TransfersInsideLease(None, log)
      && !Hidden(g, 6) && Hidden(Run(Handle(g, log[0]), log[3..]), 6)
  {
    var log := [LeaseAcquired(Some(0)), LeaseReleased(Some(5)), LeaseAcquired(Some(7)), LeaseReleased(Some(9))];
    var g2 := Handle(Handle(CLOSED_GATE, log[0]), log[1]);
    var g4 := Handle(Handle(g2, log[2]), log[3]);
    assert log == [log[0], log[1]] + [log[2], log[3]] && log[3..] == [log[3]];
    RunConcat(CLOSED_GATE, [log[0], log[1]], [log[2], log[3]]);
    RunTwo(CLOSED_GATE, log[0], log[1]);
    RunTwo(g2, log[2], log[3]);
    assert g2.ranges == [Range(0, 5)] && g4.ranges == [Range(0, 5), Range(7, 9)];
    assert !In(g4.ranges, 6);
    var end := Handle(Handle(g4, log[0]), log[3]);
    assert Run(Handle(g4, log[0]), [log[3]]) == Run(end, []) == end;
    assert end.ranges == [Range(0, 9)] && end.ranges[0].Has(6);
  }

  lemma RunTwo(g: Gate, a: Event, b: Event)
    ensures Run(g, [a, b]) == Handle(Handle(g, a), b)
  {
    assert [a, b][1..] == [b] && [b][1..] == [];
    assert Run(Handle(g, a), [b]) == Run(Handle(Handle(g, a), b), []);
  }
}
