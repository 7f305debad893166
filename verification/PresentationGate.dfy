/** The attach client's presentation gate: which output positions its local terminal must not show,
    driven by a structured event log that is replayed from arbitrary retained positions. */
module PresentationGate {
  import opened HiddenRanges
  import opened Options

  type Cursor = Option<nat>

  datatype Event =
    | LeaseAcquired(cursor: Cursor)                       // file-transfer or debug lease
    | LeaseReleased(cursor: Cursor)                       // file-transfer or debug lease
    | TerminalReleased(cursor: Cursor)
    | CommandStarted(cursor: Cursor, id: string)
    | OutputStarted(cursor: Cursor, id: string)
    | CommandEnded(hiddenStart: Cursor, hiddenEnd: Cursor)
    | TransferActive                                      // started, or progressed
    | TransferEnded                                       // completed, cancelled or failed
    | OtherEvent

  datatype Gate = Gate(
    legacy: bool,
    open: Cursor,
    ranges: seq<Range>,
    commandOpen: Cursor,
    commandId: string,
    commandActive: bool)

  const CLOSED_GATE := Gate(false, None, [], None, "", false)

  /** Ending an open interval at a cursor that is missing or lies before it hides nothing. */
  function CloseInterval(ranges: seq<Range>, open: Cursor, cursor: Cursor): seq<Range>
  {
    if open.Some? && cursor.Some? && cursor.value >= open.value
    then Merge(ranges, Range(open.value, cursor.value))
    else ranges
  }

  predicate ClosesCommand(commandId: string, e: Event) {
    e.TerminalReleased? || (e.OutputStarted? && (commandId == "" || commandId == e.id))
  }

  function Handle(g: Gate, e: Event): Gate
  {
    match e
    case LeaseAcquired(cursor) =>
      if cursor.Some? then g.(open := cursor, legacy := false) else g.(legacy := true)
    case LeaseReleased(cursor) =>
      g.(ranges := CloseInterval(g.ranges, g.open, cursor), open := None, legacy := false)
    case TerminalReleased(cursor) =>
      g.(ranges := CloseInterval(g.ranges, g.commandOpen, cursor), commandOpen := None,
         commandActive := false, commandId := "")
    case CommandStarted(cursor, id) =>
      g.(commandOpen := if cursor.Some? then cursor else g.commandOpen, commandId := id, commandActive := true)
    case OutputStarted(cursor, id) =>
      if ClosesCommand(g.commandId, e)
      then g.(ranges := CloseInterval(g.ranges, g.commandOpen, cursor), commandOpen := None)
      else g
    case CommandEnded(start, end) => g.(ranges := CloseInterval(g.ranges, start, end))
    case TransferActive => if g.open.None? then g.(legacy := true) else g
    case TransferEnded => if g.open.None? then g.(legacy := false) else g
    case OtherEvent => g
  }

  function Run(g: Gate, log: seq<Event>): Gate
    decreases |log|
  {
    if log == [] then g else Run(Handle(g, log[0]), log[1..])
  }

  /** Whether the local terminal must not show the byte at `x`. */
  ghost predicate Hidden(g: Gate, x: nat) {
    || g.legacy
    || (g.open.Some? && g.open.value <= x)
    || (g.commandOpen.Some? && g.commandOpen.value <= x)
    || In(g.ranges, x)
  }

  lemma {:induction false} RunConcat(g: Gate, a: seq<Event>, b: seq<Event>)
    ensures Run(g, a + b) == Run(Run(g, a), b)
    decreases |a|
  {
    if a == [] {
      assert a + b == b;
    } else {
      RunConcat(Handle(g, a[0]), a[1..], b);
      assert (a + b)[1..] == a[1..] + b;
    }
  }

  lemma CloseIntervalHides(ranges: seq<Range>, open: Cursor, cursor: Cursor)
    requires Canonical(ranges)
    ensures Canonical(CloseInterval(ranges, open, cursor))
    ensures forall x: nat :: In(CloseInterval(ranges, open, cursor), x) <==>
      In(ranges, x) || (open.Some? && cursor.Some? && open.value <= x < cursor.value)
  {
    if open.Some? && cursor.Some? && cursor.value >= open.value {
      var hidden := Range(open.value, cursor.value);
      MergeHides(ranges, hidden);
      assert forall x: nat :: hidden.Has(x) <==> open.value <= x < cursor.value;
    }
  }

  // ---- logs --------------------------------------------------------------------------

  /** Events that open or close an interval, and therefore carry a position of the output. */
  predicate Positional(e: Event) {
    e.LeaseAcquired? || e.LeaseReleased? || e.TerminalReleased? || e.CommandStarted? || e.OutputStarted?
  }

  /** Every such event carries a cursor, and the cursors never go back. Hosts that log a release behind the
      next acquisition do not keep this: `ReleaseLoggedLate`. */
  ghost predicate Ordered(log: seq<Event>) {
    && (forall i :: 0 <= i < |log| && Positional(log[i]) ==> log[i].cursor.Some?)
    && (forall i, j :: 0 <= i < j < |log| && Positional(log[i]) && Positional(log[j]) ==>
          log[i].cursor.value <= log[j].cursor.value)
  }

  /** A transfer starts and progresses only while a file-transfer lease is open. */
  ghost predicate TransfersInsideLease(open: Cursor, log: seq<Event>)
    decreases |log|
  {
    log == [] ||
    ((log[0].TransferActive? ==> open.Some?) && TransfersInsideLease(OpenAfter(open, log[0]), log[1..]))
  }

  function OpenAfter(open: Cursor, e: Event): Cursor {
    if e.LeaseAcquired? then e.cursor else if e.LeaseReleased? then None else open
  }

  predicate LeaseEvent(e: Event) { e.LeaseAcquired? || e.LeaseReleased? }

  /** Events after which the command state no longer depends on what came before. */
  predicate CommandReset(e: Event) { e.CommandStarted? || e.TerminalReleased? }

  ghost predicate HasLeaseEvent(log: seq<Event>) { exists i :: 0 <= i < |log| && LeaseEvent(log[i]) }

  ghost predicate HasCommandReset(log: seq<Event>) { exists i :: 0 <= i < |log| && CommandReset(log[i]) }

  ghost predicate OpensLease(log: seq<Event>, c: Cursor) {
    exists i :: 0 <= i < |log| && log[i] == LeaseAcquired(c)
  }

  ghost predicate OpensCommand(log: seq<Event>, c: Cursor) {
    exists i :: 0 <= i < |log| && log[i].CommandStarted? && log[i].cursor == c
  }

  lemma HeadOrTail(log: seq<Event>)
    requires log != []
    ensures HasLeaseEvent(log) <==> LeaseEvent(log[0]) || HasLeaseEvent(log[1..])
    ensures HasCommandReset(log) <==> CommandReset(log[0]) || HasCommandReset(log[1..])
    ensures forall c :: OpensLease(log, c) <==> log[0] == LeaseAcquired(c) || OpensLease(log[1..], c)
    ensures forall c :: OpensCommand(log, c) <==>
      (log[0].CommandStarted? && log[0].cursor == c) || OpensCommand(log[1..], c)
  {
    var rest := log[1..];
    assert forall i :: 0 <= i < |rest| ==> rest[i] == log[i + 1];
    assert forall i :: 0 < i < |log| ==> log[i] == rest[i - 1];
  }

  /** The positions one event adds to the hidden ranges. */
  predicate Adds(g: Gate, e: Event, p: nat) {
    match e
    case LeaseReleased(cursor) => Between(g.open, cursor, p)
    case TerminalReleased(cursor) => Between(g.commandOpen, cursor, p)
    case OutputStarted(cursor, _) => ClosesCommand(g.commandId, e) && Between(g.commandOpen, cursor, p)
    case CommandEnded(start, end) => Between(start, end, p)
    case _ => false
  }

  predicate Between(open: Cursor, cursor: Cursor, p: nat) {
    open.Some? && cursor.Some? && open.value <= p < cursor.value
  }

  lemma HandleHides(g: Gate, e: Event)
    requires Canonical(g.ranges)
    ensures Canonical(Handle(g, e).ranges)
    ensures forall p: nat :: In(Handle(g, e).ranges, p) <==> In(g.ranges, p) || Adds(g, e, p)
  {
    hide In, Canonical, Merge;
    match e
    case LeaseReleased(cursor) => CloseIntervalHides(g.ranges, g.open, cursor);
    case TerminalReleased(cursor) => CloseIntervalHides(g.ranges, g.commandOpen, cursor);
    case OutputStarted(cursor, _) => CloseIntervalHides(g.ranges, g.commandOpen, cursor);
    case CommandEnded(start, end) => CloseIntervalHides(g.ranges, start, end);
    case _ =>
  }

  lemma NothingOpened()
    ensures !HasLeaseEvent([]) && !HasCommandReset([])
  {
  }

  /** Where the open intervals at the end of a run come from; hidden ranges are never given up. */
  lemma {:induction false} EndOfRun(g: Gate, log: seq<Event>)
    requires Ordered(log) && Canonical(g.ranges)
    ensures Canonical(Run(g, log).ranges)
    ensures forall x: nat :: In(g.ranges, x) ==> In(Run(g, log).ranges, x)
    ensures Run(g, log).open.Some? ==> Run(g, log).open == g.open || OpensLease(log, Run(g, log).open)
    ensures var c := Run(g, log).commandOpen; c.Some? ==> c == g.commandOpen || OpensCommand(log, c)
    ensures var c := Run(g, log).commandOpen; c.Some? && HasCommandReset(log) ==> OpensCommand(log, c)
    ensures !HasLeaseEvent(log) ==> Run(g, log).open == g.open
    ensures !HasCommandReset(log) ==>
      Run(g, log).commandId == g.commandId && Run(g, log).commandActive == g.commandActive
    decreases |log|
  {
    hide In, Canonical, Merge, CloseInterval, Adds, HasLeaseEvent, HasCommandReset, OpensLease, OpensCommand;
    NothingOpened();
    if log != [] {
      HandleHides(g, log[0]);
      HeadOrTail(log);
      EndOfRun(Handle(g, log[0]), log[1..]);
    }
  }

  // ---- replay ------------------------------------------------------------------------

  /** A first pass in state `x` and a replay in state `r`, both about to handle `log`; the first pass
      ends in `end`. Before the log's next lease event or command reset the replay still carries what
      the first pass ended with; afterwards it carries what the first pass carried at this point. */
  ghost predicate Follows(x: Gate, r: Gate, end: Gate, log: seq<Event>) {
    && end == Run(x, log)
    && Ordered(log) && TransfersInsideLease(x.open, log)
    && Canonical(x.ranges) && Canonical(r.ranges)
    && (forall p: nat :: In(r.ranges, p) <==> In(end.ranges, p))
    && !x.legacy
    && LeaseFollows(x, r, end, log)
    && CommandFollows(x, r, end, log)
  }

  ghost predicate LeaseFollows(x: Gate, r: Gate, end: Gate, log: seq<Event>) {
    || (r.open == x.open && !r.legacy)
    || (r.open == end.open && (r.legacy ==> HasLeaseEvent(log)))
  }

  ghost predicate CommandFollows(x: Gate, r: Gate, end: Gate, log: seq<Event>) {
    || CommandState(r) == CommandState(x)
    || (HasCommandReset(log) && (r.commandOpen == end.commandOpen || r.commandOpen == None))
    || (!HasCommandReset(log) && CommandState(r) == CommandState(end))
  }

  function CommandState(g: Gate): (Cursor, string, bool) { (g.commandOpen, g.commandId, g.commandActive) }

  /** In the replay an event adds nothing it did not add in the first pass. */
  lemma ReplayAddsNothing(x: Gate, r: Gate, end: Gate, log: seq<Event>, p: nat)
    requires log != [] && Follows(x, r, end, log) && Adds(r, log[0], p)
    ensures Adds(x, log[0], p)
  {
    hide In, Canonical, Merge, CloseInterval, TransfersInsideLease;
    var e, rest := log[0], log[1..];
    assert forall i :: 0 <= i < |rest| ==> rest[i] == log[i + 1];
    HandleHides(x, e);
    EndOfRun(Handle(x, e), rest);
    HeadOrTail(log);
  }

  lemma LeaseFollowsStep(x: Gate, r: Gate, end: Gate, log: seq<Event>)
    requires log != [] && Follows(x, r, end, log)
    ensures LeaseFollows(Handle(x, log[0]), Handle(r, log[0]), end, log[1..])
  {
    hide In, Canonical, Merge, CloseInterval, CommandFollows, Adds;
    HeadOrTail(log);
    HandleHides(x, log[0]);
    assert Ordered(log[1..]);
    EndOfRun(Handle(x, log[0]), log[1..]);
  }

  lemma CommandFollowsStep(x: Gate, r: Gate, end: Gate, log: seq<Event>)
    requires log != [] && Follows(x, r, end, log)
    ensures CommandFollows(Handle(x, log[0]), Handle(r, log[0]), end, log[1..])
  {
    hide In, Canonical, Merge, CloseInterval, LeaseFollows, Adds, TransfersInsideLease;
    HeadOrTail(log);
    HandleHides(x, log[0]);
    assert Ordered(log[1..]);
    EndOfRun(Handle(x, log[0]), log[1..]);
  }

  lemma FollowsStep(x: Gate, r: Gate, end: Gate, log: seq<Event>)
    requires log != [] && Follows(x, r, end, log)
    ensures Follows(Handle(x, log[0]), Handle(r, log[0]), end, log[1..])
  {
    LeaseFollowsStep(x, r, end, log);
    CommandFollowsStep(x, r, end, log);
    hide In, Canonical, Merge, CloseInterval, LeaseFollows, CommandFollows;
    var e, rest := log[0], log[1..];
    HandleHides(x, e);
    HandleHides(r, e);
    assert Ordered(rest);
    EndOfRun(Handle(x, e), rest);
    forall p: nat ensures In(Handle(r, e).ranges, p) <==> In(end.ranges, p) {
      if Adds(r, e, p) {
        ReplayAddsNothing(x, r, end, log, p);
      }
    }
  }

  lemma {:induction false} FollowsToTheEnd(x: Gate, r: Gate, end: Gate, log: seq<Event>)
    requires Follows(x, r, end, log)
    ensures Run(r, log) == end
    decreases |log|
  {
    if log == [] {
      CanonicalIsUnique(r.ranges, end.ranges);
    } else {
      FollowsStep(x, r, end, log);
      FollowsToTheEnd(Handle(x, log[0]), Handle(r, log[0]), end, log[1..]);
    }
  }

  lemma StartCanonical()
    ensures Canonical(CLOSED_GATE.ranges)
  {
  }

  /** Replaying a retained suffix of the already processed log changes nothing. */
  lemma ReplayIsIdempotent(log: seq<Event>, from: nat)
    requires from <= |log| && Ordered(log) && TransfersInsideLease(None, log)
    ensures Run(Run(CLOSED_GATE, log), log[from..]) == Run(CLOSED_GATE, log)
  {
    hide In, Canonical, Handle, TransfersInsideLease, HasLeaseEvent, HasCommandReset, OpensLease, OpensCommand;
    var before, suffix := log[..from], log[from..];
    assert before + suffix == log;
    StartCanonical();
    var x := Run(CLOSED_GATE, before);
    RunConcat(CLOSED_GATE, before, suffix);
    EndOfRun(CLOSED_GATE, before);
    InsideLeaseSplits(CLOSED_GATE, before, suffix);
    EndOfRun(x, suffix);
    EndOfRun(CLOSED_GATE, log);
    assert suffix + [] == suffix;
    InsideLeaseSplits(x, suffix, []);
    FollowsToTheEnd(x, Run(x, suffix), Run(x, suffix), suffix);
  }

  /** With transfers inside leases the gate never falls back to hiding everything. */
  lemma {:induction false} InsideLeaseSplits(g: Gate, a: seq<Event>, b: seq<Event>)
    requires TransfersInsideLease(g.open, a + b) && Ordered(a) && !g.legacy
    ensures TransfersInsideLease(Run(g, a).open, b) && !Run(g, a).legacy
    decreases |a|
  {
    if a == [] {
      assert a + b == b;
    } else {
      assert (a + b)[1..] == a[1..] + b && (a + b)[0] == a[0];
      InsideLeaseSplits(Handle(g, a[0]), a[1..], b);
    }
  }

  /** Any number of replays, each of any retained suffix. */
  lemma {:induction false} AnyReplays(log: seq<Event>, froms: seq<nat>)
    requires Ordered(log) && TransfersInsideLease(None, log)
    requires forall i :: 0 <= i < |froms| ==> froms[i] <= |log|
    ensures ReplayAll(Run(CLOSED_GATE, log), log, froms) == Run(CLOSED_GATE, log)
    decreases |froms|
  {
    if froms != [] {
      ReplayIsIdempotent(log, froms[0]);
      AnyReplays(log, froms[1..]);
    }
  }

  function ReplayAll(g: Gate, log: seq<Event>, froms: seq<nat>): Gate
    requires forall i :: 0 <= i < |froms| ==> froms[i] <= |log|
    decreases |froms|
  {
    if froms == [] then g else ReplayAll(Run(g, log[froms[0]..]), log, froms[1..])
  }

  // ---- refreshes of a growing log ----------------------------------------------------

  lemma {:induction false} InsidePrefix(open: Cursor, log: seq<Event>, n: nat)
    requires n <= |log| && TransfersInsideLease(open, log)
    ensures TransfersInsideLease(open, log[..n])
    decreases n
  {
    if n > 0 {
      InsidePrefix(OpenAfter(open, log[0]), log[1..], n - 1);
      assert log[..n][1..] == log[1..][..n - 1];
    }
  }

  /** A refresh handles what is retained, from somewhere in what was processed up to what there is now:
      the gate is then where the whole log up to now takes it. */
  lemma RefreshCatchesUp(log: seq<Event>, from: nat, done: nat, now: nat)
    requires from <= done <= now <= |log| && Ordered(log) && TransfersInsideLease(None, log)
    ensures Run(Run(CLOSED_GATE, log[..done]), log[from..now]) == Run(CLOSED_GATE, log[..now])
  {
    hide Ordered, TransfersInsideLease, Handle;
    var processed := log[..done];
    OrderedPrefix(log, done);
    InsidePrefix(None, log, done);
    ReplayIsIdempotent(processed, from);
    assert log[from..now] == processed[from..] + log[done..now];
    RunConcat(Run(CLOSED_GATE, processed), processed[from..], log[done..now]);
    assert log[..now] == processed + log[done..now];
    RunConcat(CLOSED_GATE, processed, log[done..now]);
  }

  lemma OrderedPrefix(log: seq<Event>, n: nat)
    requires n <= |log| && Ordered(log)
    ensures Ordered(log[..n])
  {
  }

  datatype Window = Window(from: nat, to: nat)

  /** Each window begins within what has been processed and ends at least there. */
  predicate CatchUp(windows: seq<Window>, done: nat, length: nat)
    decreases |windows|
  {
    windows == [] ||
    (windows[0].from <= done <= windows[0].to <= length && CatchUp(windows[1..], windows[0].to, length))
  }

  function Refreshed(g: Gate, log: seq<Event>, windows: seq<Window>, done: nat): Gate
    requires CatchUp(windows, done, |log|)
    decreases |windows|
  {
    if windows == [] then g
    else Refreshed(Run(g, log[windows[0].from..windows[0].to]), log, windows[1..], windows[0].to)
  }

  function Processed(windows: seq<Window>, done: nat): nat {
    if windows == [] then done else windows[|windows| - 1].to
  }

  /** Any refreshes of a growing log take the gate where the processed part of the log takes it. */
  lemma {:induction false} AllRefreshes(log: seq<Event>, windows: seq<Window>, done: nat)
    requires done <= |log| && CatchUp(windows, done, |log|) && Ordered(log) && TransfersInsideLease(None, log)
    ensures Processed(windows, done) <= |log|
    ensures Refreshed(Run(CLOSED_GATE, log[..done]), log, windows, done)
      == Run(CLOSED_GATE, log[..Processed(windows, done)])
    decreases |windows|
  {
    if windows != [] {
      RefreshCatchesUp(log, windows[0].from, done, windows[0].to);
      AllRefreshes(log, windows[1..], windows[0].to);
    }
  }

  // ---- single events handled again ---------------------------------------------------

  /** Handling this event again leaves the gate as it is. */
  predicate Settled(g: Gate, e: Event) {
    match e
    case LeaseAcquired(c) => g.open == c
    case LeaseReleased(_) => g.open.None?
    case TerminalReleased(_) => g.commandOpen.None? && g.commandId == "" && !g.commandActive
    case CommandStarted(c, id) => g.commandOpen == c && g.commandId == id && g.commandActive
    case OutputStarted(_, _) => g.commandOpen.None? || !ClosesCommand(g.commandId, e)
    case TransferActive => g.open.Some?
    case _ => true
  }

  /** The position becomes visible although the whole log hides it: an interval that is still open is
      closed by an earlier event. */
  ghost predicate Reveals(g: Gate, e: Event, x: nat) {
    match e
    case LeaseReleased(d) => OpenAt(g.open, x) && !Before(x, d) && !OpenAt(g.commandOpen, x) && !In(g.ranges, x)
    case TerminalReleased(d) => OpenAt(g.commandOpen, x) && !Before(x, d) && !OpenAt(g.open, x) && !In(g.ranges, x)
    case OutputStarted(d, _) =>
      && ClosesCommand(g.commandId, e) && OpenAt(g.commandOpen, x) && !Before(x, d)
      && !OpenAt(g.open, x) && !In(g.ranges, x)
    case _ => false
  }

  /** The position becomes hidden although the whole log shows it: an interval is opened again from an
      earlier event on, or a transfer counts as running without a lease. */
  ghost predicate Conceals(g: Gate, e: Event, x: nat) {
    !Hidden(g, x) &&
    match e
    case LeaseAcquired(c) => OpenAt(c, x)
    case CommandStarted(c, _) => OpenAt(c, x)
    case TransferActive => g.open.None?
    case _ => false
  }

  predicate OpenAt(open: Cursor, x: nat) { open.Some? && open.value <= x }

  predicate Before(x: nat, end: Cursor) { end.Some? && x < end.value }

  lemma RunThrough(log: seq<Event>, k: nat)
    requires k < |log| && Ordered(log)
    ensures Canonical(Run(CLOSED_GATE, log[..k]).ranges)
    ensures Run(CLOSED_GATE, log) == Run(Handle(Run(CLOSED_GATE, log[..k]), log[k]), log[k + 1..])
  {
    hide Ordered, Canonical, Handle;
    var before, e, rest := log[..k], log[k], log[k + 1..];
    assert log == before + ([e] + rest);
    StartCanonical();
    OrderedPrefix(log, k);
    EndOfRun(CLOSED_GATE, before);
    RunConcat(CLOSED_GATE, before, [e] + rest);
    assert ([e] + rest)[1..] == rest;
  }

  /** What follows an event does not give up what the event hid, and opens only later. */
  lemma FromEventOn(x: Gate, log: seq<Event>, k: nat)
    requires k < |log| && Ordered(log) && Canonical(x.ranges)
    ensures var e := log[k]; var g := Run(Handle(x, e), log[k + 1..]);
      && (e.LeaseAcquired? && g.open.Some? ==> e.cursor.value <= g.open.value)
      && (e.CommandStarted? && g.commandOpen.Some? ==> e.cursor.value <= g.commandOpen.value)
      && (e.CommandEnded? ==> forall p :: Between(e.hiddenStart, e.hiddenEnd, p) ==> In(g.ranges, p))
  {
    hide In, Canonical, Merge, CloseInterval, Run, OpensLease, OpensCommand, HasLeaseEvent, HasCommandReset;
    HandleHides(x, log[k]);
    assert Ordered(log[k + 1..]);
    EndOfRun(Handle(x, log[k]), log[k + 1..]);
    if Positional(log[k]) {
      OpenedLater(log, k);
    }
  }

  /** The gate after the log, seen from one of its events. */
  lemma FromEvent(log: seq<Event>, k: nat)
    requires k < |log| && Ordered(log) && TransfersInsideLease(None, log)
    ensures var g, e := Run(CLOSED_GATE, log), log[k];
      && Canonical(g.ranges) && !g.legacy && (Positional(e) ==> e.cursor.Some?)
      && (e.LeaseAcquired? && g.open.Some? ==> e.cursor.value <= g.open.value)
      && (e.CommandStarted? && g.commandOpen.Some? ==> e.cursor.value <= g.commandOpen.value)
      && (e.CommandEnded? ==> forall x :: Between(e.hiddenStart, e.hiddenEnd, x) ==> In(g.ranges, x))
  {
    hide In, Canonical, Handle, TransfersInsideLease, Run;
    StartCanonical();
    EndOfRun(CLOSED_GATE, log);
    RunThrough(log, k);
    FromEventOn(Run(CLOSED_GATE, log[..k]), log, k);
    assert log + [] == log;
    InsideLeaseSplits(CLOSED_GATE, log, []);
  }

  lemma OpenedLater(log: seq<Event>, k: nat)
    requires k < |log| && Ordered(log) && Positional(log[k])
    ensures forall c: Cursor :: c.Some? && (OpensLease(log[k + 1..], c) || OpensCommand(log[k + 1..], c)) ==>
      log[k].cursor.value <= c.value
  {
  }

  /** Handling an event of the processed log once more changes nothing exactly when it is settled. */
  lemma HandledAgainIff(log: seq<Event>, k: nat)
    requires k < |log| && Ordered(log) && TransfersInsideLease(None, log)
    ensures var g := Run(CLOSED_GATE, log); Handle(g, log[k]) == g <==> Settled(g, log[k])
  {
    hide In, Canonical, Merge, Run;
    var g, e := Run(CLOSED_GATE, log), log[k];
    FromEvent(log, k);
    if e.CommandEnded? {
      HandleHides(g, e);
      CanonicalIsUnique(Handle(g, e).ranges, g.ranges);
    }
  }

  /** What handling it once more does to a position: revealed, concealed, or neither, exactly as stated. */
  lemma HiddenAfterHandledAgain(log: seq<Event>, k: nat, x: nat)
    requires k < |log| && Ordered(log) && TransfersInsideLease(None, log)
    ensures var g, e := Run(CLOSED_GATE, log), log[k];
      && (Hidden(g, x) && !Hidden(Handle(g, e), x) <==> Reveals(g, e, x))
      && (!Hidden(g, x) && Hidden(Handle(g, e), x) <==> Conceals(g, e, x))
  {
    hide In, Canonical, Merge, Run, CloseInterval;
    var g, e := Run(CLOSED_GATE, log), log[k];
    FromEvent(log, k);
    HandleHides(g, e);
  }

  /** The other direction: handling an acquisition again hides what follows its release. */
  lemma MiddleReplayConceals()
    ensures var log := [LeaseAcquired(Some(0)), LeaseReleased(Some(5))];
      && Ordered(log) && TransfersInsideLease(None, log)
      && !Hidden(Run(CLOSED_GATE, log), 9) && Hidden(Handle(Run(CLOSED_GATE, log), log[0]), 9)
  {
    var log := [LeaseAcquired(Some(0)), LeaseReleased(Some(5))];
    var g := Handle(Handle(CLOSED_GATE, log[0]), log[1]);
    assert log[1..][0] == log[1] && log[1..][1..] == [];
    assert Run(Handle(CLOSED_GATE, log[0]), log[1..]) == g;
    assert Run(CLOSED_GATE, log) == g && g.ranges == [Range(0, 5)];
    assert !In([Range(0, 5)], 9);
  }

  /** A concrete log: handling an earlier release again re-opens the terminal while the
      second lease is still held. */
  lemma MiddleReplayReveals()
    ensures
      var log := [LeaseAcquired(Some(0)), LeaseReleased(Some(5)), LeaseAcquired(Some(7))];
      && Ordered(log) && TransfersInsideLease(None, log)
      && Hidden(Run(CLOSED_GATE, log), 9)
      && !Hidden(Run(Run(CLOSED_GATE, log), log[1..2]), 9)
  {
    var log := [LeaseAcquired(Some(0)), LeaseReleased(Some(5)), LeaseAcquired(Some(7))];
    var g1 := Handle(CLOSED_GATE, log[0]);
    var g2 := Handle(g1, log[1]);
    var g3 := Handle(g2, log[2]);
    assert log[1..][0] == log[1] && log[1..][1..] == log[2..] && log[2..][0] == log[2] && log[2..][1..] == [];
    assert Run(g2, log[2..]) == g3;
    assert Run(g1, log[1..]) == g3;
    assert Run(CLOSED_GATE, log) == g3;
    assert log[1..2] == [log[1]];
    assert Run(g3, [log[1]]) == Run(Handle(g3, log[1]), []);
    assert Handle(g3, log[1]).ranges == [Range(0, 5)];
    assert !In([Range(0, 5)], 9);
  }

  /** A lease is free before its release is logged, so that an acquisition can be logged in between. The
      gate then forgets where the first lease began and that the second is still held: of both leases it
      hides exactly what lies between the two cursors. */
  lemma ReleaseLoggedLate(g: Gate, c: nat, d: nat, x: nat)
    requires Canonical(g.ranges) && g.open.Some? && g.open.value <= c
    ensures var late := Run(g, [LeaseAcquired(Some(c)), LeaseReleased(Some(d))]);
      Hidden(late, x) <==> OpenAt(g.commandOpen, x) || In(g.ranges, x) || c <= x < d
  {
    hide In, Canonical, CloseInterval;
    var acquired, released := LeaseAcquired(Some(c)), LeaseReleased(Some(d));
    assert [acquired, released][1..] == [released] && [released][1..] == [];
    var held := Handle(g, acquired);
    assert Run(held, [released]) == Run(Handle(held, released), []);
    CloseIntervalHides(g.ranges, Some(c), Some(d));
  }
}
