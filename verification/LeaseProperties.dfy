/** What the lease protocol promises its callers, on every step from a reachable state. */
module LeaseProperties {
  import opened Options
  import opened Lease
  import opened LeaseSafety

  // Families of steps, to keep case analyses small.

  predicate LeaseStep(a: Step) { a.Acquire? || a.Renew? || a.Release? || a.Status? }
  predicate WriteStep(a: Step) { a.WriteEnter? || a.WriteReturns? || a.NotifyDone? }
  predicate WaitStep(a: Step) { a.Checkpoint? || a.CheckpointWakes? || a.CallerGivesUp? || a.ResolveReturns? }
  predicate CancelStep(a: Step) { a.BeginCancel? || a.ConfirmationFires? || a.TimerFires? || a.Resolve? }

  // ---- writes ------------------------------------------------------------------------

  predicate InFlight(s: State, t: Thread) {
    t in s.threads && (s.threads[t].WritingUnleased? || s.threads[t].WritingLeased?)
  }

  /** At most one write operation runs at a time. An unleased one runs while there is no lease and no
      fence; a leased one while its own lease is still held, or the Session is fenced for it. */
  lemma WritesExclude(s: State, t: Thread, u: Thread)
    requires Inv(s) && InFlight(s, t) && InFlight(s, u)
    ensures t == u
    ensures s.threads[t].WritingUnleased? ==> s.lease.None? && s.recovering.None?
    ensures s.threads[t].WritingLeased? ==>
      s.lease == Some(s.threads[t].lease) || (s.lease.None? && s.recovering == Some(s.threads[t].lease))
  {
  }

  /** While t's write operation runs, it goes on undisturbed: no other write starts, nobody is granted
      a lease, and the lease can only expire, leaving a fence behind if the write runs under it. */
  ghost predicate Undisturbed(s: State, s': State, t: Thread)
    requires InFlight(s, t)
  {
    && InFlight(s', t) && s'.threads[t] == s.threads[t]
    && s'.gate == s.gate
    && (s'.lease == s.lease || (s'.lease.None? && Overdue(s, s'.clock)))
    && (s.threads[t].WritingLeased? && s'.lease.None? ==> s'.recovering == Some(s.threads[t].lease))
  }

  lemma NothingIntervenes(s: State, a: Step, t: Thread)
    requires Inv(s) && Enabled(s, a) && InFlight(s, t) && a != WriteReturns(t)
    ensures Undisturbed(s, Apply(s, a), t)
  {
    assert s.gate == Some(t);
    if a.Resolve? || a.Checkpoint? || a.CheckpointWakes? {
      AnswersDoNotIntervene(s, a, t);
    } else {
      OthersDoNotIntervene(s, a, t);
    }
  }

  /** Everything but the control, the clock and the new threads' places. */
  ghost predicate SameOwnership(s: State, s': State, u: Thread) {
    && s'.lease == s.lease && s'.recovering == s.recovering && s'.gate == s.gate
    && forall t :: t in s.threads && t != u ==> t in s'.threads && s'.threads[t] == s.threads[t]
  }

  lemma ResolveOwnership(s: State, u: Thread, requestId: nat, cancel: bool, n1: Time, n2: Time, n3: Time)
    ensures SameOwnership(s, AfterResolve(s, u, requestId, cancel, n1, n2, n3), u)
  {
  }

  lemma CheckpointOwnership(s: State, u: Thread, owner: string, transferId: nat, n1: Time, n2: Time)
    ensures SameOwnership(s, AfterCheckpoint(s, u, owner, transferId, n1, n2), u)
  {
  }

  lemma AnswersDoNotIntervene(s: State, a: Step, t: Thread)
    requires Inv(s) && Enabled(s, a) && InFlight(s, t) && s.gate == Some(t)
    requires a.Resolve? || a.Checkpoint? || a.CheckpointWakes?
    ensures Undisturbed(s, Apply(s, a), t)
  {
    hide ControlInv, ChannelInv, WaitInv, AfterResolve, AfterCheckpoint;
    match a
    case Resolve(u, requestId, cancel, n1, n2, n3) => ResolveOwnership(s, u, requestId, cancel, n1, n2, n3);
    case Checkpoint(u, owner, n1, n2) => CheckpointOwnership(s, u, owner, 0, n1, n2);
    case CheckpointWakes(u, n1, n2) =>
      CheckpointOwnership(Return(s, u), u, s.threads[u].caller, s.threads[u].transferId, n1, n2);
    case _ =>
  }

  lemma OthersDoNotIntervene(s: State, a: Step, t: Thread)
    requires Inv(s) && Enabled(s, a) && InFlight(s, t) && s.gate == Some(t) && a != WriteReturns(t)
    requires !(a.Resolve? || a.Checkpoint? || a.CheckpointWakes?)
    ensures Undisturbed(s, Apply(s, a), t)
  {
    hide ControlInv, ChannelInv, WaitInv;
  }

  /** A fenced Session admits no write and no lease until the closing path clears the fence. */
  lemma FenceAdmitsNothing(s: State, a: Step)
    requires Inv(s) && Enabled(s, a) && s.recovering.Some?
    ensures var s' := Apply(s, a);
      && (forall u :: InFlight(s', u) ==> InFlight(s, u))
      && s'.lease.None?
      && (s'.recovering == s.recovering || (s'.recovering.None? && (a.RemoveRegistration? || a.FinishExpiry?)))
  {
  }

  // ---- deadlines ---------------------------------------------------------------------

  /** How a live lease can change: by its owner's renewal or release, by removal of the registration,
      or by expiry at a moment when its deadline has passed. */
  ghost predicate LeaseMoves(s: State, a: Step, s': State)
    requires s.lease.Some?
  {
    var lease := s.lease.value;
    || s'.lease == s.lease
    || (a.Renew? && a.owner == lease.owner && s'.lease == Some(lease.(expiresAt := s'.clock + s.ttl)))
    || (a.Release? && a.owner == lease.owner && s'.lease.None?)
    || (a.RemoveRegistration? && s'.lease.None?)
    || (s'.clock >= lease.expiresAt && s'.lease.None?)
  }

  /** No lease ends before its deadline unless its owner or the closing of its Session ends it. */
  lemma NoEarlyExpiry(s: State, a: Step)
    requires Inv(s) && Enabled(s, a) && s.lease.Some?
    ensures LeaseMoves(s, a, Apply(s, a))
  {
    hide Inv, LeaseMoves, Apply;
    if LeaseStep(a) {
      LeaseStepKeepsLease(s, a);
    } else if WriteStep(a) {
      WriteStepKeepsLease(s, a);
    } else if WaitStep(a) {
      WaitStepKeepsLease(s, a);
    } else {
      OtherStepKeepsLease(s, a);
    }
  }

  lemma LeaseStepKeepsLease(s: State, a: Step)
    requires Inv(s) && Enabled(s, a) && s.lease.Some? && LeaseStep(a)
    ensures LeaseMoves(s, a, Apply(s, a))
  {
    hide ChannelInv, WaitInv;
  }

  lemma WriteStepKeepsLease(s: State, a: Step)
    requires Inv(s) && Enabled(s, a) && s.lease.Some? && WriteStep(a)
    ensures LeaseMoves(s, a, Apply(s, a))
  {
    hide ChannelInv, WaitInv;
  }

  lemma WaitStepKeepsLease(s: State, a: Step)
    requires Inv(s) && Enabled(s, a) && s.lease.Some? && WaitStep(a)
    ensures LeaseMoves(s, a, Apply(s, a))
  {
    WaitStepMoves(s, a);
  }

  lemma OtherStepKeepsLease(s: State, a: Step)
    requires Inv(s) && Enabled(s, a) && s.lease.Some? && !LeaseStep(a) && !WriteStep(a) && !WaitStep(a)
    ensures LeaseMoves(s, a, Apply(s, a))
  {
    hide ChannelInv, WaitInv;
  }

  /** An expired transfer or debug lease, and any lease with a write in flight, leaves a fence. */
  lemma ExpiryFences(s: State, a: Step)
    requires Inv(s) && Enabled(s, a) && EndsLease(s, a) && !(a.Release? && !(TransferLease(s) && Overdue(s, a.n1)))
    ensures Apply(s, a).recovering == (if Aborts(s) then s.lease else None)
  {
  }

  /** A removal that names its registration cannot touch another registration's lease or fence; one
      without a name removes whatever is there. */
  lemma RemovalIsFenced(s: State, reference: string)
    requires Inv(s) && s.gate.None?
    ensures var s' := Apply(s, RemoveRegistration(reference));
      var foreign := (s.lease.Some? && s.lease.value.reference != reference)
                     || (s.recovering.Some? && s.recovering.value.reference != reference);
      if reference != "" && foreign then s' == s
      else s'.lease.None? && s'.timer.None? && s'.recovering.None? && s'.control.None? && s'.activeWrites == 0
  {
  }

  // A debug lease that expires; its Session is closed by name and registered again.

  const OLD := SessionLease("agent", Debug, 0, 10, "old")
  const NEW := SessionLease("next", Terminal, 0, 22, "new")

  function Debugging(): State { Initial(10).(lease := Some(OLD), timer := Some(("agent", 10))) }

  function Fenced(): State {
    Initial(10).(clock := 10, recovering := Some(OLD), threads := map[1 := TimerNotifying])
  }

  function Reopened(): State {
    Fenced().(clock := 12, recovering := None, lease := Some(NEW), timer := Some(("next", 22)))
  }

  lemma ReplacementSteps()
    ensures StepsTo(Initial(10), Acquire(0, "agent", Debug, "old", 0, 0), Debugging())
    ensures StepsTo(Debugging(), TimerFires(1, "agent", 10, 10), Fenced())
    ensures StepsTo(Fenced(), RemoveRegistration("old"), Fenced().(recovering := None))
    ensures StepsTo(Fenced().(recovering := None), Acquire(0, "next", Terminal, "new", 12, 12), Reopened())
    ensures StepsTo(Reopened(), RemoveRegistration(""), Reopened().(lease := None, timer := None))
  {
  }

  /** The unnamed clean-up that follows late then ends the replacement's live lease. */
  lemma UnnamedRemovalEndsAReplacement()
    ensures exists states: seq<State>, steps: seq<Step> ::
      && Run(states, steps) && |steps| == 5 && steps[4] == RemoveRegistration("")
      && states[4].lease == Some(NEW) && states[4].clock < NEW.expiresAt && states[5].lease.None?
  {
    hide Apply, Enabled;
    ReplacementSteps();
    var steps := [Acquire(0, "agent", Debug, "old", 0, 0), TimerFires(1, "agent", 10, 10), RemoveRegistration("old"),
                  Acquire(0, "next", Terminal, "new", 12, 12), RemoveRegistration("")];
    var states := [Initial(10), Debugging(), Fenced(), Fenced().(recovering := None), Reopened(),
                   Reopened().(lease := None, timer := None)];
    forall i | 0 <= i < 5 ensures StepsTo(states[i], steps[i], states[i + 1]) {
    }
    assert Run(states, steps);
  }

  /** The armed timer, when its time comes, ends exactly the lease it was armed for. */
  lemma TimerEndsItsLease(s: State, t: Thread, now: Time)
    requires Inv(s) && s.timer.Some? && t !in s.threads && s.clock <= now && now >= s.timer.value.1
    ensures var a := TimerFires(t, s.timer.value.0, s.timer.value.1, now);
      Enabled(s, a) && s.lease.Some? && Apply(s, a).lease.None?
  {
  }

  // ---- waiting -----------------------------------------------------------------------

  /** No wakeup is lost: as soon as the state a waiter observed is gone, its channel is closed. */
  lemma WaiterIsWoken(s: State, t: Thread, n: Time)
    requires Inv(s) && t in s.threads && s.clock <= n
    ensures s.threads[t].AwaitingChange? && !StillConfirming(s, s.threads[t]) ==> Enabled(s, CheckpointWakes(t, n, n))
    ensures s.threads[t].AwaitingRelease? && !StillCancelled(s, s.threads[t]) ==>
      Enabled(s, ResolveReturns(t)) && s.threads[t].controlId in s.results
  {
  }

  // ---- what can happen to a control --------------------------------------------------

  /** The same control, possibly with newer progress. */
  ghost predicate Unmoved(s: State, s': State) {
    s.control == s'.control
    || (s.control.Some? && s'.control.Some?
        && s'.control.value == s.control.value.(progress := s'.control.value.progress))
  }

  /** An unanswered request is withdrawn once its own deadline has passed. */
  ghost predicate Withdrawn(s: State, s': State) {
    && s.control.Some? && s.control.value.phase.Confirming? && s'.clock >= s.control.value.deadline
    && s'.control ==
         Some(s.control.value.(phase := Running, requestId := 0, timerArmed := false, changed := s.nextChannel))
    && s.control.value.changed in s'.closed
  }

  /** A running control (or one whose request has just been withdrawn) gets a request with a new ID. */
  ghost predicate Asked(s: State, s': State) {
    && s.control.Some? && s'.control.Some? && s'.control.value.id == s.control.value.id
    && (s.control.value.phase.Running?
        || (s.control.value.phase.Confirming? && s'.clock >= s.control.value.deadline
            && s.control.value.changed in s'.closed))
    && s'.control.value.phase.Confirming? && s'.control.value.requestId == s'.nextRequest == s.nextRequest + 1
  }

  /** The pending request is answered by its own ID. */
  ghost predicate Answered(s: State, a: Step, s': State) {
    && s.control.Some? && s.control.value.phase.Confirming? && a.Resolve? && a.requestId == s.control.value.requestId
    && a.n2 < s.control.value.deadline
    && s'.control == Some(s.control.value.(phase := if a.cancel then Cancelled else Running,
                                           requestId := if a.cancel then a.requestId else 0,
                                           timerArmed := false, changed := s.nextChannel))
    && s.control.value.changed in s'.closed
  }

  /** The owner finished first: the request is kept for its answer, which will be "completed". */
  ghost predicate KeptForAnswer(s: State, a: Step, s': State) {
    && s.control.Some? && s.control.value.phase.Confirming? && a.Release? && s'.lease.None?
    && s'.control == Some(s.control.value.(phase := Completed, timerArmed := false))
    && s.control.value.changed in s'.closed && s.control.value.released in s'.closed
    && s.control.value.id in s'.results
    && s'.results[s.control.value.id] == Resolution(WasCompleted, s.control.value.progress)
  }

  /** The control goes with both channels closed and its result written. */
  ghost predicate Dropped(s: State, a: Step, s': State) {
    && s.control.Some? && s'.control.None? && s'.lease.None?
    && s.control.value.changed in s'.closed && s.control.value.released in s'.closed
    && (!s.control.value.phase.Completed? ==>
          s.control.value.id in s'.results && s'.results[s.control.value.id] == LastResult(s, a))
  }

  /** A completed control goes when it is answered. */
  ghost predicate Consumed(s: State, a: Step, s': State) {
    && s.control.Some? && s.control.value.phase.Completed? && s'.control.None? && a.Resolve?
    && a.requestId == s.control.value.requestId
    && s.control.value.changed in s'.closed && s.control.value.released in s'.closed
  }

  /** A new transfer starts with a new control; nothing pending was overwritten. */
  ghost predicate Replaced(s: State, s': State) {
    && (s.control.Some? ==> s.control.value.phase.Completed?
                            && s.control.value.changed in s'.closed && s.control.value.released in s'.closed)
    && s'.control.Some? && s'.control.value.phase.Running? && s'.control.value.requestId == 0
    && s'.control.value.id == s.nextControl && s'.lease.Some?
  }

  /** What a dropped control tells its canceller: cancelled by the owner's release, expired, or
      nothing at all when the transfer was still running or the registration was removed. */
  function LastResult(s: State, a: Step): Resolution
    requires s.control.Some?
  {
    if a.RemoveRegistration? then Unset
    else if a.Release? && !Overdue(s, a.n1) then
      if s.control.value.phase.Cancelled? then Resolution(WasCancelled, s.control.value.progress) else Unset
    else Resolution(LeaseExpired, s.control.value.progress)
  }

  ghost predicate ControlMoves(s: State, a: Step, s': State) {
    && s'.nextRequest >= s.nextRequest && s'.nextControl >= s.nextControl
    && (Unmoved(s, s') || Withdrawn(s, s') || Asked(s, s') || Answered(s, a, s') || KeptForAnswer(s, a, s')
        || Dropped(s, a, s') || Consumed(s, a, s') || Replaced(s, s'))
  }

  lemma LeaseStepMoves(s: State, a: Step)
    requires Inv(s) && Enabled(s, a) && !(Retained(s) && EndsLease(s, a)) && LeaseStep(a)
    ensures ControlMoves(s, a, Apply(s, a))
  {
    if a.Release? {
      ReleaseMoves(s, a);
    } else {
      GrantingMoves(s, a);
    }
  }

  lemma ReleaseMoves(s: State, a: Step)
    requires Inv(s) && Enabled(s, a) && !(Retained(s) && EndsLease(s, a)) && a.Release?
    ensures ControlMoves(s, a, Apply(s, a))
  {
    hide LeaseInv, GateInv, WaitInv;
  }

  lemma GrantingMoves(s: State, a: Step)
    requires Inv(s) && Enabled(s, a) && !(Retained(s) && EndsLease(s, a)) && LeaseStep(a) && !a.Release?
    ensures ControlMoves(s, a, Apply(s, a))
  {
    if a.Acquire? {
      AcquireMoves(s, a);
    } else {
      RenewalMoves(s, a);
    }
  }

  lemma AcquireMoves(s: State, a: Step)
    requires Inv(s) && Enabled(s, a) && !(Retained(s) && EndsLease(s, a)) && a.Acquire?
    ensures ControlMoves(s, a, Apply(s, a))
  {
    hide GateInv, WaitInv;
  }

  lemma RenewalMoves(s: State, a: Step)
    requires Inv(s) && Enabled(s, a) && !(Retained(s) && EndsLease(s, a)) && (a.Renew? || a.Status?)
    ensures ControlMoves(s, a, Apply(s, a))
  {
    hide GateInv, WaitInv;
  }

  lemma WriteStepMoves(s: State, a: Step)
    requires Inv(s) && Enabled(s, a) && !(Retained(s) && EndsLease(s, a)) && WriteStep(a)
    ensures ControlMoves(s, a, Apply(s, a))
  {
    if a.NotifyDone? {
      NotifyMoves(s, a);
    } else {
      WritingMoves(s, a);
    }
  }

  lemma NotifyMoves(s: State, a: Step)
    requires Inv(s) && Enabled(s, a) && a.NotifyDone?
    ensures ControlMoves(s, a, Apply(s, a))
  {
    hide ChannelInv, WaitInv;
  }

  lemma WritingMoves(s: State, a: Step)
    requires Inv(s) && Enabled(s, a) && !(Retained(s) && EndsLease(s, a)) && (a.WriteEnter? || a.WriteReturns?)
    ensures ControlMoves(s, a, Apply(s, a))
  {
    hide ChannelInv, GateInv, WaitInv;
  }

  lemma CheckpointMoves(s: State, t: Thread, owner: string, transferId: nat, n1: Time, n2: Time)
    ensures var s' := AfterCheckpoint(s, t, owner, transferId, n1, n2);
      (Unmoved(s, s') || Withdrawn(s, s')) && s'.nextRequest == s.nextRequest && s'.nextControl == s.nextControl
    ensures AfterCheckpoint(s, t, owner, transferId, n1, n2).lease == s.lease
  {
  }

  lemma WaitStepMoves(s: State, a: Step)
    requires Inv(s) && Enabled(s, a) && WaitStep(a)
    ensures ControlMoves(s, a, Apply(s, a)) && Apply(s, a).lease == s.lease
  {
    hide LeaseInv, ControlInv, ChannelInv, GateInv, WaitInv, AfterCheckpoint;
    match a
    case Checkpoint(t, owner, n1, n2) => CheckpointMoves(s, t, owner, 0, n1, n2);
    case CheckpointWakes(t, n1, n2) =>
      CheckpointMoves(Return(s, t), t, s.threads[t].caller, s.threads[t].transferId, n1, n2);
    case _ =>
  }

  lemma ResolveMoves(s: State, a: Step)
    requires Inv(s) && Enabled(s, a) && a.Resolve?
    ensures ControlMoves(s, a, Apply(s, a))
  {
    hide ChannelInv, GateInv, WaitInv, Expire;
  }

  lemma CancelStepMoves(s: State, a: Step)
    requires Inv(s) && Enabled(s, a) && !(Retained(s) && EndsLease(s, a)) && CancelStep(a) && !a.Resolve?
    ensures ControlMoves(s, a, Apply(s, a))
  {
    if a.BeginCancel? {
      BeginMoves(s, a);
    } else {
      TimerMoves(s, a);
    }
  }

  lemma BeginMoves(s: State, a: Step)
    requires Inv(s) && Enabled(s, a) && a.BeginCancel?
    ensures ControlMoves(s, a, Apply(s, a))
  {
    hide ChannelInv, GateInv, WaitInv;
  }

  lemma TimerMoves(s: State, a: Step)
    requires Inv(s) && Enabled(s, a) && !(Retained(s) && EndsLease(s, a)) && (a.ConfirmationFires? || a.TimerFires?)
    ensures ControlMoves(s, a, Apply(s, a))
  {
    hide ChannelInv, GateInv, WaitInv;
  }

  lemma HouseStepMoves(s: State, a: Step)
    requires Inv(s) && Enabled(s, a) && !LeaseStep(a) && !WriteStep(a) && !WaitStep(a) && !CancelStep(a)
    ensures ControlMoves(s, a, Apply(s, a))
  {
    hide GateInv, WaitInv;
  }

  /** Every step moves the control in one of these eight ways. */
  lemma EveryStepMoves(s: State, a: Step)
    requires Inv(s) && Enabled(s, a) && !(Retained(s) && EndsLease(s, a))
    ensures ControlMoves(s, a, Apply(s, a))
  {
    hide Inv, ControlMoves, Apply;
    if LeaseStep(a) {
      LeaseStepMoves(s, a);
    } else if WriteStep(a) {
      WriteStepMoves(s, a);
    } else if WaitStep(a) {
      WaitStepMoves(s, a);
    } else if a.Resolve? {
      ResolveMoves(s, a);
    } else if CancelStep(a) {
      CancelStepMoves(s, a);
    } else {
      HouseStepMoves(s, a);
    }
  }

  // ---- cancellation ------------------------------------------------------------------

  /** A dropped or replaced control has had both channels closed. */
  lemma DroppedControlsAreClosed(s: State, a: Step)
    requires Inv(s) && Enabled(s, a) && !(Retained(s) && EndsLease(s, a)) && s.control.Some?
    requires Apply(s, a).control.None? || Apply(s, a).control.value.id != s.control.value.id
    ensures var c := s.control.value; c.changed in Apply(s, a).closed && c.released in Apply(s, a).closed
  {
    hide GateInv, WaitInv, Apply;
    EveryStepMoves(s, a);
  }

  /** A confirmed cancellation stays confirmed until its control is dropped; what the canceller then
      reads says how: cancelled by the owner's release, expired, or nothing if the Session went. */
  lemma ConfirmedStaysConfirmed(s: State, a: Step)
    requires Inv(s) && Enabled(s, a) && s.control.Some? && s.control.value.phase.Cancelled?
    ensures var c, s' := s.control.value, Apply(s, a);
      || (s'.control.Some? && s'.control.value.(progress := c.progress) == c)
      || (s'.control.None? && c.id in s'.results && s'.results[c.id] ==
            if a.RemoveRegistration? then Unset
            else if a.Release? && !Overdue(s, a.n1) then Resolution(WasCancelled, c.progress)
            else Resolution(LeaseExpired, c.progress))
  {
    hide GateInv, WaitInv, Apply;
    EveryStepMoves(s, a);
  }

  // A transfer whose cancellation is confirmed, and whose Session is then removed.

  function Cancelling(): State {
    Asking().(clock := 2, threads := map[7 := AwaitingRelease(0, 1)],
              control := Some(Control(0, Cancelled, 1, false, 1 + CONFIRMATION_TIMEOUT, 2, 1, NOTHING_YET)),
              nextChannel := 3, closed := multiset{0})
  }

  function RemovedUnderCancel(): State {
    Cancelling().(lease := None, timer := None, control := None, closed := multiset{0, 1, 2},
                  results := map[0 := Unset])
  }

  lemma ConfirmStep()
    ensures StepsTo(Asking(), Resolve(7, 1, true, 2, 2, 2), Cancelling())
  {
    assert multiset{} + multiset{0} == multiset{0};
  }

  lemma RemovalStep()
    ensures StepsTo(Cancelling(), RemoveRegistration("ref"), RemovedUnderCancel())
  {
    assert multiset{0} + multiset{1, 2} == multiset{0, 1, 2};
  }

  /** The waiting canceller then returns with a result that was never written. */
  lemma RemovalLeavesNoResult()
    ensures exists states: seq<State>, steps: seq<Step> ::
      && Run(states, steps) && |steps| == 4 && steps[3] == RemoveRegistration("ref")
      && Enabled(states[4], ResolveReturns(7))
      && 7 in states[4].threads && states[4].threads[7] == AwaitingRelease(0, 1)
      && states[4].results == map[0 := Unset]
  {
    hide Apply, Enabled, Sending, Asking, Cancelling, RemovedUnderCancel;
    TransferSteps();
    ConfirmStep();
    RemovalStep();
    CancellerReturns();
    var steps := [Acquire(0, "sender", FileTransfer, "ref", 0, 0), BeginCancel(1, 1, 1), Resolve(7, 1, true, 2, 2, 2),
                  RemoveRegistration("ref")];
    var states := [Initial(10), Sending(), Asking(), Cancelling(), RemovedUnderCancel()];
    forall i | 0 <= i < 4 ensures StepsTo(states[i], steps[i], states[i + 1]) {
    }
    assert Run(states, steps);
  }

  lemma CancellerReturns()
    ensures 7 in RemovedUnderCancel().threads && RemovedUnderCancel().threads[7] == AwaitingRelease(0, 1)
    ensures Enabled(RemovedUnderCancel(), ResolveReturns(7)) && RemovedUnderCancel().results == map[0 := Unset]
  {
  }

  /** A request is dead once no confirming or completed control carries its ID. */
  predicate Dead(s: State, requestId: nat) {
    && 0 < requestId <= s.nextRequest
    && !(s.control.Some? && s.control.value.requestId == requestId
         && (s.control.value.phase.Confirming? || s.control.value.phase.Completed?))
  }

  /** Withdrawn, answered and superseded requests stay dead. */
  lemma DeadStaysDead(s: State, a: Step, requestId: nat)
    requires Inv(s) && Enabled(s, a) && !(Retained(s) && EndsLease(s, a)) && Dead(s, requestId)
    ensures Dead(Apply(s, a), requestId)
  {
    hide GateInv, WaitInv, Apply;
    EveryStepMoves(s, a);
  }

  /** On a whole run, a dead request never comes back to life. */
  lemma {:induction false} DeadForever(states: seq<State>, steps: seq<Step>, i: nat, j: nat, requestId: nat)
    requires Run(states, steps) && i <= j <= |steps| && Dead(states[i], requestId)
    requires forall k :: 0 <= k < |steps| ==> !EndsRetained(states, steps, k)
    ensures Dead(states[j], requestId)
    decreases j
  {
    hide Inv, Apply, Enabled, EndsLease, Dead;
    if i < j {
      DeadForever(states, steps, i, j - 1, requestId);
      RunsAreSafe(states, steps);
      assert Inv(states[j - 1]) && !EndsRetained(states, steps, j - 1);
      DeadStaysDead(states[j - 1], steps[j - 1], requestId);
    }
  }

  /** The control, if it is still there, has its cancellation confirmed. */
  predicate NotResumed(s: State, control: nat) {
    control < s.nextControl && (s.control.Some? && s.control.value.id == control ==> s.control.value.phase.Cancelled?)
  }

  lemma NotResumedStep(s: State, a: Step, control: nat)
    requires Inv(s) && Enabled(s, a) && !(Retained(s) && EndsLease(s, a)) && NotResumed(s, control)
    ensures NotResumed(Apply(s, a), control)
  {
    hide GateInv, WaitInv, Apply;
    EveryStepMoves(s, a);
  }

  /** On a whole run, a confirmed cancellation never goes back to running. */
  lemma {:induction false} ConfirmedForever(states: seq<State>, steps: seq<Step>, i: nat, j: nat)
    requires Run(states, steps) && i <= j <= |steps|
    requires states[i].control.Some? && states[i].control.value.phase.Cancelled?
    requires forall k :: 0 <= k < |steps| ==> !EndsRetained(states, steps, k)
    ensures NotResumed(states[j], states[i].control.value.id)
    decreases j
  {
    hide Apply, Enabled, EndsLease;
    RunsAreSafe(states, steps);
    assert Inv(states[i]);
    if i < j {
      ConfirmedForever(states, steps, i, j - 1);
      assert Inv(states[j - 1]) && !EndsRetained(states, steps, j - 1);
      NotResumedStep(states[j - 1], steps[j - 1], states[i].control.value.id);
    }
  }

  /** An answer to a dead request does nothing but notice that another request is overdue, and its
      late timer does nothing at all. */
  lemma DeadRequestsDoNothing(s: State, a: Step, requestId: nat)
    requires Inv(s) && Enabled(s, a) && Dead(s, requestId)
    ensures a.Resolve? && a.requestId == requestId ==>
      Apply(s, a).control == if s.lease.Some? && !Overdue(s, a.n1) then Withdraw(s, a.n2).control else s.control
    ensures a.ConfirmationFires? && a.requestId == requestId ==> Apply(s, a) == At(s, a.n1)
  {
  }

  /** A pending request leaves the confirming phase by its own answer, by its own deadline, or by the
      end of the transfer. */
  lemma ConfirmingEndsByAnswerOrDeadline(s: State, a: Step)
    requires Inv(s) && Enabled(s, a) && s.control.Some? && s.control.value.phase.Confirming?
    ensures var c, s' := s.control.value, Apply(s, a);
      || (s'.control.Some? && s'.control.value.(progress := c.progress) == c)
      || (a.Resolve? && a.requestId == c.requestId && a.n2 < c.deadline)
      || (s'.control.Some? && s'.control.value.id == c.id && s'.clock >= c.deadline)
      || (s.lease.Some? && s'.lease.None?)
  {
    hide GateInv, WaitInv, Apply;
    EveryStepMoves(s, a);
  }

  // ---- checkpoints -------------------------------------------------------------------

  /** A checkpoint lets the transfer go on only while its caller holds the same, unexpired transfer
      lease, and no cancellation is confirmed or still open. */
  lemma ContinueMeansOwned(s: State, owner: string, transferId: nat, n1: Time, n2: Time)
    requires Inv(s) && s.clock <= n1 <= n2 && CheckpointVerdict(s, owner, transferId, n1, n2) == Continue
    ensures s.lease.Some? && s.lease.value.owner == owner && s.lease.value.typ.FileTransfer?
    ensures n1 < s.lease.value.expiresAt && (transferId != 0 ==> s.lease.value.transferId == transferId)
    ensures s.control.Some?
    ensures s.control.value.phase.Running? || (s.control.value.phase.Confirming? && n2 >= s.control.value.deadline)
  {
  }

  /** A checkpoint that waited judges the transfer it started with. */
  lemma WaitingKeepsTheTransfer(s: State, t: Thread, owner: string, transferId: nat, n1: Time, n2: Time)
    requires Inv(s) && t !in s.threads && s.clock <= n1 <= n2
    requires CheckpointVerdict(s, owner, transferId, n1, n2) == Wait
    ensures var s' := AfterCheckpoint(s, t, owner, transferId, n1, n2);
      && t in s'.threads && s'.threads[t].AwaitingChange? && s'.threads[t].caller == owner
      && s'.threads[t].transferId == s.lease.value.transferId != 0
      && s'.threads[t].channel !in s'.closed
  {
  }
}
