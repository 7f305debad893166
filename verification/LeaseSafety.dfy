/** What every interleaving of lease operations keeps. */
module LeaseSafety {
  import opened Options
  import opened Lease

  // ---- the invariant -----------------------------------------------------------------

  /** A lease and a recovery fence exclude each other, and exactly one timer is armed for a live
      lease: for its current owner and deadline. */
  ghost predicate LeaseInv(s: State) {
    && !(s.lease.Some? && s.recovering.Some?)
    && s.timer == (if s.lease.Some? then Some((s.lease.value.owner, s.lease.value.expiresAt)) else None)
    && (s.lease.Some? ==> (s.lease.value.typ.FileTransfer? <==> s.lease.value.transferId > 0))
    && (s.lease.Some? ==> s.lease.value.transferId <= s.nextTransfer)
  }

  /** A control with open channels belongs to the current transfer lease; any other control is a
      completed one kept for its answer, whose channels are closed. */
  ghost predicate ControlInv(s: State) {
    && (TransferLease(s) ==> s.control.Some?)
    && (s.control.Some? ==> ControlOk(s, s.control.value))
  }

  ghost predicate ControlOk(s: State, c: Control) {
    && c.id < s.nextControl && c.changed < s.nextChannel && c.released < s.nextChannel && c.changed != c.released
    && (TransferLease(s) <==> !c.phase.Completed?)
    && (!c.phase.Completed? ==> c.changed !in s.closed && c.released !in s.closed && c.id !in s.results)
    && (c.phase.Completed? ==> c.changed in s.closed && c.released in s.closed)
    && (c.timerArmed <==> c.phase.Confirming?)
    && (c.requestId == 0 <==> c.phase.Running?) && c.requestId <= s.nextRequest
  }

  /** No channel has been closed twice. */
  ghost predicate ChannelInv(s: State) {
    && (forall ch :: ch in s.closed ==> ch < s.nextChannel && s.closed[ch] == 1)
    && (forall id :: id in s.results ==> id < s.nextControl)
  }

  /** The gate holder is the one thread at a gate-holding point. Who was told that the Session has no
      owner is right until it returns; who writes under a lease holds it still, or it is fenced. */
  ghost predicate GateInv(s: State) {
    && (forall t :: t in s.threads ==> (s.threads[t].HoldsGate() <==> s.gate == Some(t)))
    && (s.gate.Some? ==> s.gate.value in s.threads)
    && (s.gate.Some? ==> HolderOk(s, s.threads[s.gate.value]))
    && s.activeWrites == (if s.gate.Some? && s.threads[s.gate.value].WritingLeased? then 1 else 0)
  }

  ghost predicate HolderOk(s: State, pc: Pc) {
    && (pc.AssumesNoLease() ==> s.lease.None? && s.recovering.None?)
    && (pc.WritingLeased? ==> s.lease == Some(pc.lease) || s.recovering == Some(pc.lease))
  }

  /** A waiter's channel is closed, or the state it waits to see changed is still there. */
  ghost predicate WaitInv(s: State) {
    forall t :: t in s.threads ==> WaiterOk(s, s.threads[t])
  }

  ghost predicate WaiterOk(s: State, pc: Pc) {
    && (pc.AwaitingChange? ==>
          && pc.channel < s.nextChannel && pc.transferId != 0
          && (pc.channel in s.closed || StillConfirming(s, pc)))
    && (pc.AwaitingRelease? ==>
          && pc.channel < s.nextChannel
          && ((pc.channel in s.closed && pc.controlId in s.results) || StillCancelled(s, pc)))
  }

  ghost predicate StillConfirming(s: State, pc: Pc)
    requires pc.AwaitingChange?
  {
    && TransferLease(s) && s.lease.value.owner == pc.caller && s.lease.value.transferId == pc.transferId
    && s.control.Some? && s.control.value.id == pc.controlId
    && s.control.value.phase.Confirming? && s.control.value.changed == pc.channel
  }

  ghost predicate StillCancelled(s: State, pc: Pc)
    requires pc.AwaitingRelease?
  {
    && s.control.Some? && s.control.value.id == pc.controlId
    && s.control.value.phase.Cancelled? && s.control.value.released == pc.channel
  }

  ghost predicate Inv(s: State) {
    LeaseInv(s) && ControlInv(s) && ChannelInv(s) && GateInv(s) && WaitInv(s)
  }

  /** A completed, unanswered confirmation is retained. */
  predicate Retained(s: State) { s.control.Some? && s.control.value.phase.Completed? }

  /** Whether this step ends the lease by release or expiry. */
  predicate EndsLease(s: State, a: Step) {
    match a
    case Acquire(_, _, _, _, n1, _) => s.recovering.None? && Overdue(s, n1)
    case Renew(_, owner, n1, _) => Owned(s, owner) && Overdue(s, n1)
    case Release(_, owner, _) => Owned(s, owner)
    case TimerFires(_, owner, expiresAt, n1) =>
      Owned(s, owner) && s.lease.value.expiresAt == expiresAt && Overdue(s, n1)
    case Status(_, n1) => Overdue(s, n1)
    case WriteEnter(_, _, n1) => s.recovering.None? && Overdue(s, n1)
    case _ => false
  }

  // ---- pieces ------------------------------------------------------------------------

  lemma ExpireKeeps(s: State)
    requires Inv(s) && s.lease.Some? && !Retained(s)
    ensures Inv(Expire(s))
  {
  }

  lemma ReturnKeeps(s: State, t: Thread)
    requires Inv(s) && t in s.threads && !s.threads[t].WritingLeased?
    ensures Inv(Return(s, t))
  {
  }

  lemma EnterGate(s: State, t: Thread, pc: Pc)
    requires Inv(s) && t !in s.threads && s.gate.None? && pc.HoldsGate() && !pc.WritingLeased?
    requires HolderOk(s, pc)
    ensures Inv(Enter(s, t, pc))
  {
  }

  lemma EnterWaiting(s: State, t: Thread, pc: Pc)
    requires Inv(s) && t !in s.threads && !pc.HoldsGate() && WaiterOk(s, pc)
    ensures Inv(Enter(s, t, pc))
  {
  }

  lemma GrantKeeps(s: State, owner: string, typ: LeaseType, reference: string, now: Time)
    requires Inv(s) && s.gate.None? && s.lease.None? && s.recovering.None?
    ensures Inv(Grant(s, owner, typ, reference, now))
  {
  }

  lemma RenewedKeeps(s: State, phase: Phase, requestId: nat)
    requires Inv(s) && s.control.Some? && s.control.value.phase.Confirming?
    requires (phase.Running? && requestId == 0) || (phase.Cancelled? && requestId == s.control.value.requestId)
    ensures Inv(Renewed(s, phase, requestId))
  {
  }

  lemma WithdrawKeeps(s: State, now: Time)
    requires Inv(s)
    ensures Inv(Withdraw(s, now))
  {
    if s.control.Some? && s.control.value.phase.Confirming? && now >= s.control.value.deadline {
      RenewedKeeps(s, Running, 0);
    }
  }

  lemma AtKeeps(s: State, now: Time)
    requires Inv(s)
    ensures Inv(At(s, now))
  {
  }

  lemma AfterReleaseKeeps(s: State)
    requires Inv(s) && s.lease.Some? && !Retained(s) && s.gate.None?
    ensures Inv(AfterRelease(s))
  {
    ReleaseKeepsControl(s);
    ReleaseKeepsGate(s);
    ReleaseKeepsWaiters(s);
  }

  lemma ReleaseKeepsControl(s: State)
    requires Inv(s) && s.lease.Some? && !Retained(s) && s.gate.None?
    ensures var s' := AfterRelease(s); LeaseInv(s') && ControlInv(s') && ChannelInv(s')
  {
    hide GateInv, WaitInv;
  }

  lemma ReleaseKeepsGate(s: State)
    requires Inv(s) && s.lease.Some? && s.gate.None?
    ensures GateInv(AfterRelease(s))
  {
    hide LeaseInv, ControlInv, ChannelInv, WaitInv;
  }

  lemma ReleaseKeepsWaiters(s: State)
    requires Inv(s) && s.lease.Some? && !Retained(s) && s.gate.None?
    ensures WaitInv(AfterRelease(s))
  {
    hide GateInv;
  }

  // ---- every step --------------------------------------------------------------------

  lemma GateSteps(s: State, a: Step)
    requires Inv(s) && Enabled(s, a) && !(Retained(s) && EndsLease(s, a))
    requires a.Acquire? || a.Renew? || a.Release? || a.Status?
    ensures Inv(Apply(s, a))
  {
    hide ControlInv, ChannelInv, WaitInv;
    match a
    case Acquire(t, owner, typ, reference, n1, n2) =>
      AtKeeps(s, n1);
      if s.recovering.None? && s.lease.None? {
        GrantKeeps(s, owner, typ, reference, n2);
      } else if s.recovering.None? && Overdue(s, n1) {
        ExpireKeeps(At(s, n1));
        EnterGate(Expire(At(s, n1)), t, if Aborts(s) then NotifyThenReturn else NotifyThenGrant(owner, typ, reference));
      }
    case Renew(t, owner, n1, n2) =>
      if Owned(s, owner) {
        AtKeeps(s, n1);
        if Overdue(s, n1) {
          ExpireKeeps(At(s, n1));
          EnterGate(Expire(At(s, n1)), t, NotifyThenReturn);
        } else {
          RenewKeeps(s, n2);
        }
      }
    case Release(t, owner, n1) =>
      if Owned(s, owner) {
        AtKeeps(s, n1);
        if TransferLease(s) && Overdue(s, n1) {
          ExpireKeeps(At(s, n1));
          EnterGate(Expire(At(s, n1)), t, NotifyThenReturn);
        } else {
          AfterReleaseKeeps(At(s, n1));
        }
      }
    case Status(t, n1) =>
      AtKeeps(s, n1);
      if Overdue(s, n1) {
        ExpireKeeps(At(s, n1));
        EnterGate(Expire(At(s, n1)), t, NotifyThenReturn);
      }
  }

  lemma RenewKeeps(s: State, now: Time)
    requires Inv(s) && s.lease.Some? && s.gate.None?
    ensures var lease := s.lease.value.(expiresAt := now + s.ttl);
      Inv(At(s, now).(lease := Some(lease), timer := Some((lease.owner, lease.expiresAt))))
  {
  }

  lemma WriteSteps(s: State, a: Step)
    requires Inv(s) && Enabled(s, a) && !(Retained(s) && EndsLease(s, a))
    requires a.WriteEnter? || a.WriteReturns? || a.NotifyDone?
    ensures Inv(Apply(s, a))
  {
    hide ControlInv, ChannelInv, WaitInv;
    match a
    case WriteEnter(t, owner, n1) =>
      AtKeeps(s, n1);
      if s.recovering.Some? {
      } else if Overdue(s, n1) {
        ExpireKeeps(At(s, n1));
        EnterGate(Expire(At(s, n1)), t, if owner != "" || Aborts(s) then NotifyThenReturn else NotifyThenWrite);
      } else if owner != "" {
        if Owned(s, owner) {
          LeasedWriteStarts(At(s, n1), t);
        }
      } else if s.lease.None? {
        EnterGate(At(s, n1), t, WritingUnleased);
      }
    case WriteReturns(t) =>
      if s.threads[t].WritingLeased? {
        LeasedWriteEnds(s, t);
      } else {
        ReturnKeeps(s, t);
      }
    case NotifyDone(t, n1) =>
      ReturnKeeps(s, t);
      if s.threads[t].NotifyThenGrant? {
        GrantKeeps(Return(s, t), s.threads[t].owner, s.threads[t].typ, s.threads[t].reference, n1);
      } else if s.threads[t].NotifyThenWrite? {
        UnleasedWriteStarts(s, t);
      }
  }

  lemma LeasedWriteStarts(s: State, t: Thread)
    requires Inv(s) && t !in s.threads && s.gate.None? && s.lease.Some?
    ensures Inv(Enter(s.(activeWrites := s.activeWrites + 1), t, WritingLeased(s.lease.value)))
  {
  }

  lemma LeasedWriteEnds(s: State, t: Thread)
    requires Inv(s) && t in s.threads && s.threads[t].WritingLeased?
    ensures s.activeWrites == 1
    ensures Inv(Return(s.(activeWrites := 0), t))
  {
  }

  lemma UnleasedWriteStarts(s: State, t: Thread)
    requires Inv(s) && t in s.threads && s.threads[t].NotifyThenWrite?
    ensures Inv(Enter(s, t, WritingUnleased))
  {
  }

  lemma AnswerKeeps(w: State, t: Thread)
    requires Inv(w) && t !in w.threads && w.control.Some? && w.control.value.phase.Confirming?
    ensures Inv(Renewed(w, Running, 0))
    ensures var c := w.control.value;
      Inv(Enter(Renewed(w, Cancelled, c.requestId), t, AwaitingRelease(c.id, c.released)))
  {
    var c := w.control.value;
    RenewedKeeps(w, Running, 0);
    RenewedKeeps(w, Cancelled, c.requestId);
    EnterWaiting(Renewed(w, Cancelled, c.requestId), t, AwaitingRelease(c.id, c.released));
  }

  lemma DropCompleted(s: State)
    requires Inv(s) && Retained(s)
    ensures Inv(s.(control := None))
  {
  }

  lemma ResolveKeeps(s: State, t: Thread, requestId: nat, cancel: bool, n1: Time, n2: Time, n3: Time)
    requires Inv(s) && t !in s.threads
    ensures Inv(AfterResolve(s, t, requestId, cancel, n1, n2, n3))
  {
    hide LeaseInv, ControlInv, ChannelInv, GateInv, WaitInv;
    if s.control.Some? && s.control.value.phase.Completed? && s.control.value.requestId == requestId {
      DropCompleted(s);
    } else {
      var w := if s.control.Some? && s.lease.Some? && !Overdue(s, n1) then Withdraw(At(s, n2), n2) else At(s, n1);
      AtKeeps(s, n1);
      AtKeeps(s, n2);
      WithdrawKeeps(At(s, n2), n2);
      AtKeeps(w, n3);
      if w.control.Some? && w.control.value.phase.Confirming? && w.control.value.requestId == requestId {
        AnswerKeeps(At(w, n3), t);
      }
    }
  }

  lemma CheckpointKeeps(s: State, t: Thread, owner: string, transferId: nat, n1: Time, n2: Time)
    requires Inv(s) && t !in s.threads
    ensures Inv(AfterCheckpoint(s, t, owner, transferId, n1, n2))
  {
    AtKeeps(s, n1);
    AtKeeps(s, n2);
    WithdrawKeeps(At(s, n2), n2);
    if CheckpointVerdict(s, owner, transferId, n1, n2).Wait? {
      var w := Withdraw(At(s, n2), n2);
      EnterWaiting(w, t, AwaitingChange(owner, w.lease.value.transferId, w.control.value.id, w.control.value.changed));
    }
  }

  lemma AsksKeeps(s: State, now: Time)
    requires Inv(s) && s.control.Some? && s.control.value.phase.Running?
    ensures Inv(Asks(s, now))
  {
  }

  lemma BeginCancelKeeps(s: State, n1: Time, n2: Time, n3: Time)
    requires Inv(s) && Enabled(s, BeginCancel(n1, n2, n3))
    ensures Inv(Apply(s, BeginCancel(n1, n2, n3)))
  {
    hide Inv, Asks;
    AtKeeps(s, n1);
    AtKeeps(s, n2);
    var w := Withdraw(At(s, n2), n2);
    WithdrawKeeps(At(s, n2), n2);
    AtKeeps(w, n3);
    if w.control.Some? && w.control.value.phase.Running? {
      AsksKeeps(At(w, n3), n3);
    }
  }

  lemma WaitSteps(s: State, a: Step)
    requires Inv(s) && Enabled(s, a) && !(Retained(s) && EndsLease(s, a))
    requires a.Resolve? || a.ResolveReturns? || a.Checkpoint? || a.CheckpointWakes? || a.CallerGivesUp?
      || a.BeginCancel? || a.ConfirmationFires? || a.TimerFires?
    ensures Inv(Apply(s, a))
  {
    hide LeaseInv, ControlInv, ChannelInv, GateInv, WaitInv, AfterResolve, AfterCheckpoint, Expire, Withdraw;
    match a
    case Resolve(t, requestId, cancel, n1, n2, n3) => ResolveKeeps(s, t, requestId, cancel, n1, n2, n3);
    case ResolveReturns(t) => ReturnKeeps(s, t);
    case Checkpoint(t, owner, n1, n2) => CheckpointKeeps(s, t, owner, 0, n1, n2);
    case CheckpointWakes(t, n1, n2) =>
      ReturnKeeps(s, t);
      CheckpointKeeps(Return(s, t), t, s.threads[t].caller, s.threads[t].transferId, n1, n2);
    case CallerGivesUp(t) => ReturnKeeps(s, t);
    case BeginCancel(n1, n2, n3) => BeginCancelKeeps(s, n1, n2, n3);
    case ConfirmationFires(t, controlId, requestId, n1, n2, n3) =>
      ConfirmationKeeps(s, t, controlId, requestId, n1, n2, n3);
    case TimerFires(t, owner, expiresAt, n1) =>
      AtKeeps(s, n1);
      if Owned(s, owner) && s.lease.value.expiresAt == expiresAt && Overdue(s, n1) {
        ExpireKeeps(At(s, n1));
        ExpiredThreads(At(s, n1));
        EnterWaiting(Expire(At(s, n1)), t, TimerNotifying);
      }
  }

  lemma ExpiredThreads(s: State)
    requires s.lease.Some?
    ensures Expire(s).threads == s.threads && Expire(s).gate == s.gate
  {
  }

  lemma ConfirmationKeeps(s: State, t: Thread, controlId: nat, requestId: nat, n1: Time, n2: Time, n3: Time)
    requires Inv(s) && Enabled(s, ConfirmationFires(t, controlId, requestId, n1, n2, n3))
    ensures Inv(Apply(s, ConfirmationFires(t, controlId, requestId, n1, n2, n3)))
  {
    AtKeeps(s, n1);
    AtKeeps(s, n2);
    AtKeeps(s, n3);
    WithdrawKeeps(At(s, n3), n3);
    if s.control.Some? && s.control.value.phase.Confirming? && Overdue(s, n2) {
      ExpireKeeps(At(s, n2));
      ExpiredThreads(At(s, n2));
      EnterWaiting(Expire(At(s, n2)), t, TimerNotifying);
    }
  }

  lemma RemovalKeeps(s: State)
    requires Inv(s) && s.gate.None?
    ensures var removed := s.(lease := None, timer := None, recovering := None, activeWrites := 0);
      Inv(if s.control.None? then removed
          else if s.control.value.phase.Completed? then removed.(control := None)
          else DropControl(removed, Unset))
  {
  }

  lemma OtherSteps(s: State, a: Step)
    requires Inv(s) && Enabled(s, a)
    requires a.RecordProgress? || a.RemoveRegistration? || a.FinishExpiry? || a.OtherSession?
    ensures Inv(Apply(s, a))
  {
    if a.RemoveRegistration? {
      hide Inv, DropControl;
      RemovalKeeps(s);
    } else {
      SmallSteps(s, a);
    }
  }

  lemma SmallSteps(s: State, a: Step)
    requires Inv(s) && Enabled(s, a)
    requires a.RecordProgress? || a.FinishExpiry? || a.OtherSession?
    ensures Inv(Apply(s, a))
  {
  }

  /** Every step keeps the invariant, unless it ends a lease while a completed confirmation is
      retained: then, and only then, a channel is closed a second time. */
  lemma StepKeeps(s: State, a: Step)
    requires Inv(s) && Enabled(s, a)
    ensures Retained(s) && EndsLease(s, a) ==> Apply(s, a).closed[s.control.value.released] == 2
    ensures !(Retained(s) && EndsLease(s, a)) ==> Inv(Apply(s, a))
  {
    if Retained(s) && EndsLease(s, a) {
      RetainedPanics(s, a);
    } else if a.Acquire? || a.Renew? || a.Release? || a.Status? {
      GateSteps(s, a);
    } else if a.WriteEnter? || a.WriteReturns? || a.NotifyDone? {
      WriteSteps(s, a);
    } else if a.RecordProgress? || a.RemoveRegistration? || a.FinishExpiry? || a.OtherSession? {
      OtherSteps(s, a);
    } else {
      WaitSteps(s, a);
    }
  }

  lemma RetainedPanics(s: State, a: Step)
    requires Inv(s) && Enabled(s, a) && Retained(s) && EndsLease(s, a)
    ensures Apply(s, a).closed[s.control.value.released] == 2
  {
  }

  // ---- runs --------------------------------------------------------------------------

  /** The states a schedule passes through; it ends early at a step that is not enabled. */
  ghost predicate Run(states: seq<State>, steps: seq<Step>) {
    && |states| == |steps| + 1
    && (exists ttl :: states[0] == Initial(ttl))
    && forall i :: 0 <= i < |steps| ==> Enabled(states[i], steps[i]) && states[i + 1] == Apply(states[i], steps[i])
  }

  ghost predicate NoDoubleClose(s: State) { forall ch :: s.closed[ch] <= 1 }

  ghost predicate EndsRetained(states: seq<State>, steps: seq<Step>, i: nat)
    requires i < |steps| && |states| == |steps| + 1
  {
    Retained(states[i]) && EndsLease(states[i], steps[i])
  }

  /** Every state of a run keeps the whole invariant until a lease ends while a completed, unanswered
      confirmation is retained. */
  lemma {:induction false} RunsAreSafe(states: seq<State>, steps: seq<Step>)
    requires Run(states, steps)
    requires forall i :: 0 <= i < |steps| ==> !EndsRetained(states, steps, i)
    ensures forall i :: 0 <= i < |states| ==> Inv(states[i])
    decreases |steps|
  {
    hide Apply, Enabled, EndsLease;
    if steps != [] {
      var n := |steps| - 1;
      var states', steps' := states[..n + 1], steps[..n];
      assert forall i :: 0 <= i < n ==> !EndsRetained(states, steps, i) && !EndsRetained(states', steps', i);
      RunsAreSafe(states', steps');
      assert Inv(states'[n]) && !EndsRetained(states, steps, n);
      StepKeeps(states[n], steps[n]);
      forall i | 0 <= i < |states| ensures Inv(states[i]) {
        if i <= n {
          assert states'[i] == states[i];
        }
      }
    }
  }

  /** On any run, some channel is closed twice exactly if some lease ends while a completed,
      unanswered confirmation is retained. */
  lemma {:induction false} DoubleCloseIffEndsRetained(states: seq<State>, steps: seq<Step>)
    requires Run(states, steps)
    ensures (exists i :: 0 <= i < |states| && !NoDoubleClose(states[i])) <==>
            (exists i :: 0 <= i < |steps| && EndsRetained(states, steps, i))
    decreases |steps|
  {
    if forall i :: 0 <= i < |steps| ==> !EndsRetained(states, steps, i) {
      RunsAreSafe(states, steps);
      forall i | 0 <= i < |states| ensures NoDoubleClose(states[i]) {
        assert Inv(states[i]);
      }
    } else {
      FirstDoubleClose(states, steps);
    }
  }

  /** The first step that ends a lease in that situation closes a channel twice. */
  lemma {:induction false} FirstDoubleClose(states: seq<State>, steps: seq<Step>)
    requires Run(states, steps) && exists i :: 0 <= i < |steps| && EndsRetained(states, steps, i)
    ensures exists i :: 0 <= i < |states| && !NoDoubleClose(states[i])
    decreases |steps|
  {
    hide Inv, Apply, Enabled, EndsLease, Initial;
    var n := |steps| - 1;
    var states', steps' := states[..n + 1], steps[..n];
    assert forall i :: 0 <= i < n ==> (EndsRetained(states, steps, i) <==> EndsRetained(states', steps', i));
    if exists i :: 0 <= i < n && EndsRetained(states', steps', i) {
      FirstDoubleClose(states', steps');
      var i :| 0 <= i < |states'| && !NoDoubleClose(states'[i]);
      assert states[i] == states'[i];
    } else {
      RunsAreSafe(states', steps');
      assert Inv(states'[n]) && EndsRetained(states, steps, n);
      StepKeeps(states[n], steps[n]);
      assert states[n + 1].closed[states[n].control.value.released] == 2;
    }
  }

  /** With file-transfer leases only, no lease can end in that situation. */
  lemma TransfersNeverEndRetained(s: State, a: Step)
    requires Inv(s) && Enabled(s, a) && (s.lease.Some? ==> s.lease.value.typ.FileTransfer?)
    ensures !(Retained(s) && EndsLease(s, a))
  {
  }

  // A schedule of one Session: a transfer is asked about, finishes before the answer, and a terminal
  // lease follows.

  const SENDER := SessionLease("sender", FileTransfer, 1, 10, "ref")
  const AGENT := SessionLease("agent", Terminal, 0, 13, "ref")
  const NOTHING_YET := Progress(0, 0, 0.0)

  function Sending(): State {
    Initial(10).(lease := Some(SENDER), timer := Some(("sender", 10)), nextTransfer := 1,
                 control := Some(Control(0, Running, 0, false, 0, 0, 1, NOTHING_YET)),
                 nextControl := 1, nextChannel := 2)
  }

  function Asking(): State {
    Sending().(clock := 1, nextRequest := 1,
               control := Some(Control(0, Confirming, 1, true, 1 + CONFIRMATION_TIMEOUT, 0, 1, NOTHING_YET)))
  }

  function Finished(): State {
    Asking().(clock := 2, lease := None, timer := None,
              control := Some(Control(0, Completed, 1, false, 1 + CONFIRMATION_TIMEOUT, 0, 1, NOTHING_YET)),
              closed := multiset{0, 1}, results := map[0 := Resolution(WasCompleted, NOTHING_YET)])
  }

  function TerminalHeld(): State {
    Finished().(clock := 3, lease := Some(AGENT), timer := Some(("agent", 13)))
  }

  ghost predicate StepsTo(s: State, a: Step, s': State) { Enabled(s, a) && s' == Apply(s, a) }

  lemma TransferSteps()
    ensures StepsTo(Initial(10), Acquire(0, "sender", FileTransfer, "ref", 0, 0), Sending())
    ensures StepsTo(Sending(), BeginCancel(1, 1, 1), Asking())
  {
  }

  lemma TerminalSteps()
    ensures StepsTo(Asking(), Release(0, "sender", 2), Finished())
    ensures StepsTo(Finished(), Acquire(0, "agent", Terminal, "ref", 3, 3), TerminalHeld())
  {
    assert multiset{} + multiset{1, 0} == multiset{0, 1};
  }

  lemma LastStep()
    ensures Enabled(TerminalHeld(), Release(0, "agent", 4))
    ensures Apply(TerminalHeld(), Release(0, "agent", 4)).closed[1] == 2
  {
  }

  /** A terminal lease taken after a transfer completed under an unanswered confirmation: its ordinary
      release closes the old transfer's channels again. */
  lemma ReleaseAfterCompletedTransferClosesTwice()
    ensures exists states: seq<State>, steps: seq<Step> ::
      Run(states, steps) && |steps| == 5 && steps[4] == Release(0, "agent", 4) && !NoDoubleClose(states[5])
  {
    hide Apply, Enabled, Sending, Asking, Finished, TerminalHeld;
    TransferSteps();
    TerminalSteps();
    LastStep();
    var steps := [Acquire(0, "sender", FileTransfer, "ref", 0, 0), BeginCancel(1, 1, 1), Release(0, "sender", 2),
                  Acquire(0, "agent", Terminal, "ref", 3, 3), Release(0, "agent", 4)];
    var last := Apply(TerminalHeld(), Release(0, "agent", 4));
    var states := [Initial(10), Sending(), Asking(), Finished(), TerminalHeld(), last];
    forall i | 0 <= i < 5 ensures StepsTo(states[i], steps[i], states[i + 1]) {
    }
    assert Run(states, steps);
  }
}
