/** The coordinator's sections, on all Sessions at once. */
module LeaseRuns {
  import opened Lease
  import opened LeaseSafety
  import opened LeaseCoordinator

  ghost predicate CountersGrow(s: State, s': State) {
    s'.nextRequest >= s.nextRequest && s'.nextTransfer >= s.nextTransfer
  }

  lemma PartsKeepCounters(s: State, now: Time)
    ensures s.lease.Some? ==> CountersGrow(s, Expire(s)) && CountersGrow(s, AfterRelease(s))
    ensures CountersGrow(s, Withdraw(s, now))
  {
  }

  lemma WaitingKeepsCounters(s: State, a: Step)
    requires Enabled(s, a)
    requires a.Resolve? || a.Checkpoint? || a.CheckpointWakes? || a.BeginCancel? || a.ConfirmationFires?
    ensures CountersGrow(s, Apply(s, a))
  {
    hide Expire, AfterRelease, Withdraw;
    match a
    case BeginCancel(n1, n2, n3) => PartsKeepCounters(At(s, n2), n2);
    case ConfirmationFires(t, controlId, requestId, n1, n2, n3) =>
      PartsKeepCounters(At(s, n2), n2);
      PartsKeepCounters(At(s, n3), n3);
    case Resolve(t, requestId, cancel, n1, n2, n3) => PartsKeepCounters(At(s, n2), n2);
    case Checkpoint(t, owner, n1, n2) => PartsKeepCounters(At(s, n2), n2);
    case CheckpointWakes(t, n1, n2) => PartsKeepCounters(At(Return(s, t), n2), n2);
    case _ =>
  }

  lemma LeasingKeepsCounters(s: State, a: Step)
    requires Enabled(s, a)
    requires a.Acquire? || a.Renew? || a.Release? || a.TimerFires? || a.Status? || a.WriteEnter?
    ensures CountersGrow(s, Apply(s, a))
  {
    hide Expire, AfterRelease, Withdraw, AfterResolve, AfterCheckpoint;
    PartsKeepCounters(At(s, a.n1), a.n1);
  }

  lemma StepsGrowCounters(s: State, a: Step)
    requires Enabled(s, a)
    ensures CountersGrow(s, Apply(s, a))
  {
    hide CountersGrow;
    if a.Acquire? || a.Renew? || a.Release? || a.TimerFires? || a.Status? || a.WriteEnter? {
      LeasingKeepsCounters(s, a);
    } else if a.Resolve? || a.Checkpoint? || a.CheckpointWakes? || a.BeginCancel? || a.ConfirmationFires? {
      WaitingKeepsCounters(s, a);
    } else {
      OthersGrowCounters(s, a);
    }
  }

  lemma OthersGrowCounters(s: State, a: Step)
    requires Enabled(s, a)
    requires !(a.Acquire? || a.Renew? || a.Release? || a.TimerFires? || a.Status? || a.WriteEnter?)
    requires !(a.Resolve? || a.Checkpoint? || a.CheckpointWakes? || a.BeginCancel? || a.ConfirmationFires?)
    ensures CountersGrow(s, Apply(s, a))
  {
  }

  /** A section of one Session keeps every Session's invariant, unless it ends a lease while a
      completed, unanswered confirmation of that Session is retained. */
  twostate lemma SectionKeeps(c: LeaseCoordinator, id: Id, a: Step)
    requires old(forall o :: Inv(c.Slice(o)))
    requires Enabled(old(c.Slice(id)), a) && c.Slice(id) == Apply(old(c.Slice(id)), a) && c.Others(id)
    requires !(Retained(old(c.Slice(id))) && EndsLease(old(c.Slice(id)), a))
    ensures forall o :: Inv(c.Slice(o))
  {
    hide Inv, Apply, EndsLease, Enabled;
    StepKeeps(old(c.Slice(id)), a);
    StepsGrowCounters(old(c.Slice(id)), a);
    forall o | o != id ensures Inv(c.Slice(o)) {
      SeenElsewhere(old(c.Slice(o)), c.Slice(o));
    }
  }

  lemma SeenElsewhere(s: State, s': State)
    requires Inv(s) && s' == s.(clock := s'.clock, nextRequest := s'.nextRequest, nextTransfer := s'.nextTransfer)
    requires CountersGrow(s, s')
    ensures Inv(s')
  {
  }

  datatype Section = Section(id: Id, step: Step)

  /** One section of the object, as its step says. */
  method Perform(c: LeaseCoordinator, id: Id, a: Step)
    requires Enabled(c.Slice(id), a) && !a.OtherSession?
    modifies c
    ensures c.Slice(id) == Apply(old(c.Slice(id)), a) && c.Others(id)
  {
    hide LeaseCoordinator.Slice, Apply, Enabled;
    if a.Acquire? || a.Renew? || a.Release? || a.NotifyDone? || a.TimerFires? || a.Status? {
      PerformLeasing(c, id, a);
    } else if a.WriteEnter? || a.WriteReturns? || a.RemoveRegistration? || a.FinishExpiry? || a.RecordProgress? {
      PerformWriting(c, id, a);
    } else {
      PerformCancelling(c, id, a);
    }
  }

  method PerformLeasing(c: LeaseCoordinator, id: Id, a: Step)
    requires Enabled(c.Slice(id), a)
    requires a.Acquire? || a.Renew? || a.Release? || a.NotifyDone? || a.TimerFires? || a.Status?
    modifies c
    ensures c.Slice(id) == Apply(old(c.Slice(id)), a) && c.Others(id)
  {
    hide LeaseCoordinator.Slice, Apply, Enabled;
    var r: Answer;
    if a.Acquire? {
      r := c.Acquire(id, a.t, a.owner, a.typ, a.reference, a.n1, a.n2);
    } else if a.Renew? {
      r := c.Renew(id, a.t, a.owner, a.n1, a.n2);
    } else if a.Release? {
      r := c.Release(id, a.t, a.owner, a.n1);
    } else if a.NotifyDone? {
      r := c.AfterNotify(id, a.t, a.n1);
    } else if a.TimerFires? {
      c.ExpireTimer(id, a.t, a.owner, a.expiresAt, a.n1);
    } else {
      r := c.Status(id, a.t, a.n1);
    }
  }

  method PerformWriting(c: LeaseCoordinator, id: Id, a: Step)
    requires Enabled(c.Slice(id), a)
    requires a.WriteEnter? || a.WriteReturns? || a.RemoveRegistration? || a.FinishExpiry? || a.RecordProgress?
    modifies c
    ensures c.Slice(id) == Apply(old(c.Slice(id)), a) && c.Others(id)
  {
    hide LeaseCoordinator.Slice, Apply, Enabled;
    var r: Answer;
    if a.WriteEnter? {
      r := c.WriteBegins(id, a.t, a.owner, a.n1);
    } else if a.WriteReturns? {
      c.WriteEnds(id, a.t);
    } else if a.RemoveRegistration? {
      c.RemoveRegistration(id, a.reference);
    } else if a.FinishExpiry? {
      c.FinishFileTransferExpiry(id, a.transferId);
    } else {
      c.RecordFileTransferProgress(id, a.progress);
    }
  }

  method PerformCancelling(c: LeaseCoordinator, id: Id, a: Step)
    requires Enabled(c.Slice(id), a)
    requires a.BeginCancel? || a.ConfirmationFires? || a.Resolve? || a.ResolveReturns? || a.Checkpoint?
      || a.CheckpointWakes? || a.CallerGivesUp?
    modifies c
    ensures c.Slice(id) == Apply(old(c.Slice(id)), a) && c.Others(id)
  {
    hide LeaseCoordinator.Slice, Apply, Enabled;
    var r: Answer;
    var v: Verdict;
    if a.BeginCancel? {
      r := c.BeginFileTransferCancel(id, a.n1, a.n2, a.n3);
    } else if a.ConfirmationFires? {
      c.ExpireFileTransferConfirmation(id, a.t, a.controlId, a.requestId, a.n1, a.n2, a.n3);
    } else if a.Resolve? {
      r := c.ResolveFileTransferCancel(id, a.t, a.requestId, a.cancel, a.n1, a.n2, a.n3);
    } else if a.ResolveReturns? {
      var resolution := c.CancellerAwakes(id, a.t);
    } else if a.Checkpoint? {
      v := c.FileTransferCheckpoint(id, a.t, a.owner, a.n1, a.n2);
    } else if a.CheckpointWakes? {
      v := c.CheckpointAwakes(id, a.t, a.n1, a.n2);
    } else {
      c.GiveUp(id, a.t);
    }
  }

  lemma InitialKeeps(ttl: nat)
    ensures Inv(Initial(ttl))
  {
  }

  ghost predicate AllSound(c: LeaseCoordinator)
    reads c
  {
    forall id :: Inv(c.Slice(id))
  }

  method PerformSoundly(c: LeaseCoordinator, id: Id, a: Step)
    requires AllSound(c) && Enabled(c.Slice(id), a) && !a.OtherSession?
    requires !(Retained(c.Slice(id)) && EndsLease(c.Slice(id), a))
    modifies c
    ensures AllSound(c)
  {
    hide LeaseCoordinator.Slice, Apply, Enabled, Inv, EndsLease, Retained;
    StepKeeps(c.Slice(id), a);
    StepsGrowCounters(c.Slice(id), a);
    SharedFields(c);
    Perform(c, id, a);
    SharedFields(c);
    forall o ensures Inv(c.Slice(o)) {
      if o != id {
        SeenElsewhere(old(c.Slice(o)), c.Slice(o));
      }
    }
  }

  lemma SharedFields(c: LeaseCoordinator)
    ensures forall id :: c.Slice(id).nextRequest == c.nextCancelRequest && c.Slice(id).nextTransfer == c.nextTransferID
  {
  }

  method Construct(ttl: nat) returns (c: LeaseCoordinator)
    ensures fresh(c) && AllSound(c)
  {
    hide LeaseCoordinator.Slice, Inv;
    c := new LeaseCoordinator(ttl);
    InitialKeeps(ttl);
  }

  /** The object, from its construction through any sections of any Sessions in any order: every
      Session keeps the invariant. A section that is not enabled does not happen, and the run ends at
      a section that would end a lease while a completed confirmation is retained. */
  method RunCoordinator(ttl: nat, sections: seq<Section>) returns (c: LeaseCoordinator, performed: nat)
    ensures fresh(c) && AllSound(c)
    ensures performed <= |sections|
    ensures performed < |sections| ==>
      var s := c.Slice(sections[performed].id); Retained(s) && EndsLease(s, sections[performed].step)
  {
    hide LeaseCoordinator.Slice, Enabled, Inv, EndsLease, AllSound, Retained;
    c := Construct(ttl);
    performed := 0;
    while performed < |sections|
      invariant performed <= |sections| && fresh(c) && AllSound(c)
    {
      var id, a := sections[performed].id, sections[performed].step;
      if Enabled(c.Slice(id), a) && !a.OtherSession? {
        if Retained(c.Slice(id)) && EndsLease(c.Slice(id), a) {
          return;
        }
        PerformSoundly(c, id, a);
      }
      performed := performed + 1;
    }
  }
}
