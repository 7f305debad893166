/** The coordinator itself: maps keyed by Session, updated one critical section at a time. Every section
    is one step of its own Session's protocol and, for all other Sessions, at most a tick of the clock
    and of the shared counters. Where the mutex is given up, a section ends with the thread parked. */
module LeaseCoordinator {
  import opened Options
  import opened Lease

  type Id = string

  function Find<T>(m: map<Id, T>, id: Id): Option<T> { if id in m then Some(m[id]) else None }

  function Or<T>(m: map<Id, T>, id: Id, default: T): T { if id in m then m[id] else default }

  /** What a section tells its caller; Parked means that the operation goes on later. */
  datatype Answer =
    | Held(lease: SessionLease)
    | Released(cancelled: Option<Resolution>)
    | Nothing
    | Busy
    | NotOwner
    | Inactive
    | Asked(requestId: nat)
    | CancelPending
    | InvalidRequest
    | Answered(resolution: Resolution)
    | Parked

  predicate IsAsked(s: State, requestId: nat) {
    s.control.Some? && s.control.value.phase.Confirming? && s.control.value.requestId == requestId
  }

  class LeaseCoordinator {
    var leases: map<Id, SessionLease>
    var timers: map<Id, (string, Time)>
    var gates: map<Id, Thread>
    var fileTransfers: map<Id, Control>
    var activeWrites: map<Id, nat>
    var recovering: map<Id, SessionLease>
    var nextCancelRequest: nat
    var nextTransferID: nat
    const ttl: nat

    // The runtime: the clock, parked threads, closed channels, written results, fresh identities.
    var clock: Time
    var threads: map<Id, map<Thread, Pc>>
    var closed: map<Id, multiset<Channel>>
    var results: map<Id, map<nat, Resolution>>
    var channels: map<Id, nat>
    var controls: map<Id, nat>

    constructor (ttl: nat)
      ensures forall id :: Slice(id) == Initial(ttl)
    {
      this.ttl := ttl;
      leases, timers, gates, fileTransfers, activeWrites, recovering := map[], map[], map[], map[], map[], map[];
      nextCancelRequest, nextTransferID, clock := 0, 0, 0;
      threads, closed, results, channels, controls := map[], map[], map[], map[], map[];
    }

    /** One Session's share. */
    function Slice(id: Id): State
      reads this
    {
      State(ttl, clock, Find(leases, id), Find(timers, id), Find(recovering, id), Find(fileTransfers, id),
            Or(activeWrites, id, 0), Find(gates, id), Or(threads, id, map[]), Or(closed, id, multiset{}),
            Or(results, id, map[]), Or(channels, id, 0), Or(controls, id, 0), nextCancelRequest, nextTransferID)
    }

    /** Other Sessions see only the clock and the counters move. */
    twostate predicate Others(id: Id)
      reads this
    {
      forall o :: o != id ==>
        Slice(o) == old(Slice(o)).(clock := clock, nextRequest := nextCancelRequest, nextTransfer := nextTransferID)
    }

    /** What the maps say about one Session. */
    lemma Reads(id: Id)
      ensures var s := Slice(id);
        && s.lease == Find(leases, id) && s.timer == Find(timers, id) && s.recovering == Find(recovering, id)
        && s.control == Find(fileTransfers, id) && s.activeWrites == Or(activeWrites, id, 0)
        && s.gate == Find(gates, id) && s.threads == Or(threads, id, map[]) && s.results == Or(results, id, map[])
        && s.nextChannel == Or(channels, id, 0) && s.nextControl == Or(controls, id, 0)
        && s.ttl == ttl
      ensures forall o :: Slice(o).clock == clock
      ensures forall o :: Slice(o).nextRequest == nextCancelRequest && Slice(o).nextTransfer == nextTransferID
    {
    }

    // ---- single updates --------------------------------------------------------------

    method Tick(now: Time)
      modifies this`clock
      ensures forall id :: Slice(id) == At(old(Slice(id)), now)
      ensures clock == now
    {
      clock := now;
    }

    method SetLease(id: Id, lease: SessionLease)
      modifies this`leases, this`timers
      ensures Others(id)
      ensures Slice(id) == old(Slice(id)).(lease := Some(lease), timer := Some((lease.owner, lease.expiresAt)))
    {
      leases := leases[id := lease];
      timers := timers[id := (lease.owner, lease.expiresAt)];
    }

    method DeleteLease(id: Id)
      modifies this`leases, this`timers
      ensures Slice(id) == old(Slice(id)).(lease := None, timer := None) && Others(id)
    {
      leases := leases - {id};
      timers := timers - {id};
    }

    method SetRecovering(id: Id, lease: SessionLease)
      modifies this`recovering
      ensures Slice(id) == old(Slice(id)).(recovering := Some(lease)) && Others(id)
    {
      recovering := recovering[id := lease];
    }

    method DeleteRecovering(id: Id)
      modifies this`recovering
      ensures Slice(id) == old(Slice(id)).(recovering := None) && Others(id)
    {
      recovering := recovering - {id};
    }

    method SetControl(id: Id, control: Control)
      modifies this`fileTransfers
      ensures Slice(id) == old(Slice(id)).(control := Some(control)) && Others(id)
    {
      fileTransfers := fileTransfers[id := control];
    }

    method DeleteControl(id: Id)
      modifies this`fileTransfers
      ensures Slice(id) == old(Slice(id)).(control := None) && Others(id)
    {
      fileTransfers := fileTransfers - {id};
    }

    method CountWrite(id: Id, count: nat)
      modifies this`activeWrites
      ensures Slice(id) == old(Slice(id)).(activeWrites := count) && Others(id)
    {
      activeWrites := if count == 0 then activeWrites - {id} else activeWrites[id := count];
    }

    method CloseChannels(id: Id, channels: multiset<Channel>)
      modifies this`closed
      ensures Slice(id) == old(Slice(id)).(closed := old(Slice(id)).closed + channels) && Others(id)
    {
      closed := closed[id := Or(closed, id, multiset{}) + channels];
    }

    method WriteResult(id: Id, control: nat, result: Resolution)
      modifies this`results
      ensures Slice(id) == old(Slice(id)).(results := old(Slice(id)).results[control := result]) && Others(id)
    {
      results := results[id := Or(results, id, map[])[control := result]];
    }

    method FreshChannels(id: Id, count: nat) returns (first: Channel)
      modifies this`channels
      ensures first == old(Slice(id)).nextChannel
      ensures Slice(id) == old(Slice(id)).(nextChannel := first + count) && Others(id)
    {
      first := Or(channels, id, 0);
      channels := channels[id := first + count];
    }

    method FreshControl(id: Id) returns (control: nat)
      modifies this`controls
      ensures control == old(Slice(id)).nextControl
      ensures Slice(id) == old(Slice(id)).(nextControl := control + 1) && Others(id)
    {
      control := Or(controls, id, 0);
      controls := controls[id := control + 1];
    }

    method FreshTransfer(id: Id) returns (transfer: nat)
      modifies this`nextTransferID
      ensures transfer == old(Slice(id)).nextTransfer + 1
      ensures Slice(id) == old(Slice(id)).(nextTransfer := transfer) && Others(id)
    {
      nextTransferID := nextTransferID + 1;
      transfer := nextTransferID;
    }

    method FreshRequest(id: Id) returns (request: nat)
      modifies this`nextCancelRequest
      ensures request == old(nextCancelRequest) + 1 == old(Slice(id)).nextRequest + 1 == nextCancelRequest
      ensures Slice(id) == old(Slice(id)).(nextRequest := request) && Others(id)
    {
      nextCancelRequest := nextCancelRequest + 1;
      request := nextCancelRequest;
    }

    method Park(id: Id, t: Thread, pc: Pc)
      modifies this`threads, this`gates
      ensures Slice(id) == Enter(old(Slice(id)), t, pc) && Others(id)
    {
      threads := threads[id := Or(threads, id, map[])[t := pc]];
      if pc.HoldsGate() {
        gates := gates[id := t];
      }
    }

    method Leave(id: Id, t: Thread)
      modifies this`threads, this`gates
      ensures Slice(id) == Return(old(Slice(id)), t) && Others(id)
    {
      threads := threads[id := Or(threads, id, map[]) - {t}];
      if Find(gates, id) == Some(t) {
        gates := gates - {id};
      }
    }

    // ---- parts of sections -----------------------------------------------------------

    /** Writes the result, closes both channels and forgets the control. */
    method CloseControl(id: Id, result: Resolution)
      requires id in fileTransfers
      modifies this`results, this`closed, this`fileTransfers
      ensures Slice(id) == DropControl(old(Slice(id)), result) && Others(id)
    {
      hide Slice;
      Reads(id);
      var control := fileTransfers[id];
      WriteResult(id, control.id, result);
      CloseChannels(id, multiset{control.released, control.changed});
      DeleteControl(id);
    }

    /** Removes a lease known to be overdue; returns whether the Session must be closed. */
    method ExpireLocked(id: Id) returns (lease: SessionLease, abortSession: bool)
      requires id in leases
      modifies this`leases, this`timers, this`recovering, this`results, this`closed, this`fileTransfers
      ensures Slice(id) == Expire(old(Slice(id))) && Others(id)
      ensures lease == old(leases[id]) && abortSession == Aborts(old(Slice(id)))
    {
      hide Slice;
      Reads(id);
      lease := leases[id];
      DeleteLease(id);
      abortSession := Or(activeWrites, id, 0) > 0 || lease.typ.Debug? || lease.typ.FileTransfer?;
      if abortSession {
        SetRecovering(id, lease);
      }
      if id in fileTransfers {
        CloseControl(id, Resolution(LeaseExpired, fileTransfers[id].progress));
      }
    }

    /** Records a new lease, arms its timer and gives a file transfer its control. */
    method GrantLocked(id: Id, owner: string, typ: LeaseType, reference: string, now: Time)
      returns (lease: SessionLease)
      modifies this`clock, this`nextTransferID, this`leases, this`timers
      modifies this`fileTransfers, this`controls, this`channels
      ensures Slice(id) == Grant(old(Slice(id)), owner, typ, reference, now) && Others(id)
      ensures Slice(id).lease == Some(lease) && lease.owner == owner && lease.expiresAt == now + ttl
    {
      hide Slice;
      Reads(id);
      Tick(now);
      lease := SessionLease(owner, typ, 0, now + ttl, reference);
      if typ.FileTransfer? {
        var transfer := FreshTransfer(id);
        lease := lease.(transferId := transfer);
      }
      SetLease(id, lease);
      if typ.FileTransfer? {
        var control := FreshControl(id);
        var channel := FreshChannels(id, 2);
        SetControl(id, Control(control, Running, 0, false, 0, channel, channel + 1, Progress(0, 0, 0.0)));
      }
    }

    /** Gives the control a new phase and wakes the waiters of its old channel. */
    method Renewal(id: Id, phase: Phase, requestId: nat)
      requires id in fileTransfers
      modifies this`closed, this`channels, this`fileTransfers
      ensures Slice(id) == Renewed(old(Slice(id)), phase, requestId) && Others(id)
    {
      hide Slice;
      Reads(id);
      var control := fileTransfers[id];
      CloseChannels(id, multiset{control.changed});
      var channel := FreshChannels(id, 1);
      SetControl(id, control.(phase := phase, requestId := requestId, timerArmed := false, changed := channel));
    }

    method ExpireConfirmation(id: Id, now: Time)
      modifies this`clock, this`closed, this`channels, this`fileTransfers
      ensures Slice(id) == Withdraw(At(old(Slice(id)), now), now) && Others(id)
    {
      hide Slice;
      Reads(id);
      Tick(now);
      if id in fileTransfers && fileTransfers[id].phase.Confirming? && now >= fileTransfers[id].deadline {
        Renewal(id, Running, 0);
      }
    }

    // ---- sections --------------------------------------------------------------------

    method Acquire(id: Id, t: Thread, owner: string, typ: LeaseType, reference: string, n1: Time, n2: Time)
      returns (r: Answer)
      requires Enabled(Slice(id), Lease.Acquire(t, owner, typ, reference, n1, n2))
      modifies this
      ensures Slice(id) == Apply(old(Slice(id)), Lease.Acquire(t, owner, typ, reference, n1, n2)) && Others(id)
      ensures r.Held? <==> old(id !in recovering && id !in leases)
      ensures r.Held? ==> Find(leases, id) == Some(r.lease) && r.lease.owner == owner && r.lease.expiresAt == n2 + ttl
      ensures r.Parked? <==> old(id !in recovering && Overdue(Slice(id), n1))
    {
      hide Slice, Expire, Enter, Grant;
      Reads(id);
      if id in recovering {
        return Busy;
      }
      if id in leases {
        Tick(n1);
        if n1 < leases[id].expiresAt {
          return Busy;
        }
        var _, abortSession := ExpireLocked(id);
        Park(id, t, if abortSession then NotifyThenReturn else NotifyThenGrant(owner, typ, reference));
        return Parked;
      }
      var lease := GrantLocked(id, owner, typ, reference, n2);
      Reads(id);
      return Held(lease);
    }

    /** A thread comes back from publishing an expiry. */
    method AfterNotify(id: Id, t: Thread, n1: Time) returns (r: Answer)
      requires Enabled(Slice(id), NotifyDone(t, n1))
      modifies this
      ensures Slice(id) == Apply(old(Slice(id)), NotifyDone(t, n1)) && Others(id)
      ensures r.Held? <==> old(threads[id][t]).NotifyThenGrant?
    {
      hide Slice;
      Reads(id);
      var pc := threads[id][t];
      if pc.NotifyThenGrant? {
        Leave(id, t);
        var lease := GrantLocked(id, pc.owner, pc.typ, pc.reference, n1);
        r := Held(lease);
      } else if pc.NotifyThenWrite? {
        Park(id, t, WritingUnleased);
        r := Parked;
      } else {
        Leave(id, t);
        r := Nothing;
      }
    }

    method Renew(id: Id, t: Thread, owner: string, n1: Time, n2: Time) returns (r: Answer)
      requires Enabled(Slice(id), Lease.Renew(t, owner, n1, n2))
      modifies this
      ensures Slice(id) == Apply(old(Slice(id)), Lease.Renew(t, owner, n1, n2)) && Others(id)
      ensures r.Held? <==> old(Owned(Slice(id), owner) && !Overdue(Slice(id), n1))
      ensures r.Held? ==> r.lease == old(leases[id]).(expiresAt := n2 + ttl)
    {
      hide Slice;
      Reads(id);
      if id !in leases || leases[id].owner != owner {
        return NotOwner;
      }
      if n1 >= leases[id].expiresAt {
        Tick(n1);
        var _, _ := ExpireLocked(id);
        Park(id, t, NotifyThenReturn);
        return Parked;
      }
      Tick(n2);
      var lease := leases[id].(expiresAt := n2 + ttl);
      SetLease(id, lease);
      return Held(lease);
    }

    method Release(id: Id, t: Thread, owner: string, n1: Time) returns (r: Answer)
      requires Enabled(Slice(id), Lease.Release(t, owner, n1))
      modifies this
      ensures Slice(id) == Apply(old(Slice(id)), Lease.Release(t, owner, n1)) && Others(id)
      ensures r.Nothing? <==> old(id !in leases)
      ensures r.Released? ==> old(Owned(Slice(id), owner)) && id !in leases && id !in timers
      ensures r.Released? && r.cancelled.Some? ==>
        old(id in fileTransfers && fileTransfers[id].phase.Cancelled?
            && r.cancelled.value == Resolution(WasCancelled, fileTransfers[id].progress))
    {
      hide Slice, AfterRelease, Expire, Enter;
      Reads(id);
      if id !in leases {
        return Nothing;
      }
      if leases[id].owner != owner {
        return NotOwner;
      }
      Tick(n1);
      if leases[id].typ.FileTransfer? && n1 >= leases[id].expiresAt {
        var _, _ := ExpireLocked(id);
        Park(id, t, NotifyThenReturn);
        return Parked;
      }
      var cancelled := ReleaseLocked(id);
      Reads(id);
      return Released(cancelled);
    }

    method ReleaseLocked(id: Id) returns (cancelled: Option<Resolution>)
      requires id in leases
      modifies this`leases, this`timers, this`results, this`closed, this`fileTransfers
      ensures Slice(id) == AfterRelease(old(Slice(id))) && Others(id)
      ensures Slice(id).lease.None? && Slice(id).timer.None?
      ensures cancelled.Some? ==>
        old(id in fileTransfers && fileTransfers[id].phase.Cancelled?)
        && cancelled.value == Resolution(WasCancelled, old(fileTransfers[id].progress))
    {
      hide Slice;
      Reads(id);
      DeleteLease(id);
      Reads(id);
      cancelled := None;
      if id in fileTransfers {
        cancelled := EndControl(id);
      }
    }

    /** What the owner's release does to the control. */
    method EndControl(id: Id) returns (cancelled: Option<Resolution>)
      requires id in fileTransfers
      modifies this`results, this`closed, this`fileTransfers
      ensures Slice(id) == ControlReleased(old(Slice(id))) && Others(id)
      ensures cancelled.Some? ==>
        && old(fileTransfers[id].phase.Cancelled?)
        && cancelled.value == Resolution(WasCancelled, old(fileTransfers[id].progress))
    {
      hide Slice;
      Reads(id);
      var control := fileTransfers[id];
      cancelled := None;
      match control.phase
      case Cancelled =>
        cancelled := Some(Resolution(WasCancelled, control.progress));
        CloseControl(id, cancelled.value);
      case Running =>
        CloseControl(id, Unset);
      case Confirming =>
        CloseControl(id, Resolution(WasCompleted, control.progress));
        SetControl(id, control.(phase := Completed, timerArmed := false));
      case Completed =>
        var result := Or(results, id, map[]);
        CloseControl(id, if control.id in result then result[control.id] else Unset);
        SetControl(id, control.(phase := Completed, timerArmed := false));
    }

    /** The timer's callback: only the lease it was armed for, and only when its time has come. */
    method ExpireTimer(id: Id, t: Thread, owner: string, expiresAt: Time, n1: Time)
      requires Enabled(Slice(id), TimerFires(t, owner, expiresAt, n1))
      modifies this
      ensures Slice(id) == Apply(old(Slice(id)), TimerFires(t, owner, expiresAt, n1)) && Others(id)
    {
      hide Slice;
      Reads(id);
      Tick(n1);
      if id !in leases || leases[id].owner != owner || leases[id].expiresAt != expiresAt || n1 < leases[id].expiresAt {
        return;
      }
      var _, _ := ExpireLocked(id);
      Park(id, t, TimerNotifying);
    }

    method BeginFileTransferCancel(id: Id, n1: Time, n2: Time, n3: Time) returns (r: Answer)
      requires Enabled(Slice(id), BeginCancel(n1, n2, n3))
      modifies this
      ensures Slice(id) == Apply(old(Slice(id)), BeginCancel(n1, n2, n3)) && Others(id)
      ensures r.Inactive? <==> !TransferLease(old(Slice(id)))
      ensures r.Asked? ==> r.requestId == old(nextCancelRequest) + 1 && IsAsked(Slice(id), r.requestId)
      ensures r.CancelPending? ==> id in fileTransfers && !fileTransfers[id].phase.Running?
      ensures r.CancelPending? ==> nextCancelRequest == old(nextCancelRequest)
    {
      hide Slice, Withdraw, Asks;
      Reads(id);
      WithdrawKeepsControl(At(Slice(id), n2), n2);
      Tick(n1);
      if id !in leases || !leases[id].typ.FileTransfer? {
        return Inactive;
      }
      if n1 >= leases[id].expiresAt || id !in fileTransfers {
        return NotOwner;
      }
      ExpireConfirmation(id, n2);
      Reads(id);
      if !fileTransfers[id].phase.Running? {
        return CancelPending;
      }
      Tick(n3);
      r := Ask(id, n3);
    }

    method Ask(id: Id, now: Time) returns (r: Answer)
      requires id in fileTransfers
      modifies this`nextCancelRequest, this`fileTransfers
      ensures Slice(id) == Asks(old(Slice(id)), now) && Others(id)
      ensures r == Asked(old(nextCancelRequest) + 1) && IsAsked(Slice(id), r.requestId)
    {
      hide Slice;
      Reads(id);
      var request := FreshRequest(id);
      SetControl(id, fileTransfers[id].(phase := Confirming, requestId := request, timerArmed := true,
                                        deadline := now + CONFIRMATION_TIMEOUT));
      r := Asked(request);
    }

    method ExpireFileTransferConfirmation(id: Id, t: Thread, controlId: nat, requestId: nat,
                                          n1: Time, n2: Time, n3: Time)
      requires Enabled(Slice(id), ConfirmationFires(t, controlId, requestId, n1, n2, n3))
      modifies this
      ensures Slice(id) == Apply(old(Slice(id)), ConfirmationFires(t, controlId, requestId, n1, n2, n3)) && Others(id)
    {
      hide Slice, Withdraw, Expire, Enter;
      Reads(id);
      Tick(n1);
      if id !in fileTransfers || fileTransfers[id].id != controlId || fileTransfers[id].requestId != requestId
         || !fileTransfers[id].phase.Confirming? || n1 < fileTransfers[id].deadline {
        return;
      }
      Tick(n2);
      if id in leases && n2 >= leases[id].expiresAt {
        var _, _ := ExpireLocked(id);
        Park(id, t, TimerNotifying);
        return;
      }
      if id in leases {
        ExpireConfirmation(id, n3);
        Reads(id);
      }
    }

    method ResolveFileTransferCancel(id: Id, t: Thread, requestId: nat, cancel: bool, n1: Time, n2: Time, n3: Time)
      returns (r: Answer)
      requires Enabled(Slice(id), Resolve(t, requestId, cancel, n1, n2, n3))
      modifies this
      ensures Slice(id) == Apply(old(Slice(id)), Resolve(t, requestId, cancel, n1, n2, n3)) && Others(id)
      ensures r.Parked? ==> cancel
      ensures r.Answered? ==> old(id in fileTransfers && fileTransfers[id].requestId == requestId)
    {
      hide Slice, Lease.ResolvePending;
      Reads(id);
      if id in fileTransfers && fileTransfers[id].phase.Completed? && fileTransfers[id].requestId == requestId {
        var written := Or(results, id, map[]);
        r := Answered(if fileTransfers[id].id in written then written[fileTransfers[id].id] else Unset);
        DeleteControl(id);
      } else {
        r := ResolvePending(id, t, requestId, cancel, n1, n2, n3);
      }
    }

    method ResolvePending(id: Id, t: Thread, requestId: nat, cancel: bool, n1: Time, n2: Time, n3: Time)
      returns (r: Answer)
      modifies this
      ensures Slice(id) == Lease.ResolvePending(old(Slice(id)), t, requestId, cancel, n1, n2, n3) && Others(id)
      ensures r.Parked? ==> cancel
      ensures r.Answered? ==> old(id in fileTransfers && fileTransfers[id].requestId == requestId)
    {
      hide Slice, Withdraw, AnswersIfAsked;
      Reads(id);
      WithdrawnAsks(At(Slice(id), n2), n2, requestId);
      if id in fileTransfers && id in leases && n1 < leases[id].expiresAt {
        ExpireConfirmation(id, n2);
      } else {
        Tick(n1);
      }
      Reads(id);
      r := AnswerIfAsked(id, t, requestId, cancel, n3);
    }

    method AnswerIfAsked(id: Id, t: Thread, requestId: nat, cancel: bool, now: Time) returns (r: Answer)
      modifies this
      ensures Slice(id) == AnswersIfAsked(old(Slice(id)), t, requestId, cancel, now) && Others(id)
      ensures r.Parked? ==> cancel
      ensures r.Answered? ==> IsAsked(old(Slice(id)), requestId)
    {
      hide Slice, Answers;
      Reads(id);
      if id !in fileTransfers || !fileTransfers[id].phase.Confirming? || fileTransfers[id].requestId != requestId {
        return InvalidRequest;
      }
      Tick(now);
      if id !in leases || now >= leases[id].expiresAt {
        return NotOwner;
      }
      Reads(id);
      r := Answer(id, t, requestId, cancel);
    }

    /** The answer to the pending request. */
    method Answer(id: Id, t: Thread, requestId: nat, cancel: bool) returns (r: Answer)
      requires id in fileTransfers
      modifies this`closed, this`channels, this`fileTransfers, this`threads, this`gates
      ensures Slice(id) == Answers(old(Slice(id)), t, requestId, cancel) && Others(id)
      ensures r == if cancel then Parked else Answered(Resolution(WasResumed, old(fileTransfers[id].progress)))
    {
      hide Slice;
      Reads(id);
      var control := fileTransfers[id];
      if !cancel {
        Renewal(id, Running, 0);
        return Answered(Resolution(WasResumed, control.progress));
      }
      Renewal(id, Cancelled, requestId);
      Park(id, t, AwaitingRelease(control.id, control.released));
      return Parked;
    }

    /** One round of a checkpoint; `transferId` is 0 in the first. */
    method CheckpointRound(id: Id, t: Thread, owner: string, transferId: nat, n1: Time, n2: Time) returns (v: Verdict)
      requires Slice(id).clock <= n1 <= n2
      modifies this
      ensures Slice(id) == AfterCheckpoint(old(Slice(id)), t, owner, transferId, n1, n2) && Others(id)
      ensures v == CheckpointVerdict(old(Slice(id)), owner, transferId, n1, n2)
    {
      hide Slice, Withdraw, Enter;
      Reads(id);
      if id !in leases || leases[id].owner != owner || !leases[id].typ.FileTransfer? || n1 >= leases[id].expiresAt
         || (transferId != 0 && leases[id].transferId != transferId) {
        Tick(n1);
        return Verdict.NotOwned;
      }
      ExpireConfirmation(id, n2);
      Reads(id);
      if id !in fileTransfers || fileTransfers[id].phase.Running? {
        return Continue;
      }
      if fileTransfers[id].phase.Cancelled? {
        return Cancel;
      }
      Park(id, t, AwaitingChange(owner, leases[id].transferId, fileTransfers[id].id, fileTransfers[id].changed));
      return Wait;
    }

    method FileTransferCheckpoint(id: Id, t: Thread, owner: string, n1: Time, n2: Time) returns (v: Verdict)
      requires Enabled(Slice(id), Checkpoint(t, owner, n1, n2))
      modifies this
      ensures Slice(id) == Apply(old(Slice(id)), Checkpoint(t, owner, n1, n2)) && Others(id)
      ensures v == CheckpointVerdict(old(Slice(id)), owner, 0, n1, n2)
    {
      hide Slice;
      Reads(id);
      v := CheckpointRound(id, t, owner, 0, n1, n2);
    }

    method CheckpointAwakes(id: Id, t: Thread, n1: Time, n2: Time) returns (v: Verdict)
      requires Enabled(Slice(id), CheckpointWakes(t, n1, n2))
      modifies this
      ensures Slice(id) == Apply(old(Slice(id)), CheckpointWakes(t, n1, n2)) && Others(id)
    {
      hide Slice;
      Reads(id);
      var pc := threads[id][t];
      Leave(id, t);
      v := CheckpointRound(id, t, pc.caller, pc.transferId, n1, n2);
    }

    /** A canceller whose channel has been closed reads the result; a caller may also give up. */
    method CancellerAwakes(id: Id, t: Thread) returns (resolution: Resolution)
      requires Enabled(Slice(id), ResolveReturns(t))
      modifies this
      ensures Slice(id) == Apply(old(Slice(id)), ResolveReturns(t)) && Others(id)
      ensures var s := old(Slice(id)); var control := s.threads[t].controlId;
        resolution == if control in s.results then s.results[control] else Unset
    {
      hide Slice;
      Reads(id);
      var written, control := Or(results, id, map[]), threads[id][t].controlId;
      resolution := if control in written then written[control] else Unset;
      Leave(id, t);
    }

    method GiveUp(id: Id, t: Thread)
      requires Enabled(Slice(id), CallerGivesUp(t))
      modifies this
      ensures Slice(id) == Apply(old(Slice(id)), CallerGivesUp(t)) && Others(id)
    {
      hide Slice;
      Reads(id);
      Leave(id, t);
    }

    method RecordFileTransferProgress(id: Id, progress: Progress)
      modifies this
      ensures Slice(id) == Apply(old(Slice(id)), RecordProgress(progress)) && Others(id)
    {
      hide Slice;
      Reads(id);
      if id in fileTransfers {
        SetControl(id, fileTransfers[id].(progress := progress));
      }
    }

    method Status(id: Id, t: Thread, n1: Time) returns (r: Answer)
      requires Enabled(Slice(id), Lease.Status(t, n1))
      modifies this
      ensures Slice(id) == Apply(old(Slice(id)), Lease.Status(t, n1)) && Others(id)
      ensures r.Held? ==> Find(leases, id) == Some(r.lease) && n1 < r.lease.expiresAt
      ensures r.Nothing? <==> old(id !in leases)
    {
      hide Slice;
      Reads(id);
      Tick(n1);
      if id in leases && n1 >= leases[id].expiresAt {
        var _, _ := ExpireLocked(id);
        Park(id, t, NotifyThenReturn);
        return Parked;
      }
      r := if id in leases then Held(leases[id]) else Nothing;
    }

    /** Decides whether a write may start; the write itself runs while the thread is parked. */
    method WriteBegins(id: Id, t: Thread, owner: string, n1: Time) returns (r: Answer)
      requires Enabled(Slice(id), WriteEnter(t, owner, n1))
      modifies this
      ensures Slice(id) == Apply(old(Slice(id)), WriteEnter(t, owner, n1)) && Others(id)
      ensures r.Parked? && owner != "" && !Overdue(old(Slice(id)), n1) ==>
        old(Owned(Slice(id), owner)) && old(id !in recovering)
      ensures r.Parked? && owner == "" && !Overdue(old(Slice(id)), n1) ==> old(id !in leases && id !in recovering)
    {
      hide Slice, Expire, Enter;
      Reads(id);
      if id in recovering {
        return if owner != "" then NotOwner else Busy;
      }
      Tick(n1);
      if id in leases && n1 >= leases[id].expiresAt {
        var _, abortSession := ExpireLocked(id);
        Park(id, t, if owner != "" || abortSession then NotifyThenReturn else NotifyThenWrite);
        return Parked;
      }
      if owner != "" {
        if id !in leases || leases[id].owner != owner {
          return NotOwner;
        }
        CountWrite(id, Or(activeWrites, id, 0) + 1);
        Park(id, t, WritingLeased(leases[id]));
        return Parked;
      }
      if id in leases {
        return Busy;
      }
      Park(id, t, WritingUnleased);
      return Parked;
    }

    method WriteEnds(id: Id, t: Thread)
      requires Enabled(Slice(id), WriteReturns(t))
      modifies this
      ensures Slice(id) == Apply(old(Slice(id)), WriteReturns(t)) && Others(id)
    {
      hide Slice, Return;
      Reads(id);
      if threads[id][t].WritingLeased? {
        CountWrite(id, if Or(activeWrites, id, 0) <= 1 then 0 else activeWrites[id] - 1);
      }
      Leave(id, t);
    }

    method RemoveRegistration(id: Id, reference: string)
      requires Enabled(Slice(id), Lease.RemoveRegistration(reference))
      modifies this
      ensures Slice(id) == Apply(old(Slice(id)), Lease.RemoveRegistration(reference)) && Others(id)
    {
      hide Slice, DropControl;
      Reads(id);
      if reference != "" && ((id in leases && leases[id].reference != reference)
                             || (id in recovering && recovering[id].reference != reference)) {
        return;
      }
      DeleteLease(id);
      CountWrite(id, 0);
      DeleteRecovering(id);
      Reads(id);
      if id in fileTransfers {
        if !fileTransfers[id].phase.Completed? {
          CloseControl(id, Unset);
        } else {
          DeleteControl(id);
        }
      }
    }

    method FinishFileTransferExpiry(id: Id, transferId: nat)
      requires Enabled(Slice(id), FinishExpiry(transferId))
      modifies this
      ensures Slice(id) == Apply(old(Slice(id)), FinishExpiry(transferId)) && Others(id)
    {
      hide Slice;
      Reads(id);
      if id in recovering && recovering[id].transferId == transferId {
        DeleteRecovering(id);
      }
    }
  }

  lemma WithdrawKeepsControl(s: State, now: Time)
    ensures Withdraw(s, now).control.Some? <==> s.control.Some?
    ensures Withdraw(s, now).lease == s.lease && Withdraw(s, now).nextRequest == s.nextRequest
  {
  }

  lemma WithdrawnAsks(s: State, now: Time, requestId: nat)
    ensures IsAsked(Withdraw(s, now), requestId) ==> IsAsked(s, requestId)
  {
  }
}
