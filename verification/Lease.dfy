/** One Session's share of the lease coordinator, as atomic steps. A step is one stretch of code under
    the coordinator mutex; a thread that gives the mutex up in the middle of an operation keeps a
    program counter. The mutex, the Session gate and channel closings are explicit. */
module Lease {

  import opened Options

  type Time = int
  type Thread = nat
  type Channel = nat

  const CONFIRMATION_TIMEOUT: nat := 30000

  datatype LeaseType = Terminal | FileTransfer | Debug

  datatype SessionLease = SessionLease(
    owner: string, typ: LeaseType, transferId: nat, expiresAt: Time, reference: string)

  datatype Phase = Running | Confirming | Cancelled | Completed

  datatype Progress = Progress(transferred: int, total: int, percent: real)

  /** What an answered confirmation is told. `Unset` is what an unwritten result reads as. */
  datatype Resolution = Unset | Resolution(outcome: Outcome, progress: Progress)

  datatype Outcome = WasCancelled | WasCompleted | WasResumed | LeaseExpired

  /** `id` stands for the identity of the control object. A request ID of 0 is none. */
  datatype Control = Control(
    id: nat,
    phase: Phase,
    requestId: nat,
    timerArmed: bool,
    deadline: Time,
    changed: Channel,
    released: Channel,
    progress: Progress)

  /** Where a thread is that has given up the mutex without being done. */
  datatype Pc =
    | NotifyThenGrant(owner: string, typ: LeaseType, reference: string)
    | NotifyThenReturn
    | NotifyThenWrite
    | WritingUnleased
    | WritingLeased(lease: SessionLease)
    | TimerNotifying
    | AwaitingChange(caller: string, transferId: nat, controlId: nat, channel: Channel)
    | AwaitingRelease(controlId: nat, channel: Channel)
  {
    /** These hold the Session gate. */
    predicate HoldsGate() {
      NotifyThenGrant? || NotifyThenReturn? || NotifyThenWrite? || WritingUnleased? || WritingLeased?
    }

    /** These have been told that the Session has no owner. */
    predicate AssumesNoLease() { NotifyThenGrant? || NotifyThenWrite? || WritingUnleased? }
  }

  datatype State = State(
    ttl: nat,
    clock: Time,
    lease: Option<SessionLease>,
    timer: Option<(string, Time)>,
    recovering: Option<SessionLease>,
    control: Option<Control>,
    activeWrites: nat,
    gate: Option<Thread>,
    threads: map<Thread, Pc>,
    closed: multiset<Channel>,
    results: map<nat, Resolution>,
    nextChannel: nat,
    nextControl: nat,
    nextRequest: nat,
    nextTransfer: nat)

  function Initial(ttl: nat): State {
    State(ttl, 0, None, None, None, None, 0, None, map[], multiset{}, map[], 0, 0, 0, 0)
  }

  // ---- pieces of critical sections ---------------------------------------------------

  function At(s: State, now: Time): State { s.(clock := now) }

  function Enter(s: State, t: Thread, pc: Pc): State {
    s.(threads := s.threads[t := pc], gate := if pc.HoldsGate() then Some(t) else s.gate)
  }

  /** The thread returns, giving the gate back if it held it. */
  function Return(s: State, t: Thread): State {
    s.(threads := s.threads - {t}, gate := if s.gate == Some(t) then None else s.gate)
  }

  /** Closes both channels of the control and drops it from the coordinator. */
  function DropControl(s: State, result: Resolution): State
    requires s.control.Some?
  {
    var c := s.control.value;
    s.(closed := s.closed + multiset{c.released, c.changed}, results := s.results[c.id := result], control := None)
  }

  /** Removes a lease known to be overdue and wakes everybody waiting for its transfer. */
  function Expire(s: State): State
    requires s.lease.Some?
  {
    var lease := s.lease.value;
    var fenced := s.(lease := None, timer := None, recovering := if Aborts(s) then Some(lease) else s.recovering);
    if s.control.Some? then DropControl(fenced, Resolution(LeaseExpired, s.control.value.progress)) else fenced
  }

  /** Whether expiry closes the Session: a write is in flight, or the peer may still own the terminal. */
  predicate Aborts(s: State)
    requires s.lease.Some?
  {
    s.activeWrites > 0 || !s.lease.value.typ.Terminal?
  }

  predicate Overdue(s: State, now: Time) { s.lease.Some? && now >= s.lease.value.expiresAt }

  predicate Owned(s: State, owner: string) { s.lease.Some? && s.lease.value.owner == owner }

  predicate TransferLease(s: State) { s.lease.Some? && s.lease.value.typ.FileTransfer? }

  /** Grants a lease; a file transfer gets an identity and a fresh control. */
  function Grant(s: State, owner: string, typ: LeaseType, reference: string, now: Time): State {
    var transfer := if typ.FileTransfer? then s.nextTransfer + 1 else 0;
    var lease := SessionLease(owner, typ, transfer, now + s.ttl, reference);
    var granted := s.(clock := now, lease := Some(lease), timer := Some((owner, lease.expiresAt)),
                      nextTransfer := if typ.FileTransfer? then transfer else s.nextTransfer);
    if typ.FileTransfer? then
      granted.(control := Some(Control(s.nextControl, Running, 0, false, 0, s.nextChannel, s.nextChannel + 1,
                                       Progress(0, 0, 0.0))),
               nextControl := s.nextControl + 1, nextChannel := s.nextChannel + 2)
    else granted
  }

  /** Withdraws an unanswered confirmation whose time is up. */
  function Withdraw(s: State, now: Time): State {
    if s.control.Some? && s.control.value.phase.Confirming? && now >= s.control.value.deadline
    then Renewed(s, Running, 0)
    else s
  }

  /** Leaves the confirming phase: the timer stops, waiters of the old channel wake. */
  function Renewed(s: State, phase: Phase, requestId: nat): State
    requires s.control.Some?
  {
    var c := s.control.value;
    s.(control := Some(c.(phase := phase, requestId := requestId, timerArmed := false, changed := s.nextChannel)),
       nextChannel := s.nextChannel + 1,
       closed := s.closed + multiset{c.changed})
  }

  // ---- steps -------------------------------------------------------------------------

  datatype Step =
    | Acquire(t: Thread, owner: string, typ: LeaseType, reference: string, n1: Time, n2: Time)
    | NotifyDone(t: Thread, n1: Time)
    | Renew(t: Thread, owner: string, n1: Time, n2: Time)
    | Release(t: Thread, owner: string, n1: Time)
    | TimerFires(t: Thread, owner: string, expiresAt: Time, n1: Time)
    | BeginCancel(n1: Time, n2: Time, n3: Time)
    | ConfirmationFires(t: Thread, controlId: nat, requestId: nat, n1: Time, n2: Time, n3: Time)
    | Resolve(t: Thread, requestId: nat, cancel: bool, n1: Time, n2: Time, n3: Time)
    | ResolveReturns(t: Thread)
    | Checkpoint(t: Thread, owner: string, n1: Time, n2: Time)
    | CheckpointWakes(t: Thread, n1: Time, n2: Time)
    | CallerGivesUp(t: Thread)
    | RecordProgress(progress: Progress)
    | Status(t: Thread, n1: Time)
    | WriteEnter(t: Thread, owner: string, n1: Time)
    | WriteReturns(t: Thread)
    | RemoveRegistration(reference: string)
    | FinishExpiry(transferId: nat)
    | OtherSession(requests: nat, transfers: nat, n1: Time)

  predicate NeedsGate(a: Step) {
    a.Acquire? || a.Renew? || a.Release? || a.Status? || a.WriteEnter? || a.RemoveRegistration? || a.FinishExpiry?
  }

  predicate NewThread(s: State, a: Step) {
    match a
    case Acquire(t, _, _, _, _, _) => t !in s.threads
    case Renew(t, _, _, _) => t !in s.threads
    case Release(t, _, _) => t !in s.threads
    case TimerFires(t, _, _, _) => t !in s.threads
    case ConfirmationFires(t, _, _, _, _, _) => t !in s.threads
    case Resolve(t, _, _, _, _, _) => t !in s.threads
    case Checkpoint(t, _, _, _) => t !in s.threads
    case Status(t, _) => t !in s.threads
    case WriteEnter(t, _, _) => t !in s.threads
    case _ => true
  }

  /** Clock readings inside one critical section never go back. */
  predicate InTime(s: State, a: Step) {
    match a
    case Acquire(_, _, _, _, n1, n2) => s.clock <= n1 <= n2
    case NotifyDone(_, n1) => s.clock <= n1
    case Renew(_, _, n1, n2) => s.clock <= n1 <= n2
    case Release(_, _, n1) => s.clock <= n1
    case TimerFires(_, _, _, n1) => s.clock <= n1
    case BeginCancel(n1, n2, n3) => s.clock <= n1 <= n2 <= n3
    case ConfirmationFires(_, _, _, n1, n2, n3) => s.clock <= n1 <= n2 <= n3
    case Resolve(_, _, _, n1, n2, n3) => s.clock <= n1 <= n2 <= n3
    case Checkpoint(_, _, n1, n2) => s.clock <= n1 <= n2
    case CheckpointWakes(_, n1, n2) => s.clock <= n1 <= n2
    case Status(_, n1) => s.clock <= n1
    case WriteEnter(_, _, n1) => s.clock <= n1
    case OtherSession(_, _, n1) => s.clock <= n1
    case _ => true
  }

  predicate AtPc(s: State, a: Step) {
    match a
    case NotifyDone(t, _) => t in s.threads &&
      (|| s.threads[t].NotifyThenGrant? || s.threads[t].NotifyThenReturn?
       || s.threads[t].NotifyThenWrite? || s.threads[t].TimerNotifying?)
    case ResolveReturns(t) => t in s.threads && s.threads[t].AwaitingRelease? && s.threads[t].channel in s.closed
    case CheckpointWakes(t, _, _) => t in s.threads && s.threads[t].AwaitingChange? && s.threads[t].channel in s.closed
    case CallerGivesUp(t) => t in s.threads && (s.threads[t].AwaitingRelease? || s.threads[t].AwaitingChange?)
    case WriteReturns(t) => t in s.threads && (s.threads[t].WritingUnleased? || s.threads[t].WritingLeased?)
    case _ => true
  }

  predicate Enabled(s: State, a: Step) {
    NewThread(s, a) && InTime(s, a) && AtPc(s, a) && (NeedsGate(a) ==> s.gate.None?)
  }

  function Apply(s: State, a: Step): State
    requires Enabled(s, a)
  {
    match a
    case Acquire(t, owner, typ, reference, n1, n2) =>
      if s.recovering.Some? then s
      else if s.lease.None? then Grant(s, owner, typ, reference, n2)
      else if n1 < s.lease.value.expiresAt then At(s, n1)
      else Enter(Expire(At(s, n1)), t, if Aborts(s) then NotifyThenReturn else NotifyThenGrant(owner, typ, reference))
    case NotifyDone(t, n1) =>
      match s.threads[t] {
        case NotifyThenGrant(owner, typ, reference) => Grant(Return(s, t), owner, typ, reference, n1)
        case NotifyThenWrite => Enter(s, t, WritingUnleased)
        case _ => Return(s, t)
      }
    case Renew(t, owner, n1, n2) =>
      if !Owned(s, owner) then s
      else if Overdue(s, n1) then Enter(Expire(At(s, n1)), t, NotifyThenReturn)
      else
        var lease := s.lease.value.(expiresAt := n2 + s.ttl);
        At(s, n2).(lease := Some(lease), timer := Some((owner, lease.expiresAt)))
    case Release(t, owner, n1) =>
      if !Owned(s, owner) then s
      else if TransferLease(s) && Overdue(s, n1) then Enter(Expire(At(s, n1)), t, NotifyThenReturn)
      else AfterRelease(At(s, n1))
    case TimerFires(t, owner, expiresAt, n1) =>
      if Owned(s, owner) && s.lease.value.expiresAt == expiresAt && Overdue(s, n1)
      then Enter(Expire(At(s, n1)), t, TimerNotifying)
      else At(s, n1)
    case BeginCancel(n1, n2, n3) =>
      if !TransferLease(s) || Overdue(s, n1) || s.control.None? then At(s, n1)
      else
        var w := Withdraw(At(s, n2), n2);
        if !w.control.value.phase.Running? then w else Asks(At(w, n3), n3)
    case ConfirmationFires(t, controlId, requestId, n1, n2, n3) =>
      if !(s.control.Some? && s.control.value.id == controlId && s.control.value.requestId == requestId
           && s.control.value.phase.Confirming? && n1 >= s.control.value.deadline) then At(s, n1)
      else if Overdue(s, n2) then Enter(Expire(At(s, n2)), t, TimerNotifying)
      else if s.lease.Some? then Withdraw(At(s, n3), n3)
      else At(s, n2)
    case Resolve(t, requestId, cancel, n1, n2, n3) => AfterResolve(s, t, requestId, cancel, n1, n2, n3)
    case ResolveReturns(t) => Return(s, t)
    case Checkpoint(t, owner, n1, n2) => AfterCheckpoint(s, t, owner, 0, n1, n2)
    case CheckpointWakes(t, n1, n2) =>
      AfterCheckpoint(Return(s, t), t, s.threads[t].caller, s.threads[t].transferId, n1, n2)
    case CallerGivesUp(t) => Return(s, t)
    case RecordProgress(progress) =>
      if s.control.Some? then s.(control := Some(s.control.value.(progress := progress))) else s
    case Status(t, n1) =>
      if Overdue(s, n1) then Enter(Expire(At(s, n1)), t, NotifyThenReturn) else At(s, n1)
    case WriteEnter(t, owner, n1) =>
      if s.recovering.Some? then s
      else if Overdue(s, n1) then
        Enter(Expire(At(s, n1)), t, if owner != "" || Aborts(s) then NotifyThenReturn else NotifyThenWrite)
      else if owner != "" then
        if !Owned(s, owner) then At(s, n1)
        else Enter(At(s, n1).(activeWrites := s.activeWrites + 1), t, WritingLeased(s.lease.value))
      else if s.lease.None? then Enter(At(s, n1), t, WritingUnleased)
      else At(s, n1)
    case WriteReturns(t) =>
      var writes := if !s.threads[t].WritingLeased? then s.activeWrites
                    else if s.activeWrites <= 1 then 0 else s.activeWrites - 1;
      Return(s.(activeWrites := writes), t)
    case RemoveRegistration(reference) =>
      if reference != "" && ((s.lease.Some? && s.lease.value.reference != reference)
                             || (s.recovering.Some? && s.recovering.value.reference != reference)) then s
      else
        var removed := s.(lease := None, timer := None, recovering := None, activeWrites := 0);
        if s.control.None? then removed
        else if s.control.value.phase.Completed? then removed.(control := None)
        else DropControl(removed, Unset)
    case FinishExpiry(transferId) =>
      if s.recovering.Some? && s.recovering.value.transferId == transferId then s.(recovering := None) else s
    case OtherSession(requests, transfers, n1) =>
      s.(clock := n1, nextRequest := s.nextRequest + requests, nextTransfer := s.nextTransfer + transfers)
  }

  /** The lease goes; a control that was being asked about is kept for its answer, any other is dropped. */
  function AfterRelease(s: State): State
    requires s.lease.Some?
  {
    var free := s.(lease := None, timer := None);
    if s.control.None? then free else ControlReleased(free)
  }

  function ControlReleased(s: State): State
    requires s.control.Some?
  {
    var c := s.control.value;
    match c.phase
    case Cancelled => DropControl(s, Resolution(WasCancelled, c.progress))
    case Running => DropControl(s, Unset)
    case _ =>
      // confirming becomes completed; a control that already was stays, and both channels close
      var result := if c.phase.Confirming? then Resolution(WasCompleted, c.progress)
                    else if c.id in s.results then s.results[c.id] else Unset;
      DropControl(s, result).(control := Some(c.(phase := Completed, timerArmed := false)))
  }

  function AfterResolve(s: State, t: Thread, requestId: nat, cancel: bool, n1: Time, n2: Time, n3: Time): State
  {
    if s.control.Some? && s.control.value.phase.Completed? && s.control.value.requestId == requestId
    then s.(control := None)
    else ResolvePending(s, t, requestId, cancel, n1, n2, n3)
  }

  function ResolvePending(s: State, t: Thread, requestId: nat, cancel: bool, n1: Time, n2: Time, n3: Time): State
  {
    var w := if s.control.Some? && s.lease.Some? && !Overdue(s, n1) then Withdraw(At(s, n2), n2) else At(s, n1);
    AnswersIfAsked(w, t, requestId, cancel, n3)
  }

  function AnswersIfAsked(w: State, t: Thread, requestId: nat, cancel: bool, now: Time): State {
    if w.control.None? || !w.control.value.phase.Confirming? || w.control.value.requestId != requestId then w
    else if w.lease.None? || Overdue(w, now) then At(w, now)
    else Answers(At(w, now), t, requestId, cancel)
  }

  /** A running transfer gets a request with a new ID and a deadline. */
  function Asks(s: State, now: Time): State
    requires s.control.Some?
  {
    s.(nextRequest := s.nextRequest + 1,
       control := Some(s.control.value.(phase := Confirming, requestId := s.nextRequest + 1,
                                        timerArmed := true, deadline := now + CONFIRMATION_TIMEOUT)))
  }

  /** The pending request is answered; who confirms a cancellation waits for the release. */
  function Answers(s: State, t: Thread, requestId: nat, cancel: bool): State
    requires s.control.Some?
  {
    if !cancel then Renewed(s, Running, 0)
    else Enter(Renewed(s, Cancelled, requestId), t, AwaitingRelease(s.control.value.id, s.control.value.released))
  }

  datatype Verdict = NotOwned | Continue | Cancel | Wait

  /** The checks of one checkpoint round; `transferId` is 0 in the first round. */
  function CheckpointVerdict(s: State, owner: string, transferId: nat, n1: Time, n2: Time): Verdict
  {
    if !(Owned(s, owner) && TransferLease(s) && !Overdue(s, n1)) then NotOwned
    else if transferId != 0 && s.lease.value.transferId != transferId then NotOwned
    else
      var w := Withdraw(At(s, n2), n2);
      if w.control.None? || w.control.value.phase.Running? then Continue
      else if w.control.value.phase.Cancelled? then Cancel
      else Wait
  }

  function AfterCheckpoint(s: State, t: Thread, owner: string, transferId: nat, n1: Time, n2: Time): State
  {
    match CheckpointVerdict(s, owner, transferId, n1, n2)
    case NotOwned => At(s, n1)
    case Wait =>
      var w := Withdraw(At(s, n2), n2);
      if w.control.None? then w
      else Enter(w, t, AwaitingChange(owner, w.lease.value.transferId, w.control.value.id, w.control.value.changed))
    case _ => Withdraw(At(s, n2), n2)
  }
}
