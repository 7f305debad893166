/** The lifecycle of one debug operation. GDB, the RSP bridge and the shell answer arbitrarily, and
    MI records may arrive between any two steps. */
module DebugLifecycle {
  import opened DebugEvents

  datatype State = Starting | Running | Stopped | Exited | Recovering | Closed | Failed

  predicate Ended(state: State) { state.Closed? || state.Failed? }

  /** The evidence gathered before an operation may end as closed. LeaseGone: releasing the lease
      succeeded, which it also does when the lease had expired before. */
  datatype Evidence = Detached | Killed | FinalAck | ShellFooter | BridgeDown | ShellProbe | LeaseGone

  const PROOF := [ShellFooter, BridgeDown, ShellProbe, LeaseGone]

  /** Expired: the coordinator has ended the lease, and closes the Session because of it. */
  datatype Lease = Free | Held | Expired

  /** How the inferior was let go: it had exited and its last packet is acknowledged, or it was killed
      and that is acknowledged, or it was detached (and may have exited at that moment). */
  predicate LetsGo(e: seq<Evidence>) {
    e == [FinalAck] || e == [Killed, FinalAck] || e == [Detached] || e == [Detached, FinalAck]
  }

  predicate Complete(e: seq<Evidence>) {
    |e| >= |PROOF| && LetsGo(e[..|e| - |PROOF|]) && e[|e| - |PROOF|..] == PROOF
  }

  /** Where an MI record may move the state. */
  function AfterRecord(state: State, record: Record): State
  {
    if (record.kind == "*" || (record.kind == "^" && record.class_ == "running"))
       && (state.Starting? || state.Running? || state.Stopped?) then
      if record.class_ == "running" then Running
      else if record.class_ == "stopped" then (if record.exitReason then Exited else Stopped)
      else state
    else state
  }

  /** What records make of a state, one after the other. */
  function Replay(state: State, records: seq<Record>): State
  {
    if records == [] then state else AfterRecord(Replay(state, records[..|records| - 1]), records[|records| - 1])
  }

  lemma {:induction false} ReplayConcat(state: State, a: seq<Record>, b: seq<Record>)
    ensures Replay(state, a + b) == Replay(Replay(state, a), b)
    decreases |b|
  {
    if b == [] {
      assert a + b == a;
    } else {
      assert (a + b)[..|a + b| - 1] == a + b[..|b| - 1];
      ReplayConcat(state, a, b[..|b| - 1]);
    }
  }

  predicate IsExit(record: Record) { record.kind == "*" && record.class_ == "stopped" && record.exitReason }

  predicate ExitRecorded(records: seq<Record>) { exists i :: 0 <= i < |records| && IsExit(records[i]) }

  predicate Active(state: State) { state.Starting? || state.Running? || state.Stopped? }

  /** An operation that is starting has reached `exited` exactly if one of the records said so. */
  lemma {:induction false} ExitedIffRecorded(records: seq<Record>)
    ensures Replay(Starting, records).Exited? <==> ExitRecorded(records)
    ensures !ExitRecorded(records) ==> Active(Replay(Starting, records))
  {
    if records != [] {
      var n := |records| - 1;
      var before, last := records[..n], records[n];
      ExitedIffRecorded(before);
      assert ExitRecorded(records) <==> ExitRecorded(before) || IsExit(last) by {
        if ExitRecorded(before) {
          var i :| 0 <= i < n && IsExit(before[i]);
          assert IsExit(records[i]);
        }
        if ExitRecorded(records) && !IsExit(last) {
          var i :| 0 <= i < |records| && IsExit(records[i]);
          assert IsExit(before[i]);
        }
      }
    }
  }

  /** The program exits while the operation is still starting. */
  lemma ExitDuringStart()
    ensures var records := [Record("^", "running", false, 0), Record("*", "stopped", true, 0)];
      Replay(Starting, records) == Exited && ExitRecorded(records)
  {
    var records := [Record("^", "running", false, 0), Record("*", "stopped", true, 0)];
    assert IsExit(records[1]);
    ExitedIffRecorded(records);
  }

  datatype Request = Request(id: string, action: string, argument: string)

  /** GDB answered, GDB reported an error, or it is unknown what happened; a refused request never
      reached GDB. */
  datatype Answer = Done | CommandError | Uncertain | Refused

  datatype Operation = Command(request: Request) | Stop(terminate: bool) | Monitor | Arrival(record: Record)

  const MAX_COMMANDS := 4096
  const MAX_COMMAND_BYTES := 16 * 1024 * 1024

  class DebugRun {
    const log: EventLog
    var state: State
    var touched: bool
    var finishedClosed: nat
    var sessionRemoved: bool
    var lease: Lease
    var evidence: seq<Evidence>
    var commands: map<string, (Request, Answer)>
    var commandBytes: nat
    /** The requests that were handed to GDB, in order. */
    var executed: seq<Request>

    /** `finished` has been closed once exactly when the operation has ended; a closed operation has
        all evidence and no lease any more, and a failed one that had touched the terminal removed
        the Session. */
    ghost predicate Valid()
      reads this, log
    {
      && log.Valid()
      && finishedClosed == (if Ended(state) then 1 else 0)
      && (state.Closed? ==> Complete(evidence) && !lease.Held? && !sessionRemoved)
      && (state.Failed? && touched ==> sessionRemoved)
      && (!Ended(state) ==> !sessionRemoved)
    }

    /** Between operations, which run one at a time: a started operation holds its lease until it ends, unless
        the lease expires. */
    ghost predicate Settled()
      reads this, log
    {
      Valid() && !state.Recovering? && (!Ended(state) ==> touched && !lease.Free? && evidence == [])
    }

    /** No request ID has been executed twice, and what was executed is remembered. */
    ghost predicate Deduplicated()
      reads this
    {
      && (forall i, j :: 0 <= i < j < |executed| ==> executed[i].id != executed[j].id)
      && (forall i :: 0 <= i < |executed| ==> executed[i].id in commands && commands[executed[i].id].0 == executed[i])
    }

    constructor ()
      ensures Valid() && state == Starting && !touched && lease.Free? && evidence == [] && fresh(log)
      ensures Deduplicated() && executed == []
    {
      commands, commandBytes, executed := map[], 0, [];
      log := new EventLog();
      state, touched, finishedClosed, sessionRemoved, lease, evidence := Starting, false, 0, false, Free, [];
    }

    /** Sets the state and logs it. */
    method Transition(to: State, name: string)
      requires log.Valid()
      modifies `state, log
      ensures log.Valid() && state == to
      ensures exists r :: log.history == old(log.history) + [r] && r.kind == "lifecycle" && r.class_ == name
    {
      var size: nat :| true;
      state := to;
      log.Append(Record("lifecycle", name, false, size));
    }

    /** An MI record arrives; it never ends an operation and never revives an ended one. */
    method OnRecord(record: Record)
      requires Valid()
      modifies `state, log
      ensures Valid() && state == AfterRecord(old(state), record)
      ensures log.history == old(log.history) + [record]
      ensures Ended(state) <==> Ended(old(state))
    {
      hide Retains, Bytes, WithinLimits, Later;
      if (record.kind == "*" || (record.kind == "^" && record.class_ == "running"))
         && (state == Starting || state == Running || state == Stopped) {
        if record.class_ == "running" {
          state := Running;
        } else if record.class_ == "stopped" {
          state := Stopped;
          if record.exitReason {
            state := Exited;
          }
        }
      }
      log.Append(record);
    }

    /** What may happen while an operation waits: any number of records arrive, and the lease expires. */
    method Interference()
      requires Valid()
      modifies `state, `lease, log
      ensures Valid() && SameOrExpired(old(lease), lease)
      ensures state == old(state) || (!Ended(old(state)) && old(state) !in {Exited, Recovering})
      ensures Ended(state) <==> Ended(old(state))
      ensures !old(state).Recovering? ==> !state.Recovering?
      ensures old(log.history) <= log.history && state == Replay(old(state), log.history[|old(log.history)|..])
    {
      hide Retains, Bytes, WithinLimits, Later;
      ghost var was := log.history;
      assert was[|was|..] == [];
      var expires: bool := *;
      if lease.Held? && expires {
        lease := Expired;
      }
      var n: nat :| true;
      for i := 0 to n
        invariant Valid() && SameOrExpired(old(lease), lease)
        invariant was <= log.history && state == Replay(old(state), log.history[|was|..])
        invariant state == old(state) || (!Ended(old(state)) && old(state) !in {Exited, Recovering})
        invariant Ended(state) <==> Ended(old(state))
        invariant !old(state).Recovering? ==> !state.Recovering?
      {
        var record: Record := *;
        ghost var arrived := log.history[|was|..];
        OnRecord(record);
        assert log.history[|was|..] == arrived + [record];
        assert (arrived + [record])[..|arrived|] == arrived;
      }
    }

    static predicate SameOrExpired(was: Lease, now: Lease) { now == was || (was.Held? && now.Expired?) }

    /** Ends the operation as failed, once; a touched terminal loses its Session. */
    method Fail()
      requires Valid()
      modifies `state, `finishedClosed, `sessionRemoved, `lease, log
      ensures Valid() && Ended(state)
      ensures Ended(old(state)) ==> state == old(state) && log.history == old(log.history)
      ensures !Ended(old(state)) ==> state == Failed && (old(touched) ==> sessionRemoved && lease.Free?)
      ensures touched == old(touched) && evidence == old(evidence)
    {
      if Ended(state) {
        return;
      }
      Transition(Failed, "failed");
      if touched {
        sessionRemoved := true;
        lease := Free;
      } else {
        var released: bool := *;
        lease := if released then Free else lease;
      }
      finishedClosed := finishedClosed + 1;
    }

    /** A foreign step that may succeed or fail while records keep arriving. */
    method Attempt() returns (ok: bool)
      requires Valid()
      modifies `state, `lease, log
      ensures Valid() && SameOrExpired(old(lease), lease)
      ensures state == old(state) || (!Ended(old(state)) && old(state) !in {Exited, Recovering})
      ensures Ended(state) <==> Ended(old(state))
      ensures !old(state).Recovering? ==> !state.Recovering?
      ensures old(log.history) <= log.history && state == Replay(old(state), log.history[|old(log.history)|..])
    {
      Interference();
      ok := *;
    }

    /** A foreign step whose success is evidence: what is on record is what the environment gave. */
    method Obtain(step: Evidence) returns (ok: bool)
      requires Valid() && !state.Closed?
      modifies `state, `lease, `evidence, log
      ensures Valid() && SameOrExpired(old(lease), lease)
      ensures evidence == if ok then old(evidence) + [step] else old(evidence)
      ensures state == old(state) || (!Ended(old(state)) && old(state) !in {Exited, Recovering})
      ensures Ended(state) <==> Ended(old(state))
      ensures !old(state).Recovering? ==> !state.Recovering?
    {
      ok := Attempt();
      if ok {
        evidence := evidence + [step];
      }
    }

    /** Starts the operation: it fails, or it ends up stopped with a lease that may have expired. `arrived` are the
        records that came in meanwhile and `reached` is what they made of the state: the closing
        transition to stopped loses an exit exactly if one of them recorded it. */
    method Start(requestValid: bool) returns (ok: bool, ghost arrived: seq<Record>, ghost reached: State)
      requires Valid() && state == Starting && !touched && lease.Free? && evidence == [] && Deduplicated()
      modifies `state, `touched, `finishedClosed, `sessionRemoved, `lease, log
      ensures Settled() && Deduplicated()
      ensures ok ==> state == Stopped && !lease.Free?
      ensures !ok ==> state == Failed
      ensures ok ==> reached == Replay(Starting, arrived) && (reached.Exited? <==> ExitRecorded(arrived))
      ensures ok ==>
        exists r :: log.history == old(log.history) + arrived + [r] && r.kind == "lifecycle" && r.class_ == "stopped"
    {
      hide Retains, Bytes, WithinLimits, Later, Replay, ExitRecorded;
      arrived, reached := [], state;
      if !requestValid {
        Transition(Failed, "failed");
        finishedClosed := finishedClosed + 1;
        return false, arrived, reached;
      }
      var granted: bool := *;
      lease := if granted then Held else Free;
      if !granted {
        Transition(Failed, "failed");
        finishedClosed := finishedClosed + 1;
        return false, arrived, reached;
      }
      ok, arrived := Connect();
      if !ok {
        Fail();
        return false, arrived, reached;
      }
      reached := state;
      ExitedIffRecorded(arrived);
      Transition(Stopped, "stopped");
    }

    /** Checks the terminal's pending input, then sets up GDB, the bridge and the inferior. */
    method Connect() returns (ok: bool, ghost arrived: seq<Record>)
      requires Valid() && state == Starting && !touched
      modifies `state, `touched, `lease, log
      ensures Valid() && !Ended(state) && !state.Recovering? && (ok ==> touched) && SameOrExpired(old(lease), lease)
      ensures log.history == old(log.history) + arrived && state == Replay(Starting, arrived)
    {
      hide Retains, Bytes, WithinLimits, Later, Replay;
      ghost var was := log.history;
      ok := Attempt();
      ghost var first, middle := log.history[|was|..], log.history;
      arrived := first;
      if ok {
        touched := true;
        ok := Attempt();
        ghost var second := log.history[|middle|..];
        ReplayConcat(Starting, first, second);
        arrived := first + second;
      }
    }

    /** Stops the inferior and lets go of it; the operation does not end here. A running inferior is
        interrupted first; one that has exited, or was killed, has its last packet acknowledged. */
    method LetGo(terminate: bool) returns (ok: bool)
      requires Valid() && !Ended(state) && !state.Recovering? && evidence == []
      modifies `state, `lease, `evidence, log
      ensures Valid() && !Ended(state) && SameOrExpired(old(lease), lease)
      ensures ok ==> LetsGo(evidence) && (Killed in evidence ==> terminate) && (Detached in evidence ==> !terminate)
      ensures ok && old(state).Exited? ==> evidence == [FinalAck]
    {
      hide Retains, Bytes, WithinLimits, Later;
      ok := true;
      if state == Running {
        ok := Attempt();
        if ok {
          ok := WaitStopped();
        }
      }
      if ok && state != Exited {
        ok := Obtain(if terminate then Killed else Detached);
      }
      if ok && (state == Exited || terminate) {
        // the bridge is done and its final packet acknowledged
        ok := Obtain(FinalAck);
      }
    }

    /** Proves that the shell is back: each step runs only behind the previous one's success. */
    method Prove() returns (ok: bool)
      requires Valid() && state.Recovering?
      modifies `state, `lease, `evidence, log
      ensures Valid() && state.Recovering? && SameOrExpired(old(lease), lease)
      ensures exists n :: 0 <= n <= 3 && evidence == old(evidence) + PROOF[..n] && (ok <==> n == 3)
    {
      hide Retains, Bytes, WithinLimits, Later;
      ghost var before := evidence;
      assert evidence == before + PROOF[..0];
      ok := Obtain(ShellFooter);
      if ok {
        assert evidence == before + PROOF[..1];
        ok := Obtain(BridgeDown);
        if ok {
          assert evidence == before + PROOF[..2];
          ok := Obtain(ShellProbe);
          if ok {
            assert evidence == before + PROOF[..3];
          }
        }
      }
    }

    /** Succeeds for the lease's owner and when there is no lease; fails when a later lease is another's. */
    method ReleaseLease() returns (ok: bool)
      requires !lease.Free?
      modifies `lease
      ensures old(lease).Held? ==> ok && lease.Free?
      ensures old(lease).Expired? ==> lease.Expired?
    {
      ok := true;
      if lease.Held? {
        lease := Free;
      } else {
        ok := *;
      }
    }

    /** Detaches or kills, then proves that the shell is back before closing. Whatever fails on the
        way ends the operation as failed. A lease that is still held is given back; one that has expired is
        gone already, and the coordinator closes the Session although the operation ends as closed. */
    method Stop(terminate: bool) returns (ok: bool)
      requires Valid() && !Ended(state) && !state.Recovering? && touched && !lease.Free? && evidence == []
      modifies `state, `finishedClosed, `sessionRemoved, `lease, `evidence, log
      ensures Valid() && Ended(state)
      ensures ok <==> state == Closed
      ensures state == Failed ==> sessionRemoved && lease.Free?
      ensures ok && lease.Expired? ==> LeaseGone in evidence && !sessionRemoved
      ensures old(lease).Expired? && ok ==> lease.Expired?
      ensures ok ==> (Killed in evidence ==> terminate) && (Detached in evidence ==> !terminate)
    {
      hide Retains, Bytes, WithinLimits, Later;
      ghost var letGo;
      ok, letGo := Recover(terminate);
      if ok {
        ok := ReleaseLease();
      }
      if !ok {
        Fail();
        return false;
      }
      evidence := evidence + [LeaseGone];
      assert evidence == letGo + PROOF;
      Transition(Closed, "closed");
      finishedClosed := finishedClosed + 1;
      return true;
    }

    /** Lets go of the inferior and proves that the shell is back. */
    method Recover(terminate: bool) returns (ok: bool, ghost letGo: seq<Evidence>)
      requires Valid() && !Ended(state) && !state.Recovering? && evidence == []
      modifies `state, `lease, `evidence, log
      ensures Valid() && !Ended(state) && SameOrExpired(old(lease), lease)
      ensures ok ==> LetsGo(letGo) && evidence == letGo + PROOF[..3]
      ensures ok ==> (Killed in letGo ==> terminate) && (Detached in letGo ==> !terminate)
    {
      hide Retains, Bytes, WithinLimits, Later;
      ok := LetGo(terminate);
      letGo := evidence;
      if ok {
        Transition(Recovering, "recovering");
        ok := Prove();
      }
    }

    /** Waits for a stop or exit record; the deadline may strike first. */
    method WaitStopped() returns (ok: bool)
      requires Valid() && !Ended(state) && !state.Recovering?
      modifies `state, `lease, log
      ensures Valid() && !Ended(state) && !state.Recovering? && SameOrExpired(old(lease), lease)
      ensures ok ==> state == Stopped || state == Exited
    {
      var patience: nat :| true;
      while state != Stopped && state != Exited && patience > 0
        invariant Valid() && !Ended(state) && !state.Recovering? && SameOrExpired(old(lease), lease)
        decreases patience
      {
        Interference();
        patience := patience - 1;
      }
      return state == Stopped || state == Exited;
    }

    /** A stop request: idempotent once the operation has ended. */
    method StopDebug(terminate: bool, attached: bool) returns (ok: bool)
      requires Settled()
      modifies `state, `finishedClosed, `sessionRemoved, `lease, `evidence, log
      ensures Settled()
      ensures terminate && attached ==> !ok && state == old(state)
      ensures !(terminate && attached) ==> Ended(state) && (ok <==> state == Closed)
      ensures Ended(old(state)) ==> state == old(state) && log.history == old(log.history)
    {
      if terminate && attached {
        return false;
      }
      if state == Closed {
        return true;
      }
      if state == Failed {
        return false;
      }
      ok := Stop(terminate);
    }

    /** Runs a request once: a repeated ID gets the remembered answer, or is refused if it stands for
        something else. An uncertain outcome ends the operation. */
    method DebugCommand(q: Request) returns (answer: Answer)
      requires Settled() && Deduplicated()
      modifies `state, `finishedClosed, `sessionRemoved, `lease, `commands, `commandBytes, `executed, log
      ensures Settled() && Deduplicated()
      ensures Ended(old(state)) ==> state == old(state) && executed == old(executed)
      ensures executed == old(executed) || executed == old(executed) + [q]
      ensures q.id in old(commands) ==>
        && executed == old(executed) && commands == old(commands) && state == old(state)
        && answer == if old(commands)[q.id].0 == q then old(commands)[q.id].1 else Refused
      ensures executed != old(executed) ==> commands == old(commands)[q.id := (q, answer)]
      ensures executed != old(executed) && answer.Uncertain? ==> state == Failed
      ensures executed == old(executed) ==> commands == old(commands) && state == old(state)
    {
      hide Retains, Bytes, WithinLimits, Later;
      if q.id in commands {
        return if commands[q.id].0 == q then commands[q.id].1 else Refused;
      }
      var allowed: bool := *;                    // the action is known, and the client's heartbeat is fresh
      if q.id == "" || |q.id| > 128 || !allowed || |commands| >= MAX_COMMANDS || commandBytes >= MAX_COMMAND_BYTES {
        return Refused;
      }
      if state == Closed || state == Failed || state == Exited {
        return Refused;
      }
      var outcome: nat, size: nat :| true;
      answer := if outcome == 0 then CommandError else if outcome == 1 then Uncertain else Done;
      Interference();
      executed := executed + [q];
      commands := commands[q.id := (q, answer)];
      commandBytes := commandBytes + size;
      if answer.Uncertain? {
        Fail();
      }
    }

    /** The monitor notices an exit, an expiry, a lost terminal, bridge or GDB, or a failed renewal. */
    method MonitorOnce()
      requires Settled()
      modifies `state, `finishedClosed, `sessionRemoved, `lease, `evidence, log
      ensures Settled()
      ensures Ended(old(state)) ==> state == old(state)
    {
      hide Retains, Bytes, WithinLimits, Later;
      var noticed: nat :| true;
      if noticed == 0 {
        if !Ended(state) {
          var _ := Stop(false);
        }
      } else if noticed == 1 {
        Fail();
      }
    }

    /** Every run after the start: an ended operation stays as it ended, no request is executed twice,
        and `finished` is closed once exactly when the operation has ended. */
    method Run(operations: seq<Operation>)
      requires Settled() && Deduplicated()
      modifies this, log
      ensures Settled() && Deduplicated()
      ensures Ended(old(state)) ==> state == old(state) && executed == old(executed)
      ensures old(executed) <= executed
      ensures finishedClosed == if Ended(state) then 1 else 0
    {
      hide Retains, Bytes, WithinLimits, Later;
      for i := 0 to |operations|
        invariant Settled() && Deduplicated()
        invariant Ended(old(state)) ==> state == old(state) && executed == old(executed)
        invariant old(executed) <= executed
      {
        match operations[i]
        case Command(q) =>
          var _ := DebugCommand(q);
        case Stop(terminate) =>
          var attached: bool := *;
          var _ := StopDebug(terminate, attached);
        case Monitor =>
          MonitorOnce();
        case Arrival(record) =>
          OnRecord(record);
      }
    }
  }

  /** A whole operation, from its request through its start to whatever happens to it. */
  method Live(requestValid: bool, operations: seq<Operation>) returns (run: DebugRun)
    ensures run.Settled() && run.Deduplicated()
    ensures run.finishedClosed == if Ended(run.state) then 1 else 0
    ensures run.state.Closed? ==> Complete(run.evidence) && !run.lease.Held? && !run.sessionRemoved
    ensures run.state.Failed? && run.touched ==> run.sessionRemoved
  {
    run := new DebugRun();
    ghost var arrived, reached;
    var ok;
    ok, arrived, reached := run.Start(requestValid);
    if ok {
      run.Run(operations);
    }
  }
}
