/** The cooperative scheduler and its IPC bridge (kernel/src/sched/mod.rs) on their stored state. */
module CooperativeScheduler {
  import opened Wrappers
  import opened SlotPool
  import opened ObjectArena
  import opened CapTable
  import opened Rendezvous
  import opened Ipc
  import opened ReadyQueue
  import opened Dispatch
  import opened Bridge

  class Scheduler {
    const ready: SchedQueue
    const taskStates: array<TaskState>
    const taskHandles: array<Option<TaskHandle>>
    var current: Option<TaskHandle>

    ghost predicate Valid()
      reads this, ready, ready.buf, taskStates, taskHandles
    {
      && ready.Valid()
      && ready.buf.Length == taskStates.Length == taskHandles.Length
      && ready.buf != taskHandles
    }

    ghost function View(): Sched
      reads this, ready, taskStates, taskHandles
    {
      Sched(ready.Contents, taskStates[..], taskHandles[..], current)
    }

    constructor (capacity: nat)
      ensures Valid() && fresh(ready) && fresh(ready.buf) && fresh(taskStates) && fresh(taskHandles)
      ensures View() == EmptySched(capacity)
    {
      ready := new SchedQueue(capacity);
      taskStates := new TaskState[capacity](i => Vacant);
      taskHandles := new Option<TaskHandle>[capacity](i => None);
      current := None;
    }

    /** Registers a task; refused, with nothing registered, exactly when the ready queue is full, which it
        never is when the slot is not already that of a ready task. */
    method AddTask(handle: TaskHandle) returns (r: Result<(), SchedError>)
      requires Valid() && handle.index < taskStates.Length
      modifies ready, ready.buf, taskStates, taskHandles
      ensures Valid()
      ensures r == if |old(View()).ready| == taskStates.Length then Err(ReadyQueueFull) else Ok(())
      ensures SchedInv(old(View())) && old(View()).states[handle.index] != Ready ==> r.Ok?
      ensures View() == if r.Ok? then Added(old(View()), handle) else old(View())
    {
      if SchedInv(View()) && taskStates[handle.index] != Ready {
        ReadyHasRoom(View(), {handle.index});
      }
      var queued := ready.Enqueue(handle);
      if queued.Err? {
        return Err(ReadyQueueFull);
      }
      taskStates[handle.index] := Ready;
      taskHandles[handle.index] := Some(handle);
      r := Ok(());
    }

    /** Wakes the first task blocked on `ep`; the ready queue has room for it. */
    method UnblockReceiverOn(ep: SlotId)
      requires Valid() && SchedInv(View())
      modifies ready, ready.buf, taskStates
      ensures Valid()
      ensures View() == Woken(old(View()), ep)
    {
      for idx := 0 to taskStates.Length
        invariant View() == old(View()) && Valid()
        invariant FirstBlocked(taskStates[..], ep, 0) == FirstBlocked(taskStates[..], ep, idx)
      {
        if taskStates[idx] == Blocked(ep) {
          assert SlotOk(View(), idx);
          ReadyHasRoom(View(), {idx});
          taskStates[idx] := Ready;
          var queued := ready.Enqueue(taskHandles[idx].value);
          assert queued.Ok?;
          return;
        }
      }
    }

    /** Makes the head of the ready queue current. */
    method StartPrelude() returns (next: nat)
      requires Valid() && SchedInv(View()) && View().ready != []
      modifies this, ready, ready.buf, taskStates
      ensures Valid()
      ensures View() == Dispatched(old(View())) && next == View().current.value.index
    {
      ghost var before := View();
      assert before.ready[0] in before.ready;
      var nextHandle := ready.Dequeue();
      next := nextHandle.value.index;
      taskStates[next] := Ready;
      current := Some(nextHandle.value);
      assert taskStates[..] == before.states;
    }

    /** Yields.  `switch` is the pair of slots that `context_switch` is called with, if it is. */
    method YieldNow() returns (r: Result<(), SchedError>, switch: Option<(nat, nat)>)
      requires Valid() && SchedInv(View())
      modifies this, ready, ready.buf, taskStates
      ensures Valid()
      ensures r == if old(current).None? then Err(NoCurrentTask) else Ok(())
      ensures View() == if r.Ok? then Yielded(old(View())) else old(View())
      ensures switch.Some? <==> r.Ok? && old(View()).ready != []
      ensures switch.Some? ==> switch.value == (old(current).value.index, current.value.index)
      ensures switch.Some? ==> switch.value.0 != switch.value.1
    {
      if current.None? {
        return Err(NoCurrentTask), None;
      }
      ghost var before := View();
      var currentHandle := current.value;
      var currentIdx := currentHandle.index;
      taskStates[currentIdx] := Ready;
      assert taskStates[..] == before.states;
      assert SlotOk(before, currentIdx);
      ReadyHasRoom(before, {currentIdx});
      var queued := ready.Enqueue(currentHandle);
      assert queued.Ok?;
      var next := ready.Dequeue();
      if next.None? || next.value == currentHandle {
        assert before.ready == [];
        return Ok(()), None;
      }
      assert before.ready != [];
      SwitchIndicesDiffer(before);
      assert before.ready[0] in before.ready;
      var nextIdx := next.value.index;
      taskStates[nextIdx] := Ready;
      assert taskStates[..] == before.states;
      current := Some(next.value);
      return Ok(()), Some((currentIdx, nextIdx));
    }

    /** Blocks the current task on `ep` and dispatches the next one. */
    method BlockCurrent(ep: SlotId) returns (r: Result<(nat, nat), SchedError>)
      requires Valid() && SchedInv(View())
      modifies this, ready, ready.buf, taskStates
      ensures Valid()
      ensures old(current).None? ==> r == Err(NoCurrentTask) && View() == old(View())
      ensures old(current).Some? && old(View()).ready == [] ==> r == Err(Deadlock) && View() == old(View())
      ensures old(current).Some? && old(View()).ready != [] ==>
                r.Ok? && View() == BlockedOn(old(View()), ep)
      ensures r.Ok? ==> r.value == (old(current).value.index, current.value.index) && r.value.0 != r.value.1
    {
      if current.None? {
        return Err(NoCurrentTask);
      }
      ghost var before := View();
      var currentHandle := current.value;
      var currentIdx := currentHandle.index;
      var priorState := taskStates[currentIdx];
      assert priorState == Ready;
      taskStates[currentIdx] := Blocked(ep);
      current := None;
      var next := ready.Dequeue();
      if next.None? {
        taskStates[currentIdx] := priorState;
        current := Some(currentHandle);
        assert taskStates[..] == before.states;
        return Err(Deadlock);
      }
      SwitchIndicesDiffer(before);
      assert before.ready[0] in before.ready;
      var nextIdx := next.value.index;
      taskStates[nextIdx] := Ready;
      assert taskStates[..] == before.states[currentIdx := Blocked(ep)];
      current := Some(next.value);
      r := Ok((currentIdx, nextIdx));
    }

    /** The scheduler's part of a send: a delivery wakes the receiver and yields. */
    method FinishSend(ep: SlotId, outcome: Result<SendOutcome, IpcError>)
      returns (r: Result<SendOutcome, SchedError>, switch: Option<(nat, nat)>)
      requires Valid() && SchedInv(View())
      modifies this, ready, ready.buf, taskStates
      ensures Valid()
      ensures r == LiftSend(outcome, old(current).Some?)
      ensures View() == SchedAfterSend(old(View()), ep, outcome)
      ensures switch.Some? <==>
              outcome == Ok(Delivered) && old(current).Some? && Woken(old(View()), ep).ready != []
      ensures switch.Some? ==> switch.value == (old(current).value.index, current.value.index)
      ensures switch.Some? ==> switch.value.0 != switch.value.1
    {
      switch := None;
      if outcome.Err? {
        return Err(IpcFailed(outcome.error)), None;
      }
      if outcome.value == Delivered {
        WakeKeepsOk(View(), ep);
        UnblockReceiverOn(ep);
        var yielded;
        yielded, switch := YieldNow();
        if yielded.Err? {
          return Err(yielded.error), None;
        }
      }
      r := Ok(outcome.value);
    }

    /** The scheduler's part of a receive: a pending one blocks. */
    method FinishRecv(ep: SlotId, outcome: Result<RecvOutcome, IpcError>)
      returns (step: RecvStep, switch: Option<(nat, nat)>)
      requires Valid() && SchedInv(View())
      modifies this, ready, ready.buf, taskStates
      ensures Valid()
      ensures Underlying(step) == outcome
      ensures SchedAfterRecv(old(View()), ep, step, View())
      ensures switch.Some? <==> step == Switched
      ensures switch.Some? ==>
                && old(current).Some? && current.Some?
                && switch.value == (old(current).value.index, current.value.index)
                && switch.value.0 != switch.value.1
    {
      if outcome.Err? {
        return Returned(Err(IpcFailed(outcome.error))), None;
      }
      if !outcome.value.Pending? {
        return Returned(Ok(outcome.value)), None;
      }
      var blocked := BlockCurrent(ep);
      if blocked.Err? {
        return Returned(Err(blocked.error)), None;
      }
      step, switch := Switched, Some(blocked.value);
    }
  }

  function ResolveEpCap(table: CapabilityTable, epCap: SlotId): (r: Result<SlotId, SchedError>)
    requires table.Valid()
    reads table, table.slots
    ensures r.Ok? ==> r.value == EndpointOf(table.View(), epCap)
    ensures r.Err? ==> r.error == IpcFailed(InvalidCapability)
    ensures r.Err? ==> forall right :: ValidateEp(table.View(), epCap, right) == Err(InvalidCapability)
  {
    var cap := table.Lookup(epCap);
    if cap.Err? then Err(IpcFailed(InvalidCapability))
    else match cap.value.obj
      case Endpoint(ep) => Ok(ep)
      case _ => Err(IpcFailed(InvalidCapability))
  }

  /** The scheduler shares no storage with the queues or a table. */
  lemma Separate(sched: Scheduler, queues: IpcQueues, table: CapabilityTable)
    ensures sched.taskStates as object != queues.states && sched.taskStates as object != queues.slotGenerations
    ensures sched.taskStates as object != table.slots
    ensures sched.taskHandles as object != queues.states && sched.taskHandles as object != queues.slotGenerations
    ensures sched.taskHandles as object != table.slots
    ensures sched.ready.buf as object != queues.states && sched.ready.buf as object != queues.slotGenerations
    ensures sched.ready.buf as object != table.slots
  {
  }

  /** The part of a send after the endpoint has been resolved. */
  method SendResolved(sched: Scheduler, arena: Arena<EndpointObject>, queues: IpcQueues, table: CapabilityTable,
                      epCap: SlotId, ep: SlotId, msg: Message, transfer: Option<SlotId>)
    returns (r: Result<SendOutcome, SchedError>, switch: Option<(nat, nat)>)
    requires sched.Valid() && SchedInv(sched.View())
    requires arena.Valid() && table.Valid() && queues.Fits(arena.View()) && ep == EndpointOf(table.View(), epCap)
    modifies sched, sched.ready, sched.ready.buf, sched.taskStates
    modifies queues, queues.states, queues.slotGenerations, table, table.slots
    ensures sched.Valid() && table.Valid() && queues.Fits(old(arena.View()))
    ensures var answer := old(SendAnswer(arena.View(), queues.View(arena.View()), table.View(), epCap, transfer));
            && r == LiftSend(answer, old(sched.current).Some?)
            && SendRel(old(arena.View()), old(queues.View(arena.View())), old(table.View()), epCap, msg, transfer,
                       answer, queues.View(old(arena.View())), table.View())
            && sched.View() == SchedAfterSend(old(sched.View()), ep, answer)
            && (switch.Some? <==>
                answer == Ok(Delivered) && old(sched.current).Some? && Woken(old(sched.View()), ep).ready != [])
    ensures switch.Some? ==>
              && sched.current.Some?
              && switch.value == (old(sched.current).value.index, sched.current.value.index)
              && switch.value.0 != switch.value.1
  {
    ghost var before := sched.View();
    Separate(sched, queues, table);
    var outcome := IpcSend(arena, queues, epCap, table, msg, transfer);
    assert sched.View() == before;
    r, switch := sched.FinishSend(ep, outcome);
  }

  /** Send; if it delivers, wake the receiver and yield. */
  method IpcSendAndYield(sched: Scheduler, arena: Arena<EndpointObject>, queues: IpcQueues, table: CapabilityTable,
                         epCap: SlotId, msg: Message, transfer: Option<SlotId>)
    returns (r: Result<SendOutcome, SchedError>, switch: Option<(nat, nat)>)
    requires sched.Valid() && SchedInv(sched.View())
    requires arena.Valid() && table.Valid() && queues.Fits(arena.View())
    modifies sched, sched.ready, sched.ready.buf, sched.taskStates
    modifies queues, queues.states, queues.slotGenerations, table, table.slots
    ensures sched.Valid() && table.Valid() && queues.Fits(old(arena.View()))
    ensures var answer := old(SendAnswer(arena.View(), queues.View(arena.View()), table.View(), epCap, transfer));
            && r == LiftSend(answer, old(sched.current).Some?)
            && SendYieldRel(old(arena.View()), old(queues.View(arena.View())), old(table.View()), old(sched.View()),
                            epCap, msg, transfer, answer,
                            queues.View(old(arena.View())), table.View(), sched.View())
            && SendAnswered(old(arena.View()), old(queues.View(arena.View())), old(table.View()), old(sched.View()),
                            epCap, msg, transfer, r, queues.View(old(arena.View())), sched.View())
            && (forall e :: r == Err(IpcFailed(e)) <==> answer == Err(e))
            && (switch.Some? <==>
                && answer == Ok(Delivered) && old(sched.current).Some?
                && Woken(old(sched.View()), EndpointOf(old(table.View()), epCap)).ready != [])
    ensures switch.Some? ==>
              && sched.current.Some?
              && switch.value == (old(sched.current).value.index, sched.current.value.index)
              && switch.value.0 != switch.value.1
  {
    ghost var pool, eps, f, s := arena.View(), queues.View(arena.View()), table.View(), sched.View();
    ghost var answer := SendAnswer(pool, eps, f, epCap, transfer);
    var target := ResolveEpCap(table, epCap);
    if target.Err? {
      SendYieldLaw(pool, eps, f, s, epCap, msg, transfer, answer, eps, f, s);
      return Err(target.error), None;
    }
    r, switch := SendResolved(sched, arena, queues, table, epCap, target.value, msg, transfer);
    SendYieldLaw(pool, eps, f, s, epCap, msg, transfer, answer, queues.View(pool), table.View(), sched.View());
  }

  /** Receive, up to the switch: returns, or blocks the current task and dispatches the next one. */
  method IpcRecvAndYield(sched: Scheduler, arena: Arena<EndpointObject>, queues: IpcQueues, table: CapabilityTable,
                         epCap: SlotId)
    returns (step: RecvStep, switch: Option<(nat, nat)>)
    requires sched.Valid() && SchedInv(sched.View())
    requires arena.Valid() && table.Valid() && queues.Fits(arena.View())
    modifies sched, sched.ready, sched.ready.buf, sched.taskStates
    modifies queues, queues.states, queues.slotGenerations, table, table.slots
    ensures sched.Valid() && table.Valid() && queues.Fits(old(arena.View()))
    ensures RecvYieldRel(old(arena.View()), old(queues.View(arena.View())), old(table.View()), old(sched.View()),
                         epCap, step, queues.View(old(arena.View())), table.View(), sched.View())
    ensures switch.Some? <==> step == Switched
    ensures switch.Some? ==>
              && old(sched.current).Some? && sched.current.Some?
              && switch.value == (old(sched.current).value.index, sched.current.value.index)
              && switch.value.0 != switch.value.1
  {
    ghost var before := sched.View();
    Separate(sched, queues, table);
    var target := ResolveEpCap(table, epCap);
    if target.Err? {
      return Returned(Err(target.error)), None;
    }
    var outcome := IpcRecv(arena, queues, epCap, table);
    assert sched.View() == before;
    step, switch := sched.FinishRecv(target.value, outcome);
  }

  /** Receive, after the switch back: collect what the sender delivered. */
  method IpcRecvResume(arena: Arena<EndpointObject>, queues: IpcQueues, table: CapabilityTable, epCap: SlotId)
    returns (r: Result<RecvOutcome, SchedError>, ghost answer: Result<RecvOutcome, IpcError>)
    requires arena.Valid() && table.Valid() && queues.Fits(arena.View())
    modifies queues, queues.states, queues.slotGenerations, table, table.slots
    ensures table.Valid() && queues.Fits(old(arena.View()))
    ensures r == Resumed(answer)
    ensures RecvRel(old(arena.View()), old(queues.View(arena.View())), old(table.View()), epCap, answer,
                    queues.View(old(arena.View())), table.View())
  {
    var result := IpcRecv(arena, queues, epCap, table);
    answer := result;
    r := match result
      case Ok(Pending) => Err(IpcFailed(PendingAfterResume))
      case Ok(outcome) => Ok(outcome)
      case Err(e) => Err(IpcFailed(e));
  }
}
