/** Runs, each from a state where no task is suspended, that show what the guarantees' conditions are for:
    a second receiver takes the delivery that woke the first; a recorded receiver that no task stands for,
    left by `PendingAfterResume` or by `Deadlock`, is delivered to and nobody wakes; the ready queue is
    empty although there is an idle task. */
module Witnesses {
  import opened Wrappers
  import opened Rights
  import opened SlotPool
  import opened CapForest
  import opened Rendezvous
  import opened Dispatch
  import opened Bridge
  import opened Authority
  import opened Machine
  import opened Progress
  import opened Receivers

  const EP := SlotId(0, 0)
  const CAP := SlotId(0, 0)
  const T0 := SlotId(0, 0)
  const T1 := SlotId(1, 0)
  const T2 := SlotId(2, 0)

  /** A table with one capability: send and receive on the endpoint. */
  const TABLE: Forest := Pool([0], map[0 := Node(Capability({SEND, RECV}, Endpoint(EP)), None, 0)])

  const ARENA: EndpointPool := Pool([0], map[0 := EndpointObject(0)])

  // ----- A stolen delivery -----------------------------------------------------------------------------

  function At3(ep: EndpointState, first: TaskState, ready: seq<SlotId>, current: SlotId, pc: Pc): State {
    State(System(ARENA, map[0 := ep], [TABLE, TABLE, TABLE]),
          Sched(ready, [first, Ready, Ready], [Some(T0), Some(T1), Some(T2)], Some(current)),
          [pc, Normal, Normal])
  }

  /** The states of the run. */
  function Stage(msg: Message, k: nat): State {
    if k == 0 then At3(Idle, Ready, [T1, T2], T0, Normal)
    else if k == 1 then At3(RecvWaiting, Blocked(EP), [T2], T1, Waiting(CAP, EP))
    else if k == 2 then At3(RecvComplete(msg, None), Ready, [T0, T1], T2, Roused(CAP, EP, msg, None))
    else if k == 3 then At3(Idle, Ready, [T0, T1], T2, Roused(CAP, EP, msg, None))
    else if k == 4 then At3(Idle, Ready, [T1, T2], T0, Roused(CAP, EP, msg, None))
    else if k == 5 then At3(RecvWaiting, Ready, [T1, T2], T0, Normal)
    else At3(RecvComplete(msg, None), Ready, [T2, T0], T1, Normal)
  }

  /** Task 0 waits, task 1 sends to it, task 2 receives and yields, task 0 resumes and then sends. */
  function Move(msg: Message, k: nat): Op {
    if k == 0 then RecvYield(CAP, Switched)
    else if k == 1 then SendYield(CAP, msg, None, Ok(Delivered))
    else if k == 2 then RecvYield(CAP, Returned(Ok(Received(msg, None))))
    else if k == 3 then Yield
    else if k == 4 then Resume(Ok(Pending))
    else SendYield(CAP, msg, None, Ok(Delivered))
  }

  ghost predicate Goes(msg: Message, k: nat) {
    Shaped(Stage(msg, k)) && MStep(Stage(msg, k), Move(msg, k), Stage(msg, k + 1))
  }

  lemma StartOk(msg: Message)
    ensures MInv(Stage(msg, 0))
  {
  }

  lemma BlocksFirst(msg: Message)
    ensures Goes(msg, 0)
  {
  }

  lemma WakesFirst(msg: Message)
    ensures Goes(msg, 1)
  {
  }

  lemma TakesDelivery(msg: Message)
    ensures Goes(msg, 2)
  {
  }

  lemma YieldsToFirst(msg: Message)
    ensures Goes(msg, 3)
  {
  }

  lemma FindsNothing(msg: Message)
    ensures Goes(msg, 4)
  {
  }

  lemma WakesNobody(msg: Message)
    ensures Goes(msg, 5)
  {
  }

  lemma StageGoes(msg: Message, k: nat)
    requires k < 6
    ensures Goes(msg, k)
  {
    if k == 0 {
      BlocksFirst(msg);
    } else if k == 1 {
      WakesFirst(msg);
    } else if k == 2 {
      TakesDelivery(msg);
    } else if k == 3 {
      YieldsToFirst(msg);
    } else if k == 4 {
      FindsNothing(msg);
    } else {
      WakesNobody(msg);
    }
  }

  lemma StageRun(msg: Message) returns (states: seq<State>, ops: seq<Op>)
    ensures MRun(states, ops) && |ops| == 6
    ensures forall k :: 0 <= k < 6 ==> ops[k] == Move(msg, k)
    ensures forall k :: 0 <= k <= 6 ==> states[k] == Stage(msg, k)
  {
    StartOk(msg);
    states, ops := seq(7, k requires 0 <= k => Stage(msg, k)), seq(6, k requires 0 <= k => Move(msg, k));
    forall k | 0 <= k < 6
      ensures MStepAt(states, ops, k)
    {
      StageGoes(msg, k);
    }
  }

  lemma FirstIsWoken(msg: Message)
    ensures DeliversTo(Stage(msg, 1), Move(msg, 1), EP) && BlockedAt(Stage(msg, 1), 0, EP)
    ensures Wakes(Stage(msg, 1), Move(msg, 1), Stage(msg, 2), 0, EP)
  {
  }

  lemma ThirdTakes(msg: Message)
    ensures TakesFrom(Stage(msg, 2), Move(msg, 2), EP) && Me(Stage(msg, 2)) == 2
  {
  }

  lemma FirstIsOrphaned(msg: Message)
    ensures Resumes(Stage(msg, 4), Move(msg, 4), 0) && Orphan(Stage(msg, 5), EP)
    ensures DeliversTo(Stage(msg, 5), Move(msg, 5), EP)
  {
  }

  /** A second receiver makes the first report `PendingAfterResume`, which leaves a recorded receiver that
      no task stands for; the next send there is `Delivered`, and wakes nobody. */
  lemma SecondReceiverSteals(msg: Message) returns (states: seq<State>, ops: seq<Op>)
    ensures MRun(states, ops) && |ops| == 6
    ensures states[0] == At3(Idle, Ready, [T1, T2], T0, Normal)
    ensures ops[1] == SendYield(CAP, msg, None, Ok(Delivered)) == ops[5]
    ensures DeliversTo(states[1], ops[1], EP) && BlockedAt(states[1], 0, EP)
    ensures Wakes(states[1], ops[1], states[2], 0, EP)
    ensures TakesFrom(states[2], ops[2], EP) && Me(states[2]) == 2
    ensures Resumes(states[4], ops[4], 0) && Resumed(ops[4].got) == Err(IpcFailed(PendingAfterResume))
    ensures Orphan(states[5], EP) && states[5] == At3(RecvWaiting, Ready, [T1, T2], T0, Normal)
    ensures DeliversTo(states[5], ops[5], EP) && states[6].sched.states == states[5].sched.states
  {
    states, ops := StageRun(msg);
    FirstIsWoken(msg);
    ThirdTakes(msg);
    FirstIsOrphaned(msg);
  }

  // ----- Deadlock --------------------------------------------------------------------------------------

  function At1(ep: EndpointState): State {
    State(System(ARENA, map[0 := ep], [TABLE]), Sched([], [Ready], [Some(T0)], Some(T0)), [Normal])
  }

  lemma LoneStartOk()
    ensures MInv(At1(Idle))
  {
  }

  lemma LoneReceives()
    ensures MStep(At1(Idle), RecvYield(CAP, Returned(Err(Deadlock))), At1(RecvWaiting))
    ensures Orphan(At1(RecvWaiting), EP)
  {
  }

  lemma LoneSends(msg: Message)
    ensures MStep(At1(RecvWaiting), SendYield(CAP, msg, None, Ok(Delivered)), At1(RecvComplete(msg, None)))
    ensures DeliversTo(At1(RecvWaiting), SendYield(CAP, msg, None, Ok(Delivered)), EP)
  {
  }

  /** The only task receives, which reports `Deadlock` and leaves a recorded receiver that no task stands
      for; its own next send there is `Delivered`. */
  lemma LoneReceiverDeadlocks(msg: Message) returns (states: seq<State>, ops: seq<Op>)
    ensures MRun(states, ops) && |ops| == 2 && states[0] == At1(Idle)
    ensures ops[0] == RecvYield(CAP, Returned(Err(Deadlock)))
    ensures Orphan(states[1], EP)
    ensures DeliversTo(states[1], ops[1], EP) && states[2].sched == states[1].sched
  {
    states := [At1(Idle), At1(RecvWaiting), At1(RecvComplete(msg, None))];
    ops := [RecvYield(CAP, Returned(Err(Deadlock))), SendYield(CAP, msg, None, Ok(Delivered))];
    LoneStartOk();
    LoneReceives();
    LoneSends(msg);
    assert MStepAt(states, ops, 0) && MStepAt(states, ops, 1);
  }

  // ----- An empty ready queue --------------------------------------------------------------------------

  function At2(ep: EndpointState, first: TaskState, ready: seq<SlotId>, current: SlotId, pc: Pc): State {
    State(System(ARENA, map[0 := ep], [TABLE, TABLE]),
          Sched(ready, [first, Ready], [Some(T0), Some(T1)], Some(current)),
          [pc, Normal])
  }

  lemma PairStartOk()
    ensures MInv(At2(Idle, Ready, [T1], T0, Normal))
  {
  }

  /** Beside an idle task the other one receives, and the ready queue is empty. */
  lemma IdleAloneEmptiesQueue() returns (states: seq<State>, ops: seq<Op>)
    ensures MRun(states, ops) && |ops| == 1
    ensures Spinning(states[0], T1) && OnlyYields(states[0], ops[0], T1)
    ensures states[1].sched.current == Some(T1) && states[1].sched.ready == []
  {
    states := [At2(Idle, Ready, [T1], T0, Normal), At2(RecvWaiting, Blocked(EP), [], T1, Waiting(CAP, EP))];
    ops := [RecvYield(CAP, Switched)];
    PairStartOk();
    assert MStepAt(states, ops, 0);
  }
}
