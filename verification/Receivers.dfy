/** When a registered receiver is a blocked task.  A blocked task's endpoint always records a waiting
    receiver (`Machine.Coupling`); the converse fails after two answers, and these are the only ways. */
module Receivers {
  import opened Wrappers
  import opened SlotPool
  import opened Rendezvous
  import opened Dispatch
  import opened Bridge
  import opened Machine
  import opened Progress

  ghost predicate Recorded(m: State, ep: SlotId) {
    Resolves(m.sys.arena, ep) && ep.index in m.sys.eps && m.sys.eps[ep.index] == RecvWaiting
  }

  ghost predicate BlockedAt(m: State, i: nat, ep: SlotId) {
    i < |m.sched.states| && m.sched.states[i] == Blocked(ep)
  }

  ghost predicate SomeoneBlocked(m: State, ep: SlotId) {
    exists i :: BlockedAt(m, i, ep)
  }

  /** `ep` records a waiting receiver, but no task is blocked on it. */
  ghost predicate Orphan(m: State, ep: SlotId) {
    Recorded(m, ep) && !SomeoneBlocked(m, ep)
  }

  /** The step registers a receiver on `ep` and returns to its caller all the same: a receive that reports
      `Deadlock`, or a resumed one that reports `PendingAfterResume`. */
  ghost predicate Abandons(m: State, op: Op, ep: SlotId) {
    && ReceivesOn(m, op, ep) && Answer(op) == Some(Ok(Pending))
    && (op.Resume? || op.step == Returned(Err(Deadlock)))
  }

  ghost predicate DeliversTo(m: State, op: Op, ep: SlotId) {
    && Shaped(m) && op.SendYield? && op.sent == Ok(Delivered)
    && EndpointOf(MyTable(m), op.epCap) == ep
  }

  // ----- One step ------------------------------------------------------------------------------------

  /** Which tasks are blocked on `ep` after a step: the waiter of a delivery no longer, a task whose
      receive on it switched away now. */
  lemma BlockedAfter(m: State, op: Op, m': State, i: nat, ep: SlotId)
    requires MInv(m) && MStep(m, op, m')
    ensures BlockedAt(m', i, ep) <==>
            || (BlockedAt(m, i, ep) && !DeliversTo(m, op, ep))
            || (op.RecvYield? && op.step == Switched && i == Me(m) && EndpointOf(MyTable(m), op.epCap) == ep)
  {
    CurrentRuns(m);
    if op.SendYield? && op.sent == Ok(Delivered) && i < |m.pc| {
      DeliveryWakes(m, op.epCap, op.msg, op.transfer, m', i);
    } else if op.SendYield? && op.sent == Ok(Delivered) {
      assert |m'.sched.states| == |m.sched.states|;
    }
  }

  lemma SameTarget(p: EndpointPool, target: Result<SlotId, IpcError>, ep: SlotId)
    requires Resolves(p, ep) && (target.Ok? ==> Resolves(p, target.value))
    ensures target.Ok? && target.value.index == ep.index <==> target == Ok(ep)
  {
  }

  lemma RecordedAfterSend(m: State, op: Op, m': State, ep: SlotId)
    requires MInv(m) && op.SendYield? && MStep(m, op, m') && Resolves(m.sys.arena, ep)
    ensures Recorded(m', ep) <==> Recorded(m, ep) && !DeliversTo(m, op, ep)
  {
    SameTarget(m.sys.arena, SendCheck(m.sys.arena, m.sys.eps, MyTable(m), op.epCap, op.transfer), ep);
  }

  lemma RecordedAfterRecv(m: State, op: Op, m': State, ep: SlotId)
    requires MInv(m) && (op.RecvYield? || op.Resume?) && MStep(m, op, m') && Resolves(m.sys.arena, ep)
    ensures Recorded(m', ep) <==> Recorded(m, ep) || (ReceivesOn(m, op, ep) && Answer(op) == Some(Ok(Pending)))
  {
    SameTarget(m.sys.arena, RecvTarget(m.sys.arena, MyTable(m), CapUsed(m, op).value), ep);
  }

  /** When an endpoint records a waiting receiver after a step: it did and was not delivered to, or a
      receive on it is pending. */
  lemma RecordedAfter(m: State, op: Op, m': State, ep: SlotId)
    requires MInv(m) && MStep(m, op, m') && Resolves(m.sys.arena, ep) && Resolves(m'.sys.arena, ep)
    ensures Recorded(m', ep) <==>
            || (Recorded(m, ep) && !DeliversTo(m, op, ep))
            || (ReceivesOn(m, op, ep) && Answer(op) == Some(Ok(Pending)))
  {
    if op.SendYield? {
      RecordedAfterSend(m, op, m', ep);
    } else if op.RecvYield? || op.Resume? {
      RecordedAfterRecv(m, op, m', ep);
    }
  }

  /** A pending receive either abandons its registration or blocks the current task on it. */
  lemma PendingSplits(m: State, op: Op, m': State, ep: SlotId)
    requires MInv(m) && MStep(m, op, m') && ReceivesOn(m, op, ep) && Answer(op) == Some(Ok(Pending))
    ensures Abandons(m, op, ep) <==> !(op.RecvYield? && op.step == Switched)
    ensures op.RecvYield? ==> EndpointOf(MyTable(m), op.epCap) == ep
    ensures Resolves(m.sys.arena, ep) && m.sys.eps[ep.index] == Idle
  {
  }

  lemma NobodyAtIdle(m: State, ep: SlotId)
    requires MInv(m) && Resolves(m.sys.arena, ep) && m.sys.eps[ep.index] == Idle
    ensures !SomeoneBlocked(m, ep)
  {
    forall i | BlockedAt(m, i, ep)
      ensures false
    {
      Coupling(m, i, ep);
    }
  }

  /** Nobody is blocked after a step iff nobody was, or the step delivered, and the step blocks nobody. */
  lemma SomeoneAfter(m: State, op: Op, m': State, ep: SlotId)
    requires MInv(m) && MStep(m, op, m')
    ensures SomeoneBlocked(m', ep) <==>
            || (SomeoneBlocked(m, ep) && !DeliversTo(m, op, ep))
            || (op.RecvYield? && op.step == Switched && EndpointOf(MyTable(m), op.epCap) == ep)
  {
    forall i: nat
      ensures BlockedAt(m', i, ep) <==>
              || (BlockedAt(m, i, ep) && !DeliversTo(m, op, ep))
              || (op.RecvYield? && op.step == Switched && i == Me(m) && EndpointOf(MyTable(m), op.epCap) == ep)
    {
      BlockedAfter(m, op, m', i, ep);
    }
    if op.RecvYield? && op.step == Switched && EndpointOf(MyTable(m), op.epCap) == ep {
      assert BlockedAt(m', Me(m), ep);
    } else if SomeoneBlocked(m, ep) && !DeliversTo(m, op, ep) {
      var i: nat :| BlockedAt(m, i, ep);
      assert BlockedAt(m', i, ep);
    }
  }

  /** An endpoint is orphaned by a step exactly when the step abandons a registration on it, or it was
      orphaned before and the step does not deliver to it. */
  lemma OrphanedIff(m: State, op: Op, m': State, ep: SlotId)
    requires MInv(m) && MStep(m, op, m') && Resolves(m.sys.arena, ep) && Resolves(m'.sys.arena, ep)
    ensures Orphan(m', ep) <==> Abandons(m, op, ep) || (Orphan(m, ep) && !DeliversTo(m, op, ep))
  {
    RecordedAfter(m, op, m', ep);
    SomeoneAfter(m, op, m', ep);
    if ReceivesOn(m, op, ep) && Answer(op) == Some(Ok(Pending)) {
      PendingSplits(m, op, m', ep);
      NobodyAtIdle(m, ep);
    }
    if op.RecvYield? && op.step == Switched && EndpointOf(MyTable(m), op.epCap) == ep {
      assert ReceivesOn(m, op, ep);
    }
  }

  // ----- Runs ----------------------------------------------------------------------------------------

  ghost predicate NoOrphans(m: State) {
    forall ep :: !Orphan(m, ep)
  }

  ghost predicate AbandonsNone(m: State, op: Op) {
    forall ep :: !Abandons(m, op, ep)
  }

  /** An endpoint that starts to resolve was just created. */
  lemma NewIsIdle(m: State, op: Op, m': State, ep: SlotId)
    requires MInv(m) && MStep(m, op, m') && !Resolves(m.sys.arena, ep) && Resolves(m'.sys.arena, ep)
    ensures ep.index in m'.sys.eps && m'.sys.eps[ep.index] == Idle
  {
  }

  lemma StepKeepsNoOrphans(m: State, op: Op, m': State)
    requires MInv(m) && MStep(m, op, m') && NoOrphans(m) && AbandonsNone(m, op)
    ensures NoOrphans(m')
  {
    forall ep
      ensures !Orphan(m', ep)
    {
      if Resolves(m'.sys.arena, ep) {
        if Resolves(m.sys.arena, ep) {
          OrphanedIff(m, op, m', ep);
        } else {
          NewIsIdle(m, op, m', ep);
        }
      }
    }
  }

  lemma {:induction false} RunKeepsNoOrphans(states: seq<State>, ops: seq<Op>, k: nat)
    requires MRun(states, ops) && NoOrphans(states[0]) && k < |states|
    requires forall j :: 0 <= j < |ops| ==> AbandonsNone(states[j], ops[j])
    ensures NoOrphans(states[k])
  {
    if k > 0 {
      RunKeepsNoOrphans(states, ops, k - 1);
      RunKeepsInv(states, ops, k - 1);
      assert MStepAt(states, ops, k - 1);
      StepKeepsNoOrphans(states[k - 1], ops[k - 1], states[k]);
    }
  }

  /** Over any run with no orphan at the start and no answer that abandons one, in every state an endpoint
      records a waiting receiver iff exactly one task is blocked on it. */
  lemma RecordedIffOneBlocked(states: seq<State>, ops: seq<Op>, k: nat, ep: SlotId)
    requires MRun(states, ops) && NoOrphans(states[0]) && k < |states| && Resolves(states[k].sys.arena, ep)
    requires forall j :: 0 <= j < |ops| ==> AbandonsNone(states[j], ops[j])
    ensures Recorded(states[k], ep) <==>
            exists i :: BlockedAt(states[k], i, ep) && forall j :: BlockedAt(states[k], j, ep) ==> j == i
  {
    RunKeepsInv(states, ops, k);
    RunKeepsNoOrphans(states, ops, k);
    assert !Orphan(states[k], ep);
    if i: nat :| BlockedAt(states[k], i, ep) {
      Coupling(states[k], i, ep);
    }
  }

  ghost predicate Wakes(m: State, op: Op, m': State, i: nat, ep: SlotId) {
    && i < |m'.sched.states| && i < |m'.pc| && m'.sched.states[i] == Ready
    && m'.pc[i].Roused? && m'.pc[i].ep == ep
    && Shaped(m) && op.SendYield? && (op.transfer.Some? ==> op.transfer.value.index in MyTable(m).live)
    && m'.pc[i].msg == op.msg && m'.pc[i].cap == Conveyed(MyTable(m), op.transfer)
  }

  /** A delivering send wakes a task, which is then ready and marked with that delivery, exactly when the
      endpoint is no orphan; on an orphan the message is parked and the other tasks stay as they are. */
  lemma DeliveryWakesIff(m: State, op: Op, m': State, ep: SlotId)
    requires MInv(m) && MStep(m, op, m') && DeliversTo(m, op, ep)
    ensures Recorded(m, ep)
    ensures !Orphan(m, ep) <==> exists i :: BlockedAt(m, i, ep) && Wakes(m, op, m', i, ep)
    ensures Orphan(m, ep) ==> m'.pc == m.pc && m'.sched.states == m.sched.states
  {
    DeliveredTo(m, op.epCap, op.msg, op.transfer, op.sent, m'.sys.eps, m'.sys.tables[Me(m)]);
    if Orphan(m, ep) {
      var first := FirstBlocked(m.sched.states, ep, 0);
      assert first.Some? ==> BlockedAt(m, first.value, ep);
    } else {
      var i: nat :| BlockedAt(m, i, ep);
      DeliveryWakes(m, op.epCap, op.msg, op.transfer, m', i);
      assert Wakes(m, op, m', i, ep);
    }
  }

  /** An idle task and one receiver per endpoint are enough: then no step of the run abandons a
      registration. */
  lemma DisciplineAbandonsNone(states: seq<State>, ops: seq<Op>, owner: SlotId -> nat, z: SlotId, k: nat)
    requires MRun(states, ops) && AllHeld(states[0], owner) && Spinning(states[0], z) && k < |ops|
    requires forall j :: 0 <= j < |ops| ==> Owned(states[j], ops[j], owner) && OnlyYields(states[j], ops[j], z)
    ensures AbandonsNone(states[k], ops[k])
  {
    if ops[k].Resume? {
      NoLostWakeup(states, ops, owner, k);
    } else {
      IdleRulesOutDeadlock(states, ops, z, k);
    }
  }

  /** So under that discipline a waiting receiver is recorded iff exactly one task is blocked, in every
      state of the run. */
  lemma DisciplinedReceivers(states: seq<State>, ops: seq<Op>, owner: SlotId -> nat, z: SlotId, k: nat, ep: SlotId)
    requires MRun(states, ops) && AllHeld(states[0], owner) && Spinning(states[0], z) && NoOrphans(states[0])
    requires forall j :: 0 <= j < |ops| ==> Owned(states[j], ops[j], owner) && OnlyYields(states[j], ops[j], z)
    requires k < |states| && Resolves(states[k].sys.arena, ep)
    ensures Recorded(states[k], ep) <==>
            exists i :: BlockedAt(states[k], i, ep) && forall j :: BlockedAt(states[k], j, ep) ==> j == i
  {
    forall j | 0 <= j < |ops|
      ensures AbandonsNone(states[j], ops[j])
    {
      DisciplineAbandonsNone(states, ops, owner, z, j);
    }
    RecordedIffOneBlocked(states, ops, k, ep);
  }
}
