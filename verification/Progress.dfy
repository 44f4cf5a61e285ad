/** What runs of the machine guarantee to a waiting task: its message, its turn, and no deadlock. */
module Progress {
  import opened Wrappers
  import opened Rights
  import opened SlotPool
  import opened CapForest
  import opened Rendezvous
  import opened Dispatch
  import opened Bridge
  import opened Authority
  import opened Machine

  // ----- Runs of the machine are runs of the system ----------------------------------------------------

  ghost function Systems(states: seq<State>): seq<System> {
    seq(|states|, k requires 0 <= k < |states| => states[k].sys)
  }

  ghost function Actions(states: seq<State>, ops: seq<Op>): seq<Action>
    requires MRun(states, ops)
  {
    seq(|ops|, k requires 0 <= k < |ops| => assert MStepAt(states, ops, k); ActionOf(states[k], ops[k]))
  }

  /** So confinement, conservation, message history and handle exactness hold of the machine. */
  lemma RunProjects(states: seq<State>, ops: seq<Op>)
    requires MRun(states, ops)
    ensures Run(Systems(states), Actions(states, ops))
    ensures forall k :: 0 <= k < |ops| ==> !Actions(states, ops)[k].Grant?
  {
    var systems, actions := Systems(states), Actions(states, ops);
    forall k | 0 <= k < |ops|
      ensures StepAt(systems, actions, k) && !actions[k].Grant?
    {
      assert MStepAt(states, ops, k);
      MStepIsStep(states[k], ops[k], states[k + 1]);
    }
  }

  predicate DerivesFor(op: Op, obj: CapObject) {
    op.Local? && op.action.Derive? && op.action.obj == obj
  }

  /** No run of the machine gives any task, or any endpoint, a right that no capability had at the
      start, or an object that neither that capability nor a derivation in the run named. */
  lemma MachineConfined(states: seq<State>, ops: seq<Op>, c: Capability) returns (c0: Capability)
    requires MRun(states, ops) && Present(states[|ops|].sys, c)
    ensures Present(states[0].sys, c0) && Contains(c0.rights, c.rights)
    ensures c0.obj == c.obj || exists k :: 0 <= k < |ops| && DerivesFor(ops[k], c.obj)
  {
    RunProjects(states, ops);
    var actions := Actions(states, ops);
    c0 := RightsConfined(Systems(states), actions, c);
    if k :| 0 <= k < |actions| && actions[k].Derive? && actions[k].obj == c.obj {
      assert DerivesFor(ops[k], c.obj);
    }
  }

  // ----- Deliveries ----------------------------------------------------------------------------------

  /** A resumed receive returns the delivery that woke it, with its capability installed, or reports
      a full table with the delivery still parked. */
  ghost predicate Collects(m: State, got: Result<RecvOutcome, IpcError>, m': State)
    requires Shaped(m) && m.pc[Me(m)].Roused? && |m'.sys.tables| == |m.sys.tables|
  {
    var p := m.pc[Me(m)];
    if p.cap.Some? && Full(MyTable(m)) then
      Resumed(got) == Err(IpcFailed(ReceiverTableFull)) && m'.sys == m.sys
    else
      && got.Ok? && got.value.Received? && got.value.msg == p.msg && Resumed(got) == Ok(got.value)
      && Collected(MyTable(m), p.msg, p.cap, got, m'.sys.tables[Me(m)])
  }

  /** The capability that a step receives with. */
  ghost function CapUsed(m: State, op: Op): Option<SlotId>
    requires Shaped(m)
  {
    match op
    case RecvYield(epCap, _) => Some(epCap)
    case Resume(_) => if m.pc[Me(m)] == Normal then None else Some(m.pc[Me(m)].epCap)
    case _ => None
  }

  /** What a receive was answered. */
  function Answer(op: Op): Option<Result<RecvOutcome, IpcError>> {
    match op
    case RecvYield(_, step) => Some(Underlying(step))
    case Resume(got) => Some(got)
    case _ => None
  }

  /** The step is a receive that succeeds on `ep`. */
  ghost predicate ReceivesOn(m: State, op: Op, ep: SlotId) {
    && Shaped(m) && CapUsed(m, op).Some? && Answer(op).Some? && Answer(op).value.Ok?
    && RecvTarget(m.sys.arena, MyTable(m), CapUsed(m, op).value) == Ok(ep)
  }

  /** The step receives a message from `ep`. */
  ghost predicate TakesFrom(m: State, op: Op, ep: SlotId) {
    ReceivesOn(m, op, ep) && Answer(op).value.value.Received?
  }

  ghost predicate Resumes(m: State, op: Op, i: nat) {
    Shaped(m) && op.Resume? && Me(m) == i
  }

  /** `ep` holds the delivery of `msg` and `cap`. */
  ghost predicate Holds(m: State, ep: SlotId, msg: Message, cap: Option<Capability>) {
    Resolves(m.sys.arena, ep) && ep.index in m.sys.eps && m.sys.eps[ep.index] == RecvComplete(msg, cap)
  }

  /** A delivery stays in its endpoint until a receive takes it. */
  lemma DeliveryStays(m: State, op: Op, m': State, ep: SlotId, msg: Message, cap: Option<Capability>)
    requires MInv(m) && MStep(m, op, m') && Holds(m, ep, msg, cap) && !TakesFrom(m, op, ep)
    requires op.DestroyEndpoint? ==> op.slot != ep.index
    ensures Holds(m', ep, msg, cap)
  {
    if op.SendYield? {
      var target := SendCheck(m.sys.arena, m.sys.eps, MyTable(m), op.epCap, op.transfer);
      assert target.Ok? ==> target.value.index != ep.index;
    } else if CapUsed(m, op).Some? {
      var target := RecvTarget(m.sys.arena, MyTable(m), CapUsed(m, op).value);
      if target.Ok? && target.value.index == ep.index {
        SameSlotSameId(m.sys.arena, target.value, ep);
      }
    }
  }

  /** The marker of a woken task changes only when it resumes. */
  lemma RousedStays(m: State, op: Op, m': State, i: nat)
    requires MInv(m) && MStep(m, op, m') && i < |m.pc| && m.pc[i].Roused? && !Resumes(m, op, i)
    ensures |m'.pc| == |m.pc| && m'.pc[i] == m.pc[i]
    ensures op.DestroyEndpoint? ==> op.slot != m.pc[i].ep.index
  {
    if op.SendYield? && op.sent == Ok(Delivered) {
      DeliveryWakes(m, op.epCap, op.msg, op.transfer, m', i);
      assert PcOk(m, i);
    }
  }

  /** Whoever receives on an endpoint that holds a delivery gets exactly that delivery. */
  lemma TakerGets(m: State, op: Op, m': State, ep: SlotId, msg: Message, cap: Option<Capability>)
    requires MInv(m) && MStep(m, op, m') && Holds(m, ep, msg, cap) && TakesFrom(m, op, ep)
    ensures Me(m) < |m'.sys.tables|
    ensures Collected(MyTable(m), msg, cap, Answer(op).value, m'.sys.tables[Me(m)])
  {
  }

  // ----- One delivery, over a run ----------------------------------------------------------------------

  /** The first step delivers `msg` and `cap` to `ep`, where task `i` is blocked, and no later step is
      the resumption of that receive. */
  ghost predicate WokenRun(states: seq<State>, ops: seq<Op>, i: nat, ep: SlotId, msg: Message,
                           cap: Option<Capability>) {
    && MRun(states, ops) && ops != []
    && ops[0].SendYield? && ops[0].sent == Ok(Delivered) && ops[0].msg == msg
    && EndpointOf(MyTable(states[0]), ops[0].epCap) == ep
    && (assert MStepAt(states, ops, 0); cap == Conveyed(MyTable(states[0]), ops[0].transfer))
    && i < |states[0].sched.states| && states[0].sched.states[i] == Blocked(ep)
    && forall k :: 0 <= k < |ops| ==> !Resumes(states[k], ops[k], i)
  }

  lemma WokenFront(states: seq<State>, ops: seq<Op>, i: nat, ep: SlotId, msg: Message, cap: Option<Capability>, n: nat)
    requires WokenRun(states, ops, i, ep, msg, cap) && 0 < n <= |ops|
    ensures WokenRun(states[..n + 1], ops[..n], i, ep, msg, cap)
  {
    var front, done := states[..n + 1], ops[..n];
    forall k | 0 <= k < n
      ensures MStepAt(front, done, k) && !Resumes(front[k], done[k], i)
    {
      assert MStepAt(states, ops, k) && !Resumes(states[k], ops[k], i);
    }
  }

  lemma {:induction false} WokenStaysRoused(states: seq<State>, ops: seq<Op>, i: nat, ep: SlotId, msg: Message,
                                            cap: Option<Capability>, k: nat)
    requires WokenRun(states, ops, i, ep, msg, cap) && 0 < k <= |ops|
    ensures i < |states[k].pc| && states[k].pc[i].Roused?
    ensures states[k].pc[i].ep == ep && states[k].pc[i].msg == msg && states[k].pc[i].cap == cap
  {
    RunKeepsInv(states, ops, k - 1);
    assert MStepAt(states, ops, k - 1);
    if k == 1 {
      DeliveryWakes(states[0], ops[0].epCap, msg, ops[0].transfer, states[1], i);
    } else {
      WokenStaysRoused(states, ops, i, ep, msg, cap, k - 1);
      RousedStays(states[k - 1], ops[k - 1], states[k], i);
    }
  }

  /** As long as no step has taken it, the delivery is in the endpoint, and the task is suspended in the
      receive that it woke. */
  lemma {:induction false} UntakenIsHeld(states: seq<State>, ops: seq<Op>, i: nat, ep: SlotId, msg: Message,
                                         cap: Option<Capability>)
    requires WokenRun(states, ops, i, ep, msg, cap)
    requires forall k :: 0 < k < |ops| ==> !TakesFrom(states[k], ops[k], ep)
    ensures Holds(states[|ops|], ep, msg, cap)
  {
    var n := |ops| - 1;
    RunKeepsInv(states, ops, n);
    assert MStepAt(states, ops, n);
    if n == 0 {
      DeliveredTo(states[0], ops[0].epCap, msg, ops[0].transfer, Ok(Delivered),
                  states[1].sys.eps, states[1].sys.tables[Me(states[0])]);
    } else {
      WokenFront(states, ops, i, ep, msg, cap, n);
      UntakenIsHeld(states[..n + 1], ops[..n], i, ep, msg, cap);
      WokenStaysRoused(states, ops, i, ep, msg, cap, n);
      RousedStays(states[n], ops[n], states[n + 1], i);
      DeliveryStays(states[n], ops[n], states[n + 1], ep, msg, cap);
    }
  }

  /** The first step to take the delivery is another task's, and it collects exactly that message and
      capability. */
  lemma FirstTakerGets(states: seq<State>, ops: seq<Op>, i: nat, ep: SlotId, msg: Message,
                       cap: Option<Capability>, k: nat)
    requires WokenRun(states, ops, i, ep, msg, cap) && 0 < k < |ops|
    requires TakesFrom(states[k], ops[k], ep) && forall j :: 0 < j < k ==> !TakesFrom(states[j], ops[j], ep)
    ensures Me(states[k]) != i && Me(states[k]) < |states[k + 1].sys.tables|
    ensures Collected(MyTable(states[k]), msg, cap, Answer(ops[k]).value, states[k + 1].sys.tables[Me(states[k])])
  {
    var front, done := states[..k + 1], ops[..k];
    WokenFront(states, ops, i, ep, msg, cap, k);
    assert forall j :: 0 <= j < k ==> front[j] == states[j] && done[j] == ops[j];
    UntakenIsHeld(front, done, i, ep, msg, cap);
    RunKeepsInv(states, ops, k);
    assert MStepAt(states, ops, k);
    WokenStaysRoused(states, ops, i, ep, msg, cap, k);
    assert !Resumes(states[k], ops[k], i);
    TakerGets(states[k], ops[k], states[k + 1], ep, msg, cap);
  }

  /** What a resumed receive answers: the delivery if the endpoint still holds it, and
      `PendingAfterResume` exactly when the endpoint is idle. */
  lemma ResumeAnswers(m: State, got: Result<RecvOutcome, IpcError>, m': State)
    requires MInv(m) && MStep(m, Resume(got), m') && m.pc[Me(m)].Roused?
    ensures var p := m.pc[Me(m)];
            && |m'.sys.tables| == |m.sys.tables| && p.ep.index in m.sys.eps
            && (Holds(m, p.ep, p.msg, p.cap) ==> Collects(m, got, m'))
            && (Resumed(got) == Err(IpcFailed(PendingAfterResume)) <==> m.sys.eps[p.ep.index] == Idle)
  {
    assert PcOk(m, Me(m));
  }

  /** What the woken task is answered when it resumes after such a run: its own delivery if no step has
      taken that; `PendingAfterResume` exactly when it then finds the endpoint idle, which takes an
      earlier receive by another task. */
  lemma ResumeAfterWake(states: seq<State>, ops: seq<Op>, i: nat, ep: SlotId, msg: Message, cap: Option<Capability>,
                        got: Result<RecvOutcome, IpcError>, m': State)
    requires WokenRun(states, ops, i, ep, msg, cap)
    requires Shaped(states[|ops|]) && Me(states[|ops|]) == i && MStep(states[|ops|], Resume(got), m')
    ensures states[|ops|].pc[i].Roused? && |m'.sys.tables| == |states[|ops|].sys.tables|
    ensures ep.index in states[|ops|].sys.eps
    ensures (forall k :: 0 < k < |ops| ==> !TakesFrom(states[k], ops[k], ep)) ==> Collects(states[|ops|], got, m')
    ensures Resumed(got) == Err(IpcFailed(PendingAfterResume)) <==> states[|ops|].sys.eps[ep.index] == Idle
    ensures Resumed(got) == Err(IpcFailed(PendingAfterResume)) ==>
              exists k :: 0 < k < |ops| && TakesFrom(states[k], ops[k], ep)
  {
    RunKeepsInv(states, ops, |ops|);
    WokenStaysRoused(states, ops, i, ep, msg, cap, |ops|);
    ResumeAnswers(states[|ops|], got, m');
    if forall k :: 0 < k < |ops| ==> !TakesFrom(states[k], ops[k], ep) {
      UntakenIsHeld(states, ops, i, ep, msg, cap);
    }
  }

  // ----- No lost wake-up -----------------------------------------------------------------------------

  /** A receive that succeeds is by the owner of its endpoint. */
  ghost predicate Owned(m: State, op: Op, owner: SlotId -> nat) {
    op.RecvYield? ==> forall ep :: ReceivesOn(m, op, ep) ==> owner(ep) == Me(m)
  }

  ghost predicate HeldFor(m: State, owner: SlotId -> nat, i: nat)
    requires i < |m.pc|
  {
    var p := m.pc[i];
    && (p != Normal ==> owner(p.ep) == i)
    && (p.Roused? ==> Holds(m, p.ep, p.msg, p.cap))
  }

  /** Every suspended task owns the endpoint it is suspended on, which holds its delivery once woken. */
  ghost predicate AllHeld(m: State, owner: SlotId -> nat) {
    forall i :: 0 <= i < |m.pc| ==> HeldFor(m, owner, i)
  }

  /** A receive that takes from an endpoint is by the task that owns it. */
  lemma TakerOwns(m: State, op: Op, m': State, owner: SlotId -> nat, ep: SlotId)
    requires MInv(m) && MStep(m, op, m') && AllHeld(m, owner) && Owned(m, op, owner) && TakesFrom(m, op, ep)
    ensures owner(ep) == Me(m)
  {
    assert PcOk(m, Me(m)) && HeldFor(m, owner, Me(m));
  }

  lemma RousedStaysHeld(m: State, op: Op, m': State, owner: SlotId -> nat, i: nat)
    requires MInv(m) && MStep(m, op, m') && AllHeld(m, owner) && Owned(m, op, owner)
    requires i < |m.pc| && m.pc[i].Roused? && !Resumes(m, op, i)
    ensures i < |m'.pc| && HeldFor(m', owner, i)
  {
    assert HeldFor(m, owner, i);
    var p := m.pc[i];
    RousedStays(m, op, m', i);
    if TakesFrom(m, op, p.ep) {
      TakerOwns(m, op, m', owner, p.ep);
    }
    DeliveryStays(m, op, m', p.ep, p.msg, p.cap);
  }

  /** A task that was not woken before the step. */
  lemma OthersHeld(m: State, op: Op, m': State, owner: SlotId -> nat, i: nat)
    requires MInv(m) && MStep(m, op, m') && AllHeld(m, owner) && Owned(m, op, owner)
    requires i < |m.pc| && (!m.pc[i].Roused? || Resumes(m, op, i))
    ensures i < |m'.pc| && HeldFor(m', owner, i)
  {
    assert HeldFor(m, owner, i) && PcOk(m, i);
    if op.SendYield? && op.sent == Ok(Delivered) {
      DeliveryWakes(m, op.epCap, op.msg, op.transfer, m', i);
      DeliveredTo(m, op.epCap, op.msg, op.transfer, op.sent, m'.sys.eps, m'.sys.tables[Me(m)]);
    } else if op.RecvYield? && op.step == Switched {
      assert ReceivesOn(m, op, EndpointOf(MyTable(m), op.epCap));
    }
  }

  lemma StepKeepsHeld(m: State, op: Op, m': State, owner: SlotId -> nat)
    requires MInv(m) && MInv(m') && MStep(m, op, m') && AllHeld(m, owner) && Owned(m, op, owner)
    ensures AllHeld(m', owner)
  {
    forall i | 0 <= i < |m'.pc|
      ensures HeldFor(m', owner, i)
    {
      assert |m'.pc| == |m.pc|;
      if m.pc[i].Roused? && !Resumes(m, op, i) {
        RousedStaysHeld(m, op, m', owner, i);
      } else {
        OthersHeld(m, op, m', owner, i);
      }
    }
  }

  lemma {:induction false} RunKeepsHeld(states: seq<State>, ops: seq<Op>, owner: SlotId -> nat, k: nat)
    requires MRun(states, ops) && AllHeld(states[0], owner) && k < |states|
    requires forall j :: 0 <= j < |ops| ==> Owned(states[j], ops[j], owner)
    ensures AllHeld(states[k], owner)
  {
    if k > 0 {
      var m, op, m' := states[k - 1], ops[k - 1], states[k];
      RunKeepsHeld(states, ops, owner, k - 1);
      RunKeepsInv(states, ops, k - 1);
      RunKeepsInv(states, ops, k);
      assert MStepAt(states, ops, k - 1);
      StepKeepsHeld(m, op, m', owner);
    }
  }

  /** No lost wake-up: over any run in which only one task's receives succeed on each endpoint, every
      resumed receive returns exactly the message and capability whose send woke it, or reports a full
      table; it never answers `PendingAfterResume`. */
  lemma NoLostWakeup(states: seq<State>, ops: seq<Op>, owner: SlotId -> nat, k: nat)
    requires MRun(states, ops) && AllHeld(states[0], owner)
    requires forall j :: 0 <= j < |ops| ==> Owned(states[j], ops[j], owner)
    requires k < |ops| && ops[k].Resume?
    ensures Shaped(states[k]) && states[k].pc[Me(states[k])].Roused?
    ensures |states[k + 1].sys.tables| == |states[k].sys.tables|
    ensures Collects(states[k], ops[k].got, states[k + 1])
  {
    RunKeepsInv(states, ops, k);
    assert MStepAt(states, ops, k);
    RunKeepsHeld(states, ops, owner, k);
    CurrentRuns(states[k]);
    assert HeldFor(states[k], owner, Me(states[k]));
    ResumeAnswers(states[k], ops[k].got, states[k + 1]);
  }

  // ----- Turns ---------------------------------------------------------------------------------------

  /** The current task changed. */
  predicate Dispatches(m: State, m': State) {
    m'.sched.current != m.sched.current
  }

  /** A step appends to the ready queue, or takes its head and makes it current. */
  lemma QueueStep(m: State, op: Op, m': State)
    requires MInv(m) && MStep(m, op, m')
    ensures !Dispatches(m, m') ==> m.sched.ready <= m'.sched.ready
    ensures Dispatches(m, m') && m.sched.ready != [] ==>
              m'.sched.current == Some(m.sched.ready[0]) && m.sched.ready[1..] <= m'.sched.ready
  {
    if m.sched.ready != [] {
      SwitchIndicesDiffer(m.sched);
    }
  }

  ghost function Turns(states: seq<State>): nat {
    if |states| <= 1 then 0
    else
      Turns(states[..|states| - 1]) + if Dispatches(states[|states| - 2], states[|states| - 1]) then 1 else 0
  }

  /** First in, first out: whatever mix of yields, sends and receives occurs, each dispatch moves a
      queued task up by one place. */
  lemma {:induction false} MovesUp(states: seq<State>, ops: seq<Op>, k: nat)
    requires MRun(states, ops) && k < |states[0].sched.ready| && Turns(states) <= k
    ensures var ready := states[|ops|].sched.ready;
            k - Turns(states) < |ready| && ready[k - Turns(states)] == states[0].sched.ready[k]
  {
    if ops != [] {
      var n := |ops| - 1;
      FrontIsMRun(states, ops);
      MovesUp(states[..|ops|], ops[..n], k);
      RunKeepsInv(states, ops, n);
      assert MStepAt(states, ops, n);
      QueueStep(states[n], ops[n], states[n + 1]);
    }
  }

  /** The task at position `k` becomes current with exactly the `k + 1`-st dispatch. */
  lemma BoundedWait(states: seq<State>, ops: seq<Op>, k: nat)
    requires MRun(states, ops) && ops != [] && k < |states[0].sched.ready|
    requires Turns(states[..|ops|]) == k && Dispatches(states[|ops| - 1], states[|ops|])
    ensures Turns(states) == k + 1
    ensures states[|ops|].sched.current == Some(states[0].sched.ready[k])
  {
    var n := |ops| - 1;
    FrontIsMRun(states, ops);
    MovesUp(states[..|ops|], ops[..n], k);
    RunKeepsInv(states, ops, n);
    assert MStepAt(states, ops, n);
    QueueStep(states[n], ops[n], states[n + 1]);
  }

  /** A receiver woken by a delivering send runs before the sender does again: it is dispatched at once
      or queued ahead of the sender. */
  lemma ReceiverBeforeSender(m: State, epCap: SlotId, msg: Message, transfer: Option<SlotId>, m': State, w: nat)
    requires MInv(m) && MStep(m, SendYield(epCap, msg, transfer, Ok(Delivered)), m')
    requires FirstBlocked(m.sched.states, EndpointOf(MyTable(m), epCap), 0) == Some(w)
    ensures m.sched.handles[w].Some?
    ensures var h, ready := m.sched.handles[w], m'.sched.ready;
            && ready != [] && ready[|ready| - 1] == m.sched.current.value
            && (m'.sched.current == h || (|ready| >= 2 && ready[|ready| - 2] == h.value))
  {
    assert SlotOk(m.sched, w);
  }

  ghost predicate QueuedAt(m: State, h: SlotId, p: nat) {
    p < |m.sched.ready| && m.sched.ready[p] == h
  }

  /** `a` is queued directly ahead of `b`. */
  ghost predicate Ahead(m: State, a: SlotId, b: SlotId) {
    exists p :: 0 <= p < |m.sched.ready| - 1 && QueuedAt(m, a, p) && QueuedAt(m, b, p + 1)
  }

  lemma AheadStep(m: State, op: Op, m': State, a: SlotId, b: SlotId)
    requires MInv(m) && MStep(m, op, m') && Ahead(m, a, b)
    ensures m.sched.current != Some(b)
    ensures m'.sched.current == Some(a) || Ahead(m', a, b)
  {
    var p :| 0 <= p < |m.sched.ready| - 1 && QueuedAt(m, a, p) && QueuedAt(m, b, p + 1);
    assert b in m.sched.ready;
    QueueStep(m, op, m');
    if !Dispatches(m, m') {
      assert QueuedAt(m', a, p) && QueuedAt(m', b, p + 1);
    } else if p > 0 {
      assert m.sched.ready[1..][p - 1] == a && m.sched.ready[1..][p] == b;
      assert QueuedAt(m', a, p - 1) && QueuedAt(m', b, p);
    }
  }

  /** Has been current in one of the states from the second to the `k`-th. */
  ghost predicate RanBy(states: seq<State>, h: SlotId, k: nat)
    requires k < |states|
  {
    exists j :: 0 < j <= k && states[j].sched.current == Some(h)
  }

  lemma {:induction false} AheadUntilRun(states: seq<State>, ops: seq<Op>, a: SlotId, b: SlotId, k: nat)
    requires MRun(states, ops) && 0 < k < |states|
    requires states[1].sched.current == Some(a) || Ahead(states[1], a, b)
    ensures RanBy(states, a, k) || Ahead(states[k], a, b)
  {
    if k == 1 {
      assert states[1].sched.current == Some(a) ==> RanBy(states, a, 1);
    } else {
      AheadUntilRun(states, ops, a, b, k - 1);
      if !RanBy(states, a, k - 1) {
        RunKeepsInv(states, ops, k - 1);
        assert MStepAt(states, ops, k - 1);
        AheadStep(states[k - 1], ops[k - 1], states[k], a, b);
      }
    }
  }

  /** Over any run that starts with a delivering send, the sender is not current again before the
      receiver that it woke has been. */
  lemma SenderRunsAfterReceiver(states: seq<State>, ops: seq<Op>, w: nat, k: nat)
    requires MRun(states, ops) && 0 < k < |states| && ops[0].SendYield? && ops[0].sent == Ok(Delivered)
    requires FirstBlocked(states[0].sched.states, EndpointOf(MyTable(states[0]), ops[0].epCap), 0) == Some(w)
    requires states[k].sched.current == states[0].sched.current
    ensures states[0].sched.handles[w].Some? && RanBy(states, states[0].sched.handles[w].value, k)
  {
    assert MStepAt(states, ops, 0);
    var m, m' := states[0], states[1];
    ReceiverBeforeSender(m, ops[0].epCap, ops[0].msg, ops[0].transfer, m', w);
    var a, b := m.sched.handles[w].value, m.sched.current.value;
    if m'.sched.current != Some(a) {
      var p := |m'.sched.ready| - 2;
      assert QueuedAt(m', a, p) && QueuedAt(m', b, p + 1);
    }
    AheadUntilRun(states, ops, a, b, k);
    if Ahead(states[k], a, b) {
      var p :| 0 <= p < |states[k].sched.ready| - 1 && QueuedAt(states[k], a, p) && QueuedAt(states[k], b, p + 1);
      RunKeepsInv(states, ops, k);
      assert b in states[k].sched.ready;
    }
  }

  // ----- Deadlock ------------------------------------------------------------------------------------

  /** Task `z` is runnable and not inside a receive. */
  ghost predicate Spinning(m: State, z: SlotId) {
    && z.index < |m.pc| && m.pc[z.index] == Normal
    && (m.sched.current == Some(z) || z in m.sched.ready)
  }

  ghost predicate OnlyYields(m: State, op: Op, z: SlotId) {
    m.sched.current == Some(z) ==> op == Yield || op.CreateEndpoint? || op.DestroyEndpoint? || op.Register?
  }

  lemma StaysQueued(m: State, op: Op, m': State, z: SlotId)
    requires MInv(m) && MStep(m, op, m') && Spinning(m, z) && OnlyYields(m, op, z)
    ensures m'.sched.current == Some(z) || z in m'.sched.ready
  {
    if m.sched.current == Some(z) {
      if op == Yield && m.sched.ready != [] {
        var all := m.sched.ready + [z];
        assert all[1..][|all| - 2] == z;
      }
    } else {
      QueueStep(m, op, m');
      var k :| 0 <= k < |m.sched.ready| && m.sched.ready[k] == z;
      if Dispatches(m, m') && k > 0 {
        assert m.sched.ready[1..][k - 1] == z;
      }
    }
  }

  lemma StaysNormal(m: State, op: Op, m': State, z: SlotId)
    requires MInv(m) && MStep(m, op, m') && Spinning(m, z) && OnlyYields(m, op, z)
    ensures z.index < |m'.pc| && m'.pc[z.index] == Normal
  {
    if m.sched.current != Some(z) {
      assert Runnable(m.sched, z);
    }
  }

  lemma StepKeepsSpinning(m: State, op: Op, m': State, z: SlotId)
    requires MInv(m) && MStep(m, op, m') && Spinning(m, z) && OnlyYields(m, op, z)
    ensures Spinning(m', z)
  {
    StaysQueued(m, op, m', z);
    StaysNormal(m, op, m', z);
  }

  lemma {:induction false} RunKeepsSpinning(states: seq<State>, ops: seq<Op>, z: SlotId, k: nat)
    requires MRun(states, ops) && Spinning(states[0], z) && k < |states|
    requires forall j :: 0 <= j < |ops| ==> OnlyYields(states[j], ops[j], z)
    ensures Spinning(states[k], z)
  {
    if k > 0 {
      RunKeepsSpinning(states, ops, z, k - 1);
      RunKeepsInv(states, ops, k - 1);
      assert MStepAt(states, ops, k - 1);
      StepKeepsSpinning(states[k - 1], ops[k - 1], states[k], z);
    }
  }

  /** An idle task rules out deadlock: if some task only ever yields, no receive returns `Deadlock`. */
  lemma IdleRulesOutDeadlock(states: seq<State>, ops: seq<Op>, z: SlotId, k: nat)
    requires MRun(states, ops) && Spinning(states[0], z) && k < |ops|
    requires forall j :: 0 <= j < |ops| ==> OnlyYields(states[j], ops[j], z)
    ensures ops[k].RecvYield? ==> ops[k].step != Returned(Err(Deadlock))
  {
    RunKeepsSpinning(states, ops, z, k);
    assert MStepAt(states, ops, k);
  }

  /** With an idle task the ready queue is empty exactly while that task is current and no other task is
      ready. */
  lemma EmptyIffOnlyIdleReady(states: seq<State>, ops: seq<Op>, z: SlotId, k: nat)
    requires MRun(states, ops) && Spinning(states[0], z) && k < |states|
    requires forall j :: 0 <= j < |ops| ==> OnlyYields(states[j], ops[j], z)
    ensures var s := states[k].sched;
            s.ready == [] <==>
            s.current == Some(z) && forall i :: 0 <= i < |s.states| && i != z.index ==> s.states[i] != Ready
  {
    RunKeepsSpinning(states, ops, z, k);
    RunKeepsInv(states, ops, k);
    EmptyIffNoneReady(states[k].sched);
  }

  /** A receive that reports `Deadlock` leaves scheduler and tables as they were, but the receiver
      registered. */
  lemma DeadlockLeavesReceiver(m: State, epCap: SlotId, m': State)
    requires MInv(m) && MStep(m, RecvYield(epCap, Returned(Err(Deadlock))), m')
    ensures var ep := EndpointOf(MyTable(m), epCap);
            && m'.sched == m.sched && m'.pc == m.pc && m'.sys.tables == m.sys.tables
            && m.sys.eps[ep.index] == Idle && m'.sys.eps == m.sys.eps[ep.index := RecvWaiting]
  {
  }

  /** The same call again, at once, reports a full queue and changes nothing. */
  lemma DeadlockThenFull(m: State, epCap: SlotId, m': State, again: RecvStep, m'': State)
    requires MInv(m) && MStep(m, RecvYield(epCap, Returned(Err(Deadlock))), m')
    requires Shaped(m') && MStep(m', RecvYield(epCap, again), m'')
    ensures again == Returned(Err(IpcFailed(QueueFull))) && m'' == m'
  {
  }
}
