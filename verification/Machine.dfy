/** Runs of the whole machine: tasks with their own tables, the endpoints, and the scheduler, driven
    through the bridge.  A task suspended in a blocking receive is marked with what it waits for; once
    woken, with the delivery that woke it.  Its receive continues when it is dispatched again. */
module Machine {
  import opened Wrappers
  import opened Rights
  import opened SlotPool
  import opened CapForest
  import opened Rendezvous
  import opened Dispatch
  import opened Bridge
  import opened Authority

  /** Where a task's code stands: outside any receive, suspended in one, or suspended in one and woken
      by the delivery of `msg` and `cap`. */
  datatype Pc =
    | Normal
    | Waiting(epCap: SlotId, ep: SlotId)
    | Roused(epCap: SlotId, ep: SlotId, msg: Message, cap: Option<Capability>)

  datatype State = State(sys: System, sched: Sched, pc: seq<Pc>)

  /** What the current task does, or that an endpoint is created or destroyed or a task registered. */
  datatype Op =
    | Yield
    | SendYield(epCap: SlotId, msg: Message, transfer: Option<SlotId>, sent: Result<SendOutcome, IpcError>)
    | RecvYield(epCap: SlotId, step: RecvStep)
    | Resume(got: Result<RecvOutcome, IpcError>)
    | Local(action: Action)
    | CreateEndpoint(slot: nat, obj: EndpointObject)
    | DestroyEndpoint(slot: nat)
    | Register(handle: SlotId)

  ghost predicate Shaped(m: State) {
    && |m.pc| == |m.sched.states| == |m.sched.handles| == |m.sys.tables|
    && m.sys.eps.Keys == m.sys.arena.live.Keys
    && m.sched.current.Some? && m.sched.current.value.index < |m.pc|
  }

  /** The slot of the current task. */
  ghost function Me(m: State): nat
    requires Shaped(m)
  {
    m.sched.current.value.index
  }

  ghost function MyTable(m: State): Forest
    requires Shaped(m)
  {
    m.sys.tables[Me(m)]
  }

  /** The delivery `msg`, `cap` on `ep` wakes the first task blocked there. */
  ghost function RousedBy(pc: seq<Pc>, waiter: Option<nat>, ep: SlotId, msg: Message, cap: Option<Capability>)
    : (pc': seq<Pc>)
    ensures |pc'| == |pc|
  {
    if waiter.None? || waiter.value >= |pc| || !pc[waiter.value].Waiting? then pc
    else pc[waiter.value := Roused(pc[waiter.value].epCap, ep, msg, cap)]
  }

  // ----- Steps ---------------------------------------------------------------------------------------

  ghost predicate StepSend(m: State, epCap: SlotId, msg: Message, transfer: Option<SlotId>,
                           sent: Result<SendOutcome, IpcError>, m': State)
    requires Shaped(m)
  {
    var ep := EndpointOf(MyTable(m), epCap);
    && m.pc[Me(m)] == Normal
    && OnlyTable(m.sys, Me(m), m'.sys)
    && SendYieldRel(m.sys.arena, m.sys.eps, MyTable(m), m.sched, epCap, msg, transfer, sent,
                    m'.sys.eps, m'.sys.tables[Me(m)], m'.sched)
    && m'.pc == if sent == Ok(Delivered)
                then RousedBy(m.pc, FirstBlocked(m.sched.states, ep, 0), ep, msg, Conveyed(MyTable(m), transfer))
                else m.pc
  }

  ghost predicate StepRecv(m: State, epCap: SlotId, step: RecvStep, m': State)
    requires Shaped(m)
  {
    var ep := EndpointOf(MyTable(m), epCap);
    && m.pc[Me(m)] == Normal
    && OnlyTable(m.sys, Me(m), m'.sys)
    && RecvYieldRel(m.sys.arena, m.sys.eps, MyTable(m), m.sched, epCap, step,
                    m'.sys.eps, m'.sys.tables[Me(m)], m'.sched)
    && m'.pc == if step == Switched then m.pc[Me(m) := Waiting(epCap, ep)] else m.pc
  }

  ghost predicate StepResume(m: State, got: Result<RecvOutcome, IpcError>, m': State)
    requires Shaped(m)
  {
    && m.pc[Me(m)] != Normal
    && OnlyTable(m.sys, Me(m), m'.sys)
    && RecvRel(m.sys.arena, m.sys.eps, MyTable(m), m.pc[Me(m)].epCap, got, m'.sys.eps, m'.sys.tables[Me(m)])
    && m'.sched == m.sched
    && m'.pc == m.pc[Me(m) := Normal]
  }

  predicate TableAction(a: Action, t: nat) {
    (a.Copy? || a.Derive? || a.Revoke? || a.Drop?) && a.task == t
  }

  /** An endpoint that some task is suspended on. */
  ghost predicate InUse(m: State, slot: nat) {
    exists i :: 0 <= i < |m.pc| && m.pc[i] != Normal && m.pc[i].ep.index == slot
  }

  ghost predicate MStep(m: State, op: Op, m': State)
    requires Shaped(m)
  {
    match op
    case Yield => m.pc[Me(m)] == Normal && m' == m.(sched := Yielded(m.sched))
    case SendYield(epCap, msg, transfer, sent) => StepSend(m, epCap, msg, transfer, sent, m')
    case RecvYield(epCap, step) => StepRecv(m, epCap, step, m')
    case Resume(got) => StepResume(m, got, m')
    case Local(a) =>
      && m.pc[Me(m)] == Normal && TableAction(a, Me(m))
      && Step(m.sys, a, m'.sys) && m'.sched == m.sched && m'.pc == m.pc
    case CreateEndpoint(i, obj) =>
      Step(m.sys, Create(i, obj), m'.sys) && m'.sched == m.sched && m'.pc == m.pc
    case DestroyEndpoint(i) =>
      !InUse(m, i) && Step(m.sys, Destroy(i), m'.sys) && m'.sched == m.sched && m'.pc == m.pc
    case Register(h) =>
      && h.index < |m.sched.states| && m.sched.states[h.index] == Vacant
      && m' == m.(sched := Added(m.sched, h))
  }

  /** The system step that a machine step performs. */
  ghost function ActionOf(m: State, op: Op): Action
    requires Shaped(m)
  {
    match op
    case Yield => Skip
    case SendYield(epCap, msg, transfer, sent) => Send(Me(m), epCap, msg, transfer, sent)
    case RecvYield(epCap, step) => Recv(Me(m), epCap, Underlying(step))
    case Resume(got) => if m.pc[Me(m)] == Normal then Skip else Recv(Me(m), m.pc[Me(m)].epCap, got)
    case Local(a) => a
    case CreateEndpoint(i, obj) => Create(i, obj)
    case DestroyEndpoint(i) => Destroy(i)
    case Register(_) => Skip
  }

  /** Machine steps are system steps, so what holds of all runs of the system holds of the machine. */
  lemma MStepIsStep(m: State, op: Op, m': State)
    requires Shaped(m) && MStep(m, op, m')
    ensures Step(m.sys, ActionOf(m, op), m'.sys)
  {
  }

  // ----- The invariant -------------------------------------------------------------------------------

  /** A waiting task is blocked on its endpoint, which records a waiting receiver and which its
      capability still names; a woken one is ready and its capability still names the endpoint. */
  ghost predicate PcOk(m: State, i: nat)
    requires Shaped(m) && i < |m.pc|
  {
    var p := m.pc[i];
    && (p.Waiting? <==> m.sched.states[i].Blocked?)
    && (p.Waiting? ==> m.sched.states[i] == Blocked(p.ep))
    && (p != Normal ==> Resolves(m.sys.arena, p.ep) && ValidateEp(m.sys.tables[i], p.epCap, RECV) == Ok(p.ep))
    && (p.Waiting? ==> p.ep.index in m.sys.eps && m.sys.eps[p.ep.index] == RecvWaiting)
    && (p.Roused? ==> m.sched.states[i] == Ready)
  }

  ghost predicate MInv(m: State) {
    && Shaped(m)
    && SystemOk(m.sys)
    && SchedInv(m.sched)
    && (forall i :: 0 <= i < |m.pc| ==> PcOk(m, i))
    && (forall i, j :: 0 <= i < j < |m.pc| && m.pc[i].Waiting? && m.pc[j].Waiting? ==> m.pc[i].ep != m.pc[j].ep)
  }

  /** Scheduler and endpoints agree: a blocked task's endpoint records a waiting receiver, no other task
      is blocked there, and a wake-up finds exactly that task. */
  lemma Coupling(m: State, i: nat, ep: SlotId)
    requires MInv(m) && i < |m.sched.states| && m.sched.states[i] == Blocked(ep)
    ensures Resolves(m.sys.arena, ep) && m.sys.eps[ep.index] == RecvWaiting
    ensures forall j :: 0 <= j < |m.sched.states| && m.sched.states[j] == Blocked(ep) ==> j == i
    ensures FirstBlocked(m.sched.states, ep, 0) == Some(i)
  {
    assert PcOk(m, i);
    forall j | 0 <= j < |m.sched.states| && m.sched.states[j] == Blocked(ep)
      ensures j == i
    {
      assert PcOk(m, j);
    }
    var found := FirstBlocked(m.sched.states, ep, 0);
    assert found.Some? && m.sched.states[found.value] == Blocked(ep);
  }

  /** The current task is not waiting, and is marked ready. */
  lemma CurrentRuns(m: State)
    requires MInv(m)
    ensures m.sched.states[Me(m)] == Ready && !m.pc[Me(m)].Waiting?
  {
    assert PcOk(m, Me(m));
  }

  /** Handles that resolve are equal as soon as their slots are. */
  lemma SameSlotSameId<T>(p: Pool<T>, a: SlotId, b: SlotId)
    requires Resolves(p, a) && Resolves(p, b) && a.index == b.index
    ensures a == b
  {
  }

  // ----- Every step keeps the invariant --------------------------------------------------------------

  lemma YieldKeepsInv(m: State, m': State)
    requires MInv(m) && MStep(m, Yield, m')
    ensures MInv(m')
  {
    YieldKeepsOk(m.sched);
    forall i | 0 <= i < |m'.pc|
      ensures PcOk(m', i)
    {
      assert PcOk(m, i);
    }
  }

  lemma QuietKeepsInv(m: State, op: Op, m': State)
    requires MInv(m) && MStep(m, op, m') && (op.Local? || op.CreateEndpoint? || op.DestroyEndpoint?)
    ensures MInv(m')
  {
    MStepIsStep(m, op, m');
    StepKeepsOk(m.sys, ActionOf(m, op), m'.sys);
    forall i | 0 <= i < |m'.pc|
      ensures PcOk(m', i)
    {
      assert PcOk(m, i);
    }
  }

  /** A receive by the current task changes no endpoint that another task waits on. */
  lemma RecvSparesOthers(m: State, epCap: SlotId, got: Result<RecvOutcome, IpcError>,
                         eps': Endpoints, f': Forest, i: nat)
    requires MInv(m) && i < |m.pc| && i != Me(m) && m.pc[i] != Normal
    requires RecvRel(m.sys.arena, m.sys.eps, MyTable(m), epCap, got, eps', f')
    ensures var p := m.pc[i];
            && p.ep.index in eps'
            && (p.Waiting? ==> eps'[p.ep.index] == RecvWaiting)
  {
    assert PcOk(m, i);
    var ep := RecvTarget(m.sys.arena, MyTable(m), epCap);
    if ep.Ok? && ep.value.index == m.pc[i].ep.index {
      SameSlotSameId(m.sys.arena, ep.value, m.pc[i].ep);
    }
  }

  lemma ResumeKeepsInv(m: State, got: Result<RecvOutcome, IpcError>, m': State)
    requires MInv(m) && MStep(m, Resume(got), m')
    ensures MInv(m')
  {
    MStepIsStep(m, Resume(got), m');
    StepKeepsOk(m.sys, ActionOf(m, Resume(got)), m'.sys);
    CurrentRuns(m);
    assert PcOk(m, Me(m));
    forall i | 0 <= i < |m'.pc|
      ensures PcOk(m', i)
    {
      assert PcOk(m, i);
      if i != Me(m) && m.pc[i] != Normal {
        RecvSparesOthers(m, m.pc[Me(m)].epCap, got, m'.sys.eps, m'.sys.tables[Me(m)], i);
      }
    }
  }

  lemma RecvKeepsPc(m: State, epCap: SlotId, step: RecvStep, m': State, i: nat)
    requires MInv(m) && MStep(m, RecvYield(epCap, step), m') && i < |m.pc|
    requires Shaped(m')
    ensures PcOk(m', i)
  {
    assert PcOk(m, i);
    CurrentRuns(m);
    if i != Me(m) && m.pc[i] != Normal {
      RecvSparesOthers(m, epCap, Underlying(step), m'.sys.eps, m'.sys.tables[Me(m)], i);
    }
  }

  lemma RecvKeepsInv(m: State, epCap: SlotId, step: RecvStep, m': State)
    requires MInv(m) && MStep(m, RecvYield(epCap, step), m')
    ensures MInv(m')
  {
    MStepIsStep(m, RecvYield(epCap, step), m');
    StepKeepsOk(m.sys, ActionOf(m, RecvYield(epCap, step)), m'.sys);
    if step == Switched {
      BlockKeepsOk(m.sched, EndpointOf(MyTable(m), epCap));
    }
    forall i | 0 <= i < |m'.pc|
      ensures PcOk(m', i)
    {
      RecvKeepsPc(m, epCap, step, m', i);
    }
    forall i, j | 0 <= i < j < |m'.pc| && m'.pc[i].Waiting? && m'.pc[j].Waiting?
      ensures m'.pc[i].ep != m'.pc[j].ep
    {
      assert PcOk(m, i) && PcOk(m, j);
    }
  }

  /** A send changes no endpoint that another task waits on, except the one it delivers to. */
  lemma SendSparesOthers(m: State, epCap: SlotId, msg: Message, transfer: Option<SlotId>,
                         sent: Result<SendOutcome, IpcError>, eps': Endpoints, f': Forest, i: nat)
    requires MInv(m) && i < |m.pc| && m.pc[i] != Normal
    requires SendRel(m.sys.arena, m.sys.eps, MyTable(m), epCap, msg, transfer, sent, eps', f')
    ensures var p := m.pc[i];
            && p.ep.index in eps'
            && (p.Waiting? && eps'[p.ep.index] != RecvWaiting ==>
                && sent == Ok(Delivered) && EndpointOf(MyTable(m), epCap) == p.ep
                && eps'[p.ep.index] == RecvComplete(msg, Conveyed(MyTable(m), transfer)))
  {
    assert PcOk(m, i);
    var ep := SendCheck(m.sys.arena, m.sys.eps, MyTable(m), epCap, transfer);
    if ep.Ok? && ep.value.index == m.pc[i].ep.index {
      SameSlotSameId(m.sys.arena, ep.value, m.pc[i].ep);
    }
  }

  /** A delivery is made to a live endpoint with a registered receiver. */
  lemma DeliveredTo(m: State, epCap: SlotId, msg: Message, transfer: Option<SlotId>,
                    sent: Result<SendOutcome, IpcError>, eps': Endpoints, f': Forest)
    requires MInv(m)
    requires SendRel(m.sys.arena, m.sys.eps, MyTable(m), epCap, msg, transfer, sent, eps', f') && sent == Ok(Delivered)
    ensures var ep := EndpointOf(MyTable(m), epCap);
            && Resolves(m.sys.arena, ep) && m.sys.eps[ep.index] == RecvWaiting
            && ep.index in eps' && eps'[ep.index] == RecvComplete(msg, Conveyed(MyTable(m), transfer))
  {
  }

  lemma QuietSendKeepsPc(m: State, epCap: SlotId, msg: Message, transfer: Option<SlotId>,
                         sent: Result<SendOutcome, IpcError>, m': State, i: nat)
    requires MInv(m) && MStep(m, SendYield(epCap, msg, transfer, sent), m') && i < |m.pc|
    requires Shaped(m') && sent != Ok(Delivered)
    ensures PcOk(m', i)
  {
    assert PcOk(m, i);
    if m.pc[i] != Normal {
      SendSparesOthers(m, epCap, msg, transfer, sent, m'.sys.eps, m'.sys.tables[Me(m)], i);
    }
  }

  /** The scheduler state and the marker of each task after a delivery. */
  lemma DeliveryWakes(m: State, epCap: SlotId, msg: Message, transfer: Option<SlotId>, m': State, i: nat)
    requires MInv(m) && MStep(m, SendYield(epCap, msg, transfer, Ok(Delivered)), m') && i < |m.pc|
    ensures var ep := EndpointOf(MyTable(m), epCap);
            && |m'.pc| == |m'.sched.states| == |m.pc|
            && (if m.sched.states[i] == Blocked(ep)
                then m'.sched.states[i] == Ready && m.pc[i].Waiting? && m.pc[i].ep == ep &&
                     m'.pc[i] == Roused(m.pc[i].epCap, ep, msg, Conveyed(MyTable(m), transfer))
                else m'.sched.states[i] == m.sched.states[i] && m'.pc[i] == m.pc[i])
  {
    var ep := EndpointOf(MyTable(m), epCap);
    var waiter := FirstBlocked(m.sched.states, ep, 0);
    if waiter.Some? {
      Coupling(m, waiter.value, ep);
      assert PcOk(m, waiter.value);
      assert SlotOk(m.sched, waiter.value);
    }
  }

  lemma DeliveryKeepsPc(m: State, epCap: SlotId, msg: Message, transfer: Option<SlotId>, m': State, i: nat)
    requires MInv(m) && MStep(m, SendYield(epCap, msg, transfer, Ok(Delivered)), m') && i < |m.pc|
    requires Shaped(m')
    ensures PcOk(m', i)
  {
    assert PcOk(m, i);
    CurrentRuns(m);
    DeliveryWakes(m, epCap, msg, transfer, m', i);
    DeliveredTo(m, epCap, msg, transfer, Ok(Delivered), m'.sys.eps, m'.sys.tables[Me(m)]);
    if m.pc[i] != Normal {
      SendSparesOthers(m, epCap, msg, transfer, Ok(Delivered), m'.sys.eps, m'.sys.tables[Me(m)], i);
    }
  }

  lemma SendKeepsSched(m: State, epCap: SlotId, msg: Message, transfer: Option<SlotId>,
                       sent: Result<SendOutcome, IpcError>, m': State)
    requires MInv(m) && StepSend(m, epCap, msg, transfer, sent, m')
    ensures SchedInv(m'.sched) && m'.sched.current.Some?
    ensures |m'.sched.states| == |m'.sched.handles| == |m.pc| == |m'.pc| == |m'.sys.tables|
    ensures forall i :: 0 <= i < |m.pc| && m'.pc[i].Waiting? ==> m'.pc[i] == m.pc[i]
  {
    var ep := EndpointOf(MyTable(m), epCap);
    WakeKeepsOk(m.sched, ep);
    YieldKeepsOk(Woken(m.sched, ep));
  }

  lemma SendKeepsInv(m: State, epCap: SlotId, msg: Message, transfer: Option<SlotId>,
                     sent: Result<SendOutcome, IpcError>, m': State)
    requires MInv(m) && MStep(m, SendYield(epCap, msg, transfer, sent), m')
    ensures MInv(m')
  {
    var op := SendYield(epCap, msg, transfer, sent);
    assert SystemOk(m'.sys) by {
      MStepIsStep(m, op, m');
      StepKeepsOk(m.sys, ActionOf(m, op), m'.sys);
    }
    SendKeepsSched(m, epCap, msg, transfer, sent, m');
    assert Shaped(m');
    forall i | 0 <= i < |m'.pc|
      ensures PcOk(m', i)
    {
      if sent == Ok(Delivered) {
        DeliveryKeepsPc(m, epCap, msg, transfer, m', i);
      } else {
        QuietSendKeepsPc(m, epCap, msg, transfer, sent, m', i);
      }
    }
  }

  /** Registering a task keeps the invariant exactly when its slot is vacant.  On a slot that is blocked
      the partition survives, but the endpoint keeps recording a receiver that is no longer blocked. */
  lemma RegisterKeepsInvIff(m: State, h: SlotId)
    requires MInv(m) && h.index < |m.pc|
    ensures MInv(m.(sched := Added(m.sched, h))) <==> m.sched.states[h.index] == Vacant
  {
    var m' := m.(sched := Added(m.sched, h));
    AddKeepsPartitionIff(m.sched, h);
    assert PcOk(m, h.index);
    if m.sched.states[h.index] == Vacant {
      assert SlotOk(m.sched, h.index);
      forall i | 0 <= i < |m'.pc|
        ensures PcOk(m', i)
      {
        assert PcOk(m, i);
      }
    } else if m.sched.states[h.index].Blocked? {
      assert !PcOk(m', h.index);
    }
  }

  /** Destroying an endpoint keeps the invariant exactly when no task is suspended in a receive on it. */
  lemma DestroyKeepsInvIff(m: State, slot: nat)
    requires MInv(m) && slot in m.sys.arena.live
    ensures var after := m.sys.(arena := Release(m.sys.arena, {slot}), eps := m.sys.eps - {slot});
            MInv(m.(sys := after)) <==> !InUse(m, slot)
  {
    var m' := m.(sys := m.sys.(arena := Release(m.sys.arena, {slot}), eps := m.sys.eps - {slot}));
    if InUse(m, slot) {
      var i :| 0 <= i < |m.pc| && m.pc[i] != Normal && m.pc[i].ep.index == slot;
      assert Shaped(m') ==> !PcOk(m', i);
    } else {
      forall i | 0 <= i < |m'.pc|
        ensures PcOk(m', i)
      {
        assert PcOk(m, i);
      }
    }
  }

  /** Every machine step keeps the invariant. */
  lemma StepKeepsInv(m: State, op: Op, m': State)
    requires MInv(m) && MStep(m, op, m')
    ensures MInv(m')
  {
    match op
    case Yield => YieldKeepsInv(m, m');
    case SendYield(epCap, msg, transfer, sent) => SendKeepsInv(m, epCap, msg, transfer, sent, m');
    case RecvYield(epCap, step) => RecvKeepsInv(m, epCap, step, m');
    case Resume(got) => ResumeKeepsInv(m, got, m');
    case Local(_) => QuietKeepsInv(m, op, m');
    case CreateEndpoint(_, _) => QuietKeepsInv(m, op, m');
    case DestroyEndpoint(_) => QuietKeepsInv(m, op, m');
    case Register(h) => RegisterKeepsInvIff(m, h);
  }

  // ----- Runs ----------------------------------------------------------------------------------------

  ghost predicate MStepAt(states: seq<State>, ops: seq<Op>, k: nat) {
    k < |ops| && k + 1 < |states| && Shaped(states[k]) && MStep(states[k], ops[k], states[k + 1])
  }

  ghost predicate MRun(states: seq<State>, ops: seq<Op>) {
    && |states| == |ops| + 1
    && MInv(states[0])
    && forall k :: 0 <= k < |ops| ==> MStepAt(states, ops, k)
  }

  lemma FrontIsMRun(states: seq<State>, ops: seq<Op>)
    requires MRun(states, ops) && ops != []
    ensures MRun(states[..|ops|], ops[..|ops| - 1])
  {
    var front, done := states[..|ops|], ops[..|ops| - 1];
    forall k | 0 <= k < |done|
      ensures MStepAt(front, done, k)
    {
      assert MStepAt(states, ops, k);
    }
  }

  /** The partition, the coupling and all table invariants hold in every state of every run. */
  lemma {:induction false} RunKeepsInv(states: seq<State>, ops: seq<Op>, k: nat)
    requires MRun(states, ops) && k < |states|
    ensures MInv(states[k])
  {
    if k > 0 {
      RunKeepsInv(states, ops, k - 1);
      assert MStepAt(states, ops, k - 1);
      StepKeepsInv(states[k - 1], ops[k - 1], states[k]);
    }
  }

  // ----- Every request is answered -----------------------------------------------------------------------

  ghost function WithTable(m: State, eps: Endpoints, f: Forest): System
    requires Shaped(m)
  {
    m.sys.(eps := eps, tables := m.sys.tables[Me(m) := f])
  }

  /** Every table operation of the current task, with any result that its relation allows, is a step. */
  lemma TableOpsAreSteps(m: State, f': Forest)
    requires MInv(m) && m.pc[Me(m)] == Normal
    ensures var t, f, m' := Me(m), MyTable(m), m.(sys := WithTable(m, m.sys.eps, f'));
            && (forall src, rights, r :: CopyRel(f, src, rights, r, f') ==>
                  MStep(m, Local(Copy(t, src, rights, r)), m'))
            && (forall src, rights, obj, r :: DeriveRel(f, src, rights, obj, r, f') ==>
                  MStep(m, Local(Derive(t, src, rights, obj, r)), m'))
            && (forall src, r :: RevokeRel(f, src, r, f') ==> MStep(m, Local(Revoke(t, src, r)), m'))
            && (forall h, r :: DropRel(f, h, r, f') ==> MStep(m, Local(Drop(t, h, r)), m'))
  {
  }

  /** So is the creation of an endpoint in an empty slot, and the destruction of one that holds no
      capability and has no task suspended on it. */
  lemma EndpointOpsAreSteps(m: State, slot: nat, obj: EndpointObject)
    requires MInv(m)
    ensures slot < |m.sys.arena.frees| && slot !in m.sys.arena.live ==>
              var sys' := m.sys.(arena := Alloc(m.sys.arena, slot, obj), eps := m.sys.eps[slot := Idle]);
              MStep(m, CreateEndpoint(slot, obj), m.(sys := sys'))
    ensures slot in m.sys.arena.live && !CarriesCap(m.sys.eps[slot]) && !InUse(m, slot) ==>
              var sys' := m.sys.(arena := Release(m.sys.arena, {slot}), eps := m.sys.eps - {slot});
              MStep(m, DestroyEndpoint(slot), m.(sys := sys'))
  {
  }

  /** So are a yield and the registration of a task in a vacant slot. */
  lemma SchedOpsAreSteps(m: State, h: SlotId)
    requires MInv(m)
    ensures m.pc[Me(m)] == Normal ==> MStep(m, Yield, m.(sched := Yielded(m.sched)))
    ensures h.index < |m.pc| && m.sched.states[h.index] == Vacant ==>
              MStep(m, Register(h), m.(sched := Added(m.sched, h)))
  {
  }

  /** Whatever a task outside a receive sends, there is exactly one answer and next state. */
  lemma SendAnswersOnce(m: State, epCap: SlotId, msg: Message, transfer: Option<SlotId>)
    returns (sent: Result<SendOutcome, IpcError>, m': State)
    requires MInv(m) && m.pc[Me(m)] == Normal
    ensures MStep(m, SendYield(epCap, msg, transfer, sent), m')
    ensures forall other, n :: MStep(m, SendYield(epCap, msg, transfer, other), n) ==> other == sent && n == m'
  {
    var arena, eps, f, ep := m.sys.arena, m.sys.eps, MyTable(m), EndpointOf(MyTable(m), epCap);
    sent := SendAnswer(arena, eps, f, epCap, transfer);
    var check := SendCheck(arena, eps, f, epCap, transfer);
    var eps', f' := eps, f;
    if check.Ok? {
      var i := check.value.index;
      eps', f' := eps[i := Deposited(eps[i], msg, Conveyed(f, transfer))], AfterTransfer(f, transfer);
    }
    var pc' := m.pc;
    if sent == Ok(Delivered) {
      pc' := RousedBy(m.pc, FirstBlocked(m.sched.states, ep, 0), ep, msg, Conveyed(f, transfer));
    }
    m' := State(WithTable(m, eps', f'), SchedAfterSend(m.sched, ep, sent), pc');
  }

  /** A receive can always be performed: refused, registered, or answered with a capability in any
      slot that is free. */
  lemma RecvHappens(arena: EndpointPool, eps: Endpoints, f: Forest, epCap: SlotId)
    returns (r: Result<RecvOutcome, IpcError>, eps': Endpoints, f': Forest)
    requires eps.Keys == arena.live.Keys && ForestOk(f)
    ensures RecvRel(arena, eps, f, epCap, r, eps', f')
  {
    var ep := RecvTarget(arena, f, epCap);
    r, eps', f' := Err(InvalidCapability), eps, f;
    if ep.Ok? {
      var i := ep.value.index;
      var e := eps[i];
      if e == Idle {
        r, eps' := Ok(Pending), eps[i := RecvWaiting];
      } else if e == RecvWaiting {
        r := Err(QueueFull);
      } else if e.cap.None? {
        r, eps' := Ok(Received(e.msg, None)), eps[i := Idle];
      } else if Full(f) {
        r := Err(ReceiverTableFull);
      } else {
        FullIff(f);
        var slot: nat :| slot < |f.frees| && slot !in f.live;
        r, eps' := Ok(Received(e.msg, Some(IdOf(f, slot)))), eps[i := Idle];
        f' := Alloc(f, slot, Node(e.cap.value, None, 0));
      }
    }
  }

  /** A task outside a receive can always receive. */
  lemma RecvIsAnswered(m: State, epCap: SlotId) returns (step: RecvStep, m': State)
    requires MInv(m) && m.pc[Me(m)] == Normal
    ensures MStep(m, RecvYield(epCap, step), m')
  {
    var ep := EndpointOf(MyTable(m), epCap);
    var r, eps', f' := RecvHappens(m.sys.arena, m.sys.eps, MyTable(m), epCap);
    if r != Ok(Pending) {
      step := Returned(if r.Ok? then Ok(r.value) else Err(IpcFailed(r.error)));
      m' := State(WithTable(m, eps', f'), m.sched, m.pc);
    } else if m.sched.ready == [] {
      step := Returned(Err(Deadlock));
      m' := State(WithTable(m, eps', f'), m.sched, m.pc);
    } else {
      step := Switched;
      m' := State(WithTable(m, eps', f'), BlockedOn(m.sched, ep), m.pc[Me(m) := Waiting(epCap, ep)]);
    }
  }

  /** A task dispatched inside a receive can always finish it. */
  lemma ResumeIsAnswered(m: State) returns (got: Result<RecvOutcome, IpcError>, m': State)
    requires MInv(m) && m.pc[Me(m)] != Normal
    ensures MStep(m, Resume(got), m')
  {
    var r, eps', f' := RecvHappens(m.sys.arena, m.sys.eps, MyTable(m), m.pc[Me(m)].epCap);
    got := r;
    m' := State(WithTable(m, eps', f'), m.sched, m.pc[Me(m) := Normal]);
  }

  // ----- Boot ----------------------------------------------------------------------------------------

  /** The scheduler after `add_task` for each of `hs` in turn. */
  function Registered(n: nat, hs: seq<SlotId>): (s: Sched)
    requires forall k :: 0 <= k < |hs| ==> hs[k].index < n
    ensures |s.states| == |s.handles| == n && s.ready == hs && s.current == None
    ensures forall i :: 0 <= i < n ==> s.states[i] == Vacant || s.states[i] == Ready
  {
    if hs == [] then EmptySched(n)
    else Added(Registered(n, hs[..|hs| - 1]), hs[|hs| - 1])
  }

  /** `add_task` for each of `hs`, then `start`: no task is suspended. */
  function Booted(sys: System, hs: seq<SlotId>): State
    requires hs != [] && forall k :: 0 <= k < |hs| ==> hs[k].index < |sys.tables|
  {
    var n := |sys.tables|;
    State(sys, Dispatched(Registered(n, hs)), seq(n, i => Normal))
  }

  ghost predicate DistinctSlots(hs: seq<SlotId>) {
    forall a, b :: 0 <= a < b < |hs| ==> hs[a].index != hs[b].index
  }

  ghost predicate Among(hs: seq<SlotId>, i: nat) {
    exists k :: 0 <= k < |hs| && hs[k].index == i
  }

  /** The slots marked ready are those of the registered tasks. */
  lemma {:induction false} ReadySlots(n: nat, hs: seq<SlotId>, i: nat)
    requires (forall k :: 0 <= k < |hs| ==> hs[k].index < n) && i < n
    ensures Registered(n, hs).states[i] == Ready <==> Among(hs, i)
  {
    if hs != [] {
      var last := |hs| - 1;
      ReadySlots(n, hs[..last], i);
      assert Among(hs, i) <==> Among(hs[..last], i) || hs[last].index == i;
    }
  }

  /** Registering tasks in distinct slots gives a valid scheduler, and there is room for all of them. */
  lemma {:induction false} RegisteredOk(n: nat, hs: seq<SlotId>)
    requires (forall k :: 0 <= k < |hs| ==> hs[k].index < n) && DistinctSlots(hs)
    ensures SchedInv(Registered(n, hs)) && |hs| <= n
  {
    if hs == [] {
      EmptyOk(n);
    } else {
      var last := |hs| - 1;
      RegisteredOk(n, hs[..last]);
      ReadySlots(n, hs[..last], hs[last].index);
      AddKeepsPartitionIff(Registered(n, hs[..last]), hs[last]);
      ReadyHasRoom(Registered(n, hs), {});
    }
  }

  /** A started machine in which no task is suspended satisfies the invariant. */
  lemma StartedOk(m: State)
    requires Shaped(m) && SystemOk(m.sys) && SchedInv(m.sched)
    requires forall i :: 0 <= i < |m.pc| ==> m.pc[i] == Normal && !m.sched.states[i].Blocked?
    ensures MInv(m)
  {
  }

  lemma BootedOk(sys: System, hs: seq<SlotId>)
    requires SystemOk(sys) && hs != [] && forall k :: 0 <= k < |hs| ==> hs[k].index < |sys.tables|
    requires DistinctSlots(hs)
    ensures MInv(Booted(sys, hs))
  {
    var s := Registered(|sys.tables|, hs);
    RegisteredOk(|sys.tables|, hs);
    DispatchKeepsOk(s);
    StartedOk(Booted(sys, hs));
  }

  lemma BootedDistinct(sys: System, hs: seq<SlotId>)
    requires hs != [] && forall k :: 0 <= k < |hs| ==> hs[k].index < |sys.tables|
    requires SchedInv(Booted(sys, hs).sched)
    ensures DistinctSlots(hs)
  {
    var s := Booted(sys, hs).sched;
    forall a, b | 0 <= a < b < |hs|
      ensures hs[a].index != hs[b].index
    {
      assert hs[b] == s.ready[b - 1] && hs[b] in s.ready;
      if a > 0 {
        assert hs[a] == s.ready[a - 1] && hs[a] in s.ready;
      }
    }
  }

  /** Boot gives a state from which runs can start exactly when no two tasks share a slot. */
  lemma BootedOkIff(sys: System, hs: seq<SlotId>)
    requires SystemOk(sys) && 0 < |hs| <= |sys.tables|
    requires forall k :: 0 <= k < |hs| ==> hs[k].index < |sys.tables|
    ensures MInv(Booted(sys, hs)) <==> DistinctSlots(hs)
  {
    if DistinctSlots(hs) {
      BootedOk(sys, hs);
    } else if SchedInv(Booted(sys, hs).sched) {
      BootedDistinct(sys, hs);
    }
  }
}
