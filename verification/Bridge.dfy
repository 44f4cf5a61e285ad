/** What the scheduler/IPC bridge (kernel/src/sched/mod.rs) does: an IPC step on the caller's table and
    the endpoints, followed by the scheduler step that its outcome calls for.  `context_switch` is the
    change of the current task; the code of a blocking receive after its switch is a step of its own. */
module Bridge {
  import opened Wrappers
  import opened Rights
  import opened SlotPool
  import opened CapForest
  import opened Rendezvous
  import opened Dispatch

  datatype SchedError = NoCurrentTask | ReadyQueueFull | IpcFailed(error: IpcError) | Deadlock

  /** How the first half of a blocking receive ends: it returns, or switches away. */
  datatype RecvStep = Returned(result: Result<RecvOutcome, SchedError>) | Switched

  function LiftSend(r: Result<SendOutcome, IpcError>, current: bool): Result<SendOutcome, SchedError> {
    match r
    case Err(e) => Err(IpcFailed(e))
    case Ok(Enqueued) => Ok(Enqueued)
    case Ok(Delivered) => if current then Ok(Delivered) else Err(NoCurrentTask)
  }

  /** A delivering send wakes the receiver and yields to the ready queue. */
  function SchedAfterSend(s: Sched, ep: SlotId, r: Result<SendOutcome, IpcError>): Sched
    requires |s.states| == |s.handles|
  {
    if r != Ok(Delivered) then s
    else if s.current.None? then Woken(s, ep)
    else Yielded(Woken(s, ep))
  }

  /** The endpoint that a capability names.  If it names none, every operation with it is refused and no
      result depends on this value. */
  ghost function EndpointOf(f: Forest, epCap: SlotId): SlotId {
    if Resolves(f, epCap) && f.live[epCap.index].cap.obj.Endpoint? then f.live[epCap.index].cap.obj.endpoint
    else epCap
  }

  ghost predicate SendYieldRel(arena: EndpointPool, eps: Endpoints, f: Forest, s: Sched, epCap: SlotId, msg: Message,
                               transfer: Option<SlotId>, r: Result<SendOutcome, IpcError>,
                               eps': Endpoints, f': Forest, s': Sched)
    requires eps.Keys == arena.live.Keys && |s.states| == |s.handles|
  {
    && SendRel(arena, eps, f, epCap, msg, transfer, r, eps', f')
    && s' == SchedAfterSend(s, EndpointOf(f, epCap), r)
  }

  /** What the receive before the switch answered. */
  function Underlying(step: RecvStep): Result<RecvOutcome, IpcError> {
    match step
    case Switched => Ok(Pending)
    case Returned(Ok(outcome)) => Ok(outcome)
    case Returned(Err(IpcFailed(e))) => Err(e)
    case Returned(Err(_)) => Ok(Pending)
  }

  /** A pending receive blocks the current task and dispatches the next one; with no task to dispatch
      the scheduler is left as it was. */
  ghost predicate SchedAfterRecv(s: Sched, ep: SlotId, step: RecvStep, s': Sched)
    requires |s.states| == |s.handles|
  {
    if Underlying(step) != Ok(Pending) then s' == s
    else if s.current.None? then step == Returned(Err(NoCurrentTask)) && s' == s
    else if s.ready == [] then step == Returned(Err(Deadlock)) && s' == s
    else step == Switched && s.current.value.index < |s.states| && s' == BlockedOn(s, ep)
  }

  ghost predicate RecvYieldRel(arena: EndpointPool, eps: Endpoints, f: Forest, s: Sched, epCap: SlotId, step: RecvStep,
                               eps': Endpoints, f': Forest, s': Sched)
    requires eps.Keys == arena.live.Keys && |s.states| == |s.handles|
  {
    && RecvRel(arena, eps, f, epCap, Underlying(step), eps', f')
    && SchedAfterRecv(s, EndpointOf(f, epCap), step, s')
  }

  /** What a resumed receive returns, given what the endpoint answered. */
  function Resumed(r: Result<RecvOutcome, IpcError>): Result<RecvOutcome, SchedError> {
    match r
    case Ok(Pending) => Err(IpcFailed(PendingAfterResume))
    case Ok(outcome) => Ok(outcome)
    case Err(e) => Err(IpcFailed(e))
  }

  // ----- What the bridge answers -----------------------------------------------------------------------

  /** The sender has the authority on `ep`, and may give up what it offers. */
  ghost predicate MaySend(arena: EndpointPool, f: Forest, epCap: SlotId, transfer: Option<SlotId>, ep: SlotId) {
    && Authorizes(f, epCap, SEND, ep) && Resolves(arena, ep)
    && Offerable(f, transfer) && OffersLeaf(f, transfer)
  }

  /** The answer of a bridged send says what became of the message: parked in an idle endpoint, with the
      scheduler untouched, or handed to a registered receiver, which takes a current task to be reported. */
  ghost predicate SendAnswered(arena: EndpointPool, eps: Endpoints, f: Forest, s: Sched, epCap: SlotId, msg: Message,
                               transfer: Option<SlotId>, answer: Result<SendOutcome, SchedError>,
                               eps': Endpoints, s': Sched)
    requires eps.Keys == arena.live.Keys && |s.states| == |s.handles|
  {
    && (answer == Ok(Enqueued) <==> exists ep :: MaySend(arena, f, epCap, transfer, ep) && eps[ep.index] == Idle)
    && (answer == Ok(Delivered) || answer == Err(NoCurrentTask) <==>
        exists ep :: MaySend(arena, f, epCap, transfer, ep) && eps[ep.index] == RecvWaiting)
    && (answer == Ok(Delivered) ==> s.current.Some?)
    && (answer == Err(NoCurrentTask) ==> s.current.None?)
    && (answer.Err? && answer.error != NoCurrentTask ==> answer.error.IpcFailed? && eps' == eps && s' == s)
    && forall ep :: MaySend(arena, f, epCap, transfer, ep) && ep.index in eps' ==>
         && (answer == Ok(Enqueued) ==> eps'[ep.index].SendPending? && eps'[ep.index].msg == msg && s' == s)
         && (answer == Ok(Delivered) || answer == Err(NoCurrentTask) ==>
               eps'[ep.index].RecvComplete? && eps'[ep.index].msg == msg)
         && (answer == Err(NoCurrentTask) ==> s' == Woken(s, ep))
  }

  lemma SendYieldLaw(arena: EndpointPool, eps: Endpoints, f: Forest, s: Sched, epCap: SlotId, msg: Message,
                     transfer: Option<SlotId>, r: Result<SendOutcome, IpcError>,
                     eps': Endpoints, f': Forest, s': Sched)
    requires eps.Keys == arena.live.Keys && |s.states| == |s.handles|
    requires SendYieldRel(arena, eps, f, s, epCap, msg, transfer, r, eps', f', s')
    ensures SendAnswered(arena, eps, f, s, epCap, msg, transfer, LiftSend(r, s.current.Some?), eps', s')
    ensures forall e :: LiftSend(r, s.current.Some?) == Err(IpcFailed(e)) <==> r == Err(e)
  {
    SendLaw(arena, eps, f, epCap, msg, transfer, r, eps', f');
    if Resolves(f, epCap) && SEND in f.live[epCap.index].cap.rights && f.live[epCap.index].cap.obj.Endpoint? {
      var ep := f.live[epCap.index].cap.obj.endpoint;
      assert Authorizes(f, epCap, SEND, ep);
      assert MaySend(arena, f, epCap, transfer, ep) <==>
             Resolves(arena, ep) && Offerable(f, transfer) && OffersLeaf(f, transfer);
    }
  }

  /** The answer of a bridged receive, by the state of its endpoint and of the scheduler. */
  ghost predicate RecvStepped(eps: Endpoints, f: Forest, s: Sched, i: nat, step: RecvStep, s': Sched)
    requires i in eps
  {
    var e := eps[i];
    var holds := e.SendPending? || e.RecvComplete?;
    && (step == Switched <==> e == Idle && s.current.Some? && s.ready != [])
    && (step == Returned(Err(Deadlock)) <==> e == Idle && s.current.Some? && s.ready == [])
    && (step == Returned(Err(NoCurrentTask)) <==> e == Idle && s.current.None?)
    && (step == Returned(Err(IpcFailed(QueueFull))) <==> e == RecvWaiting)
    && (step == Returned(Err(IpcFailed(ReceiverTableFull))) <==> holds && e.cap.Some? && Full(f))
    && (step.Returned? && step.result.Ok? <==> holds && (e.cap.Some? ==> !Full(f)))
    && (step.Returned? && step.result.Ok? ==> step.result.value.Received? && step.result.value.msg == e.msg)
    && (step != Switched ==> s' == s)
  }

  lemma RecvYieldLaw(arena: EndpointPool, eps: Endpoints, f: Forest, s: Sched, epCap: SlotId, step: RecvStep,
                     eps': Endpoints, f': Forest, s': Sched)
    requires eps.Keys == arena.live.Keys && |s.states| == |s.handles| && ForestOk(f)
    requires RecvYieldRel(arena, eps, f, s, epCap, step, eps', f', s')
    ensures step == Returned(Err(IpcFailed(InvalidCapability))) <==>
            forall ep :: Authorizes(f, epCap, RECV, ep) ==> !Resolves(arena, ep)
    ensures forall ep :: Authorizes(f, epCap, RECV, ep) && Resolves(arena, ep) ==>
              RecvStepped(eps, f, s, ep.index, step, s')
  {
    RecvLaw(arena, eps, f, epCap, Underlying(step), eps', f');
    forall ep | Authorizes(f, epCap, RECV, ep) && Resolves(arena, ep)
      ensures RecvStepped(eps, f, s, ep.index, step, s')
    {
      assert RecvAnswers(eps, f, ep.index, Underlying(step));
    }
  }

  /** The answer of a resumed receive, by the state of its endpoint. */
  lemma ResumeLaw(arena: EndpointPool, eps: Endpoints, f: Forest, epCap: SlotId, ep: SlotId,
                  r: Result<RecvOutcome, IpcError>, eps': Endpoints, f': Forest)
    requires eps.Keys == arena.live.Keys && ForestOk(f) && RecvRel(arena, eps, f, epCap, r, eps', f')
    requires Authorizes(f, epCap, RECV, ep) && Resolves(arena, ep)
    ensures var e := eps[ep.index];
            var holds := e.SendPending? || e.RecvComplete?;
            && (Resumed(r) == Err(IpcFailed(PendingAfterResume)) <==> e == Idle)
            && (Resumed(r) == Err(IpcFailed(QueueFull)) <==> e == RecvWaiting)
            && (Resumed(r) == Err(IpcFailed(ReceiverTableFull)) <==> holds && e.cap.Some? && Full(f))
            && (Resumed(r).Ok? <==> holds && (e.cap.Some? ==> !Full(f)))
            && (Resumed(r).Ok? ==> Resumed(r).value.Received? && Resumed(r).value.msg == e.msg)
  {
    RecvLaw(arena, eps, f, epCap, r, eps', f');
    assert RecvAnswers(eps, f, ep.index, r);
  }
}
