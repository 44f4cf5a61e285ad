/** What the IPC operations (kernel/src/ipc/mod.rs) do, over the state of each live endpoint and the
    forest of the calling task's capability table. */
module Rendezvous {
  import opened Wrappers
  import opened Rights
  import opened SlotPool
  import opened CapForest

  datatype Message = Message(tag: nat, params: (nat, nat, nat))

  datatype IpcError = InvalidCapability | QueueFull | InvalidTransferCap | ReceiverTableFull | PendingAfterResume

  datatype SendOutcome = Delivered | Enqueued

  datatype RecvOutcome = Received(msg: Message, cap: Option<SlotId>) | Pending

  datatype EndpointState =
    | Idle
    | SendPending(msg: Message, cap: Option<Capability>)
    | RecvWaiting
    | RecvComplete(msg: Message, cap: Option<Capability>)

  datatype EndpointObject = EndpointObject(id: nat)

  type EndpointPool = Pool<EndpointObject>

  /** The state of each live endpoint, by slot index. */
  type Endpoints = map<nat, EndpointState>

  predicate Occupied(s: EndpointState) {
    s.SendPending? || s.RecvComplete?
  }

  predicate CarriesCap(s: EndpointState) {
    Occupied(s) && s.cap.Some?
  }

  // ----- Stale queue slots ---------------------------------------------------------------------------

  /** The state that a handle sees: a queue slot last written for another generation counts as idle. */
  function Effective(states: seq<EndpointState>, generations: seq<nat>, ep: SlotId): EndpointState
    requires ep.index < |states| == |generations|
  {
    if generations[ep.index] != ep.generation then Idle else states[ep.index]
  }

  ghost function EffectiveAll(arena: EndpointPool, states: seq<EndpointState>, generations: seq<nat>): Endpoints
    requires PoolOk(arena) && |arena.frees| == |states| == |generations|
  {
    map i | i in arena.live :: Effective(states, generations, IdOf(arena, i))
  }

  ghost predicate StampOk(arena: EndpointPool, states: seq<EndpointState>, generations: seq<nat>, stamps: seq<nat>,
                          i: nat)
    requires i < |stamps| == |generations| == |states| == |arena.frees|
  {
    && generations[i] == stamps[i] % GENERATIONS
    && stamps[i] <= arena.frees[i]
    && (i !in arena.live ==> stamps[i] < arena.frees[i] || states[i] == Idle)
    && (i !in arena.live || generations[i] != IdOf(arena, i).generation ==> !CarriesCap(states[i]))
  }

  /** `stamps[i]` is the free count of endpoint slot `i` when its queue slot was last claimed.  A queue
      slot of an empty endpoint slot is idle or was claimed for an endpoint since destroyed, and a slot
      whose state is stale carries no capability, provided that endpoints are drained before they are
      destroyed. */
  ghost predicate Stamped(arena: EndpointPool, states: seq<EndpointState>, generations: seq<nat>, stamps: seq<nat>) {
    && PoolOk(arena)
    && |stamps| == |generations| == |states| == |arena.frees|
    && forall i :: 0 <= i < |stamps| ==> StampOk(arena, states, generations, stamps, i)
  }

  /** An endpoint created in a slot inherits a predecessor's state exactly when that state is not idle
      and the slot has been freed a multiple of 2^32 times since. */
  lemma CreatedIdleIff(arena: EndpointPool, states: seq<EndpointState>, generations: seq<nat>, stamps: seq<nat>,
                       i: nat, ep: EndpointObject)
    requires Stamped(arena, states, generations, stamps) && i < |arena.frees| && i !in arena.live
    ensures PoolOk(Alloc(arena, i, ep)) && Stamped(Alloc(arena, i, ep), states, generations, stamps)
    ensures EffectiveAll(Alloc(arena, i, ep), states, generations)[i] == Idle <==>
            states[i] == Idle || (arena.frees[i] - stamps[i]) % GENERATIONS != 0
    ensures arena.frees[i] - stamps[i] < GENERATIONS ==>
            EffectiveAll(Alloc(arena, i, ep), states, generations)
              == EffectiveAll(arena, states, generations)[i := Idle]
  {
    assert StampOk(arena, states, generations, stamps, i);
    var after := Alloc(arena, i, ep);
    forall j | 0 <= j < |stamps|
      ensures StampOk(after, states, generations, stamps, j)
    {
      assert StampOk(arena, states, generations, stamps, j);
    }
  }

  /** Destroying a drained endpoint leaves every other endpoint's state as it was; destroying one that
      still carries a capability would leave that capability in a stale queue slot. */
  lemma DestroyedElsewhere(arena: EndpointPool, states: seq<EndpointState>, generations: seq<nat>, stamps: seq<nat>,
                           i: nat)
    requires Stamped(arena, states, generations, stamps) && i in arena.live
    ensures PoolOk(Release(arena, {i}))
    ensures Stamped(Release(arena, {i}), states, generations, stamps) <==>
            !CarriesCap(EffectiveAll(arena, states, generations)[i])
    ensures EffectiveAll(Release(arena, {i}), states, generations)
         == EffectiveAll(arena, states, generations) - {i}
  {
    var after := Release(arena, {i});
    assert StampOk(arena, states, generations, stamps, i);
    if CarriesCap(EffectiveAll(arena, states, generations)[i]) {
      assert !StampOk(after, states, generations, stamps, i);
    } else {
      forall j | 0 <= j < |stamps|
        ensures StampOk(after, states, generations, stamps, j)
      {
        assert StampOk(arena, states, generations, stamps, j);
      }
    }
    assert forall j :: j in after.live ==> IdOf(after, j) == IdOf(arena, j);
  }

  lemma LifeKeepsStamped(p: EndpointPool, q: EndpointPool)
    requires AllocOrFree(p, q) && Stamped(p, [RecvWaiting], [0], [0])
    ensures Stamped(q, [RecvWaiting], [0], [0])
  {
    if i: nat, v :| i < |p.frees| && i !in p.live && q == Alloc(p, i, v) {
      CreatedIdleIff(p, [RecvWaiting], [0], [0], i, v);
    } else {
      var i :| i in p.live && q == Release(p, {i});
      DestroyedElsewhere(p, [RecvWaiting], [0], [0], i);
    }
  }

  /** Creating and destroying endpoints keeps the queue invariant of a slot that carries no capability. */
  lemma {:induction false} StampedThroughout(run: seq<EndpointPool>)
    requires Lifetime(run) && Stamped(run[0], [RecvWaiting], [0], [0])
    ensures forall k :: 0 <= k < |run| ==> Stamped(run[k], [RecvWaiting], [0], [0])
  {
    if |run| > 1 {
      var front := run[..|run| - 1];
      forall k | 0 <= k < |front| - 1
        ensures AllocOrFree(front[k], front[k + 1])
      {
        assert AllocOrFree(run[k], run[k + 1]);
      }
      StampedThroughout(front);
      var p, q := run[|run| - 2], run[|run| - 1];
      assert p == front[|front| - 1] && AllocOrFree(p, q);
      LifeKeepsStamped(p, q);
    }
  }

  /** An inherited receiver is reachable: while a receiver is registered on an endpoint, destroy it and create
      another in its slot, 2^32 times over and with no IPC in between.  The queue invariant holds
      throughout, and the last endpoint starts out with a registered receiver that does not exist. */
  lemma InheritedAfterWrap(first: EndpointObject, last: EndpointObject) returns (run: seq<EndpointPool>)
    ensures Lifetime(run)
    ensures run[0] == OneSlot(0, first) && run[|run| - 1] == OneSlot(GENERATIONS, last)
    ensures forall k :: 0 <= k < |run| ==> Stamped(run[k], [RecvWaiting], [0], [0])
    ensures EffectiveAll(run[0], [RecvWaiting], [0])[0] == RecvWaiting
    ensures EffectiveAll(run[|run| - 1], [RecvWaiting], [0])[0] == RecvWaiting
  {
    run := CycleRun(GENERATIONS, first, last);
    StampedThroughout(run);
  }

  // ----- Authority on an endpoint ----------------------------------------------------------------------

  /** `h` denotes a capability on `ep` that has `right`. */
  ghost predicate Authorizes(f: Forest, h: SlotId, right: Right, ep: SlotId) {
    && Resolves(f, h)
    && right in f.live[h.index].cap.rights
    && f.live[h.index].cap.obj == Endpoint(ep)
  }

  /** A capability offered along with a message can be looked up and may be transferred. */
  ghost predicate Offerable(f: Forest, transfer: Option<SlotId>) {
    transfer.Some? ==> Resolves(f, transfer.value) && TRANSFER in f.live[transfer.value.index].cap.rights
  }

  ghost predicate OffersLeaf(f: Forest, transfer: Option<SlotId>) {
    transfer.Some? ==> !HasChild(f, transfer.value.index)
  }

  // ----- Send ----------------------------------------------------------------------------------------

  ghost function ValidateEp(f: Forest, h: SlotId, required: Right): Result<SlotId, IpcError> {
    if !Resolves(f, h) || required !in f.live[h.index].cap.rights then Err(InvalidCapability)
    else match f.live[h.index].cap.obj
      case Endpoint(ep) => Ok(ep)
      case _ => Err(InvalidCapability)
  }

  /** The checks of a send that touch no queue: the endpoint, or why it is refused. */
  ghost function SendTarget(arena: EndpointPool, f: Forest, epCap: SlotId, transfer: Option<SlotId>)
    : Result<SlotId, IpcError>
  {
    var ep := ValidateEp(f, epCap, SEND);
    if ep.Err? then ep
    else if transfer.Some? && !(Resolves(f, transfer.value) && TRANSFER in f.live[transfer.value.index].cap.rights)
    then Err(InvalidTransferCap)
    else if !Resolves(arena, ep.value) then Err(InvalidCapability)
    else ep
  }

  ghost function SendCheck(arena: EndpointPool, eps: Endpoints, f: Forest, epCap: SlotId, transfer: Option<SlotId>)
    : Result<SlotId, IpcError>
    requires eps.Keys == arena.live.Keys
  {
    var ep := SendTarget(arena, f, epCap, transfer);
    if ep.Err? then ep
    else if Occupied(eps[ep.value.index]) then Err(QueueFull)
    else if transfer.Some? && HasChild(f, transfer.value.index) then Err(InvalidTransferCap)
    else ep
  }

  ghost function Conveyed(f: Forest, transfer: Option<SlotId>): Option<Capability>
    requires transfer.Some? ==> transfer.value.index in f.live
  {
    if transfer.Some? then Some(f.live[transfer.value.index].cap) else None
  }

  ghost function AfterTransfer(f: Forest, transfer: Option<SlotId>): Forest {
    if transfer.Some? then Release(f, {transfer.value.index}) else f
  }

  function Deposited(s: EndpointState, msg: Message, cap: Option<Capability>): EndpointState {
    if s.RecvWaiting? then RecvComplete(msg, cap) else SendPending(msg, cap)
  }

  /** The answer of a send. */
  ghost function SendAnswer(arena: EndpointPool, eps: Endpoints, f: Forest, epCap: SlotId, transfer: Option<SlotId>)
    : Result<SendOutcome, IpcError>
    requires eps.Keys == arena.live.Keys
  {
    match SendCheck(arena, eps, f, epCap, transfer)
    case Err(e) => Err(e)
    case Ok(ep) => Ok(if eps[ep.index].RecvWaiting? then Delivered else Enqueued)
  }

  ghost predicate SendRel(arena: EndpointPool, eps: Endpoints, f: Forest, epCap: SlotId, msg: Message,
                          transfer: Option<SlotId>, r: Result<SendOutcome, IpcError>, eps': Endpoints, f': Forest)
    requires eps.Keys == arena.live.Keys
  {
    && r == SendAnswer(arena, eps, f, epCap, transfer)
    && match SendCheck(arena, eps, f, epCap, transfer)
      case Err(e) => eps' == eps && f' == f
      case Ok(ep) =>
        && eps' == eps[ep.index := Deposited(eps[ep.index], msg, Conveyed(f, transfer))]
        && f' == AfterTransfer(f, transfer)
  }

  // ----- Receive -------------------------------------------------------------------------------------

  ghost function RecvTarget(arena: EndpointPool, f: Forest, epCap: SlotId): Result<SlotId, IpcError> {
    var ep := ValidateEp(f, epCap, RECV);
    if ep.Ok? && !Resolves(arena, ep.value) then Err(InvalidCapability) else ep
  }

  /** A held message is handed over, and its capability installed as a root without children. */
  ghost predicate Collected(f: Forest, msg: Message, cap: Option<Capability>,
                            r: Result<RecvOutcome, IpcError>, f': Forest)
  {
    && r.Ok? && r.value.Received? && r.value.msg == msg
    && (r.value.cap.Some? <==> cap.Some?)
    && (if cap.None? then f' == f else Installed(f, Node(cap.value, None, 0), Ok(r.value.cap.value), f'))
  }

  ghost predicate CollectRel(eps: Endpoints, f: Forest, i: nat, msg: Message, cap: Option<Capability>,
                             r: Result<RecvOutcome, IpcError>, eps': Endpoints, f': Forest)
  {
    if cap.Some? && Full(f) then r == Err(ReceiverTableFull) && eps' == eps && f' == f
    else Collected(f, msg, cap, r, f') && eps' == eps[i := Idle]
  }

  ghost predicate RecvRel(arena: EndpointPool, eps: Endpoints, f: Forest, epCap: SlotId,
                          r: Result<RecvOutcome, IpcError>, eps': Endpoints, f': Forest)
    requires eps.Keys == arena.live.Keys
  {
    match RecvTarget(arena, f, epCap)
    case Err(e) => r == Err(e) && eps' == eps && f' == f
    case Ok(ep) =>
      match eps[ep.index]
      case Idle => r == Ok(Pending) && eps' == eps[ep.index := RecvWaiting] && f' == f
      case RecvWaiting => r == Err(QueueFull) && eps' == eps && f' == f
      case SendPending(msg, cap) => CollectRel(eps, f, ep.index, msg, cap, r, eps', f')
      case RecvComplete(msg, cap) => CollectRel(eps, f, ep.index, msg, cap, r, eps', f')
  }

  // ----- What the operations answer and do -------------------------------------------------------------

  /** When a send succeeds, and which refusal it gets otherwise. */
  lemma SendLaw(arena: EndpointPool, eps: Endpoints, f: Forest, epCap: SlotId, msg: Message,
                transfer: Option<SlotId>, r: Result<SendOutcome, IpcError>, eps': Endpoints, f': Forest)
    requires eps.Keys == arena.live.Keys && SendRel(arena, eps, f, epCap, msg, transfer, r, eps', f')
    ensures r.Ok? <==>
            && Offerable(f, transfer) && OffersLeaf(f, transfer)
            && exists ep :: Authorizes(f, epCap, SEND, ep) && Resolves(arena, ep)
                            && (eps[ep.index] == Idle || eps[ep.index] == RecvWaiting)
    ensures r == Err(InvalidCapability) <==>
            forall ep :: Authorizes(f, epCap, SEND, ep) ==> Offerable(f, transfer) && !Resolves(arena, ep)
    ensures r == Err(QueueFull) <==>
            && Offerable(f, transfer)
            && exists ep :: Authorizes(f, epCap, SEND, ep) && Resolves(arena, ep)
                            && eps[ep.index] != Idle && eps[ep.index] != RecvWaiting
    ensures r == Err(InvalidTransferCap) <==>
            exists ep :: Authorizes(f, epCap, SEND, ep) &&
                         if !Offerable(f, transfer) then true
                         else Resolves(arena, ep) && (eps[ep.index] == Idle || eps[ep.index] == RecvWaiting)
                              && !OffersLeaf(f, transfer)
    ensures r.Err? ==> eps' == eps && f' == f
  {
    if Resolves(f, epCap) && SEND in f.live[epCap.index].cap.rights && f.live[epCap.index].cap.obj.Endpoint? {
      assert Authorizes(f, epCap, SEND, f.live[epCap.index].cap.obj.endpoint);
    }
  }

  /** What a successful send does: it hands the message over to a registered receiver, or parks it; the
      capability, if one is offered, leaves the sender's table; nothing else changes. */
  lemma SendEffect(arena: EndpointPool, eps: Endpoints, f: Forest, epCap: SlotId, msg: Message,
                   transfer: Option<SlotId>, r: Result<SendOutcome, IpcError>, eps': Endpoints, f': Forest, ep: SlotId)
    requires eps.Keys == arena.live.Keys && SendRel(arena, eps, f, epCap, msg, transfer, r, eps', f')
    requires r.Ok? && Authorizes(f, epCap, SEND, ep)
    ensures ep.index in eps && ep.index in eps' && eps' - {ep.index} == eps - {ep.index}
    ensures r == Ok(Delivered) <==> eps[ep.index] == RecvWaiting
    ensures r == Ok(Enqueued) <==> eps[ep.index] == Idle
    ensures r == Ok(Delivered) <==> eps'[ep.index].RecvComplete?
    ensures r == Ok(Enqueued) <==> eps'[ep.index].SendPending?
    ensures eps'[ep.index].msg == msg
    ensures transfer.None? ==> eps'[ep.index].cap == None && f' == f
    ensures transfer.Some? ==>
              && Resolves(f, transfer.value) && eps'[ep.index].cap == Some(f.live[transfer.value.index].cap)
              && !Resolves(f', transfer.value) && SameBut(f, f', transfer.value)
  {
  }

  /** Each answer of a receive with authority, and the endpoint state that calls for it. */
  ghost predicate RecvAnswers(eps: Endpoints, f: Forest, i: nat, r: Result<RecvOutcome, IpcError>)
    requires i in eps
  {
    var e := eps[i];
    var holds, room := e.SendPending? || e.RecvComplete?, !Full(f);
    && (r == Ok(Pending) <==> e == Idle)
    && (r == Err(QueueFull) <==> e == RecvWaiting)
    && (r == Err(ReceiverTableFull) <==> holds && e.cap.Some? && !room)
    && (r.Ok? && r.value.Received? <==> holds && (e.cap.Some? ==> room))
  }

  /** A receive takes what the endpoint holds, or registers a receiver; nothing else changes. */
  ghost predicate RecvDoes(eps: Endpoints, f: Forest, i: nat, r: Result<RecvOutcome, IpcError>,
                           eps': Endpoints, f': Forest)
    requires i in eps
  {
    && i in eps' && eps' - {i} == eps - {i}
    && (r == Ok(Pending) ==> eps'[i] == RecvWaiting && f' == f)
    && (r.Ok? && r.value.Received? ==>
          && (eps[i].SendPending? || eps[i].RecvComplete?) && r.value.msg == eps[i].msg && eps'[i] == Idle
          && (eps[i].cap.None? ==> r.value.cap.None? && f' == f)
          && (eps[i].cap.Some? ==> r.value.cap.Some? && NewLeaf(f, f', r.value.cap.value, eps[i].cap.value)))
  }

  /** What a receive answers and does, by the state of its endpoint. */
  lemma RecvLaw(arena: EndpointPool, eps: Endpoints, f: Forest, epCap: SlotId,
                r: Result<RecvOutcome, IpcError>, eps': Endpoints, f': Forest)
    requires eps.Keys == arena.live.Keys && ForestOk(f) && RecvRel(arena, eps, f, epCap, r, eps', f')
    ensures r == Err(InvalidCapability) <==> forall ep :: Authorizes(f, epCap, RECV, ep) ==> !Resolves(arena, ep)
    ensures r.Err? ==> eps' == eps && f' == f
    ensures forall ep :: Authorizes(f, epCap, RECV, ep) && Resolves(arena, ep) ==>
              RecvAnswers(eps, f, ep.index, r) && RecvDoes(eps, f, ep.index, r, eps', f')
  {
    if Resolves(f, epCap) && RECV in f.live[epCap.index].cap.rights && f.live[epCap.index].cap.obj.Endpoint? {
      var ep := f.live[epCap.index].cap.obj.endpoint;
      assert Authorizes(f, epCap, RECV, ep);
      if r.Ok? && r.value.Received? && eps[ep.index].cap.Some? {
        InstalledIsLeaf(f, Node(eps[ep.index].cap.value, None, 0), Ok(r.value.cap.value), f');
      }
    }
  }

  /** How a send and the next receive on the endpoint fit together: the receiver gets the message and, as
      a new capability without children, the one sent along; unless there is one and its table is full. */
  lemma SendThenRecv(arena: EndpointPool, eps: Endpoints, f: Forest, epCap: SlotId, msg: Message,
                     transfer: Option<SlotId>, sent: Result<SendOutcome, IpcError>, mid: Endpoints, f': Forest,
                     ep: SlotId, g: Forest, recvCap: SlotId, got: Result<RecvOutcome, IpcError>,
                     eps': Endpoints, g': Forest)
    requires eps.Keys == arena.live.Keys && ForestOk(g)
    requires SendRel(arena, eps, f, epCap, msg, transfer, sent, mid, f') && sent.Ok? && Authorizes(f, epCap, SEND, ep)
    requires mid.Keys == arena.live.Keys && RecvRel(arena, mid, g, recvCap, got, eps', g')
    requires Authorizes(g, recvCap, RECV, ep)
    ensures transfer.Some? ==> transfer.value.index in f.live
    ensures transfer.None? ==> got == Ok(Received(msg, None)) && g' == g && eps' == eps[ep.index := Idle]
    ensures transfer.Some? && !Full(g) ==>
              && got.Ok? && got.value.Received? && got.value.msg == msg && got.value.cap.Some?
              && NewLeaf(g, g', got.value.cap.value, f.live[transfer.value.index].cap)
              && eps' == eps[ep.index := Idle]
    ensures transfer.Some? && Full(g) ==> got == Err(ReceiverTableFull) && g' == g && eps' == mid
  {
    SendEffect(arena, eps, f, epCap, msg, transfer, sent, mid, f', ep);
    RecvLaw(arena, mid, g, recvCap, got, eps', g');
    assert RecvAnswers(mid, g, ep.index, got) && RecvDoes(mid, g, ep.index, got, eps', g');
  }

  // ----- Consequences --------------------------------------------------------------------------------

  /** Both operations keep the caller's forest and the set of endpoints. */
  lemma SendKeepsOk(arena: EndpointPool, eps: Endpoints, f: Forest, epCap: SlotId, msg: Message,
                    transfer: Option<SlotId>, r: Result<SendOutcome, IpcError>, eps': Endpoints, f': Forest)
    requires eps.Keys == arena.live.Keys && ForestOk(f)
    requires SendRel(arena, eps, f, epCap, msg, transfer, r, eps', f')
    ensures ForestOk(f') && eps'.Keys == arena.live.Keys && |f'.frees| == |f.frees|
  {
    if r.Ok? && transfer.Some? {
      LeafKeepsOk(f, transfer.value.index);
    }
  }

  lemma RecvKeepsOk(arena: EndpointPool, eps: Endpoints, f: Forest, epCap: SlotId,
                    r: Result<RecvOutcome, IpcError>, eps': Endpoints, f': Forest)
    requires eps.Keys == arena.live.Keys && ForestOk(f)
    requires RecvRel(arena, eps, f, epCap, r, eps', f')
    ensures ForestOk(f') && eps'.Keys == arena.live.Keys && |f'.frees| == |f.frees|
  {
  }

  /** A received capability has the rights and object it was sent with, and arrives as a root without
      children, under a handle that did not resolve before. */
  lemma ReceivedIsLeafRoot(arena: EndpointPool, eps: Endpoints, f: Forest, epCap: SlotId,
                           r: Result<RecvOutcome, IpcError>, eps': Endpoints, f': Forest)
    requires eps.Keys == arena.live.Keys && ForestOk(f)
    requires RecvRel(arena, eps, f, epCap, r, eps', f') && r.Ok? && r.value.Received? && r.value.cap.Some?
    ensures var ep, h := RecvTarget(arena, f, epCap).value, r.value.cap.value;
            && eps[ep.index].cap.Some?
            && !Resolves(f, h) && Resolves(f', h)
            && f'.live[h.index] == Node(eps[ep.index].cap.value, None, 0)
            && !HasChild(f', h.index)
  {
  }
}
