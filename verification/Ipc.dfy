/** The IPC primitives (kernel/src/ipc/mod.rs) on their stored state. */
module Ipc {
  import opened Wrappers
  import opened Rights
  import opened SlotPool
  import opened ObjectArena
  import opened CapForest
  import opened CapTable
  import opened Rendezvous

  /** Waiter state of all endpoint slots.  A slot left by a destroyed endpoint is reset lazily. */
  class IpcQueues {
    const states: array<EndpointState>
    const slotGenerations: array<nat>
    ghost var stamps: seq<nat>

    /** The queues belong to `arena` and satisfy its stamp invariant. */
    ghost predicate Fits(arena: EndpointPool)
      reads this, states, slotGenerations
    {
      Stamped(arena, states[..], slotGenerations[..], stamps)
    }

    /** The state of each live endpoint. */
    ghost function View(arena: EndpointPool): (eps: Endpoints)
      requires Fits(arena)
      reads this, states, slotGenerations
      ensures eps.Keys == arena.live.Keys
    {
      EffectiveAll(arena, states[..], slotGenerations[..])
    }

    constructor (capacity: nat)
      ensures fresh(states) && fresh(slotGenerations)
      ensures states.Length == capacity
      ensures Fits(Pool(seq(capacity, i => 0), map[]))
    {
      states := new EndpointState[capacity](i => Idle);
      slotGenerations := new nat[capacity](i => 0);
      stamps := seq(capacity, i => 0);
    }

    /** Resets the queue slot if it was last written for another generation of the endpoint slot;
        no live endpoint can tell. */
    method ResetIfStaleGeneration(ep: SlotId, ghost arena: EndpointPool) returns (idx: nat)
      requires Fits(arena) && Resolves(arena, ep)
      modifies this, states, slotGenerations
      ensures idx == ep.index && Fits(arena)
      ensures slotGenerations[idx] == ep.generation
      ensures View(arena) == old(View(arena))
      ensures states[idx] == View(arena)[idx]
      ensures slotGenerations[..] == old(slotGenerations[..])[idx := ep.generation]
      ensures states[..] == old(states[..])[idx := old(Effective(states[..], slotGenerations[..], ep))]
    {
      idx := ep.index;
      ghost var before, gens, marks := states[..], slotGenerations[..], stamps;
      assert StampOk(arena, before, gens, marks, idx);
      if slotGenerations[idx] != ep.generation {
        assert !CarriesCap(states[idx]);
        states[idx] := Idle;
        slotGenerations[idx] := ep.generation;
        stamps := stamps[idx := arena.frees[idx]];
      }
      assert states[..] == before[idx := Effective(before, gens, ep)];
      assert slotGenerations[..] == gens[idx := ep.generation];
      forall j | 0 <= j < |stamps|
        ensures StampOk(arena, states[..], slotGenerations[..], stamps, j)
      {
        assert StampOk(arena, before, gens, marks, j);
      }
    }

    /** Stores a new state for a live endpoint whose queue slot is current. */
    method SetState(ep: SlotId, state: EndpointState, ghost arena: EndpointPool)
      requires Fits(arena) && Resolves(arena, ep) && slotGenerations[ep.index] == ep.generation
      modifies states
      ensures Fits(arena) && View(arena) == old(View(arena))[ep.index := state]
      ensures states[..] == old(states[..])[ep.index := state]
    {
      ghost var before := states[..];
      states[ep.index] := state;
      assert states[..] == before[ep.index := state];
      forall j | 0 <= j < |stamps|
        ensures StampOk(arena, states[..], slotGenerations[..], stamps, j)
      {
        assert StampOk(arena, before, slotGenerations[..], stamps, j);
      }
    }

    /** The state transition of a send that has passed its checks. */
    method Commit(ep: SlotId, msg: Message, cap: Option<Capability>, ghost arena: EndpointPool)
      returns (outcome: SendOutcome)
      requires Fits(arena) && Resolves(arena, ep)
      modifies this, states, slotGenerations
      ensures Fits(arena)
      ensures View(arena) == old(View(arena))[ep.index := Deposited(old(View(arena))[ep.index], msg, cap)]
      ensures outcome == if old(View(arena))[ep.index].RecvWaiting? then Delivered else Enqueued
    {
      var idx := ResetIfStaleGeneration(ep, arena);
      if states[idx].RecvWaiting? {
        SetState(ep, RecvComplete(msg, cap), arena);
        outcome := Delivered;
      } else {
        SetState(ep, SendPending(msg, cap), arena);
        outcome := Enqueued;
      }
    }

    /** The state transition of a receive: a held message leaves the endpoint idle, otherwise a
        receiver is registered. */
    method Withdraw(ep: SlotId, ghost arena: EndpointPool) returns (was: EndpointState)
      requires Fits(arena) && Resolves(arena, ep)
      modifies this, states, slotGenerations
      ensures Fits(arena)
      ensures was == old(View(arena))[ep.index]
      ensures View(arena) == old(View(arena))[ep.index := if Occupied(was) then Idle else RecvWaiting]
    {
      var idx := ResetIfStaleGeneration(ep, arena);
      was := states[idx];
      SetState(ep, if Occupied(was) then Idle else RecvWaiting, arena);
    }
  }

  // ----- Endpoints -----------------------------------------------------------------------------------

  datatype ObjError = ArenaFull | InvalidObject

  /** Creates an endpoint; it starts idle unless its slot has been freed 2^32 times since its queue
      slot was last used. */
  method CreateEndpoint(arena: Arena<EndpointObject>, ghost queues: IpcQueues, endpoint: EndpointObject)
    returns (r: Result<SlotId, ObjError>)
    requires arena.Valid() && queues.Fits(arena.View())
    modifies arena, arena.slots
    ensures arena.Valid() && queues.Fits(arena.View())
    ensures r == Err(ArenaFull) <==> Full(old(arena.View()))
    ensures r.Err? ==> r == Err(ArenaFull) && arena.View() == old(arena.View())
    ensures r.Ok? ==>
      && r.value.index < |old(arena.View()).frees| && r.value.index !in old(arena.View()).live
      && r.value == IdOf(arena.View(), r.value.index)
      && arena.View() == Alloc(old(arena.View()), r.value.index, endpoint)
      && (arena.View().frees[r.value.index] - queues.stamps[r.value.index] < GENERATIONS ==>
            queues.View(arena.View()) == old(queues.View(arena.View()))[r.value.index := Idle])
  {
    ghost var pool := arena.View();
    assert arena.slots as object != queues.states && arena.slots as object != queues.slotGenerations;
    var id := arena.Allocate(endpoint);
    if id.None? {
      return Err(ArenaFull);
    }
    CreatedIdleIff(pool, queues.states[..], queues.slotGenerations[..], queues.stamps, id.value.index, endpoint);
    r := Ok(id.value);
  }

  /** Destroys an endpoint.  The queues stay consistent exactly when it had been drained. */
  method DestroyEndpoint(arena: Arena<EndpointObject>, ghost queues: IpcQueues, ep: SlotId)
    returns (r: Result<EndpointObject, ObjError>)
    requires arena.Valid() && queues.Fits(arena.View())
    modifies arena, arena.slots
    ensures arena.Valid()
    ensures r == if Resolves(old(arena.View()), ep) then Ok(old(arena.View()).live[ep.index]) else Err(InvalidObject)
    ensures r.Err? ==> arena.View() == old(arena.View())
    ensures r.Ok? ==> arena.View() == Release(old(arena.View()), {ep.index})
    ensures r.Ok? ==> (queues.Fits(arena.View()) <==> !CarriesCap(old(queues.View(arena.View()))[ep.index]))
    ensures r.Ok? && queues.Fits(arena.View()) ==>
              queues.View(arena.View()) == old(queues.View(arena.View())) - {ep.index}
  {
    ghost var pool := arena.View();
    assert arena.slots as object != queues.states && arena.slots as object != queues.slotGenerations;
    var removed := arena.Free(ep);
    if removed.None? {
      return Err(InvalidObject);
    }
    DestroyedElsewhere(pool, queues.states[..], queues.slotGenerations[..], queues.stamps, ep.index);
    r := Ok(removed.value);
  }

  // ----- Operations ----------------------------------------------------------------------------------

  function ValidateEpCap(table: CapabilityTable, epCap: SlotId, required: Right): (r: Result<SlotId, IpcError>)
    requires table.Valid()
    reads table, table.slots
    ensures r == ValidateEp(table.View(), epCap, required)
    ensures forall ep :: r == Ok(ep) <==> Authorizes(table.View(), epCap, required, ep)
    ensures r.Err? ==> r.error == InvalidCapability
  {
    var cap := table.Lookup(epCap);
    if cap.Err? then Err(InvalidCapability)
    else if !Contains(cap.value.rights, {required}) then Err(InvalidCapability)
    else match cap.value.obj
      case Endpoint(ep) => Ok(ep)
      case _ => Err(InvalidCapability)
  }

  /** The checks of a send that touch no queue. */
  function CheckSend(arena: Arena<EndpointObject>, table: CapabilityTable, epCap: SlotId, transfer: Option<SlotId>)
    : (r: Result<SlotId, IpcError>)
    requires arena.Valid() && table.Valid()
    reads arena, arena.slots, table, table.slots
    ensures r == SendTarget(arena.View(), table.View(), epCap, transfer)
  {
    var ep := ValidateEpCap(table, epCap, SEND);
    if ep.Err? then ep
    else if transfer.Some? &&
            (table.Lookup(transfer.value).Err? || !Contains(table.Lookup(transfer.value).value.rights, {TRANSFER}))
    then Err(InvalidTransferCap)
    else if arena.Get(ep.value).None? then Err(InvalidCapability)
    else ep
  }

  /** The checks of a receive that touch no queue. */
  function CheckRecv(arena: Arena<EndpointObject>, table: CapabilityTable, epCap: SlotId): (r: Result<SlotId, IpcError>)
    requires arena.Valid() && table.Valid()
    reads arena, arena.slots, table, table.slots
    ensures r == RecvTarget(arena.View(), table.View(), epCap)
  {
    var ep := ValidateEpCap(table, epCap, RECV);
    if ep.Err? then ep
    else if arena.Get(ep.value).None? then Err(InvalidCapability)
    else ep
  }

  method TakeCapIfSome(table: CapabilityTable, transfer: Option<SlotId>)
    returns (r: Result<Option<Capability>, IpcError>)
    requires table.Valid()
    modifies table, table.slots
    ensures table.Valid()
    ensures r.Err? <==>
            && transfer.Some?
            && (!Resolves(old(table.View()), transfer.value) || HasChild(old(table.View()), transfer.value.index))
    ensures r.Err? ==> r.error == InvalidTransferCap && table.View() == old(table.View())
    ensures r.Err? ==> table.slots[..] == old(table.slots[..]) && table.freeHead == old(table.freeHead)
    ensures r.Ok? ==> r.value == Conveyed(old(table.View()), transfer)
    ensures r.Ok? ==> table.View() == AfterTransfer(old(table.View()), transfer)
  {
    if transfer.None? {
      return Ok(None);
    }
    var taken := table.CapTake(transfer.value);
    r := if taken.Err? then Err(InvalidTransferCap) else Ok(Some(taken.value));
  }

  method InstallCapIfSome(table: CapabilityTable, cap: Option<Capability>) returns (r: Result<Option<SlotId>, IpcError>)
    requires table.Valid()
    modifies table, table.slots
    ensures table.Valid()
    ensures r.Err? <==> cap.Some? && Full(old(table.View()))
    ensures r.Err? ==> r.error == ReceiverTableFull && table.View() == old(table.View())
    ensures r.Ok? ==> (r.value.Some? <==> cap.Some?)
    ensures r.Ok? && cap.None? ==> table.View() == old(table.View())
    ensures r.Ok? && cap.Some? ==>
              Installed(old(table.View()), Node(cap.value, None, 0), Ok(r.value.value), table.View())
  {
    if cap.None? {
      return Ok(None);
    }
    var installed := table.InsertRoot(cap.value);
    r := if installed.Err? then Err(ReceiverTableFull) else Ok(Some(installed.value));
  }

  /** Send.  A refused send leaves the table's slots and every live endpoint as they were; a stale
      endpoint capability does not even reach the queues. */
  method IpcSend(arena: Arena<EndpointObject>, queues: IpcQueues, epCap: SlotId, table: CapabilityTable,
                 msg: Message, transfer: Option<SlotId>) returns (r: Result<SendOutcome, IpcError>)
    requires arena.Valid() && table.Valid() && queues.Fits(arena.View())
    modifies queues, queues.states, queues.slotGenerations, table, table.slots
    ensures table.Valid() && queues.Fits(old(arena.View()))
    ensures SendRel(old(arena.View()), old(queues.View(arena.View())), old(table.View()), epCap, msg, transfer,
                    r, queues.View(old(arena.View())), table.View())
    ensures r.Err? ==> table.slots[..] == old(table.slots[..]) && table.freeHead == old(table.freeHead)
    ensures old(SendTarget(arena.View(), table.View(), epCap, transfer)).Err? ==>
              && queues.states[..] == old(queues.states[..])
              && queues.slotGenerations[..] == old(queues.slotGenerations[..])
  {
    ghost var pool := arena.View();
    assert queues.states as object != table.slots && queues.slotGenerations as object != table.slots;
    var target := CheckSend(arena, table, epCap, transfer);
    if target.Err? {
      return Err(target.error);
    }
    var ep := target.value;
    var idx := queues.ResetIfStaleGeneration(ep, pool);
    if Occupied(queues.states[idx]) {
      return Err(QueueFull);
    }
    var owned := TakeCapIfSome(table, transfer);
    if owned.Err? {
      return Err(owned.error);
    }
    var outcome := queues.Commit(ep, msg, owned.value, pool);
    r := Ok(outcome);
  }

  /** Receive.  The pre-flight check leaves `InstallCapIfSome` nothing to fail on. */
  method IpcRecv(arena: Arena<EndpointObject>, queues: IpcQueues, epCap: SlotId, table: CapabilityTable)
    returns (r: Result<RecvOutcome, IpcError>)
    requires arena.Valid() && table.Valid() && queues.Fits(arena.View())
    modifies queues, queues.states, queues.slotGenerations, table, table.slots
    ensures table.Valid() && queues.Fits(old(arena.View()))
    ensures RecvRel(old(arena.View()), old(queues.View(arena.View())), old(table.View()), epCap,
                    r, queues.View(old(arena.View())), table.View())
    ensures r.Err? ==> table.slots[..] == old(table.slots[..]) && table.freeHead == old(table.freeHead)
    ensures old(RecvTarget(arena.View(), table.View(), epCap)).Err? ==>
              && queues.states[..] == old(queues.states[..])
              && queues.slotGenerations[..] == old(queues.slotGenerations[..])
  {
    ghost var pool := arena.View();
    assert queues.states as object != table.slots && queues.slotGenerations as object != table.slots;
    var target := CheckRecv(arena, table, epCap);
    if target.Err? {
      return Err(target.error);
    }
    var ep := target.value;
    var idx := queues.ResetIfStaleGeneration(ep, pool);
    var pendingHasCap := Occupied(queues.states[idx]) && queues.states[idx].cap.Some?;
    if pendingHasCap && table.IsFull() {
      return Err(ReceiverTableFull);
    }
    var was := queues.Withdraw(ep, pool);
    if Occupied(was) {
      var installed := InstallCapIfSome(table, was.cap);
      assert installed.Ok?;
      r := Ok(Received(was.msg, installed.value));
    } else {
      r := if was.Idle? then Ok(Pending) else Err(QueueFull);
    }
  }
}
