/** Nothing is lost or duplicated in transfer: the multiplicity of every capability over all
    tables and endpoints, and messages as a history of each endpoint. */
module Conservation {
  import opened Wrappers
  import opened Rights
  import opened SlotPool
  import opened CapForest
  import opened Rendezvous
  import opened Authority

  // ----- Counting copies -----------------------------------------------------------------------------

  ghost function Total(counts: seq<nat>): nat {
    if counts == [] then 0 else Total(counts[..|counts| - 1]) + counts[|counts| - 1]
  }

  /** Replacing one count changes the total by the difference. */
  lemma {:induction false} TotalUpdate(counts: seq<nat>, k: nat, v: nat)
    requires k < |counts|
    ensures Total(counts[k := v]) + counts[k] == Total(counts) + v
  {
    var n := |counts| - 1;
    var updated := counts[k := v];
    if k == n {
      assert updated[..n] == counts[..n];
    } else {
      assert updated[..n] == counts[..n][k := v];
      TotalUpdate(counts[..n], k, v);
    }
  }

  ghost function SlotCount(f: Forest, i: nat, c: Capability): nat {
    if i in f.live && f.live[i].cap == c then 1 else 0
  }

  ghost function SlotCounts(f: Forest, c: Capability): seq<nat> {
    seq(|f.frees|, i requires 0 <= i => SlotCount(f, i, c))
  }

  /** How many copies of `c` a table holds. */
  ghost function InTableCount(f: Forest, c: Capability): nat {
    Total(SlotCounts(f, c))
  }

  ghost function HeldCount(eps: Endpoints, i: nat, c: Capability): nat {
    if i in eps && CarriesCap(eps[i]) && eps[i].cap.value == c then 1 else 0
  }

  ghost function HeldCounts(eps: Endpoints, n: nat, c: Capability): seq<nat> {
    seq(n, i requires 0 <= i => HeldCount(eps, i, c))
  }

  /** How many copies of `c` the first `n` endpoint slots hold. */
  ghost function InFlightCount(eps: Endpoints, n: nat, c: Capability): nat {
    Total(HeldCounts(eps, n, c))
  }

  ghost function TableCounts(s: System, c: Capability): seq<nat> {
    seq(|s.tables|, t requires 0 <= t < |s.tables| => InTableCount(s.tables[t], c))
  }

  /** The multiplicity of `c` in the multiset of all capabilities, in tables and in endpoints. */
  ghost function Copies(s: System, c: Capability): nat {
    Total(TableCounts(s, c)) + InFlightCount(s.eps, |s.arena.frees|, c)
  }

  lemma InstallAdds(f: Forest, n: Node, r: Result<SlotId, CapError>, f': Forest, c: Capability)
    requires Installed(f, n, r, f')
    ensures InTableCount(f', c) == InTableCount(f, c) + if n.cap == c then 1 else 0
  {
    var i := r.value.index;
    TotalUpdate(SlotCounts(f, c), i, SlotCount(f', i, c));
    assert SlotCounts(f', c) == SlotCounts(f, c)[i := SlotCount(f', i, c)];
  }

  lemma ReleaseRemoves(f: Forest, i: nat, c: Capability)
    requires PoolOk(f) && i in f.live
    ensures InTableCount(Release(f, {i}), c) + (if f.live[i].cap == c then 1 else 0) == InTableCount(f, c)
  {
    TotalUpdate(SlotCounts(f, c), i, 0);
    assert SlotCounts(Release(f, {i}), c) == SlotCounts(f, c)[i := 0];
  }

  lemma EndpointChanges(eps: Endpoints, n: nat, i: nat, e: EndpointState, c: Capability)
    requires i < n && i in eps
    ensures InFlightCount(eps[i := e], n, c) + HeldCount(eps, i, c)
         == InFlightCount(eps, n, c) + HeldCount(eps[i := e], i, c)
  {
    TotalUpdate(HeldCounts(eps, n, c), i, HeldCount(eps[i := e], i, c));
    assert HeldCounts(eps[i := e], n, c) == HeldCounts(eps, n, c)[i := HeldCount(eps[i := e], i, c)];
  }

  lemma TableChanges(s: System, t: nat, s': System, c: Capability)
    requires OnlyTable(s, t, s')
    ensures Total(TableCounts(s', c)) + InTableCount(s.tables[t], c)
         == Total(TableCounts(s, c)) + InTableCount(s'.tables[t], c)
  {
    TotalUpdate(TableCounts(s, c), t, InTableCount(s'.tables[t], c));
    assert TableCounts(s', c) == TableCounts(s, c)[t := InTableCount(s'.tables[t], c)];
  }

  /** A send moves at most the transferred capability, from the caller's table to the endpoint. */
  lemma SendMoves(arena: EndpointPool, eps: Endpoints, f: Forest, epCap: SlotId, msg: Message, transfer: Option<SlotId>,
                  r: Result<SendOutcome, IpcError>, eps': Endpoints, f': Forest, c: Capability)
    requires PoolOk(arena) && PoolOk(f) && eps.Keys == arena.live.Keys
    requires SendRel(arena, eps, f, epCap, msg, transfer, r, eps', f')
    ensures InTableCount(f', c) + InFlightCount(eps', |arena.frees|, c)
         == InTableCount(f, c) + InFlightCount(eps, |arena.frees|, c)
  {
    if r.Ok? {
      var i := SendCheck(arena, eps, f, epCap, transfer).value.index;
      EndpointChanges(eps, |arena.frees|, i, eps'[i], c);
      if transfer.Some? {
        ReleaseRemoves(f, transfer.value.index, c);
      }
    }
  }

  /** A receive moves at most the held capability, from the endpoint to the caller's table. */
  lemma RecvMoves(arena: EndpointPool, eps: Endpoints, f: Forest, epCap: SlotId,
                  r: Result<RecvOutcome, IpcError>, eps': Endpoints, f': Forest, c: Capability)
    requires PoolOk(arena) && eps.Keys == arena.live.Keys
    requires RecvRel(arena, eps, f, epCap, r, eps', f')
    ensures InTableCount(f', c) + InFlightCount(eps', |arena.frees|, c)
         == InTableCount(f, c) + InFlightCount(eps, |arena.frees|, c)
  {
    if r.Ok? {
      var i := RecvTarget(arena, f, epCap).value.index;
      EndpointChanges(eps, |arena.frees|, i, eps'[i], c);
      if r.value.Received? && r.value.cap.Some? {
        InstallAdds(f, Node(eps[i].cap.value, None, 0), Ok(r.value.cap.value), f', c);
      }
    }
  }

  predicate MovesOnly(a: Action) {
    a.Send? || a.Recv? || a.Create? || a.Destroy? || a.Skip?
  }

  /** No outcome of a send or a receive, and no creation or destruction of an endpoint, creates, loses
      or alters a capability: every multiplicity stays the same. */
  lemma TransferConserves(s: System, a: Action, s': System, c: Capability)
    requires SystemOk(s) && Step(s, a, s') && MovesOnly(a)
    ensures Copies(s', c) == Copies(s, c)
  {
    match a
    case Send(t, epCap, msg, transfer, r) =>
      SendMoves(s.arena, s.eps, s.tables[t], epCap, msg, transfer, r, s'.eps, s'.tables[t], c);
      TableChanges(s, t, s', c);
    case Recv(t, epCap, r) =>
      RecvMoves(s.arena, s.eps, s.tables[t], epCap, r, s'.eps, s'.tables[t], c);
      TableChanges(s, t, s', c);
    case Create(i, ep) =>
      assert HeldCounts(s'.eps, |s.arena.frees|, c) == HeldCounts(s.eps, |s.arena.frees|, c);
    case Destroy(i) =>
      assert HeldCounts(s'.eps, |s.arena.frees|, c) == HeldCounts(s.eps, |s.arena.frees|, c);
    case Skip =>
  }

  /** Destroying an endpoint that still carries a capability, which the guard of `Destroy` excludes,
      would lose exactly that capability: the drain-before-destroy rule is necessary. */
  lemma UndrainedDestroyLoses(s: System, i: nat, c: Capability)
    requires SystemOk(s) && i in s.arena.live
    ensures var s' := s.(arena := Release(s.arena, {i}), eps := s.eps - {i});
            Copies(s', c) + HeldCount(s.eps, i, c) == Copies(s, c)
  {
    var n := |s.arena.frees|;
    TotalUpdate(HeldCounts(s.eps, n, c), i, 0);
    assert HeldCounts(s.eps - {i}, n, c) == HeldCounts(s.eps, n, c)[i := 0];
  }

  /** Copies of `c` per stored queue slot, stale or not. */
  ghost function RawCounts(states: seq<EndpointState>, c: Capability): seq<nat> {
    seq(|states|, i requires 0 <= i < |states| => if CarriesCap(states[i]) && states[i].cap.value == c then 1 else 0)
  }

  /** A drained set of queues: the queue slots together hold exactly what the live endpoints hold, so
      that the lazy reset of stale slots never drops a capability. */
  lemma QueuesHoldNoMore(arena: EndpointPool, states: seq<EndpointState>, generations: seq<nat>, stamps: seq<nat>,
                         c: Capability)
    requires Stamped(arena, states, generations, stamps)
    ensures Total(RawCounts(states, c))
         == InFlightCount(EffectiveAll(arena, states, generations), |arena.frees|, c)
  {
    var raw := RawCounts(states, c);
    var held := HeldCounts(EffectiveAll(arena, states, generations), |arena.frees|, c);
    forall i | 0 <= i < |states|
      ensures raw[i] == held[i]
    {
      assert StampOk(arena, states, generations, stamps, i);
    }
    assert raw == held;
  }

  /** Over a whole run of transfers every multiplicity stays the same. */
  lemma {:induction false} RunConserves(states: seq<System>, actions: seq<Action>, c: Capability)
    requires Run(states, actions) && forall k :: 0 <= k < |actions| ==> MovesOnly(actions[k])
    ensures Copies(states[|actions|], c) == Copies(states[0], c)
  {
    if actions != [] {
      var n := |actions| - 1;
      FrontIsRun(states, actions);
      RunKeepsOk(states[..|actions|], actions[..n]);
      RunConserves(states[..|actions|], actions[..n], c);
      TransferConserves(states[n], actions[n], states[n + 1], c);
    }
  }

  // ----- Messages ------------------------------------------------------------------------------------

  /** A message with the capability it carries. */
  datatype Parcel = Parcel(msg: Message, cap: Option<Capability>)

  ghost function HeldParcels(s: System, ep: SlotId): seq<Parcel> {
    if Resolves(s.arena, ep) && ep.index in s.eps && Occupied(s.eps[ep.index])
    then [Parcel(s.eps[ep.index].msg, s.eps[ep.index].cap)]
    else []
  }

  /** What a step successfully sends to `ep`. */
  ghost function SentIn(s: System, a: Action, ep: SlotId): seq<Parcel> {
    if a.Send? && a.sent.Ok? && a.task < |s.tables| && Authorizes(s.tables[a.task], a.epCap, SEND, ep)
       && (a.transfer.Some? ==> a.transfer.value.index in s.tables[a.task].live)
    then [Parcel(a.msg, Conveyed(s.tables[a.task], a.transfer))]
    else []
  }

  /** What a step receives from `ep`: the message, and the capability now in the receiver's table. */
  ghost function ReceivedIn(s: System, a: Action, s': System, ep: SlotId): seq<Parcel> {
    if a.Recv? && a.got.Ok? && a.got.value.Received? && a.task < |s.tables| && a.task < |s'.tables|
       && Authorizes(s.tables[a.task], a.epCap, RECV, ep)
       && (a.got.value.cap.Some? ==> a.got.value.cap.value.index in s'.tables[a.task].live)
    then [Parcel(a.got.value.msg, Conveyed(s'.tables[a.task], a.got.value.cap))]
    else []
  }

  /** One step, seen from one live endpoint. */
  lemma StepHistory(s: System, a: Action, s': System, ep: SlotId)
    requires SystemOk(s) && Step(s, a, s') && Resolves(s.arena, ep) && Resolves(s'.arena, ep)
    ensures HeldParcels(s, ep) + SentIn(s, a, ep) == ReceivedIn(s, a, s', ep) + HeldParcels(s', ep)
  {
    if a.Send? && a.sent.Ok? {
      var target := SendCheck(s.arena, s.eps, s.tables[a.task], a.epCap, a.transfer).value;
      assert target == ep <==> target.index == ep.index;
    } else if a.Recv? && a.got.Ok? {
      var target := RecvTarget(s.arena, s.tables[a.task], a.epCap).value;
      assert target == ep <==> target.index == ep.index;
    }
  }

  ghost function Sent(states: seq<System>, actions: seq<Action>, ep: SlotId): seq<Parcel>
    requires |states| == |actions| + 1
  {
    if actions == [] then []
    else
      var n := |actions| - 1;
      Sent(states[..|actions|], actions[..n], ep) + SentIn(states[n], actions[n], ep)
  }

  ghost function Got(states: seq<System>, actions: seq<Action>, ep: SlotId): seq<Parcel>
    requires |states| == |actions| + 1
  {
    if actions == [] then []
    else
      var n := |actions| - 1;
      Got(states[..|actions|], actions[..n], ep) + ReceivedIn(states[n], actions[n], states[n + 1], ep)
  }

  lemma Splice<T>(held: seq<T>, sent: seq<T>, got: seq<T>, mid: seq<T>, sends: seq<T>, gets: seq<T>, last: seq<T>)
    requires held + sent == got + mid && mid + sends == gets + last
    ensures held + (sent + sends) == (got + gets) + last
  {
    assert held + (sent + sends) == (held + sent) + sends;
    assert (got + mid) + sends == got + (mid + sends);
    assert (got + gets) + last == got + (gets + last);
  }

  /** As long as an endpoint lives, what it held and what was sent to it is, in order, what was received
      from it and what it still holds: each message once, with the capability it was sent with. */
  lemma {:induction false} MessageHistory(states: seq<System>, actions: seq<Action>, ep: SlotId)
    requires Run(states, actions)
    requires forall k :: 0 <= k < |states| ==> Resolves(states[k].arena, ep)
    ensures HeldParcels(states[0], ep) + Sent(states, actions, ep)
         == Got(states, actions, ep) + HeldParcels(states[|actions|], ep)
  {
    if actions != [] {
      var n := |actions| - 1;
      var front, done := states[..|actions|], actions[..n];
      FrontIsRun(states, actions);
      RunKeepsOk(front, done);
      MessageHistory(front, done, ep);
      StepHistory(states[n], actions[n], states[n + 1], ep);
      Splice(HeldParcels(states[0], ep), Sent(front, done, ep), Got(front, done, ep), HeldParcels(states[n], ep),
             SentIn(states[n], actions[n], ep), ReceivedIn(states[n], actions[n], states[n + 1], ep),
             HeldParcels(states[n + 1], ep));
    }
  }

  // ----- A message waits for its receiver --------------------------------------------------------------

  /** Nothing but a receive there removes or changes what a live endpoint holds. */
  lemma HeldStays(s: System, a: Action, s': System, ep: SlotId)
    requires SystemOk(s) && Step(s, a, s') && Resolves(s.arena, ep) && Resolves(s'.arena, ep)
    requires Occupied(s.eps[ep.index]) && ReceivedIn(s, a, s', ep) == []
    ensures ep.index in s'.eps && s'.eps[ep.index] == s.eps[ep.index]
  {
    if a.Send? && a.sent.Ok? {
      var target := SendCheck(s.arena, s.eps, s.tables[a.task], a.epCap, a.transfer).value;
      assert target.index != ep.index;
    } else if a.Recv? && a.got.Ok? {
      var target := RecvTarget(s.arena, s.tables[a.task], a.epCap).value;
      assert target == ep <==> target.index == ep.index;
    }
  }

  lemma {:induction false} HeldUntilTaken(states: seq<System>, actions: seq<Action>, ep: SlotId)
    requires Run(states, actions) && ep.index in states[0].eps && Occupied(states[0].eps[ep.index])
    requires forall k :: 0 <= k < |states| ==> Resolves(states[k].arena, ep)
    requires forall k :: 0 <= k < |actions| ==> ReceivedIn(states[k], actions[k], states[k + 1], ep) == []
    ensures ep.index in states[|actions|].eps && states[|actions|].eps[ep.index] == states[0].eps[ep.index]
  {
    if actions != [] {
      var n := |actions| - 1;
      FrontIsRun(states, actions);
      HeldUntilTaken(states[..|actions|], actions[..n], ep);
      PrefixIsRun(states, actions, n);
      HeldStays(states[n], actions[n], states[n + 1], ep);
    }
  }

  /** A message sent is what the endpoint holds until some receive takes it. */
  lemma SentIsParked(states: seq<System>, actions: seq<Action>, ep: SlotId)
    requires Run(states, actions) && actions != []
    requires forall k :: 0 <= k < |states| ==> Resolves(states[k].arena, ep)
    requires SentIn(states[0], actions[0], ep) != []
    requires forall k :: 0 < k < |actions| ==> ReceivedIn(states[k], actions[k], states[k + 1], ep) == []
    ensures HeldParcels(states[|actions|], ep) == SentIn(states[0], actions[0], ep)
  {
    assert StepAt(states, actions, 0);
    var a := actions[0];
    SendEffect(states[0].arena, states[0].eps, states[0].tables[a.task], a.epCap, a.msg, a.transfer, a.sent,
               states[1].eps, states[1].tables[a.task], ep);
    SuffixIsRun(states, actions, 1);
    var later, rest := states[1..], actions[1..];
    forall k | 0 <= k < |rest|
      ensures ReceivedIn(later[k], rest[k], later[k + 1], ep) == []
    {
      assert ReceivedIn(states[k + 1], actions[k + 1], states[k + 2], ep) == [];
    }
    HeldUntilTaken(later, rest, ep);
  }

  /** The receive with table `g` got `p`, or could not for want of a free slot. */
  ghost predicate Handed(p: Parcel, g: Forest, got: Result<RecvOutcome, IpcError>, g': Forest) {
    if p.cap.Some? && Full(g) then got == Err(ReceiverTableFull) && g' == g
    else
      && got.Ok? && got.value.Received? && got.value.msg == p.msg
      && (p.cap.None? ==> got.value.cap.None? && g' == g)
      && (p.cap.Some? ==> got.value.cap.Some? && NewLeaf(g, g', got.value.cap.value, p.cap.value))
  }

  /** What is sent is received: whatever other tasks do in between, the next receive on the endpoint gets
      exactly the message of the last send and, as a new capability, the one sent along; if there is
      one and the receiver's table is full, it says so. */
  lemma SentIsReceived(states: seq<System>, actions: seq<Action>, ep: SlotId)
    requires Run(states, actions) && |actions| >= 2
    requires forall k :: 0 <= k < |states| ==> Resolves(states[k].arena, ep)
    requires SentIn(states[0], actions[0], ep) != []
    requires forall k :: 0 < k < |actions| - 1 ==> ReceivedIn(states[k], actions[k], states[k + 1], ep) == []
    requires var n := |actions| - 1;
             && actions[n].Recv? && actions[n].task < |states[n].tables|
             && Authorizes(states[n].tables[actions[n].task], actions[n].epCap, RECV, ep)
    ensures var n, parcel := |actions| - 1, SentIn(states[0], actions[0], ep)[0];
            && |states[n + 1].tables| == |states[n].tables|
            && var g, g' := states[n].tables[actions[n].task], states[n + 1].tables[actions[n].task];
            Handed(parcel, g, actions[n].got, g')
  {
    var n := |actions| - 1;
    assert StepAt(states, actions, n);
    var front, done, b := states[..n + 1], actions[..n], actions[n];
    PrefixIsRun(states, actions, n);
    assert forall k :: 0 <= k < n ==> done[k] == actions[k] && front[k] == states[k];
    SentIsParked(front, done, ep);
    RecvLaw(states[n].arena, states[n].eps, states[n].tables[b.task], b.epCap, b.got,
            states[n + 1].eps, states[n + 1].tables[b.task]);
    assert RecvAnswers(states[n].eps, states[n].tables[b.task], ep.index, b.got);
  }
}
