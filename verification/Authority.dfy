/** Runs of the capability and IPC operations of many tasks, each with its own table, over one endpoint
    arena.  An endpoint is destroyed only when it holds no capability, and one created in a reused slot
    starts idle (see `Rendezvous.CreatedIdleIff` for exactly when it does). */
module Authority {
  import opened Wrappers
  import opened Rights
  import opened SlotPool
  import opened CapForest
  import opened Rendezvous

  datatype System = System(arena: EndpointPool, eps: Endpoints, tables: seq<Forest>)

  /** One operation of one task, with its result. */
  datatype Action =
    | Copy(task: nat, src: SlotId, rights: CapRights, made: Result<SlotId, CapError>)
    | Derive(task: nat, src: SlotId, rights: CapRights, obj: CapObject, made: Result<SlotId, CapError>)
    | Revoke(task: nat, src: SlotId, done: Result<(), CapError>)
    | Drop(task: nat, handle: SlotId, done: Result<(), CapError>)
    | Send(task: nat, epCap: SlotId, msg: Message, transfer: Option<SlotId>, sent: Result<SendOutcome, IpcError>)
    | Recv(task: nat, epCap: SlotId, got: Result<RecvOutcome, IpcError>)
    | Grant(task: nat, cap: Capability, made: Result<SlotId, CapError>)
    | Create(slot: nat, ep: EndpointObject)
    | Destroy(slot: nat)
    | Skip

  ghost predicate SystemOk(s: System) {
    && PoolOk(s.arena)
    && s.eps.Keys == s.arena.live.Keys
    && forall t :: 0 <= t < |s.tables| ==> ForestOk(s.tables[t])
  }

  /** Only the table of task `t`, and the endpoints, may differ. */
  ghost predicate OnlyTable(s: System, t: nat, s': System) {
    && t < |s.tables| == |s'.tables|
    && s'.arena == s.arena
    && s'.tables == s.tables[t := s'.tables[t]]
  }

  ghost predicate Step(s: System, a: Action, s': System)
    requires s.eps.Keys == s.arena.live.Keys
  {
    match a
    case Copy(t, src, rights, r) =>
      OnlyTable(s, t, s') && s'.eps == s.eps && CopyRel(s.tables[t], src, rights, r, s'.tables[t])
    case Derive(t, src, rights, obj, r) =>
      OnlyTable(s, t, s') && s'.eps == s.eps && DeriveRel(s.tables[t], src, rights, obj, r, s'.tables[t])
    case Revoke(t, src, r) =>
      OnlyTable(s, t, s') && s'.eps == s.eps && RevokeRel(s.tables[t], src, r, s'.tables[t])
    case Drop(t, h, r) =>
      OnlyTable(s, t, s') && s'.eps == s.eps && DropRel(s.tables[t], h, r, s'.tables[t])
    case Send(t, epCap, msg, transfer, r) =>
      OnlyTable(s, t, s') && SendRel(s.arena, s.eps, s.tables[t], epCap, msg, transfer, r, s'.eps, s'.tables[t])
    case Recv(t, epCap, r) =>
      OnlyTable(s, t, s') && RecvRel(s.arena, s.eps, s.tables[t], epCap, r, s'.eps, s'.tables[t])
    case Grant(t, cap, r) =>
      OnlyTable(s, t, s') && s'.eps == s.eps && InsertRootRel(s.tables[t], cap, r, s'.tables[t])
    case Create(i, ep) =>
      && i < |s.arena.frees| && i !in s.arena.live
      && s' == s.(arena := Alloc(s.arena, i, ep), eps := s.eps[i := Idle])
    case Destroy(i) =>
      && i in s.arena.live && !CarriesCap(s.eps[i])
      && s' == s.(arena := Release(s.arena, {i}), eps := s.eps - {i})
    case Skip => s' == s
  }

  lemma TableStepKeepsOk(s: System, a: Action, s': System)
    requires SystemOk(s) && Step(s, a, s') && !a.Create? && !a.Destroy? && !a.Skip?
    ensures ForestOk(s'.tables[a.task]) && s'.eps.Keys == s.eps.Keys
  {
    var f, f' := s.tables[a.task], s'.tables[a.task];
    match a
    case Copy(t, src, rights, r) => CopyKeepsOk(f, src, rights, r, f');
    case Derive(t, src, rights, obj, r) => DeriveKeepsOk(f, src, rights, obj, r, f');
    case Revoke(t, src, r) => RevokeKeepsOk(f, src, r, f');
    case Drop(t, h, r) => if r.Ok? { LeafKeepsOk(f, h.index); }
    case Send(t, epCap, msg, transfer, r) => SendKeepsOk(s.arena, s.eps, f, epCap, msg, transfer, r, s'.eps, f');
    case Recv(t, epCap, r) => RecvKeepsOk(s.arena, s.eps, f, epCap, r, s'.eps, f');
    case Grant(t, cap, r) => InsertRootKeepsOk(f, cap, r, f');
  }

  /** Every operation keeps every table's derivation invariant. */
  lemma StepKeepsOk(s: System, a: Action, s': System)
    requires SystemOk(s) && Step(s, a, s')
    ensures SystemOk(s')
  {
    if !a.Create? && !a.Destroy? && !a.Skip? {
      TableStepKeepsOk(s, a, s');
      forall t | 0 <= t < |s'.tables|
        ensures ForestOk(s'.tables[t])
      {
        assert t != a.task ==> s'.tables[t] == s.tables[t];
      }
    }
  }

  // ----- Runs ----------------------------------------------------------------------------------------

  ghost predicate StepAt(states: seq<System>, actions: seq<Action>, k: nat) {
    && k < |actions| && k + 1 < |states|
    && states[k].eps.Keys == states[k].arena.live.Keys
    && Step(states[k], actions[k], states[k + 1])
  }

  ghost predicate Run(states: seq<System>, actions: seq<Action>) {
    && |states| == |actions| + 1
    && SystemOk(states[0])
    && forall k :: 0 <= k < |actions| ==> StepAt(states, actions, k)
  }

  /** The run without its last step. */
  lemma FrontIsRun(states: seq<System>, actions: seq<Action>)
    requires Run(states, actions) && actions != []
    ensures Run(states[..|actions|], actions[..|actions| - 1])
    ensures StepAt(states, actions, |actions| - 1)
  {
    var front, done := states[..|actions|], actions[..|actions| - 1];
    forall k | 0 <= k < |done|
      ensures StepAt(front, done, k)
    {
      assert StepAt(states, actions, k);
    }
  }

  lemma {:induction false} RunKeepsOk(states: seq<System>, actions: seq<Action>)
    requires Run(states, actions)
    ensures SystemOk(states[|actions|])
  {
    if actions != [] {
      FrontIsRun(states, actions);
      RunKeepsOk(states[..|actions|], actions[..|actions| - 1]);
      StepKeepsOk(states[|actions| - 1], actions[|actions| - 1], states[|actions|]);
    }
  }

  lemma PrefixIsRun(states: seq<System>, actions: seq<Action>, k: nat)
    requires Run(states, actions) && k <= |actions|
    ensures Run(states[..k + 1], actions[..k]) && SystemOk(states[k])
  {
    var front, done := states[..k + 1], actions[..k];
    forall i | 0 <= i < k
      ensures StepAt(front, done, i)
    {
      assert StepAt(states, actions, i);
    }
    RunKeepsOk(front, done);
  }

  // ----- Steps seen by one table ---------------------------------------------------------------------------

  lemma ChangeIsNext(s: System, a: Action, s': System)
    requires SystemOk(s) && Step(s, a, s') && !a.Create? && !a.Destroy? && !a.Skip?
    requires s'.tables[a.task] != s.tables[a.task]
    ensures TableNext(s.tables[a.task], s'.tables[a.task])
  {
    var f, f' := s.tables[a.task], s'.tables[a.task];
    SameNodePreorder();
    match a
    case Copy(_, src, rights, r) => AllocIsNext(f, r.value.index, CopyNode(f, src, rights).value, SameNode);
    case Derive(_, src, rights, obj, r) =>
      AllocIsNext(f, r.value.index, DeriveNode(f, src, rights, obj).value, SameNode);
    case Grant(_, cap, r) => AllocIsNext(f, r.value.index, Node(cap, None, 0), SameNode);
    case Revoke(_, src, _) => ReleaseIsNext(f, Descendants(f, src.index), SameNode);
    case Drop(_, h, _) => ReleaseIsNext(f, {h.index}, SameNode);
    case Send(_, _, _, transfer, _) => ReleaseIsNext(f, {transfer.value.index}, SameNode);
    case Recv(_, epCap, r) =>
      var cap := s.eps[RecvTarget(s.arena, f, epCap).value.index].cap.value;
      AllocIsNext(f, r.value.cap.value.index, Node(cap, None, 0), SameNode);
  }

  /** Every step is, for every table, one that never alters a node in place. */
  lemma StepIsNext(s: System, a: Action, s': System, t: nat)
    requires SystemOk(s) && Step(s, a, s') && t < |s.tables|
    ensures |s'.tables| == |s.tables| && TableNext(s.tables[t], s'.tables[t])
  {
    if s'.tables[t] != s.tables[t] {
      assert a.task == t;
      ChangeIsNext(s, a, s');
    }
  }

  // ----- Confinement ---------------------------------------------------------------------------------

  ghost predicate InTable(s: System, c: Capability, t: nat, i: nat) {
    t < |s.tables| && i in s.tables[t].live && s.tables[t].live[i].cap == c
  }

  ghost predicate InFlight(s: System, c: Capability, i: nat) {
    i in s.eps && CarriesCap(s.eps[i]) && s.eps[i].cap.value == c
  }

  /** The capability is in some table or in some endpoint. */
  ghost predicate Present(s: System, c: Capability) {
    (exists t, i :: InTable(s, c, t, i)) || (exists i :: InFlight(s, c, i))
  }

  /** The object is that of the source, unless the operation is a derivation for it. */
  predicate Names(a: Action, source: CapObject, obj: CapObject) {
    source == obj || (a.Derive? && a.obj == obj)
  }

  /** A slot that a step fills holds a copy or derivation of a capability of the same table, or the
      capability that an endpoint held. */
  lemma NewEntry(s: System, a: Action, s': System, t: nat, i: nat) returns (c0: Capability)
    requires SystemOk(s) && Step(s, a, s') && !a.Grant?
    requires t < |s.tables| && t < |s'.tables| && i !in s.tables[t].live && i in s'.tables[t].live
    ensures Present(s, c0) && Contains(c0.rights, s'.tables[t].live[i].cap.rights)
    ensures Names(a, c0.obj, s'.tables[t].live[i].cap.obj)
  {
    var f := s.tables[t];
    assert a.task == t;
    if a.Recv? {
      var slot := RecvTarget(s.arena, f, a.epCap).value.index;
      c0 := s.eps[slot].cap.value;
      assert InFlight(s, c0, slot);
    } else {
      assert a.Copy? || a.Derive?;
      c0 := f.live[a.src.index].cap;
      assert InTable(s, c0, t, a.src.index);
    }
  }

  /** A capability in a table after a step comes from one that was there before. */
  lemma TableSource(s: System, a: Action, s': System, c: Capability, t: nat, i: nat) returns (c0: Capability)
    requires SystemOk(s) && Step(s, a, s') && !a.Grant? && InTable(s', c, t, i)
    ensures Present(s, c0) && Contains(c0.rights, c.rights) && Names(a, c0.obj, c.obj)
  {
    StepIsNext(s, a, s', t);
    if i in s.tables[t].live {
      assert SlotNext(s.tables[t], s'.tables[t], i, SameNode);
      assert InTable(s, c, t, i);
      c0 := c;
    } else {
      c0 := NewEntry(s, a, s', t, i);
    }
  }

  /** A capability in an endpoint after a step was there, or in the sender's table, before. */
  lemma FlightSource(s: System, a: Action, s': System, c: Capability, i: nat)
    requires SystemOk(s) && Step(s, a, s') && InFlight(s', c, i)
    ensures Present(s, c)
  {
    if !InFlight(s, c, i) {
      assert a.Send?;
      assert InTable(s, c, a.task, a.transfer.value.index);
    }
  }

  lemma StepConfined(s: System, a: Action, s': System, c: Capability) returns (c0: Capability)
    requires SystemOk(s) && Step(s, a, s') && !a.Grant? && Present(s', c)
    ensures Present(s, c0) && Contains(c0.rights, c.rights) && Names(a, c0.obj, c.obj)
  {
    if t, i :| InTable(s', c, t, i) {
      c0 := TableSource(s, a, s', c, t, i);
    } else {
      var i :| InFlight(s', c, i);
      FlightSource(s, a, s', c, i);
      c0 := c;
    }
  }

  /** Over any run without outside grants, no capability anywhere has a right that some capability
      present at the start did not have, and its object is that capability's or one that a derivation
      in the run was asked for. */
  lemma {:induction false} RightsConfined(states: seq<System>, actions: seq<Action>, c: Capability)
    returns (c0: Capability)
    requires Run(states, actions) && forall k :: 0 <= k < |actions| ==> !actions[k].Grant?
    requires Present(states[|actions|], c)
    ensures Present(states[0], c0) && Contains(c0.rights, c.rights)
    ensures c0.obj == c.obj || exists k :: 0 <= k < |actions| && actions[k].Derive? && actions[k].obj == c.obj
  {
    if actions == [] {
      c0 := c;
    } else {
      FrontIsRun(states, actions);
      var n := |actions| - 1;
      RunKeepsOk(states[..|actions|], actions[..n]);
      assert actions[n] in actions;
      var mid := StepConfined(states[n], actions[n], states[n + 1], c);
      c0 := RightsConfined(states[..|actions|], actions[..n], mid);
      if k :| 0 <= k < n && actions[..n][k].Derive? && actions[..n][k].obj == mid.obj {
        assert actions[k].Derive? && actions[k].obj == mid.obj;
      }
    }
  }

  /** The operation is a send or receive that succeeds on `ep`. */
  ghost predicate UsesEndpoint(s: System, a: Action, ep: SlotId) {
    && ((a.Send? && a.sent.Ok?) || (a.Recv? && a.got.Ok?))
    && a.task < |s.tables| && a.epCap.index in s.tables[a.task].live
    && s.tables[a.task].live[a.epCap.index].cap.obj == Endpoint(ep)
  }

  /** The capability by which a successful send or receive was allowed. */
  lemma UsedCapability(s: System, a: Action, s': System, ep: SlotId) returns (c: Capability)
    requires SystemOk(s) && Step(s, a, s') && UsesEndpoint(s, a, ep)
    ensures Present(s, c) && c.obj == Endpoint(ep) && (if a.Send? then SEND else RECV) in c.rights
  {
    var f := s.tables[a.task];
    c := f.live[a.epCap.index].cap;
    assert InTable(s, c, a.task, a.epCap.index);
    if a.Send? {
      SendLaw(s.arena, s.eps, f, a.epCap, a.msg, a.transfer, a.sent, s'.eps, s'.tables[a.task]);
    } else {
      RecvLaw(s.arena, s.eps, f, a.epCap, a.got, s'.eps, s'.tables[a.task]);
    }
  }

  /** No use without authority: over any run without outside grants, a task that sends to an endpoint, or
      receives from it, does so by a right that some capability had at the start: on that endpoint,
      unless an earlier derivation in the run was asked for that endpoint. */
  lemma UseNeedsAuthority(states: seq<System>, actions: seq<Action>, k: nat, ep: SlotId) returns (c0: Capability)
    requires Run(states, actions) && forall i :: 0 <= i < |actions| ==> !actions[i].Grant?
    requires k < |actions| && UsesEndpoint(states[k], actions[k], ep)
    ensures Present(states[0], c0) && (if actions[k].Send? then SEND else RECV) in c0.rights
    ensures c0.obj == Endpoint(ep) || exists i :: 0 <= i < k && actions[i].Derive? && actions[i].obj == Endpoint(ep)
  {
    assert StepAt(states, actions, k);
    PrefixIsRun(states, actions, k);
    var c := UsedCapability(states[k], actions[k], states[k + 1], ep);
    var front, done := states[..k + 1], actions[..k];
    c0 := RightsConfined(front, done, c);
    if i :| 0 <= i < k && done[i].Derive? && done[i].obj == c.obj {
      assert actions[i].Derive? && actions[i].obj == Endpoint(ep);
    }
  }

  // ----- Handles along runs ----------------------------------------------------------------------------

  ghost function TableRun(states: seq<System>, t: nat): seq<Forest>
    requires forall k :: 0 <= k < |states| ==> t < |states[k].tables|
  {
    seq(|states|, k requires 0 <= k < |states| => states[k].tables[t])
  }

  lemma {:induction false} TablesPersist(states: seq<System>, actions: seq<Action>, t: nat)
    requires Run(states, actions) && t < |states[0].tables|
    ensures forall k :: 0 <= k < |states| ==> t < |states[k].tables|
    ensures PoolRun(TableRun(states, t), SameNode)
  {
    if actions != [] {
      var n := |actions| - 1;
      FrontIsRun(states, actions);
      TablesPersist(states[..|actions|], actions[..n], t);
      RunKeepsOk(states[..|actions|], actions[..n]);
      assert forall k :: 0 <= k < n + 1 ==> states[..|actions|][k] == states[k];
      StepIsNext(states[n], actions[n], states[n + 1], t);
      var run, front := TableRun(states, t), TableRun(states[..|actions|], t);
      assert front == run[..|actions|];
      forall k | 0 <= k < |run| - 1
        ensures PoolNext(run[k], run[k + 1], SameNode)
      {
        if k < n {
          assert PoolNext(front[k], front[k + 1], SameNode);
        }
      }
    }
  }

  /** Over any run, a handle denotes its own capability or nothing, as long as its slot has been freed
      fewer than 2^32 times; it denotes it exactly as long as the slot has not been freed. */
  lemma HandleExact(states: seq<System>, actions: seq<Action>, t: nat, h: SlotId)
    requires Run(states, actions) && t < |states[0].tables| && Resolves(states[0].tables[t], h)
    ensures t < |states[|actions|].tables|
    ensures var f, g := states[0].tables[t], states[|actions|].tables[t];
            && |g.frees| == |f.frees| && g.frees[h.index] >= f.frees[h.index]
            && (g.frees[h.index] - f.frees[h.index] < GENERATIONS ==>
                (Resolves(g, h) <==> g.frees[h.index] == f.frees[h.index])
                && (Resolves(g, h) ==> g.live[h.index] == f.live[h.index]))
  {
    TablesPersist(states, actions, t);
    SameNodePreorder();
    HandleResolvesIff(TableRun(states, t), h, SameNode);
    HandleNeverReassigned(TableRun(states, t), h, SameNode);
  }

  // ----- Revocation along runs -------------------------------------------------------------------------

  lemma SuffixIsRun(states: seq<System>, actions: seq<Action>, k: nat)
    requires Run(states, actions) && k <= |actions|
    ensures Run(states[k..], actions[k..])
  {
    PrefixIsRun(states, actions, k);
    var later, rest := states[k..], actions[k..];
    forall i | 0 <= i < |rest|
      ensures StepAt(later, rest, i)
    {
      assert StepAt(states, actions, k + i);
    }
  }

  /** Free counts of a table's slot between the start, a state of the run, and its end. */
  lemma FreesGrow(states: seq<System>, actions: seq<Action>, t: nat, i: nat, k: nat)
    requires Run(states, actions) && k <= |actions| && t < |states[0].tables| && i < |states[0].tables[t].frees|
    ensures t < |states[k].tables| && t < |states[|actions|].tables|
    ensures |states[k].tables[t].frees| == |states[0].tables[t].frees| == |states[|actions|].tables[t].frees|
    ensures states[0].tables[t].frees[i] <= states[k].tables[t].frees[i] <= states[|actions|].tables[t].frees[i]
  {
    PrefixIsRun(states, actions, k);
    SuffixIsRun(states, actions, k);
    var front, later := states[..k + 1], states[k..];
    TablesPersist(front, actions[..k], t);
    assert t < |front[k].tables|;
    TablesPersist(later, actions[k..], t);
    SameNodePreorder();
    RunKeepsUnfreed(TableRun(front, t), i, SameNode);
    RunKeepsUnfreed(TableRun(later, t), i, SameNode);
  }

  /** A line of descent outlives any step that does not free its lower end. */
  lemma {:induction false} DescentStep(f: Forest, f': Forest, a: nat, d: nat)
    requires ForestOk(f) && ForestOk(f') && TableNext(f, f') && Descends(f, a, d)
    requires d in f'.live && f'.frees[d] == f.frees[d]
    ensures Descends(f', a, d)
    decreases f.live[d].depth
  {
    assert NodeOk(f, d) && SlotNext(f, f', d, SameNode) && NodeOk(f', d);
    var p := f.live[d].parent.value;
    assert SlotNext(f, f', p, SameNode);
    if p != a {
      DescentStep(f, f', a, p);
    }
  }

  /** And any run: interior nodes stay while something descends from them. */
  lemma {:induction false} DescentPersists(states: seq<System>, actions: seq<Action>, t: nat, a: nat, d: nat)
    requires Run(states, actions) && t < |states[0].tables| && Descends(states[0].tables[t], a, d)
    requires d < |states[0].tables[t].frees| && t < |states[|actions|].tables|
    requires |states[|actions|].tables[t].frees| == |states[0].tables[t].frees|
    requires states[|actions|].tables[t].frees[d] == states[0].tables[t].frees[d]
    ensures Descends(states[|actions|].tables[t], a, d)
  {
    if actions != [] {
      var n := |actions| - 1;
      FreesGrow(states, actions, t, d, n);
      FrontIsRun(states, actions);
      DescentPersists(states[..|actions|], actions[..n], t, a, d);
      PrefixIsRun(states, actions, n);
      PrefixIsRun(states, actions, n + 1);
      StepIsNext(states[n], actions[n], states[n + 1], t);
      assert SlotNext(states[n].tables[t], states[n + 1].tables[t], d, SameNode);
      DescentStep(states[n].tables[t], states[n + 1].tables[t], a, d);
    }
  }

  /** A revocation reaches everything that descended from its source at any earlier time, and for good:
      whatever runs before and after it, no handle of such a descendant resolves at the end. */
  lemma RevokedForGood(states: seq<System>, actions: seq<Action>, t: nat, a: nat, h: SlotId, j: nat)
    requires Run(states, actions) && t < |states[0].tables|
    requires Resolves(states[0].tables[t], h) && Descends(states[0].tables[t], a, h.index)
    requires j < |actions| && actions[j].Revoke? && actions[j].done.Ok?
    requires actions[j].task == t && actions[j].src.index == a
    ensures t < |states[|actions|].tables|
    ensures var f, g := states[0].tables[t], states[|actions|].tables[t];
            && |g.frees| == |f.frees|
            && (g.frees[h.index] - f.frees[h.index] < GENERATIONS ==> !Resolves(g, h))
  {
    HandleExact(states, actions, t, h);
    FreesGrow(states, actions, t, h.index, j);
    FreesGrow(states, actions, t, h.index, j + 1);
    assert StepAt(states, actions, j);
    if states[|actions|].tables[t].frees[h.index] == states[0].tables[t].frees[h.index] {
      PrefixIsRun(states, actions, j);
      DescentPersists(states[..j + 1], actions[..j], t, a, h.index);
    }
  }

  /** A capability made by copying or deriving dies for good with any later revocation of a capability
      that its source descends from, or, if derived, of its source. */
  lemma MadeThenRevoked(states: seq<System>, actions: seq<Action>, a: nat, j: nat)
    requires Run(states, actions) && 0 < j < |actions|
    requires (actions[0].Copy? || actions[0].Derive?) && actions[0].made.Ok?
    requires actions[0].task < |states[0].tables|
    requires Descends(states[0].tables[actions[0].task], a, actions[0].src.index)
             || (actions[0].Derive? && a == actions[0].src.index)
    requires actions[j].Revoke? && actions[j].done.Ok?
    requires actions[j].task == actions[0].task && actions[j].src.index == a
    ensures var t, h := actions[0].task, actions[0].made.value;
            && t < |states[1].tables| && t < |states[|actions|].tables|
            && Resolves(states[1].tables[t], h)
            && var f, g := states[1].tables[t], states[|actions|].tables[t];
            && |g.frees| == |f.frees|
            && (g.frees[h.index] - f.frees[h.index] < GENERATIONS ==> !Resolves(g, h))
  {
    var t := actions[0].task;
    assert StepAt(states, actions, 0);
    var f, f' := states[0].tables[t], states[1].tables[t];
    if actions[0].Copy? {
      CopyLaw(f, actions[0].src, actions[0].rights, actions[0].made, f');
    } else {
      DeriveLaw(f, actions[0].src, actions[0].rights, actions[0].obj, actions[0].made, f');
    }
    SuffixIsRun(states, actions, 1);
    RevokedForGood(states[1..], actions[1..], t, a, actions[0].made.value, j - 1);
  }

  /** A handle that its task drops, or sends away, is dead for good. */
  lemma GivenUpForGood(states: seq<System>, actions: seq<Action>, t: nat, h: SlotId)
    requires Run(states, actions) && actions != [] && t < |states[0].tables|
    requires || (actions[0].Drop? && actions[0].task == t && actions[0].handle == h && actions[0].done.Ok?)
             || (actions[0].Send? && actions[0].task == t && actions[0].transfer == Some(h) && actions[0].sent.Ok?)
    ensures Resolves(states[0].tables[t], h)
    ensures t < |states[|actions|].tables|
    ensures var f, g := states[0].tables[t], states[|actions|].tables[t];
            && |g.frees| == |f.frees|
            && (g.frees[h.index] - f.frees[h.index] < GENERATIONS ==> !Resolves(g, h))
  {
    assert StepAt(states, actions, 0);
    HandleExact(states, actions, t, h);
    FreesGrow(states, actions, t, h.index, 1);
    assert h.index !in states[1].tables[t].live;
  }

  // ----- Endpoint handles along runs -------------------------------------------------------------------

  predicate SameObject(a: EndpointObject, b: EndpointObject) {
    a == b
  }

  ghost function ArenaRun(states: seq<System>): seq<EndpointPool> {
    seq(|states|, k requires 0 <= k < |states| => states[k].arena)
  }

  lemma ArenaIsRun(states: seq<System>, actions: seq<Action>)
    requires Run(states, actions)
    ensures PoolRun(ArenaRun(states), SameObject) && Preorder(SameObject)
  {
    var run := ArenaRun(states);
    forall k | 0 <= k < |run| - 1
      ensures PoolNext(run[k], run[k + 1], SameObject)
    {
      assert StepAt(states, actions, k);
      if actions[k].Destroy? {
        ReleaseIsNext(run[k], {actions[k].slot}, SameObject);
      }
    }
  }

  /** Over any run, an endpoint handle in any capability denotes its own endpoint until that is
      destroyed and then nothing, as long as its slot has been freed fewer than 2^32 times. */
  lemma EndpointHandleExact(states: seq<System>, actions: seq<Action>, ep: SlotId)
    requires Run(states, actions) && Resolves(states[0].arena, ep)
    ensures var p, q := states[0].arena, states[|actions|].arena;
            && |q.frees| == |p.frees|
            && (q.frees[ep.index] - p.frees[ep.index] < GENERATIONS ==>
                (Resolves(q, ep) <==> q.frees[ep.index] == p.frees[ep.index])
                && (Resolves(q, ep) ==> q.live[ep.index] == p.live[ep.index]))
  {
    ArenaIsRun(states, actions);
    HandleNeverReassigned(ArenaRun(states), ep, SameObject);
  }
}
