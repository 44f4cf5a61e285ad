/** What the scheduler (kernel/src/sched/mod.rs) does: transitions of its ready queue, task states and
    current task, and the partition of the tasks that they keep. */
module Dispatch {
  import opened Wrappers
  import opened SlotPool

  datatype TaskState = Vacant | Ready | Blocked(on: SlotId)

  datatype Sched = Sched(ready: seq<SlotId>, states: seq<TaskState>, handles: seq<Option<SlotId>>,
                         current: Option<SlotId>)

  /** `h` is the stored handle of a slot marked ready. */
  ghost predicate Runnable(s: Sched, h: SlotId) {
    && h.index < |s.states| == |s.handles|
    && s.handles[h.index] == Some(h)
    && s.states[h.index] == Ready
  }

  ghost predicate SlotOk(s: Sched, i: nat)
    requires i < |s.states| == |s.handles|
  {
    && (s.handles[i].Some? <==> s.states[i] != Vacant)
    && (s.handles[i].Some? ==> s.handles[i].value.index == i)
    && (s.states[i] == Ready ==> s.current == s.handles[i] || s.handles[i].value in s.ready)
  }

  ghost predicate NoRepeats(q: seq<SlotId>) {
    forall i, j :: 0 <= i < j < |q| ==> q[i] != q[j]
  }

  /** Queued and current tasks are runnable, no task is queued twice or both queued and current, and
      every slot marked ready is one or the other. */
  ghost predicate SchedInv(s: Sched) {
    && |s.states| == |s.handles|
    && NoRepeats(s.ready)
    && (forall h :: h in s.ready ==> Runnable(s, h))
    && (s.current.Some? ==> Runnable(s, s.current.value) && s.current.value !in s.ready)
    && (forall i :: 0 <= i < |s.states| ==> SlotOk(s, i))
  }

  function EmptySched(n: nat): Sched {
    Sched([], seq(n, i => Vacant), seq(n, i => None), None)
  }

  // ----- Transitions ---------------------------------------------------------------------------------

  function Added(s: Sched, h: SlotId): Sched
    requires h.index < |s.states| == |s.handles|
  {
    s.(ready := s.ready + [h], states := s.states[h.index := Ready], handles := s.handles[h.index := Some(h)])
  }

  /** The head of the ready queue becomes current. */
  function Dispatched(s: Sched): Sched
    requires s.ready != []
  {
    s.(ready := s.ready[1..], current := Some(s.ready[0]))
  }

  function Yielded(s: Sched): Sched
    requires s.current.Some?
  {
    if s.ready == [] then s else Dispatched(s.(ready := s.ready + [s.current.value]))
  }

  /** The first slot at or after `k` that is blocked on `ep`. */
  function FirstBlocked(states: seq<TaskState>, ep: SlotId, k: nat): (r: Option<nat>)
    requires k <= |states|
    ensures r.Some? ==> k <= r.value < |states| && states[r.value] == Blocked(ep)
    ensures r.Some? ==> forall i :: k <= i < r.value ==> states[i] != Blocked(ep)
    ensures r.None? ==> forall i :: k <= i < |states| ==> states[i] != Blocked(ep)
    decreases |states| - k
  {
    if k == |states| then None
    else if states[k] == Blocked(ep) then Some(k)
    else FirstBlocked(states, ep, k + 1)
  }

  function Woken(s: Sched, ep: SlotId): Sched
    requires |s.states| == |s.handles|
  {
    var i := FirstBlocked(s.states, ep, 0);
    if i.None? || s.handles[i.value].None? then s
    else s.(states := s.states[i.value := Ready], ready := s.ready + [s.handles[i.value].value])
  }

  function BlockedOn(s: Sched, ep: SlotId): Sched
    requires s.current.Some? && s.current.value.index < |s.states| && s.ready != []
  {
    Dispatched(s.(states := s.states[s.current.value.index := Blocked(ep)]))
  }

  // ----- The partition -------------------------------------------------------------------------------

  /** Every registered task is exactly one of: current, queued once, blocked. */
  lemma Partition(s: Sched, i: nat)
    requires SchedInv(s) && i < |s.states| && s.handles[i].Some?
    ensures var h := s.handles[i].value;
            && (s.current == Some(h) || h in s.ready || s.states[i].Blocked?)
            && !(s.current == Some(h) && h in s.ready)
            && !(s.current == Some(h) && s.states[i].Blocked?)
            && !(h in s.ready && s.states[i].Blocked?)
            && (forall a, b :: 0 <= a < |s.ready| && 0 <= b < |s.ready| && s.ready[a] == h == s.ready[b] ==> a == b)
  {
    assert SlotOk(s, i);
  }

  lemma QueueSize(q: seq<SlotId>, n: nat, out: set<nat>)
    requires NoRepeats(q) && out <= Indices(n)
    requires forall h :: h in q ==> h.index < n && h.index !in out
    requires forall a, b :: 0 <= a < b < |q| ==> q[a].index != q[b].index
    ensures |q| + |out| <= n
  {
    var used := seq(|q|, k requires 0 <= k < |q| => q[k].index);
    DistinctSize(used);
    IndicesSize(n);
    assert forall k :: 0 <= k < |q| ==> q[k] in q;
    assert Elems(used) * out == {};
    SubsetSize(Elems(used) + out, Indices(n));
  }

  /** There is room in the ready queue for every task that is neither queued nor `out`. */
  lemma ReadyHasRoom(s: Sched, out: set<nat>)
    requires SchedInv(s)
    requires forall i :: i in out ==> i < |s.states| && (s.states[i] != Ready || s.current == s.handles[i])
    ensures |s.ready| + |out| <= |s.states|
  {
    forall a, b | 0 <= a < b < |s.ready|
      ensures s.ready[a].index != s.ready[b].index
    {
      assert s.ready[a] in s.ready && s.ready[b] in s.ready;
    }
    QueueSize(s.ready, |s.states|, out);
  }

  /** With a current task the ready queue is empty iff no other slot is marked ready. */
  lemma EmptyIffNoneReady(s: Sched)
    requires SchedInv(s) && s.current.Some?
    ensures s.ready == [] <==>
            forall i :: 0 <= i < |s.states| && i != s.current.value.index ==> s.states[i] != Ready
  {
    if s.ready != [] {
      assert s.ready[0] in s.ready;
    } else {
      forall i | 0 <= i < |s.states| && i != s.current.value.index
        ensures s.states[i] != Ready
      {
        assert SlotOk(s, i);
      }
    }
  }

  lemma AppendFresh(q: seq<SlotId>, h: SlotId)
    requires NoRepeats(q) && h !in q
    ensures NoRepeats(q + [h])
  {
  }

  /** Registering a task keeps the partition exactly when its slot is not already marked ready. */
  lemma AddKeepsPartitionIff(s: Sched, h: SlotId)
    requires SchedInv(s) && h.index < |s.states|
    ensures SchedInv(Added(s, h)) <==> s.states[h.index] != Ready
  {
    var t := Added(s, h);
    if s.states[h.index] != Ready {
      AppendFresh(s.ready, h);
      forall g | g in t.ready
        ensures Runnable(t, g)
      {
        assert g in s.ready || g == h;
      }
      forall i | 0 <= i < |t.states|
        ensures SlotOk(t, i)
      {
        assert SlotOk(s, i);
      }
    } else {
      assert SlotOk(s, h.index);
      var g := s.handles[h.index].value;
      if g in s.ready {
        var k :| 0 <= k < |s.ready| && s.ready[k] == g;
        assert t.ready[k] == g && t.ready[|s.ready|] == h;
        assert g in t.ready;
      } else {
        assert h in t.ready;
      }
    }
  }

  lemma EmptyOk(n: nat)
    ensures SchedInv(EmptySched(n))
  {
  }

  /** Dispatching the head keeps the partition once the former current task, if any, has been queued
      or blocked. */
  lemma DispatchKeepsOk(s: Sched)
    requires SchedInv(s) && s.current.None? && s.ready != []
    ensures SchedInv(Dispatched(s))
  {
    var t := Dispatched(s);
    var h := s.ready[0];
    assert s.ready == [h] + t.ready;
    forall g | g in t.ready
      ensures Runnable(t, g) && g != h
    {
      assert g in s.ready;
    }
    assert h in s.ready;
    forall i | 0 <= i < |t.states|
      ensures SlotOk(t, i)
    {
      assert SlotOk(s, i);
    }
  }

  lemma YieldKeepsOk(s: Sched)
    requires SchedInv(s) && s.current.Some?
    ensures SchedInv(Yielded(s))
  {
    if s.ready != [] {
      var c := s.current.value;
      var mid := s.(ready := s.ready + [c], current := None);
      forall g | g in mid.ready
        ensures Runnable(mid, g)
      {
        assert g in s.ready || g == c;
      }
      forall i | 0 <= i < |s.states|
        ensures SlotOk(mid, i)
      {
        assert SlotOk(s, i);
      }
      DispatchKeepsOk(mid);
      assert Yielded(s) == Dispatched(mid);
    }
  }

  lemma WakeKeepsOk(s: Sched, ep: SlotId)
    requires SchedInv(s)
    ensures SchedInv(Woken(s, ep)) && Woken(s, ep).current == s.current
  {
    var i := FirstBlocked(s.states, ep, 0);
    if i.Some? {
      assert SlotOk(s, i.value);
      var t := Woken(s, ep);
      var h := s.handles[i.value].value;
      AppendFresh(s.ready, h);
      forall g | g in t.ready
        ensures Runnable(t, g)
      {
        assert g in s.ready || g == h;
      }
      forall j | 0 <= j < |t.states|
        ensures SlotOk(t, j)
      {
        assert SlotOk(s, j);
      }
    }
  }

  lemma BlockKeepsOk(s: Sched, ep: SlotId)
    requires SchedInv(s) && s.current.Some? && s.ready != []
    ensures SchedInv(BlockedOn(s, ep))
  {
    var c := s.current.value;
    var mid := s.(states := s.states[c.index := Blocked(ep)], current := None);
    forall i | 0 <= i < |s.states|
      ensures SlotOk(mid, i)
    {
      assert SlotOk(s, i);
    }
    DispatchKeepsOk(mid);
    assert BlockedOn(s, ep) == Dispatched(mid);
  }

  /** A wake-up makes the first blocked task ready and queues it last; it changes nothing else. */
  lemma WakeLaw(s: Sched, ep: SlotId, i: nat)
    requires SchedInv(s) && i < |s.states|
    ensures var s', h := Woken(s, ep), s.handles[i];
            && |s'.states| == |s.states| && s'.handles == s.handles && s'.current == s.current
            && if s.states[i] == Blocked(ep) && forall j :: 0 <= j < i ==> s.states[j] != Blocked(ep)
               then h.Some? && s'.states[i] == Ready && s'.ready == s.ready + [h.value]
               else s'.states[i] == s.states[i] && (h.Some? && h.value in s'.ready ==> h.value in s.ready)
  {
    assert SlotOk(s, i);
    var first := FirstBlocked(s.states, ep, 0);
    if first.Some? {
      assert SlotOk(s, first.value);
    }
  }

  /** The scheduler after `k` yields in a row. */
  function YieldedTimes(s: Sched, k: nat): (r: Sched)
    requires s.current.Some?
    ensures r.current.Some?
  {
    if k == 0 then s else Yielded(YieldedTimes(s, k - 1))
  }

  /** The current task and the queue behind it. */
  function Lineup(s: Sched): seq<SlotId>
    requires s.current.Some?
  {
    [s.current.value] + s.ready
  }

  lemma RotateOnce<T>(t: seq<T>, k: nat)
    requires 0 < k <= |t|
    ensures var r := t[k - 1..] + t[..k - 1]; r[1..] + r[..1] == t[k..] + t[..k]
  {
    var r := t[k - 1..] + t[..k - 1];
    assert r[1..] == t[k..] + t[..k - 1] && r[..1] == [t[k - 1]];
    assert t[..k] == t[..k - 1] + [t[k - 1]];
  }

  lemma YieldRotates(s: Sched)
    requires s.current.Some?
    ensures Lineup(Yielded(s)) == Lineup(s)[1..] + Lineup(s)[..1]
  {
  }

  /** Yields go round: after `k` of them the `k`-th task of the order is current, and after as many as
      there are tasks everything is as it was. */
  lemma {:induction false} RoundRobin(s: Sched, k: nat)
    requires s.current.Some? && k <= |Lineup(s)|
    ensures Lineup(YieldedTimes(s, k)) == Lineup(s)[k..] + Lineup(s)[..k]
    ensures YieldedTimes(s, k).states == s.states && YieldedTimes(s, k).handles == s.handles
    ensures k < |Lineup(s)| ==> YieldedTimes(s, k).current == Some(Lineup(s)[k])
    ensures k == |Lineup(s)| ==> YieldedTimes(s, k) == s
  {
    if k > 0 {
      RoundRobin(s, k - 1);
      YieldRotates(YieldedTimes(s, k - 1));
      RotateOnce(Lineup(s), k);
    }
    var after := YieldedTimes(s, k);
    assert after.current.value == Lineup(after)[0] && after.ready == Lineup(after)[1..];
    if k == |Lineup(s)| {
      assert Lineup(after) == Lineup(s) && s.ready == Lineup(s)[1..];
    }
  }

  /** At a switch the outgoing and the incoming task occupy different slots. */
  lemma SwitchIndicesDiffer(s: Sched)
    requires SchedInv(s) && s.current.Some? && s.ready != []
    ensures s.ready[0].index != s.current.value.index
  {
    assert s.ready[0] in s.ready;
  }
}
