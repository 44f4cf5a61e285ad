/** Generation-tagged slots with an embedded free list: the allocator shape shared by the arena
    (kernel/src/obj/arena.rs) and the capability table (kernel/src/cap/table.rs).

    `Slot` is the stored cell.  `Pool` is what a pool of such cells means: which slots hold a value,
    and how often each slot has been freed so far.  A slot's generation is that count modulo 2^32. */
module SlotPool {
  import opened Wrappers

  const GENERATIONS: nat := 0x1_0000_0000
  const MAX_INDEX: nat := 65535

  /** A handle: slot index and the generation of the slot when the handle was issued. */
  datatype SlotId = SlotId(index: nat, generation: nat)

  datatype Slot<+T> = Slot(entry: Option<T>, generation: nat, nextFree: Option<nat>)

  // ----- Linked lists of slot indices ----------------------------------------------------------

  ghost predicate Distinct(s: seq<nat>) {
    forall i, j :: 0 <= i < j < |s| ==> s[i] != s[j]
  }

  /** The element at position `k`, as a link. */
  function At(s: seq<nat>, k: nat): Option<nat> {
    if k < |s| then Some(s[k]) else None
  }

  /** The link out of the `k`-th listed slot. */
  ghost predicate FreeLink<T>(slots: seq<Slot<T>>, free: seq<nat>, k: nat) {
    k < |free| && free[k] < |slots| && slots[free[k]].nextFree == At(free, k + 1)
  }

  /** `free` is the list that starts at `head` and follows the `nextFree` links. */
  ghost predicate FreeChain<T>(slots: seq<Slot<T>>, head: Option<nat>, free: seq<nat>) {
    && head == At(free, 0)
    && Distinct(free)
    && (forall k :: 0 <= k < |free| ==> free[k] < |slots|)
    && (forall k :: 0 <= k < |free| ==> FreeLink(slots, free, k))
  }

  /** The free list holds exactly the empty slots. */
  ghost predicate Covers<T>(slots: seq<Slot<T>>, free: seq<nat>) {
    forall i :: 0 <= i < |slots| ==> (slots[i].entry.None? <==> i in free)
  }

  ghost predicate Tagged<T>(slots: seq<Slot<T>>, frees: seq<nat>) {
    && |frees| == |slots|
    && forall i :: 0 <= i < |slots| ==> slots[i].generation == frees[i] % GENERATIONS
  }

  function NextGeneration(generation: nat): nat {
    (generation + 1) % GENERATIONS
  }

  /** Unlinking the head leaves the chain of the remaining free slots, whatever is then stored in
      the slot taken. */
  lemma PopChain<T>(slots: seq<Slot<T>>, head: Option<nat>, free: seq<nat>, slot: Slot<T>)
    requires FreeChain(slots, head, free) && head.Some?
    ensures head.value < |slots| && head.value == free[0] && head.value !in free[1..]
    ensures FreeChain(slots[head.value := slot], slots[head.value].nextFree, free[1..])
  {
    var rest := free[1..];
    var slots' := slots[head.value := slot];
    assert forall k :: 0 <= k < |rest| ==> rest[k] == free[k + 1];
    forall k | 0 <= k < |rest|
      ensures FreeLink(slots', rest, k)
    {
      assert FreeLink(slots, free, k + 1);
    }
    assert FreeLink(slots, free, 0);
  }

  /** Linking an unlisted slot in front of the head extends the chain. */
  lemma PushChain<T>(slots: seq<Slot<T>>, head: Option<nat>, free: seq<nat>, i: nat, slot: Slot<T>)
    requires FreeChain(slots, head, free)
    requires i < |slots| && i !in free && slot.nextFree == head
    ensures FreeChain(slots[i := slot], Some(i), [i] + free)
  {
    var all := [i] + free;
    var slots' := slots[i := slot];
    assert forall k :: 0 < k < |all| ==> all[k] == free[k - 1];
    forall k | 0 <= k < |all|
      ensures FreeLink(slots', all, k)
    {
      if k > 0 {
        assert FreeLink(slots, free, k - 1);
      }
    }
  }

  lemma PushCovers<T>(slots: seq<Slot<T>>, free: seq<nat>, i: nat, slot: Slot<T>)
    requires Covers(slots, free) && i < |slots| && slot.entry.None?
    ensures Covers(slots[i := slot], [i] + free)
  {
  }

  lemma PushTagged<T>(slots: seq<Slot<T>>, frees: seq<nat>, i: nat, slot: Slot<T>)
    requires Tagged(slots, frees) && i < |slots| && slot.generation == NextGeneration(slots[i].generation)
    ensures Tagged(slots[i := slot], frees[i := frees[i] + 1])
  {
  }

  /** A change that touches no listed slot keeps the chain. */
  lemma KeepChain<T>(slots: seq<Slot<T>>, slots': seq<Slot<T>>, head: Option<nat>, free: seq<nat>)
    requires FreeChain(slots, head, free) && |slots'| == |slots|
    requires forall i :: 0 <= i < |slots| && i in free ==> slots'[i].nextFree == slots[i].nextFree
    ensures FreeChain(slots', head, free)
  {
    forall k | 0 <= k < |free|
      ensures FreeLink(slots', free, k)
    {
      assert FreeLink(slots, free, k);
      assert free[k] in free;
    }
  }

  function InitialFree(n: nat): seq<nat> {
    seq(n, i => i)
  }

  /** The link a slot starts with: to the next slot, if there is one. */
  function Following(i: int, n: nat): Option<nat> {
    if 0 <= i && i + 1 < n then Some(i + 1) else None
  }

  lemma InitialChain<T>(slots: seq<Slot<T>>)
    requires forall i :: 0 <= i < |slots| ==>
      slots[i] == Slot(None, 0, Following(i, |slots|))
    ensures FreeChain(slots, if |slots| > 0 then Some(0) else None, InitialFree(|slots|))
    ensures Covers(slots, InitialFree(|slots|))
    ensures Tagged(slots, seq(|slots|, i => 0))
  {
    forall i | 0 <= i < |slots|
      ensures i in InitialFree(|slots|)
    {
      assert InitialFree(|slots|)[i] == i;
    }
  }

  // ----- The abstract pool -----------------------------------------------------------------------

  /** `live` holds the occupied slots; `frees[i]` counts how often slot `i` has been freed. */
  datatype Pool<T> = Pool(frees: seq<nat>, live: map<nat, T>)

  ghost predicate PoolOk<T>(p: Pool<T>) {
    forall i :: i in p.live ==> i < |p.frees|
  }

  /** The handle that slot `i` answers to now. */
  function IdOf<T>(p: Pool<T>, i: nat): SlotId
    requires i < |p.frees|
  {
    SlotId(i, p.frees[i] % GENERATIONS)
  }

  ghost predicate Resolves<T>(p: Pool<T>, id: SlotId) {
    id.index < |p.frees| && id.index in p.live && id == IdOf(p, id.index)
  }

  ghost predicate Full<T>(p: Pool<T>) {
    |p.live| == |p.frees|
  }

  ghost function Alloc<T>(p: Pool<T>, i: nat, v: T): Pool<T> {
    p.(live := p.live[i := v])
  }

  /** Free all slots of `gone`. */
  ghost function Release<T>(p: Pool<T>, gone: set<nat>): Pool<T> {
    Pool(seq(|p.frees|, i requires 0 <= i < |p.frees| => if i in gone then p.frees[i] + 1 else p.frees[i]),
         p.live - gone)
  }

  ghost function Indices(n: nat): (all: set<nat>)
    ensures forall i: int :: i in all <==> 0 <= i < n
  {
    if n == 0 then {} else Indices(n - 1) + {n - 1}
  }

  lemma {:induction false} IndicesSize(n: nat)
    ensures |Indices(n)| == n
  {
    if n > 0 {
      IndicesSize(n - 1);
    }
  }

  lemma SubsetSize<T>(a: set<T>, b: set<T>)
    requires a <= b
    ensures |a| <= |b|
    ensures |a| == |b| ==> a == b
  {
    assert b == a + (b - a);
    assert |b| == |a| + |b - a|;
  }

  /** A pool is full exactly when no slot is empty. */
  lemma FullIff<T>(p: Pool<T>)
    requires PoolOk(p)
    ensures Full(p) <==> forall i :: 0 <= i < |p.frees| ==> i in p.live
  {
    IndicesSize(|p.frees|);
    SubsetSize(p.live.Keys, Indices(|p.frees|));
    assert |p.live| == |p.live.Keys|;
    if forall i :: 0 <= i < |p.frees| ==> i in p.live {
      assert p.live.Keys == Indices(|p.frees|);
    }
  }

  /** The free list is empty exactly when the pool that the slots stand for is full. */
  lemma HeadNoneIffFull<T, V>(slots: seq<Slot<T>>, head: Option<nat>, free: seq<nat>, p: Pool<V>)
    requires FreeChain(slots, head, free) && Covers(slots, free) && |p.frees| == |slots|
    requires forall i: nat :: i in p.live <==> i < |slots| && slots[i].entry.Some?
    ensures head.None? <==> Full(p)
  {
    FullIff(p);
    if head.Some? {
      assert free[0] in free;
      assert free[0] !in p.live;
    }
  }

  // ----- Pools as maps from handles to values ----------------------------------------------------

  ghost function IdsAt<T>(p: Pool<T>, keys: set<nat>): set<SlotId>
    requires forall i :: i in keys ==> i < |p.frees|
  {
    set i | i in keys :: IdOf(p, i)
  }

  ghost function Ids<T>(p: Pool<T>): (ids: set<SlotId>)
    requires PoolOk(p)
    ensures forall id :: id in ids <==> Resolves(p, id)
  {
    IdsAt(p, p.live.Keys)
  }

  /** The finite map from handles to values that a pool implements. */
  ghost function Bindings<T>(p: Pool<T>): map<SlotId, T>
    requires PoolOk(p)
  {
    map id: SlotId | id in Ids(p) :: p.live[id.index]
  }

  lemma {:induction false} IdsAtSize<T>(p: Pool<T>, keys: set<nat>)
    requires forall i :: i in keys ==> i < |p.frees|
    ensures |IdsAt(p, keys)| == |keys|
  {
    if keys != {} {
      var i :| i in keys;
      IdsAtSize(p, keys - {i});
      assert IdsAt(p, keys) == IdsAt(p, keys - {i}) + {IdOf(p, i)};
    }
  }

  /** As many handles resolve as slots are occupied. */
  lemma BindingsSize<T>(p: Pool<T>)
    requires PoolOk(p)
    ensures |Bindings(p)| == |p.live|
  {
    IdsAtSize(p, p.live.Keys);
    assert Bindings(p).Keys == Ids(p);
    assert |Bindings(p)| == |Bindings(p).Keys|;
    assert |p.live| == |p.live.Keys|;
  }

  /** Storing a value in slot `i` binds the slot's handle and changes no other binding; the handle
      was unbound if the slot was empty. */
  lemma AllocBinds<T>(p: Pool<T>, i: nat, v: T)
    requires PoolOk(p) && i < |p.frees|
    ensures PoolOk(Alloc(p, i, v))
    ensures IdOf(p, i) in Bindings(p) <==> i in p.live
    ensures Bindings(Alloc(p, i, v)) == Bindings(p)[IdOf(p, i) := v]
  {
    var q := Alloc(p, i, v);
    forall id
      ensures id in Ids(q) <==> id in Ids(p) || id == IdOf(p, i)
    {
    }
  }

  /** Freeing an occupied slot removes its binding and changes no other. */
  lemma ReleaseUnbinds<T>(p: Pool<T>, i: nat)
    requires PoolOk(p) && i in p.live
    ensures PoolOk(Release(p, {i}))
    ensures Bindings(Release(p, {i})) == Bindings(p) - {IdOf(p, i)}
  {
  }

  // ----- Counting ----------------------------------------------------------------------------------

  ghost function Elems(s: seq<nat>): set<nat> {
    set x | x in s
  }

  lemma {:induction false} DistinctSize(s: seq<nat>)
    requires Distinct(s)
    ensures |Elems(s)| == |s|
  {
    if s != [] {
      var last := s[|s| - 1];
      var rest := s[..|s| - 1];
      DistinctSize(rest);
      assert s == rest + [last];
      assert Elems(s) == Elems(rest) + {last};
    }
  }

  /** Distinct slot indices number at most the slots. */
  lemma DistinctBound(s: seq<nat>, n: nat)
    requires Distinct(s) && forall i :: 0 <= i < |s| ==> s[i] < n
    ensures |s| <= n
  {
    DistinctSize(s);
    IndicesSize(n);
    SubsetSize(Elems(s), Indices(n));
  }

  // ----- Generations over whole runs -------------------------------------------------------------

  ghost predicate SlotNext<T>(p: Pool<T>, q: Pool<T>, i: nat, keeps: (T, T) -> bool)
    requires i < |p.frees| == |q.frees|
  {
    || (q.frees[i] == p.frees[i] && (i in p.live ==> i in q.live && keeps(p.live[i], q.live[i])))
    || (q.frees[i] == p.frees[i] + 1 && i in p.live && i !in q.live)
  }

  /** What one operation may do to a pool: each slot either keeps its count, and its value if it has
      one, or goes from occupied to empty with its count raised by one. */
  ghost predicate PoolNext<T(!new)>(p: Pool<T>, q: Pool<T>, keeps: (T, T) -> bool) {
    && |q.frees| == |p.frees|
    && forall i :: 0 <= i < |p.frees| ==> SlotNext(p, q, i, keeps)
  }

  ghost predicate Preorder<T(!new)>(keeps: (T, T) -> bool) {
    && (forall x :: keeps(x, x))
    && (forall x, y, z :: keeps(x, y) && keeps(y, z) ==> keeps(x, z))
  }

  /** Storing a value in an empty slot, or over one that it may replace, is such an operation. */
  lemma AllocIsNext<T(!new)>(p: Pool<T>, i: nat, v: T, keeps: (T, T) -> bool)
    requires Preorder(keeps) && (i in p.live ==> keeps(p.live[i], v))
    ensures PoolNext(p, Alloc(p, i, v), keeps)
  {
  }

  /** So is freeing any set of occupied slots. */
  lemma ReleaseIsNext<T(!new)>(p: Pool<T>, gone: set<nat>, keeps: (T, T) -> bool)
    requires Preorder(keeps) && gone <= p.live.Keys
    ensures PoolNext(p, Release(p, gone), keeps)
  {
  }

  ghost predicate PoolRun<T(!new)>(run: seq<Pool<T>>, keeps: (T, T) -> bool) {
    && |run| > 0
    && forall k :: 0 <= k < |run| - 1 ==> PoolNext(run[k], run[k + 1], keeps)
  }

  /** Counts only grow, and a slot whose count is unchanged over a run was never freed in it. */
  lemma {:induction false} RunKeepsUnfreed<T(!new)>(run: seq<Pool<T>>, i: nat, keeps: (T, T) -> bool)
    requires PoolRun(run, keeps) && Preorder(keeps) && i < |run[0].frees|
    ensures var last := run[|run| - 1];
            && |last.frees| == |run[0].frees|
            && last.frees[i] >= run[0].frees[i]
            && (last.frees[i] == run[0].frees[i] && i in run[0].live ==>
                i in last.live && keeps(run[0].live[i], last.live[i]))
  {
    if |run| > 1 {
      var front := run[..|run| - 1];
      assert PoolRun(front, keeps);
      RunKeepsUnfreed(front, i, keeps);
      assert PoolNext(run[|run| - 2], run[|run| - 1], keeps);
      assert SlotNext(run[|run| - 2], run[|run| - 1], i, keeps);
    }
  }

  /** A handle issued at the start of a run resolves at its end exactly when its slot is occupied
      and has been freed a multiple of 2^32 times since. */
  lemma HandleResolvesIff<T(!new)>(run: seq<Pool<T>>, id: SlotId, keeps: (T, T) -> bool)
    requires PoolRun(run, keeps) && Preorder(keeps) && Resolves(run[0], id)
    ensures var last := run[|run| - 1];
            && |last.frees| == |run[0].frees|
            && last.frees[id.index] >= run[0].frees[id.index]
            && (Resolves(last, id) <==>
                id.index in last.live && (last.frees[id.index] - run[0].frees[id.index]) % GENERATIONS == 0)
  {
    RunKeepsUnfreed(run, id.index, keeps);
  }

  /** Within fewer than 2^32 frees of its slot, a handle denotes its own allocation or nothing. */
  lemma HandleNeverReassigned<T(!new)>(run: seq<Pool<T>>, id: SlotId, keeps: (T, T) -> bool)
    requires PoolRun(run, keeps) && Preorder(keeps) && Resolves(run[0], id)
    ensures var last := run[|run| - 1];
            && |last.frees| == |run[0].frees|
            && (last.frees[id.index] - run[0].frees[id.index] < GENERATIONS ==>
                (Resolves(last, id) <==> last.frees[id.index] == run[0].frees[id.index]))
            && (last.frees[id.index] - run[0].frees[id.index] < GENERATIONS && Resolves(last, id) ==>
                keeps(run[0].live[id.index], last.live[id.index]))
  {
    HandleResolvesIff(run, id, keeps);
    RunKeepsUnfreed(run, id.index, keeps);
  }

  // ----- Wrap-around ---------------------------------------------------------------------------------

  /** One allocation in an empty slot, or one free of an occupied slot. */
  ghost predicate AllocOrFree<T(!new)>(p: Pool<T>, q: Pool<T>) {
    || (exists i: nat, v :: i < |p.frees| && i !in p.live && q == Alloc(p, i, v))
    || (exists i :: i in p.live && q == Release(p, {i}))
  }

  ghost predicate Lifetime<T(!new)>(run: seq<Pool<T>>) {
    |run| > 0 && forall k :: 0 <= k < |run| - 1 ==> AllocOrFree(run[k], run[k + 1])
  }

  /** A one-slot pool whose slot holds `v` and has been freed `n` times. */
  function OneSlot<T>(n: nat, v: T): Pool<T> {
    Pool([n], map[0 := v])
  }

  /** The slot can be freed and filled again any number of times. */
  lemma {:induction false} CycleRun<T(!new)>(n: nat, v: T, w: T) returns (run: seq<Pool<T>>)
    requires n > 0
    ensures Lifetime(run) && run[0] == OneSlot(0, v) && run[|run| - 1] == OneSlot(n, w)
    ensures forall k :: 0 <= k < |run| ==> |run[k].frees| == 1
  {
    var before := OneSlot(n - 1, if n == 1 then v else w);
    if n == 1 {
      run := [before];
    } else {
      run := CycleRun(n - 1, v, w);
    }
    var empty: Pool<T> := Pool([n], map[]);
    assert AllocOrFree(before, empty) by {
      assert 0 in before.live && Release(before, {0}) == empty;
    }
    assert AllocOrFree(empty, OneSlot(n, w)) by {
      assert 0 !in empty.live && Alloc(empty, 0, w) == OneSlot(n, w);
    }
    var longer := run + [empty, OneSlot(n, w)];
    forall k | 0 <= k < |longer| - 1
      ensures AllocOrFree(longer[k], longer[k + 1])
    {
      if k < |run| - 1 {
        assert AllocOrFree(run[k], run[k + 1]);
      }
    }
    run := longer;
  }

  /** After exactly 2^32 frees of its slot a handle resolves again, to whatever is stored there now. */
  lemma HandleComesBack<T(!new)>(v: T, w: T) returns (run: seq<Pool<T>>, id: SlotId)
    ensures Lifetime(run)
    ensures Resolves(run[0], id) && run[0].live[id.index] == v
    ensures Resolves(run[|run| - 1], id) && run[|run| - 1].live[id.index] == w
    ensures run[|run| - 1].frees[id.index] == run[0].frees[id.index] + GENERATIONS
  {
    run := CycleRun(GENERATIONS, v, w);
    id := SlotId(0, 0);
  }
}
