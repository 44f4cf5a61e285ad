/** The bounded kernel-object arena (kernel/src/obj/arena.rs). */
module ObjectArena {
  import opened Wrappers
  import opened SlotPool

  ghost predicate ArenaInv<T>(slots: seq<Slot<T>>, head: Option<nat>, free: seq<nat>, frees: seq<nat>) {
    FreeChain(slots, head, free) && Covers(slots, free) && Tagged(slots, frees)
  }

  ghost function ViewOf<T>(slots: seq<Slot<T>>, frees: seq<nat>): Pool<T> {
    Pool(frees, map i: nat | i < |slots| && slots[i].entry.Some? :: slots[i].entry.value)
  }

  /** Filling the head of the free list is `Alloc`. */
  lemma AllocStep<T>(slots: seq<Slot<T>>, head: Option<nat>, free: seq<nat>, frees: seq<nat>, value: T)
    requires ArenaInv(slots, head, free, frees) && head.Some?
    ensures head.value < |slots| && slots[head.value].entry.None?
    ensures var slots' := slots[head.value := Slot(Some(value), slots[head.value].generation, None)];
            && ArenaInv(slots', slots[head.value].nextFree, free[1..], frees)
            && ViewOf(slots', frees) == Alloc(ViewOf(slots, frees), head.value, value)
  {
    var i := head.value;
    var slot := Slot(Some(value), slots[i].generation, None);
    PopChain(slots, head, free, slot);
    assert free[0] in free;
    var slots' := slots[i := slot];
    forall j | 0 <= j < |slots'|
      ensures slots'[j].entry.None? <==> j in free[1..]
    {
      assert free == [i] + free[1..];
    }
    assert ViewOf(slots', frees).live == Alloc(ViewOf(slots, frees), i, value).live;
  }

  lemma FreeView<T>(slots: seq<Slot<T>>, frees: seq<nat>, i: nat, slot: Slot<T>)
    requires |frees| == |slots| && i < |slots| && slot.entry.None?
    ensures ViewOf(slots[i := slot], frees[i := frees[i] + 1]) == Release(ViewOf(slots, frees), {i})
  {
  }

  /** Emptying an occupied slot and pushing it on the free list is `Release`. */
  lemma FreeStep<T>(slots: seq<Slot<T>>, head: Option<nat>, free: seq<nat>, frees: seq<nat>, i: nat)
    requires ArenaInv(slots, head, free, frees) && i < |slots| && slots[i].entry.Some?
    ensures var slots' := slots[i := Slot(None, NextGeneration(slots[i].generation), head)];
            && ArenaInv(slots', Some(i), [i] + free, frees[i := frees[i] + 1])
            && ViewOf(slots', frees[i := frees[i] + 1]) == Release(ViewOf(slots, frees), {i})
  {
    var slot := Slot(None, NextGeneration(slots[i].generation), head);
    PushChain(slots, head, free, i, slot);
    PushCovers(slots, free, i, slot);
    PushTagged(slots, frees, i, slot);
    FreeView(slots, frees, i, slot);
  }

  class Arena<T(!new)> {
    const slots: array<Slot<T>>
    var freeHead: Option<nat>
    ghost var free: seq<nat>
    ghost var frees: seq<nat>

    ghost predicate Valid()
      reads this, slots
    {
      ArenaInv(slots[..], freeHead, free, frees)
    }

    /** The occupied slots and the free counts. */
    ghost function View(): Pool<T>
      reads this, slots
    {
      ViewOf(slots[..], frees)
    }

    constructor (capacity: nat)
      requires capacity <= MAX_INDEX
      ensures Valid() && fresh(slots) && slots.Length == capacity
      ensures View() == Pool(seq(capacity, i => 0), map[])
    {
      slots := new Slot<T>[capacity](i => Slot(None, 0, Following(i, capacity)));
      freeHead := if capacity > 0 then Some(0) else None;
      free := InitialFree(capacity);
      frees := seq(capacity, i => 0);
      new;
      InitialChain(slots[..]);
    }

    /** Fills one empty slot, or refuses exactly when every slot is occupied. */
    method Allocate(value: T) returns (r: Option<SlotId>)
      requires Valid()
      modifies this, slots
      ensures Valid()
      ensures r.None? <==> Full(old(View()))
      ensures r.None? ==> slots[..] == old(slots[..]) && View() == old(View())
      ensures r.Some? ==> r.value.index < slots.Length && r.value.index !in old(View()).live
      ensures r.Some? ==> View() == Alloc(old(View()), r.value.index, value) && Resolves(View(), r.value)
    {
      HeadNoneIffFull(slots[..], freeHead, free, View());
      if freeHead.None? {
        return None;
      }
      var head := freeHead.value;
      AllocStep(slots[..], freeHead, free, frees, value);
      var next := slots[head].nextFree;
      slots[head] := slots[head].(entry := Some(value));
      slots[head] := slots[head].(nextFree := None);
      freeHead := next;
      free := free[1..];
      assert slots[..] == old(slots[..])[head := Slot(Some(value), old(slots[head].generation), None)];
      r := Some(SlotId(head, slots[head].generation));
    }

    /** Empties the slot of `id` and returns its value; a handle that does not resolve changes
        nothing. */
    method Free(id: SlotId) returns (r: Option<T>)
      requires Valid()
      modifies this, slots
      ensures Valid()
      ensures r == if Resolves(old(View()), id) then Some(old(View()).live[id.index]) else None
      ensures r.None? ==> slots[..] == old(slots[..]) && View() == old(View())
      ensures r.Some? ==> View() == Release(old(View()), {id.index})
    {
      if id.index >= slots.Length || slots[id.index].generation != id.generation || slots[id.index].entry.None? {
        return None;
      }
      var i := id.index;
      ghost var before, head, list, counts := slots[..], freeHead, free, frees;
      r := slots[i].entry;
      slots[i] := slots[i].(entry := None);
      slots[i] := slots[i].(generation := NextGeneration(slots[i].generation));
      slots[i] := slots[i].(nextFree := freeHead);
      freeHead := Some(i);
      free := [i] + free;
      frees := frees[i := frees[i] + 1];
      assert slots[..] == before[i := Slot(None, NextGeneration(before[i].generation), head)];
      FreeStep(before, head, list, counts, i);
    }

    /** The value that `id` denotes. */
    function Get(id: SlotId): (r: Option<T>)
      requires Valid()
      reads this, slots
      ensures r == if Resolves(View(), id) then Some(View().live[id.index]) else None
    {
      if id.index < slots.Length && slots[id.index].generation == id.generation then slots[id.index].entry else None
    }

    /** Writes through the mutable reference that `get_mut` hands out. */
    method Put(id: SlotId, value: T) returns (ok: bool)
      requires Valid()
      modifies slots
      ensures Valid()
      ensures ok <==> Resolves(old(View()), id)
      ensures View() == if ok then Alloc(old(View()), id.index, value) else old(View())
    {
      if id.index >= slots.Length || slots[id.index].generation != id.generation || slots[id.index].entry.None? {
        return false;
      }
      var i := id.index;
      slots[i] := slots[i].(entry := Some(value));
      assert slots[..] == old(slots[..])[i := Slot(Some(value), old(slots[i].generation), old(slots[i].nextFree))];
      KeepChain(old(slots[..]), slots[..], freeHead, free);
      assert View().live == old(View()).live[i := value];
      ok := true;
    }
  }
}
