/** The capability table (kernel/src/cap/table.rs), for any capacity. */
module CapTable {
  import opened Wrappers
  import opened Rights
  import opened SlotPool
  import opened CapForest
  import opened CapSlots

  class CapabilityTable {
    const slots: array<Slot<SlotEntry>>
    var freeHead: Option<nat>
    ghost var free: seq<nat>
    ghost var kids: seq<seq<nat>>
    ghost var frees: seq<nat>

    ghost predicate Valid()
      reads this, slots
    {
      TableInv(slots[..], freeHead, free, kids, frees)
    }

    /** The derivation forest that the table holds. */
    ghost function View(): Forest
      reads this, slots
    {
      ViewOf(slots[..], frees)
    }

    constructor (capacity: nat)
      requires 0 < capacity <= MAX_INDEX
      ensures Valid() && fresh(slots) && slots.Length == capacity
      ensures View() == Pool(seq(capacity, i => 0), map[])
    {
      slots := new Slot<SlotEntry>[capacity](i => Slot(None, 0, Following(i, capacity)));
      freeHead := Some(0);
      free := InitialFree(capacity);
      kids := seq(capacity, i => []);
      frees := seq(capacity, i => 0);
      new;
      InitialChain(slots[..]);
    }

    // ----- Internals -----------------------------------------------------------------------------------

    function ResolveHandle(h: SlotId): (r: Result<nat, CapError>)
      requires Valid()
      reads this, slots
      ensures r == if Resolves(View(), h) then Ok(h.index) else Err(InvalidHandle)
      ensures r.Ok? ==> Live(slots[..], h.index)
    {
      if h.index >= slots.Length then Err(InvalidHandle)
      else if slots[h.index].generation != h.generation then Err(InvalidHandle)
      else if slots[h.index].entry.None? then Err(InvalidHandle)
      else Ok(h.index)
    }

    function EntryOf(h: SlotId): (r: Result<SlotEntry, CapError>)
      requires Valid()
      reads this, slots
      ensures r.Ok? <==> Resolves(View(), h)
      ensures r.Ok? ==> Live(slots[..], h.index) && r.value == slots[h.index].entry.value
      ensures r.Ok? ==> NodeOf(r.value) == View().live[h.index]
      ensures r.Err? ==> r.error == InvalidHandle
    {
      var i := ResolveHandle(h);
      if i.Err? then Err(i.error) else Ok(slots[i.value].entry.value)
    }

    /** Takes the head off the free list; its slot stays empty. */
    method PopFree() returns (r: Option<nat>)
      requires FreeChain(slots[..], freeHead, free)
      modifies this`freeHead, this`free, slots
      ensures r == old(freeHead)
      ensures r.None? ==> slots[..] == old(slots[..]) && freeHead == old(freeHead) && free == old(free)
      ensures r.Some? ==> r.value < slots.Length && free == old(free)[1..] && freeHead == old(slots[r.value].nextFree)
      ensures r.Some? ==> slots[..] == old(slots[..])[r.value := old(slots[r.value]).(nextFree := None)]
    {
      if freeHead.None? {
        return None;
      }
      var head := freeHead.value;
      PopChain(slots[..], freeHead, free, slots[head].(nextFree := None));
      freeHead := slots[head].nextFree;
      slots[head] := slots[head].(nextFree := None);
      free := free[1..];
      r := Some(head);
    }

    /** Empties a slot that is not on the free list, bumps its generation and puts it at the head.  An
        index outside the table, which no caller passes, only ends up in the head. */
    method FreeSlot(index: nat)
      requires FreeChain(slots[..], freeHead, free) && Tagged(slots[..], frees) && index !in free
      modifies this`freeHead, this`free, this`frees, slots
      ensures freeHead == Some(index)
      ensures index >= slots.Length ==> slots[..] == old(slots[..]) && free == old(free) && frees == old(frees)
      ensures index < slots.Length ==> FreeChain(slots[..], freeHead, free) && Tagged(slots[..], frees)
      ensures index < slots.Length ==>
                free == [index] + old(free) && frees == old(frees)[index := old(frees)[index] + 1]
      ensures index < slots.Length ==>
                var emptied := Slot(None, NextGeneration(old(slots[index].generation)), old(freeHead));
                slots[..] == old(slots[..])[index := emptied]
    {
      ghost var before, head, list, counts := slots[..], freeHead, free, frees;
      var oldFreeHead := freeHead;
      freeHead := Some(index);
      if index >= slots.Length {
        return;
      }
      slots[index] := slots[index].(entry := None);
      slots[index] := slots[index].(generation := NextGeneration(slots[index].generation));
      slots[index] := slots[index].(nextFree := oldFreeHead);
      free := [index] + free;
      frees := frees[index := frees[index] + 1];
      assert slots[..] == before[index := Slot(None, NextGeneration(before[index].generation), head)];
      PushChain(before, head, list, index, slots[index]);
      PushTagged(before, counts, index, slots[index]);
    }

    /** Removes a slot from the child list of its parent; the walk always finds it. */
    method UnlinkFromSiblings(index: nat) returns (r: Result<(), CapError>)
      requires Valid() && Live(slots[..], index)
      modifies slots
      ensures r == Ok(())
      ensures slots[..] == Unlinked(old(slots[..]), kids, index)
    {
      assert Listed(slots[..], kids, index);
      var parent := slots[index].entry.value.parent;
      var nextSibling := slots[index].entry.value.nextSibling;
      if parent.None? {
        return Ok(());
      }
      var p := parent.value;
      ghost var list := kids[p];
      ghost var k := IndexIn(list, index);
      assert Linked(slots[..], kids, p);
      KidIs(slots[..], kids, p, index);
      var cursor := slots[p].entry.value.firstChild;
      if cursor == Some(index) {
        slots[p] := slots[p].(entry := Some(slots[p].entry.value.(firstChild := nextSibling)));
        return Ok(());
      }
      r := Err(InvalidHandle);
      ghost var m := 0;
      while cursor.Some?
        invariant r.Err? && slots[..] == old(slots[..])
        invariant m < k && cursor == Some(list[m])
        decreases k - m
      {
        var c := cursor.value;
        assert KidLink(slots[..], list, p, m);
        var next := slots[c].entry.value.nextSibling;
        if next == Some(index) {
          assert m + 1 == k;
          slots[c] := slots[c].(entry := Some(slots[c].entry.value.(nextSibling := nextSibling)));
          r := Ok(());
          break;
        }
        cursor := next;
        m := m + 1;
      }
    }

    /** Stores `e` in the slot just popped, as first child of its parent, if any. */
    method Place(index: nat, e: SlotEntry)
      requires index < slots.Length && !Live(slots[..], index) && slots[index].nextFree.None?
      requires e.parent.Some? ==> Live(slots[..], e.parent.value)
      modifies slots
      ensures slots[..] == Placed(old(slots[..]), index, e)
    {
      slots[index] := slots[index].(entry := Some(e));
      if e.parent.Some? {
        var p := e.parent.value;
        slots[p] := slots[p].(entry := Some(slots[p].entry.value.(firstChild := Some(index))));
      }
    }

    /** The common tail of `insert_root`, `cap_copy` and `cap_derive`: pops a free slot and stores a
        childless entry in it, in front of the children its parent has.  The parent cannot be gone. */
    method Install(n: Node) returns (r: Result<SlotId, CapError>)
      requires Valid() && CanHold(View(), n)
      modifies this, slots
      ensures Valid()
      ensures InstallRel(old(View()), n, r, View())
      ensures r.Err? ==> slots[..] == old(slots[..]) && freeHead == old(freeHead)
    {
      ghost var before, head, list, f := slots[..], freeHead, free, View();
      HeadNoneIffFull(before, head, list, f);
      var popped := PopFree();
      if popped.None? {
        return Err(CapsExhausted);
      }
      var index := popped.value;
      var generation := slots[index].generation;
      assert index in list;
      var formerFirstChild := None;
      if n.parent.Some? {
        formerFirstChild := slots[n.parent.value].entry.value.firstChild;
      }
      var e := SlotEntry(n.cap, n.parent, None, formerFirstChild, n.depth);
      Place(index, e);
      kids := PlacedKids(kids, index, n.parent);
      r := Ok(SlotId(index, generation));
      assert slots[..] == Placed(before, index, e);
      PlaceView(before, frees, index, e);
      InstallKeepsOk(f, n, r, Alloc(f, index, n));
      PlaceStep(before, head, list, old(kids), frees, e);
    }

    /** The common tail of `cap_drop` and `cap_take`: unlinks a leaf and frees its slot. */
    method RemoveLeaf(index: nat)
      requires Valid() && Live(slots[..], index) && kids[index] == []
      modifies this, slots
      ensures Valid()
      ensures View() == Release(old(View()), {index})
    {
      ghost var before, head, list, counts := slots[..], freeHead, free, frees;
      UnlinkStep(before, head, list, kids, counts, index);
      UnlinkView(before, kids, counts, index, Slot(None, 0, None));
      var unlinked := UnlinkFromSiblings(index);
      KeepChain(before, slots[..], head, list);
      FreeSlot(index);
      kids := UnlinkedKids(before, kids, index);
    }

    // ----- Operations ----------------------------------------------------------------------------------

    method InsertRoot(cap: Capability) returns (r: Result<SlotId, CapError>)
      requires Valid()
      modifies this, slots
      ensures Valid()
      ensures InsertRootRel(old(View()), cap, r, View())
      ensures r.Err? ==> slots[..] == old(slots[..]) && freeHead == old(freeHead)
    {
      r := Install(Node(cap, None, 0));
    }

    /** The checks of `cap_copy`, and the node it is to install. */
    function CheckCopy(src: SlotId, newRights: CapRights): (r: Result<Node, CapError>)
      requires Valid()
      reads this, slots
      ensures r == CopyNode(View(), src, newRights)
    {
      var source := EntryOf(src);
      if source.Err? then Err(source.error)
      else if !Contains(source.value.cap.rights, {DUPLICATE}) then Err(InsufficientRights)
      else if !Contains(source.value.cap.rights, newRights) then Err(WidenedRights)
      else Ok(Node(Capability(newRights, source.value.cap.obj), source.value.parent, source.value.depth))
    }

    method CapCopy(src: SlotId, newRights: CapRights) returns (r: Result<SlotId, CapError>)
      requires Valid()
      modifies this, slots
      ensures Valid()
      ensures CopyRel(old(View()), src, newRights, r, View())
      ensures r.Err? ==> slots[..] == old(slots[..]) && freeHead == old(freeHead)
    {
      var checked := CheckCopy(src, newRights);
      if checked.Err? {
        return Err(checked.error);
      }
      CopyCanHold(View(), src, newRights);
      r := Install(checked.value);
    }

    /** The checks of `cap_derive`, and the node it is to install. */
    function CheckDerive(src: SlotId, newRights: CapRights, newObject: CapObject): (r: Result<Node, CapError>)
      requires Valid()
      reads this, slots
      ensures r == DeriveNode(View(), src, newRights, newObject)
    {
      var source := EntryOf(src);
      if source.Err? then Err(source.error)
      else if !Contains(source.value.cap.rights, {DERIVE}) then Err(InsufficientRights)
      else if !Contains(source.value.cap.rights, newRights) then Err(WidenedRights)
      else if source.value.depth + 1 > MAX_DEPTH then Err(DerivationTooDeep)
      else Ok(Node(Capability(newRights, newObject), Some(src.index), source.value.depth + 1))
    }

    method CapDerive(src: SlotId, newRights: CapRights, newObject: CapObject) returns (r: Result<SlotId, CapError>)
      requires Valid()
      modifies this, slots
      ensures Valid()
      ensures DeriveRel(old(View()), src, newRights, newObject, r, View())
      ensures r.Err? ==> slots[..] == old(slots[..]) && freeHead == old(freeHead)
    {
      var checked := CheckDerive(src, newRights, newObject);
      if checked.Err? {
        return Err(checked.error);
      }
      r := Install(checked.value);
    }

    /** Appends the child list of `p` to the scratch queue; the bound check never fires. */
    method CollectChildren(queue: array<nat>, len: nat, p: nat) returns (len': nat)
      requires Valid() && Live(slots[..], p)
      requires queue.Length == slots.Length && len + |kids[p]| <= queue.Length
      modifies queue
      ensures len' == len + |kids[p]|
      ensures queue[..len'] == old(queue[..len]) + kids[p]
    {
      assert Linked(slots[..], kids, p);
      var child := slots[p].entry.value.firstChild;
      len' := len;
      ghost var k := 0;
      while child.Some?
        invariant k <= |kids[p]| && len' == len + k && child == At(kids[p], k)
        invariant queue[..len'] == old(queue[..len]) + kids[p][..k]
        decreases |kids[p]| - k
      {
        assert KidLink(slots[..], kids[p], p, k);
        assert len' < queue.Length;
        queue[len'] := child.value;
        len' := len' + 1;
        child := slots[child.value].entry.value.nextSibling;
        k := k + 1;
      }
      assert kids[p][..k] == kids[p];
    }

    /** Queues every descendant of `s`, breadth first. */
    method CollectDescendants(queue: array<nat>, s: nat) returns (len: nat)
      requires Valid() && Live(slots[..], s) && queue.Length == slots.Length
      modifies queue
      ensures len <= queue.Length
      ensures Distinct(queue[..len]) && Subtree(slots[..], kids, s, Elems(queue[..len]))
    {
      SeedQueue(slots[..], kids, frees, s);
      len := CollectChildren(queue, 0, s);
      assert queue[..len] == kids[s];
      var scan := 0;
      while scan < len
        invariant scan <= len <= queue.Length
        invariant QueueInv(slots[..], kids, s, queue[..len], scan)
        decreases slots.Length - scan
      {
        ghost var q := queue[..len];
        ExpandQueue(slots[..], kids, frees, s, q, scan);
        assert Queued(slots[..], s, q, scan, q[scan]);
        len := CollectChildren(queue, len, queue[scan]);
        scan := scan + 1;
      }
      QueueIsSubtree(slots[..], kids, s, queue[..len]);
    }

    /** Frees the collected slots. */
    method FreeAll(queue: array<nat>, len: nat)
      requires FreeChain(slots[..], freeHead, free) && Covers(slots[..], free) && Tagged(slots[..], frees)
      requires len <= queue.Length && Distinct(queue[..len])
      requires forall k :: 0 <= k < len ==> Live(slots[..], queue[k])
      modifies this`freeHead, this`free, this`frees, slots
      ensures queue[..] == old(queue[..])
      ensures FreeChain(slots[..], freeHead, free) && Covers(slots[..], free) && Tagged(slots[..], frees)
      ensures forall i :: 0 <= i < slots.Length ==>
                if i in queue[..len] then slots[i].entry.None? && frees[i] == old(frees)[i] + 1
                else slots[i] == old(slots[i]) && frees[i] == old(frees)[i]
    {
      for k := 0 to len
        invariant queue[..] == old(queue[..])
        invariant FreeChain(slots[..], freeHead, free) && Covers(slots[..], free) && Tagged(slots[..], frees)
        invariant forall i :: 0 <= i < slots.Length ==>
                    if i in queue[..k] then slots[i].entry.None? && frees[i] == old(frees)[i] + 1
                    else slots[i] == old(slots[i]) && frees[i] == old(frees)[i]
      {
        ghost var before, list := slots[..], free;
        assert queue[..k + 1] == queue[..k] + [queue[k]];
        assert queue[k] !in queue[..k];
        FreeSlot(queue[k]);
        PushCovers(before, list, queue[k], slots[queue[k]]);
      }
    }

    /** Frees the collected subtree below `s` and clears the child link of `s`. */
    method FreeSubtree(queue: array<nat>, len: nat, s: nat)
      requires Valid() && Live(slots[..], s) && len <= queue.Length && Distinct(queue[..len])
      requires Subtree(slots[..], kids, s, Elems(queue[..len]))
      requires ForestOk(Release(View(), Elems(queue[..len])))
      modifies this, slots
      ensures Valid()
      ensures View() == Release(old(View()), old(Elems(queue[..len])))
      ensures OnlyPruned(old(slots[..]), slots[..], s, old(Elems(queue[..len])))
    {
      ghost var before, counts, gone := slots[..], frees, Elems(queue[..len]);
      forall k | 0 <= k < len
        ensures Live(slots[..], queue[k])
      {
        assert queue[..len][k] in gone;
      }
      FreeAll(queue, len);
      ghost var freed := slots[..];
      slots[s] := slots[s].(entry := Some(slots[s].entry.value.(firstChild := None)));
      kids := PrunedKids(kids, s, gone);
      assert slots[..] == freed[s := slots[s]];
      SubtreeIsDescendants(before, old(kids), counts, s, gone);
      RevokeFinish(before, slots[..], old(kids), counts, frees, s, gone);
      KeepChain(freed, slots[..], freeHead, free);
    }

    /** Frees exactly the proper descendants of `src`; every other slot keeps its contents and
        links, and `src` loses only its child link. */
    method CapRevoke(src: SlotId) returns (r: Result<(), CapError>)
      requires Valid()
      modifies this, slots
      ensures Valid()
      ensures RevokeRel(old(View()), src, r, View())
      ensures r.Err? ==> slots[..] == old(slots[..]) && freeHead == old(freeHead)
      ensures r.Ok? ==> OnlyPruned(old(slots[..]), slots[..], src.index, Descendants(old(View()), src.index))
    {
      var resolved := ResolveHandle(src);
      if resolved.Err? {
        return Err(resolved.error);
      }
      var s := resolved.value;
      if !Contains(slots[s].entry.value.cap.rights, {REVOKE}) {
        return Err(InsufficientRights);
      }
      var descendants := new nat[slots.Length];
      var len := CollectDescendants(descendants, s);
      ghost var gone := Elems(descendants[..len]);
      SubtreeIsDescendants(slots[..], kids, frees, s, gone);
      RevokeKeepsOk(View(), src, Ok(()), Release(View(), gone));
      FreeSubtree(descendants, len, s);
      r := Ok(());
    }

    method CapDrop(h: SlotId) returns (r: Result<(), CapError>)
      requires Valid()
      modifies this, slots
      ensures Valid()
      ensures DropRel(old(View()), h, r, View())
      ensures r.Err? ==> slots[..] == old(slots[..]) && freeHead == old(freeHead)
    {
      var resolved := ResolveHandle(h);
      if resolved.Err? {
        return Err(resolved.error);
      }
      var index := resolved.value;
      ChildrenListed(slots[..], kids, frees, index);
      if slots[index].entry.value.firstChild.Some? {
        return Err(HasChildren);
      }
      RemoveLeaf(index);
      r := Ok(());
    }

    method CapTake(h: SlotId) returns (r: Result<Capability, CapError>)
      requires Valid()
      modifies this, slots
      ensures Valid()
      ensures TakeRel(old(View()), h, r, View())
      ensures r.Err? ==> slots[..] == old(slots[..]) && freeHead == old(freeHead)
    {
      var resolved := ResolveHandle(h);
      if resolved.Err? {
        return Err(resolved.error);
      }
      var index := resolved.value;
      ChildrenListed(slots[..], kids, frees, index);
      if slots[index].entry.value.firstChild.Some? {
        return Err(HasChildren);
      }
      var taken := slots[index].entry.value;
      RemoveLeaf(index);
      r := Ok(taken.cap);
    }

    function IsFull(): (full: bool)
      requires Valid()
      reads this, slots
      ensures full <==> Full(View())
    {
      HeadNoneIffFull(slots[..], freeHead, free, View());
      freeHead.None?
    }

    function Lookup(h: SlotId): (r: Result<Capability, CapError>)
      requires Valid()
      reads this, slots
      ensures r == if Resolves(View(), h) then Ok(View().live[h.index].cap) else Err(InvalidHandle)
    {
      var e := EntryOf(h);
      if e.Err? then Err(e.error) else Ok(e.value.cap)
    }

    /** Whether some capability of the table names `target`. */
    method ReferencesObject(target: CapObject) returns (found: bool)
      requires Valid()
      ensures found <==> exists i :: i in View().live && View().live[i].cap.obj == target
    {
      for i := 0 to slots.Length
        invariant forall j :: 0 <= j < i && slots[j].entry.Some? ==> slots[j].entry.value.cap.obj != target
      {
        if slots[i].entry.Some? && slots[i].entry.value.cap.obj == target {
          assert i in View().live;
          return true;
        }
      }
      return false;
    }
  }
}
