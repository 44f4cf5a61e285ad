/** The stored form of a capability table (kernel/src/cap/table.rs): slots that carry, besides the
    free list, the derivation forest as first-child and next-sibling links.  `kids[p]` is the ghost
    list of the children of slot `p` in link order.  The lemmas say what each group of slot writes
    does to the stored form and to the forest it stands for. */
module CapSlots {
  import opened Wrappers
  import opened SlotPool
  import opened CapForest

  datatype SlotEntry = SlotEntry(
    cap: Capability, parent: Option<nat>, firstChild: Option<nat>, nextSibling: Option<nat>, depth: nat)

  type Slots = seq<Slot<SlotEntry>>

  predicate Live(slots: Slots, i: nat) {
    i < |slots| && slots[i].entry.Some?
  }

  function NodeOf(e: SlotEntry): Node {
    Node(e.cap, e.parent, e.depth)
  }

  ghost function ViewOf(slots: Slots, frees: seq<nat>): Forest {
    Pool(frees, map i: nat | i < |slots| && slots[i].entry.Some? :: NodeOf(slots[i].entry.value))
  }

  // ----- The stored forest ---------------------------------------------------------------------------

  ghost predicate KidLink(slots: Slots, list: seq<nat>, p: nat, k: nat) {
    && k < |list|
    && Live(slots, list[k])
    && slots[list[k]].entry.value.parent == Some(p)
    && slots[list[k]].entry.value.nextSibling == At(list, k + 1)
  }

  /** The links of the children of `p` spell out `kids[p]`. */
  ghost predicate Linked(slots: Slots, kids: seq<seq<nat>>, p: nat)
    requires p < |slots| == |kids|
  {
    && (!Live(slots, p) ==> kids[p] == [])
    && (Live(slots, p) ==> slots[p].entry.value.firstChild == At(kids[p], 0))
    && Distinct(kids[p])
    && forall k :: 0 <= k < |kids[p]| ==> KidLink(slots, kids[p], p, k)
  }

  /** An occupied slot is a root without siblings, or in the list of its parent. */
  ghost predicate Listed(slots: Slots, kids: seq<seq<nat>>, i: nat)
    requires i < |slots| == |kids|
  {
    Live(slots, i) ==>
      var e := slots[i].entry.value;
      && (e.parent.None? ==> e.nextSibling.None?)
      && (e.parent.Some? ==> e.parent.value < |slots| && i in kids[e.parent.value])
  }

  ghost predicate ForestInv(slots: Slots, kids: seq<seq<nat>>) {
    && |kids| == |slots|
    && (forall p :: 0 <= p < |slots| ==> Linked(slots, kids, p))
    && (forall i :: 0 <= i < |slots| ==> Listed(slots, kids, i))
  }

  /** The invariant of a table. */
  ghost predicate TableInv(slots: Slots, head: Option<nat>, free: seq<nat>, kids: seq<seq<nat>>, frees: seq<nat>) {
    && FreeChain(slots, head, free) && Covers(slots, free) && Tagged(slots, frees)
    && ForestInv(slots, kids)
    && ForestOk(ViewOf(slots, frees))
  }

  lemma KidIs(slots: Slots, kids: seq<seq<nat>>, p: nat, c: nat)
    requires ForestInv(slots, kids) && p < |slots| && c in kids[p]
    ensures Live(slots, c) && slots[c].entry.value.parent == Some(p) && Live(slots, p)
  {
    assert Linked(slots, kids, p);
    var k :| 0 <= k < |kids[p]| && kids[p][k] == c;
    assert KidLink(slots, kids[p], p, k);
  }

  /** The children in the forest are the listed ones; a slot has children iff its link says so. */
  lemma ChildrenListed(slots: Slots, kids: seq<seq<nat>>, frees: seq<nat>, p: nat)
    requires ForestInv(slots, kids) && p < |slots|
    ensures forall c :: IsChild(ViewOf(slots, frees), p, c) <==> c in kids[p]
    ensures HasChild(ViewOf(slots, frees), p) <==> kids[p] != []
    ensures Live(slots, p) ==> (slots[p].entry.value.firstChild.Some? <==> kids[p] != [])
  {
    forall c
      ensures IsChild(ViewOf(slots, frees), p, c) <==> c in kids[p]
    {
      if IsChild(ViewOf(slots, frees), p, c) {
        assert Listed(slots, kids, c);
      } else if c in kids[p] {
        KidIs(slots, kids, p, c);
      }
    }
    assert Linked(slots, kids, p);
    if kids[p] != [] {
      assert IsChild(ViewOf(slots, frees), p, kids[p][0]);
    }
  }

  // ----- Slot writes ---------------------------------------------------------------------------------

  function WithFirstChild(slots: Slots, p: nat, link: Option<nat>): Slots
    requires Live(slots, p)
  {
    slots[p := slots[p].(entry := Some(slots[p].entry.value.(firstChild := link)))]
  }

  function WithNextSibling(slots: Slots, c: nat, link: Option<nat>): Slots
    requires Live(slots, c)
  {
    slots[c := slots[c].(entry := Some(slots[c].entry.value.(nextSibling := link)))]
  }

  /** Entry `e` is stored in the empty slot `i` and becomes the first child of its parent, if any. */
  function Placed(slots: Slots, i: nat, e: SlotEntry): Slots
    requires i < |slots| && !Live(slots, i)
    requires e.parent.Some? ==> Live(slots, e.parent.value)
  {
    var filled := slots[i := Slot(Some(e), slots[i].generation, None)];
    if e.parent.Some? then WithFirstChild(filled, e.parent.value, Some(i)) else filled
  }

  function PlacedKids(kids: seq<seq<nat>>, i: nat, parent: Option<nat>): seq<seq<nat>>
    requires parent.Some? ==> parent.value < |kids|
  {
    if parent.Some? then kids[parent.value := [i] + kids[parent.value]] else kids
  }

  /** What an entry must look like to be placed: childless, and in front of its siblings. */
  predicate Placeable(slots: Slots, i: nat, e: SlotEntry) {
    && i < |slots| && !Live(slots, i)
    && e.firstChild.None?
    && (e.parent.None? ==> e.nextSibling.None?)
    && (e.parent.Some? ==>
          Live(slots, e.parent.value) && e.nextSibling == slots[e.parent.value].entry.value.firstChild)
  }

  lemma PlaceLinked(slots: Slots, kids: seq<seq<nat>>, i: nat, e: SlotEntry, q: nat)
    requires ForestInv(slots, kids) && Placeable(slots, i, e) && q < |slots|
    ensures Linked(Placed(slots, i, e), PlacedKids(kids, i, e.parent), q)
  {
    var slots' := Placed(slots, i, e);
    var kids' := PlacedKids(kids, i, e.parent);
    assert Linked(slots, kids, q);
    forall k | 0 <= k < |kids[q]|
      ensures kids[q][k] != i
    {
      assert KidLink(slots, kids[q], q, k);
    }
    if e.parent == Some(q) {
      forall k | 0 <= k < |kids'[q]|
        ensures KidLink(slots', kids'[q], q, k)
      {
        if k > 0 {
          assert KidLink(slots, kids[q], q, k - 1);
        }
      }
    } else {
      forall k | 0 <= k < |kids'[q]|
        ensures KidLink(slots', kids'[q], q, k)
      {
        assert KidLink(slots, kids[q], q, k);
      }
    }
  }

  lemma PlaceForest(slots: Slots, kids: seq<seq<nat>>, i: nat, e: SlotEntry)
    requires ForestInv(slots, kids) && Placeable(slots, i, e)
    ensures ForestInv(Placed(slots, i, e), PlacedKids(kids, i, e.parent))
  {
    var slots' := Placed(slots, i, e);
    var kids' := PlacedKids(kids, i, e.parent);
    forall q | 0 <= q < |slots|
      ensures Linked(slots', kids', q) && Listed(slots', kids', q)
    {
      PlaceLinked(slots, kids, i, e, q);
      assert Listed(slots, kids, q);
    }
  }

  lemma PlaceView(slots: Slots, frees: seq<nat>, i: nat, e: SlotEntry)
    requires Placeable(slots, i, e)
    ensures ViewOf(Placed(slots, i, e), frees) == Alloc(ViewOf(slots, frees), i, NodeOf(e))
  {
  }

  /** Placing an entry in the head of the free list keeps the table invariant. */
  lemma PlaceStep(slots: Slots, head: Option<nat>, free: seq<nat>, kids: seq<seq<nat>>, frees: seq<nat>, e: SlotEntry)
    requires TableInv(slots, head, free, kids, frees) && head.Some? && Placeable(slots, head.value, e)
    requires ForestOk(Alloc(ViewOf(slots, frees), head.value, NodeOf(e)))
    ensures TableInv(Placed(slots, head.value, e), slots[head.value].nextFree, free[1..],
                     PlacedKids(kids, head.value, e.parent), frees)
  {
    var i := head.value;
    var filled := slots[i := Slot(Some(e), slots[i].generation, None)];
    var slots' := Placed(slots, i, e);
    PopChain(slots, head, free, filled[i]);
    KeepChain(filled, slots', slots[i].nextFree, free[1..]);
    assert free == [i] + free[1..];
    PlaceForest(slots, kids, i, e);
    PlaceView(slots, frees, i, e);
  }

  // ----- Unlinking a leaf ----------------------------------------------------------------------------

  ghost function IndexIn(list: seq<nat>, x: nat): (k: nat)
    requires x in list
    ensures k < |list| && list[k] == x
  {
    var k :| 0 <= k < |list| && list[k] == x;
    k
  }

  /** The slots after the link to `i` has been redirected to the sibling that follows `i`. */
  ghost function Unlinked(slots: Slots, kids: seq<seq<nat>>, i: nat): (slots': Slots)
    requires ForestInv(slots, kids) && Live(slots, i)
    ensures |slots'| == |slots|
  {
    assert Listed(slots, kids, i);
    var e := slots[i].entry.value;
    if e.parent.None? then slots else
    var p := e.parent.value;
    var k := IndexIn(kids[p], i);
    assert Linked(slots, kids, p);
    if k == 0 then WithFirstChild(slots, p, e.nextSibling)
    else
      assert KidLink(slots, kids[p], p, k - 1);
      WithNextSibling(slots, kids[p][k - 1], e.nextSibling)
  }

  ghost function Without(list: seq<nat>, k: nat): seq<nat>
    requires k < |list|
  {
    list[..k] + list[k + 1..]
  }

  ghost function UnlinkedKids(slots: Slots, kids: seq<seq<nat>>, i: nat): (kids': seq<seq<nat>>)
    requires ForestInv(slots, kids) && Live(slots, i)
    ensures |kids'| == |kids|
  {
    assert Listed(slots, kids, i);
    var parent := slots[i].entry.value.parent;
    if parent.None? then kids else kids[parent.value := Without(kids[parent.value], IndexIn(kids[parent.value], i))]
  }

  /** The parent's list after the removal. */
  lemma UnlinkParent(slots: Slots, kids: seq<seq<nat>>, i: nat, slot: Slot<SlotEntry>, p: nat)
    requires ForestInv(slots, kids) && Live(slots, i) && kids[i] == [] && slot.entry.None?
    requires slots[i].entry.value.parent == Some(p) && p < |slots|
    ensures Linked(Unlinked(slots, kids, i)[i := slot], UnlinkedKids(slots, kids, i), p)
  {
    assert Listed(slots, kids, i);
    assert Linked(slots, kids, p);
    var list := kids[p];
    var k := IndexIn(list, i);
    var list' := Without(list, k);
    var slots' := Unlinked(slots, kids, i)[i := slot];
    assert KidLink(slots, list, p, k);
    assert p != i;
    assert forall j :: 0 <= j < |list'| ==> list'[j] == list[if j < k then j else j + 1];
    forall j | 0 <= j < |list'|
      ensures KidLink(slots', list', p, j)
    {
      assert KidLink(slots, list, p, if j < k then j else j + 1);
    }
  }

  /** Every other list is untouched. */
  lemma UnlinkOther(slots: Slots, kids: seq<seq<nat>>, i: nat, slot: Slot<SlotEntry>, q: nat)
    requires ForestInv(slots, kids) && Live(slots, i) && kids[i] == [] && slot.entry.None?
    requires q < |slots| && slots[i].entry.value.parent != Some(q)
    ensures Linked(Unlinked(slots, kids, i)[i := slot], UnlinkedKids(slots, kids, i), q)
  {
    assert Listed(slots, kids, i);
    assert Linked(slots, kids, q);
    var slots' := Unlinked(slots, kids, i)[i := slot];
    var parent := slots[i].entry.value.parent;
    if parent.Some? {
      assert Linked(slots, kids, parent.value);
      var k := IndexIn(kids[parent.value], i);
      if k > 0 {
        assert KidLink(slots, kids[parent.value], parent.value, k - 1);
      }
    }
    forall j | 0 <= j < |kids[q]|
      ensures KidLink(slots', kids[q], q, j)
    {
      assert KidLink(slots, kids[q], q, j);
    }
  }

  lemma UnlinkListed(slots: Slots, kids: seq<seq<nat>>, i: nat, slot: Slot<SlotEntry>, q: nat)
    requires ForestInv(slots, kids) && Live(slots, i) && slot.entry.None? && q < |slots|
    ensures Listed(Unlinked(slots, kids, i)[i := slot], UnlinkedKids(slots, kids, i), q)
  {
    assert Listed(slots, kids, i) && Listed(slots, kids, q);
    var parent := slots[i].entry.value.parent;
    if parent.Some? {
      var list := kids[parent.value];
      var k := IndexIn(list, i);
      assert Linked(slots, kids, parent.value);
      if k > 0 {
        assert KidLink(slots, list, parent.value, k - 1);
      }
      if q != i && q in list {
        var j := IndexIn(list, q);
        assert Without(list, k)[if j < k then j else j - 1] == q;
      }
    }
  }

  lemma UnlinkView(slots: Slots, kids: seq<seq<nat>>, frees: seq<nat>, i: nat, slot: Slot<SlotEntry>)
    requires ForestInv(slots, kids) && Live(slots, i) && slot.entry.None? && |frees| == |slots|
    ensures forall j :: 0 <= j < |slots| ==>
              var t := Unlinked(slots, kids, i)[j];
              && t.generation == slots[j].generation && t.nextFree == slots[j].nextFree
              && (t.entry.Some? <==> slots[j].entry.Some?)
              && (t.entry.Some? ==> NodeOf(t.entry.value) == NodeOf(slots[j].entry.value))
    ensures ViewOf(Unlinked(slots, kids, i)[i := slot], frees[i := frees[i] + 1]) == Release(ViewOf(slots, frees), {i})
  {
    var u := Unlinked(slots, kids, i);
    assert Listed(slots, kids, i);
    var parent := slots[i].entry.value.parent;
    if parent.Some? {
      assert Linked(slots, kids, parent.value);
      var k := IndexIn(kids[parent.value], i);
      if k > 0 {
        assert KidLink(slots, kids[parent.value], parent.value, k - 1);
      } else {
        KidIs(slots, kids, parent.value, i);
      }
    }
    var p := ViewOf(u[i := slot], frees[i := frees[i] + 1]);
    var q := Release(ViewOf(slots, frees), {i});
    assert p.frees == q.frees;
    assert p.live == q.live;
  }

  /** Unlinking and emptying a leaf keeps the stored forest, and is `Release` of that leaf. */
  lemma UnlinkForest(slots: Slots, kids: seq<seq<nat>>, frees: seq<nat>, i: nat, slot: Slot<SlotEntry>)
    requires ForestInv(slots, kids) && Live(slots, i) && kids[i] == [] && slot.entry.None? && |frees| == |slots|
    ensures ForestInv(Unlinked(slots, kids, i)[i := slot], UnlinkedKids(slots, kids, i))
    ensures ViewOf(Unlinked(slots, kids, i)[i := slot], frees[i := frees[i] + 1]) == Release(ViewOf(slots, frees), {i})
  {
    var slots' := Unlinked(slots, kids, i)[i := slot];
    var kids' := UnlinkedKids(slots, kids, i);
    forall q | 0 <= q < |slots|
      ensures Linked(slots', kids', q) && Listed(slots', kids', q)
    {
      UnlinkListed(slots, kids, i, slot, q);
      if slots[i].entry.value.parent == Some(q) {
        UnlinkParent(slots, kids, i, slot, q);
      } else {
        UnlinkOther(slots, kids, i, slot, q);
      }
    }
    UnlinkView(slots, kids, frees, i, slot);
  }

  /** Unlinking a leaf, emptying it and pushing it on the free list keeps the table invariant. */
  lemma UnlinkStep(slots: Slots, head: Option<nat>, free: seq<nat>, kids: seq<seq<nat>>, frees: seq<nat>, i: nat)
    requires TableInv(slots, head, free, kids, frees) && Live(slots, i) && kids[i] == []
    ensures var slots' := Unlinked(slots, kids, i)[i := Slot(None, NextGeneration(slots[i].generation), head)];
            && TableInv(slots', Some(i), [i] + free, UnlinkedKids(slots, kids, i), frees[i := frees[i] + 1])
            && ViewOf(slots', frees[i := frees[i] + 1]) == Release(ViewOf(slots, frees), {i})
  {
    var u := Unlinked(slots, kids, i);
    var slot := Slot(None, NextGeneration(slots[i].generation), head);
    UnlinkForest(slots, kids, frees, i, slot);
    UnlinkView(slots, kids, frees, i, slot);
    KeepChain(slots, u, head, free);
    PushChain(u, head, free, i, slot);
    assert Covers(u, free);
    PushCovers(u, free, i, slot);
    assert Tagged(u, frees);
    PushTagged(u, frees, i, slot);
    ChildrenListed(slots, kids, frees, i);
    LeafKeepsOk(ViewOf(slots, frees), i);
  }

  // ----- Revocation ----------------------------------------------------------------------------------

  /** `gone` holds, besides other nodes only below it, all children of `src` and of its own members. */
  ghost predicate Subtree(slots: Slots, kids: seq<seq<nat>>, src: nat, gone: set<nat>)
    requires |kids| == |slots|
  {
    && (forall d :: d in gone ==> Live(slots, d) && d != src)
    && (forall d :: d in gone ==>
          && slots[d].entry.value.parent.Some?
          && (slots[d].entry.value.parent.value == src || slots[d].entry.value.parent.value in gone))
    && (forall p, c :: 0 <= p < |slots| && (p == src || p in gone) && c in kids[p] ==> c in gone)
  }

  /** `slots'` is `slots` with the members of `gone` emptied and `src` left childless. */
  ghost predicate Pruned(slots: Slots, slots': Slots, src: nat, gone: set<nat>)
    requires Live(slots, src)
  {
    && |slots'| == |slots|
    && forall i :: 0 <= i < |slots| ==>
         slots'[i].entry ==
           if i in gone then None
           else if i == src then Some(slots[src].entry.value.(firstChild := None))
           else slots[i].entry
  }

  /** Outside `gone`, only the child link of `src` has changed. */
  ghost predicate OnlyPruned(slots: Slots, slots': Slots, src: nat, gone: set<nat>) {
    && |slots'| == |slots|
    && Live(slots, src)
    && slots'[src] == WithFirstChild(slots, src, None)[src]
    && forall i :: 0 <= i < |slots| && i != src && i !in gone ==> slots'[i] == slots[i]
  }

  ghost function PrunedKids(kids: seq<seq<nat>>, src: nat, gone: set<nat>): seq<seq<nat>> {
    seq(|kids|, i requires 0 <= i < |kids| => if i == src || i in gone then [] else kids[i])
  }

  lemma PruneForest(slots: Slots, kids: seq<seq<nat>>, slots': Slots, src: nat, gone: set<nat>)
    requires ForestInv(slots, kids) && Live(slots, src)
    requires Subtree(slots, kids, src, gone) && Pruned(slots, slots', src, gone)
    ensures ForestInv(slots', PrunedKids(kids, src, gone))
  {
    var kids' := PrunedKids(kids, src, gone);
    forall q | 0 <= q < |slots|
      ensures Linked(slots', kids', q) && Listed(slots', kids', q)
    {
      assert Linked(slots, kids, q) && Listed(slots, kids, q);
      if kids'[q] != [] {
        forall k | 0 <= k < |kids'[q]|
          ensures KidLink(slots', kids'[q], q, k)
        {
          assert KidLink(slots, kids[q], q, k);
        }
      }
    }
  }

  lemma PruneView(slots: Slots, slots': Slots, frees: seq<nat>, src: nat, gone: set<nat>)
    requires Live(slots, src) && src !in gone && Pruned(slots, slots', src, gone) && |frees| == |slots|
    ensures ViewOf(slots', Release(ViewOf(slots, frees), gone).frees) == Release(ViewOf(slots, frees), gone)
  {
  }

  lemma {:induction false} MemberDescends(f: Forest, src: nat, gone: set<nat>, d: nat)
    requires ForestOk(f) && d in gone && d in f.live
    requires forall x :: x in gone ==>
      && x in f.live && f.live[x].parent.Some?
      && (f.live[x].parent.value == src || f.live[x].parent.value in gone)
    ensures Descends(f, src, d)
    decreases f.live[d].depth
  {
    assert NodeOk(f, d);
    var p := f.live[d].parent.value;
    if p != src {
      MemberDescends(f, src, gone, p);
    }
  }

  /** A subtree below `src` is the set of its descendants. */
  lemma SubtreeIsDescendants(slots: Slots, kids: seq<seq<nat>>, frees: seq<nat>, src: nat, gone: set<nat>)
    requires ForestInv(slots, kids) && ForestOk(ViewOf(slots, frees)) && Live(slots, src)
    requires Subtree(slots, kids, src, gone)
    ensures gone == Descendants(ViewOf(slots, frees), src)
  {
    var f := ViewOf(slots, frees);
    forall d | d in gone
      ensures Descends(f, src, d)
    {
      MemberDescends(f, src, gone, d);
    }
    forall d | Descends(f, src, d)
      ensures d in gone
    {
      forall p, c | (p == src || p in gone) && IsChild(f, p, c)
        ensures c in gone
      {
        ChildrenListed(slots, kids, frees, p);
      }
      ClosedHoldsDescendants(f, src, gone, d);
    }
  }

  // ----- The breadth-first queue of a revocation -----------------------------------------------------

  ghost predicate Queued(slots: Slots, src: nat, queue: seq<nat>, scan: nat, d: nat)
    requires Live(slots, src) && scan <= |queue|
  {
    && Live(slots, d)
    && slots[src].entry.value.depth < slots[d].entry.value.depth
    && slots[d].entry.value.parent.Some?
    && (slots[d].entry.value.parent.value == src || slots[d].entry.value.parent.value in queue[..scan])
  }

  /** `queue` holds distinct occupied slots below `src`; the first `scan` of them, and `src`, have had
      their children appended, and nothing else has been queued. */
  ghost predicate QueueInv(slots: Slots, kids: seq<seq<nat>>, src: nat, queue: seq<nat>, scan: nat)
    requires |kids| == |slots| && Live(slots, src)
  {
    && scan <= |queue|
    && Distinct(queue)
    && (forall m :: 0 <= m < |queue| ==> Queued(slots, src, queue, scan, queue[m]))
    && (forall p, c :: 0 <= p < |slots| && (p == src || p in queue[..scan]) && c in kids[p] ==> c in queue)
  }

  /** A listed child is one level below its parent. */
  lemma KidDepth(slots: Slots, kids: seq<seq<nat>>, frees: seq<nat>, p: nat, c: nat)
    requires ForestInv(slots, kids) && ForestOk(ViewOf(slots, frees)) && p < |slots| && c in kids[p]
    ensures Live(slots, p) && Live(slots, c) && slots[c].entry.value.depth == slots[p].entry.value.depth + 1
    ensures slots[c].entry.value.parent == Some(p)
  {
    KidIs(slots, kids, p, c);
    assert NodeOk(ViewOf(slots, frees), c);
  }

  lemma SeedQueue(slots: Slots, kids: seq<seq<nat>>, frees: seq<nat>, src: nat)
    requires ForestInv(slots, kids) && ForestOk(ViewOf(slots, frees)) && Live(slots, src)
    ensures QueueInv(slots, kids, src, kids[src], 0)
    ensures |kids[src]| <= |slots|
  {
    assert Linked(slots, kids, src);
    forall m | 0 <= m < |kids[src]|
      ensures Queued(slots, src, kids[src], 0, kids[src][m])
    {
      KidDepth(slots, kids, frees, src, kids[src][m]);
    }
    DistinctBound(kids[src], |slots|);
  }

  lemma ExpandDistinct(slots: Slots, kids: seq<seq<nat>>, frees: seq<nat>, src: nat, queue: seq<nat>, scan: nat)
    requires ForestInv(slots, kids) && ForestOk(ViewOf(slots, frees)) && Live(slots, src)
    requires QueueInv(slots, kids, src, queue, scan) && scan < |queue|
    ensures queue[scan] < |slots| && Distinct(queue + kids[queue[scan]])
  {
    var p := queue[scan];
    assert Queued(slots, src, queue, scan, queue[scan]);
    assert Linked(slots, kids, p);
    var more := queue + kids[p];
    forall a, b | 0 <= a < b < |more|
      ensures more[a] != more[b]
    {
      if a < |queue| <= b {
        KidDepth(slots, kids, frees, p, more[b]);
        assert Queued(slots, src, queue, scan, queue[a]);
      }
    }
  }

  /** Appending the children of the next queued slot keeps the queue, which never outgrows the table. */
  lemma ExpandQueue(slots: Slots, kids: seq<seq<nat>>, frees: seq<nat>, src: nat, queue: seq<nat>, scan: nat)
    requires ForestInv(slots, kids) && ForestOk(ViewOf(slots, frees)) && Live(slots, src)
    requires QueueInv(slots, kids, src, queue, scan) && scan < |queue|
    ensures queue[scan] < |slots|
    ensures QueueInv(slots, kids, src, queue + kids[queue[scan]], scan + 1)
    ensures |queue + kids[queue[scan]]| <= |slots|
  {
    var p := queue[scan];
    ExpandDistinct(slots, kids, frees, src, queue, scan);
    assert Queued(slots, src, queue, scan, queue[scan]);
    var more := queue + kids[p];
    assert more[..scan + 1] == queue[..scan] + [p];
    forall m | 0 <= m < |more|
      ensures Queued(slots, src, more, scan + 1, more[m])
    {
      if m < |queue| {
        assert Queued(slots, src, queue, scan, queue[m]);
      } else {
        KidDepth(slots, kids, frees, p, more[m]);
      }
    }
    DistinctBound(more, |slots|);
  }

  /** When every queued slot has been expanded, the queue is the subtree below `src`. */
  lemma QueueIsSubtree(slots: Slots, kids: seq<seq<nat>>, src: nat, queue: seq<nat>)
    requires |kids| == |slots| && Live(slots, src) && QueueInv(slots, kids, src, queue, |queue|)
    ensures Subtree(slots, kids, src, Elems(queue))
  {
  }

  /** Emptying the subtree below `src`, with one free counted per member, is the revocation. */
  lemma RevokeFinish(slots: Slots, slots': Slots, kids: seq<seq<nat>>, frees: seq<nat>, frees': seq<nat>,
                     src: nat, gone: set<nat>)
    requires ForestInv(slots, kids) && ForestOk(ViewOf(slots, frees)) && Live(slots, src)
    requires Subtree(slots, kids, src, gone) && Pruned(slots, slots', src, gone)
    requires |frees| == |frees'| == |slots|
    requires forall i :: 0 <= i < |frees| ==> frees'[i] == if i in gone then frees[i] + 1 else frees[i]
    ensures ForestInv(slots', PrunedKids(kids, src, gone))
    ensures ViewOf(slots', frees') == Release(ViewOf(slots, frees), Descendants(ViewOf(slots, frees), src))
  {
    SubtreeIsDescendants(slots, kids, frees, src, gone);
    PruneForest(slots, kids, slots', src, gone);
    PruneView(slots, slots', frees, src, gone);
    assert frees' == Release(ViewOf(slots, frees), gone).frees;
  }
}
