/** Capabilities and what a capability table means: a pool of nodes that form a derivation forest.
    Each table operation (kernel/src/cap/table.rs) is a relation between the forest before, its
    result, and the forest after; sibling order and free-list order are not observable here. */
module CapForest {
  import opened Wrappers
  import opened Rights
  import opened SlotPool

  const MAX_DEPTH: nat := 16

  datatype CapObject = Task(task: SlotId) | Endpoint(endpoint: SlotId) | Notification(notification: SlotId)

  datatype Capability = Capability(rights: CapRights, obj: CapObject)

  datatype CapError =
    | CapsExhausted | InvalidHandle | WidenedRights | InsufficientRights | DerivationTooDeep | HasChildren

  datatype Node = Node(cap: Capability, parent: Option<nat>, depth: nat)

  type Forest = Pool<Node>

  ghost predicate CanHold(f: Forest, n: Node) {
    && n.depth <= MAX_DEPTH
    && (n.parent.None? ==> n.depth == 0)
    && (n.parent.Some? ==>
          && n.parent.value in f.live
          && n.depth == f.live[n.parent.value].depth + 1
          && Contains(f.live[n.parent.value].cap.rights, n.cap.rights))
  }

  ghost predicate NodeOk(f: Forest, i: nat)
    requires i in f.live
  {
    CanHold(f, f.live[i])
  }

  /** The derivation invariant: a root has depth 0; any other node has an occupied parent, one level
      up, whose rights contain its own; no depth exceeds the limit. */
  ghost predicate ForestOk(f: Forest) {
    PoolOk(f) && forall i :: i in f.live ==> NodeOk(f, i)
  }

  ghost predicate IsChild(f: Forest, p: nat, c: nat) {
    c in f.live && f.live[c].parent == Some(p)
  }

  ghost predicate HasChild(f: Forest, p: nat) {
    exists c :: IsChild(f, p, c)
  }

  /** `d` is a proper descendant of `a`: its chain of parents reaches `a`. */
  ghost predicate Descends(f: Forest, a: nat, d: nat)
    decreases if d in f.live then f.live[d].depth else 0
  {
    && d in f.live
    && f.live[d].parent.Some?
    && var p := f.live[d].parent.value;
       p == a || (p in f.live && f.live[p].depth < f.live[d].depth && Descends(f, a, p))
  }

  ghost function Descendants(f: Forest, a: nat): set<nat> {
    set d | d in f.live && Descends(f, a, d)
  }

  // ----- The operations as relations -----------------------------------------------------------------

  /** A node is stored in an empty slot, and the result is the handle of that slot. */
  ghost predicate Installed(f: Forest, n: Node, r: Result<SlotId, CapError>, f': Forest) {
    && r.Ok?
    && r.value.index < |f.frees|
    && r.value.index !in f.live
    && r.value == IdOf(f, r.value.index)
    && f' == Alloc(f, r.value.index, n)
  }

  ghost predicate Refused<T>(f: Forest, e: CapError, r: Result<T, CapError>, f': Forest) {
    r == Err(e) && f' == f
  }

  ghost predicate InstallRel(f: Forest, n: Node, r: Result<SlotId, CapError>, f': Forest) {
    if Full(f) then Refused(f, CapsExhausted, r, f') else Installed(f, n, r, f')
  }

  ghost predicate InsertRootRel(f: Forest, cap: Capability, r: Result<SlotId, CapError>, f': Forest) {
    InstallRel(f, Node(cap, None, 0), r, f')
  }

  /** A copy is a peer of its source: same object, parent and depth, no more rights. */
  ghost function CopyNode(f: Forest, src: SlotId, rights: CapRights): Result<Node, CapError> {
    if !Resolves(f, src) then Err(InvalidHandle) else
    var n := f.live[src.index];
    if !Contains(n.cap.rights, {DUPLICATE}) then Err(InsufficientRights)
    else if !Contains(n.cap.rights, rights) then Err(WidenedRights)
    else Ok(Node(Capability(rights, n.cap.obj), n.parent, n.depth))
  }

  ghost predicate CopyRel(f: Forest, src: SlotId, rights: CapRights, r: Result<SlotId, CapError>, f': Forest) {
    match CopyNode(f, src, rights)
    case Err(e) => Refused(f, e, r, f')
    case Ok(n) => InstallRel(f, n, r, f')
  }

  /** A derived capability is a child of its source, for an object that the caller names. */
  ghost function DeriveNode(f: Forest, src: SlotId, rights: CapRights, obj: CapObject): Result<Node, CapError> {
    if !Resolves(f, src) then Err(InvalidHandle) else
    var n := f.live[src.index];
    if !Contains(n.cap.rights, {DERIVE}) then Err(InsufficientRights)
    else if !Contains(n.cap.rights, rights) then Err(WidenedRights)
    else if n.depth + 1 > MAX_DEPTH then Err(DerivationTooDeep)
    else Ok(Node(Capability(rights, obj), Some(src.index), n.depth + 1))
  }

  ghost predicate DeriveRel(f: Forest, src: SlotId, rights: CapRights, obj: CapObject,
                            r: Result<SlotId, CapError>, f': Forest)
  {
    match DeriveNode(f, src, rights, obj)
    case Err(e) => Refused(f, e, r, f')
    case Ok(n) => InstallRel(f, n, r, f')
  }

  /** Revocation frees exactly the proper descendants of its source. */
  ghost predicate RevokeRel(f: Forest, src: SlotId, r: Result<(), CapError>, f': Forest) {
    if !Resolves(f, src) then Refused(f, InvalidHandle, r, f')
    else if !Contains(f.live[src.index].cap.rights, {REVOKE}) then Refused(f, InsufficientRights, r, f')
    else r == Ok(()) && f' == Release(f, Descendants(f, src.index))
  }

  /** Taking a leaf frees its slot and returns its capability; it cannot fail for another reason. */
  ghost predicate TakeRel(f: Forest, h: SlotId, r: Result<Capability, CapError>, f': Forest) {
    if !Resolves(f, h) then Refused(f, InvalidHandle, r, f')
    else if HasChild(f, h.index) then Refused(f, HasChildren, r, f')
    else r == Ok(f.live[h.index].cap) && f' == Release(f, {h.index})
  }

  ghost predicate DropRel(f: Forest, h: SlotId, r: Result<(), CapError>, f': Forest) {
    if !Resolves(f, h) then Refused(f, InvalidHandle, r, f')
    else if HasChild(f, h.index) then Refused(f, HasChildren, r, f')
    else r == Ok(()) && f' == Release(f, {h.index})
  }

  // ----- What every operation keeps ------------------------------------------------------------------

  lemma InstallKeepsOk(f: Forest, n: Node, r: Result<SlotId, CapError>, f': Forest)
    requires ForestOk(f) && Installed(f, n, r, f') && CanHold(f, n)
    ensures ForestOk(f')
  {
  }

  lemma InsertRootKeepsOk(f: Forest, cap: Capability, r: Result<SlotId, CapError>, f': Forest)
    requires ForestOk(f) && InsertRootRel(f, cap, r, f')
    ensures ForestOk(f')
  {
  }

  lemma CopyCanHold(f: Forest, src: SlotId, rights: CapRights)
    requires ForestOk(f) && CopyNode(f, src, rights).Ok?
    ensures CanHold(f, CopyNode(f, src, rights).value)
  {
  }

  lemma CopyKeepsOk(f: Forest, src: SlotId, rights: CapRights, r: Result<SlotId, CapError>, f': Forest)
    requires ForestOk(f) && CopyRel(f, src, rights, r, f')
    ensures ForestOk(f')
  {
  }

  lemma DeriveKeepsOk(f: Forest, src: SlotId, rights: CapRights, obj: CapObject,
                      r: Result<SlotId, CapError>, f': Forest)
    requires ForestOk(f) && DeriveRel(f, src, rights, obj, r, f')
    ensures ForestOk(f')
  {
  }

  /** Freeing a set of nodes that contains the children of its members keeps the forest. */
  lemma ReleaseKeepsOk(f: Forest, gone: set<nat>)
    requires ForestOk(f)
    requires forall p, c :: p in gone && IsChild(f, p, c) ==> c in gone
    ensures ForestOk(Release(f, gone))
  {
  }

  /** A child of `a`, or of a descendant of `a`, is a descendant of `a`. */
  lemma ChildDescends(f: Forest, a: nat, p: nat, c: nat)
    requires ForestOk(f) && IsChild(f, p, c) && (p == a || Descends(f, a, p))
    ensures Descends(f, a, c)
  {
    assert NodeOk(f, c);
  }

  lemma RevokeKeepsOk(f: Forest, src: SlotId, r: Result<(), CapError>, f': Forest)
    requires ForestOk(f) && RevokeRel(f, src, r, f')
    ensures ForestOk(f')
  {
  }

  lemma LeafKeepsOk(f: Forest, i: nat)
    requires ForestOk(f) && !HasChild(f, i)
    ensures ForestOk(Release(f, {i}))
  {
    ReleaseKeepsOk(f, {i});
  }

  // ----- Consequences --------------------------------------------------------------------------------

  /** Descending from `a` means being deeper than `a` and holding no right that `a` lacks. */
  lemma {:induction false} DescendantConfined(f: Forest, a: nat, d: nat)
    requires ForestOk(f) && Descends(f, a, d)
    ensures a in f.live && d in f.live && a != d
    ensures f.live[a].depth < f.live[d].depth
    ensures Contains(f.live[a].cap.rights, f.live[d].cap.rights)
    decreases f.live[d].depth
  {
    assert NodeOk(f, d);
    var p := f.live[d].parent.value;
    if p != a {
      DescendantConfined(f, a, p);
    }
  }

  /** Any set holding the children of `a` and closed under children holds all descendants of `a`. */
  lemma {:induction false} ClosedHoldsDescendants(f: Forest, a: nat, s: set<nat>, d: nat)
    requires ForestOk(f) && Descends(f, a, d)
    requires forall p, c :: (p == a || p in s) && IsChild(f, p, c) ==> c in s
    ensures d in s
    decreases f.live[d].depth
  {
    assert NodeOk(f, d);
    var p := f.live[d].parent.value;
    assert IsChild(f, p, d);
    if p != a {
      ClosedHoldsDescendants(f, a, s, p);
    }
  }

  /** After a successful revocation the source is still there, unchanged and without children, none
      of its former descendants resolves under any handle that did, and every other handle still
      denotes the same node. */
  lemma RevokeIsComplete(f: Forest, src: SlotId, r: Result<(), CapError>, f': Forest)
    requires ForestOk(f) && RevokeRel(f, src, r, f') && r.Ok?
    ensures Resolves(f', src) && f'.live[src.index] == f.live[src.index] && !HasChild(f', src.index)
    ensures forall h :: Resolves(f, h) && Descends(f, src.index, h.index) ==> !Resolves(f', h)
    ensures forall h :: Resolves(f, h) && !Descends(f, src.index, h.index) ==>
              Resolves(f', h) && f'.live[h.index] == f.live[h.index]
    ensures forall d :: !Descends(f', src.index, d)
  {
    if Descends(f, src.index, src.index) {
      DescendantConfined(f, src.index, src.index);
    }
    if c :| IsChild(f', src.index, c) {
      ChildDescends(f, src.index, src.index, c);
    }
    RevokeKeepsOk(f, src, r, f');
    forall d
      ensures !Descends(f', src.index, d)
    {
      if Descends(f', src.index, d) {
        ClosedHoldsDescendants(f', src.index, {}, d);
      }
    }
  }

  // ----- What each operation answers and does, observed through handles ------------------------------

  /** Every handle other than `h` resolves as before, and to the same node. */
  ghost predicate SameBut(f: Forest, f': Forest, h: SlotId) {
    forall g :: g != h ==>
      (Resolves(f', g) <==> Resolves(f, g)) && (Resolves(f, g) ==> f'.live[g.index] == f.live[g.index])
  }

  /** `h` is new, denotes `cap` and has no children; nothing else changed. */
  ghost predicate NewLeaf(f: Forest, f': Forest, h: SlotId, cap: Capability) {
    && !Resolves(f, h) && Resolves(f', h) && f'.live[h.index].cap == cap && !HasChild(f', h.index)
    && SameBut(f, f', h)
  }

  lemma {:induction false} StoredKeepsDescent(f: Forest, i: nat, n: Node, a: nat, d: nat)
    requires ForestOk(f) && i !in f.live && d in f.live
    ensures Descends(Alloc(f, i, n), a, d) <==> Descends(f, a, d)
    decreases f.live[d].depth
  {
    assert NodeOk(f, d);
    if f.live[d].parent.Some? {
      StoredKeepsDescent(f, i, n, a, f.live[d].parent.value);
    }
  }

  lemma InstalledIsLeaf(f: Forest, n: Node, r: Result<SlotId, CapError>, f': Forest)
    requires ForestOk(f) && Installed(f, n, r, f') && CanHold(f, n)
    ensures NewLeaf(f, f', r.value, n.cap)
  {
    var i := r.value.index;
    forall c
      ensures !IsChild(f', i, c)
    {
      if c in f.live {
        assert NodeOk(f, c);
      }
    }
  }

  /** An inserted root is refused exactly by a full table, and descends from nothing. */
  lemma InsertRootLaw(f: Forest, cap: Capability, r: Result<SlotId, CapError>, f': Forest)
    requires ForestOk(f) && InsertRootRel(f, cap, r, f')
    ensures r.Err? <==> Full(f)
    ensures r.Err? ==> r == Err(CapsExhausted) && f' == f
    ensures r.Ok? ==> NewLeaf(f, f', r.value, cap) && forall a :: !Descends(f', a, r.value.index)
  {
    if r.Ok? {
      InstalledIsLeaf(f, Node(cap, None, 0), r, f');
    }
  }

  /** A copy needs `DUPLICATE`, no right beyond the source's, and room, and each refusal names the first
      of these that is missing.  The copy has its source's object and descends from the same nodes, so
      that it is revoked with its source; all other lines of descent stay. */
  lemma CopyLaw(f: Forest, src: SlotId, rights: CapRights, r: Result<SlotId, CapError>, f': Forest)
    requires ForestOk(f) && CopyRel(f, src, rights, r, f')
    ensures r == Err(InvalidHandle) <==> !Resolves(f, src)
    ensures Resolves(f, src) ==>
              var held := f.live[src.index].cap.rights;
              && (r == Err(InsufficientRights) <==> DUPLICATE !in held)
              && (r == Err(WidenedRights) <==> DUPLICATE in held && !(rights <= held))
              && (r == Err(CapsExhausted) <==> DUPLICATE in held && rights <= held && Full(f))
              && (r.Ok? <==> DUPLICATE in held && rights <= held && !Full(f))
    ensures r.Err? ==> f' == f
    ensures r.Ok? ==> NewLeaf(f, f', r.value, Capability(rights, f.live[src.index].cap.obj))
    ensures r.Ok? ==> forall a :: Descends(f', a, r.value.index) <==> Descends(f, a, src.index)
    ensures r.Ok? ==> forall a, d :: d in f.live ==> (Descends(f', a, d) <==> Descends(f, a, d))
  {
    if r.Ok? {
      var n := CopyNode(f, src, rights).value;
      CopyCanHold(f, src, rights);
      InstalledIsLeaf(f, n, r, f');
      forall a, d | d in f.live
        ensures Descends(f', a, d) <==> Descends(f, a, d)
      {
        StoredKeepsDescent(f, r.value.index, n, a, d);
      }
    }
  }

  /** A derivation needs `DERIVE`, no right beyond the source's, depth to spare, and room.  The derived
      capability has the rights and object asked for, is a child of the source, and descends from the
      source and its ancestors only. */
  lemma DeriveLaw(f: Forest, src: SlotId, rights: CapRights, obj: CapObject, r: Result<SlotId, CapError>, f': Forest)
    requires ForestOk(f) && DeriveRel(f, src, rights, obj, r, f')
    ensures r == Err(InvalidHandle) <==> !Resolves(f, src)
    ensures Resolves(f, src) ==>
              var held, deep := f.live[src.index].cap.rights, f.live[src.index].depth >= 16;
              && (r == Err(InsufficientRights) <==> DERIVE !in held)
              && (r == Err(WidenedRights) <==> DERIVE in held && !(rights <= held))
              && (r == Err(DerivationTooDeep) <==> DERIVE in held && rights <= held && deep)
              && (r == Err(CapsExhausted) <==> DERIVE in held && rights <= held && !deep && Full(f))
              && (r.Ok? <==> DERIVE in held && rights <= held && !deep && !Full(f))
    ensures r.Err? ==> f' == f
    ensures r.Ok? ==> NewLeaf(f, f', r.value, Capability(rights, obj)) && IsChild(f', src.index, r.value.index)
    ensures r.Ok? ==> forall a :: Descends(f', a, r.value.index) <==> a == src.index || Descends(f, a, src.index)
    ensures r.Ok? ==> forall a, d :: d in f.live ==> (Descends(f', a, d) <==> Descends(f, a, d))
  {
    if r.Ok? {
      var n := DeriveNode(f, src, rights, obj).value;
      InstalledIsLeaf(f, n, r, f');
      forall a, d | d in f.live
        ensures Descends(f', a, d) <==> Descends(f, a, d)
      {
        StoredKeepsDescent(f, r.value.index, n, a, d);
      }
    }
  }

  /** A drop succeeds exactly on a leaf, whose handle is then dead; no other handle notices. */
  lemma DropLaw(f: Forest, h: SlotId, r: Result<(), CapError>, f': Forest)
    requires ForestOk(f) && DropRel(f, h, r, f')
    ensures r == Err(InvalidHandle) <==> !Resolves(f, h)
    ensures r == Err(HasChildren) <==> Resolves(f, h) && HasChild(f, h.index)
    ensures r.Ok? <==> Resolves(f, h) && !HasChild(f, h.index)
    ensures r.Err? ==> f' == f
    ensures r.Ok? ==> !Resolves(f', h) && h.index !in f'.live && SameBut(f, f', h)
  {
  }

  /** Taking is dropping, with the capability returned. */
  lemma TakeLaw(f: Forest, h: SlotId, r: Result<Capability, CapError>, f': Forest)
    requires ForestOk(f) && TakeRel(f, h, r, f')
    ensures DropRel(f, h, if r.Ok? then Ok(()) else Err(r.error), f')
    ensures r.Ok? ==> Resolves(f, h) && r.value == f.live[h.index].cap && !Resolves(f', h) && SameBut(f, f', h)
  {
  }

  /** When a revocation is refused. */
  lemma RevokeLaw(f: Forest, src: SlotId, r: Result<(), CapError>, f': Forest)
    requires RevokeRel(f, src, r, f')
    ensures r == Err(InvalidHandle) <==> !Resolves(f, src)
    ensures r == Err(InsufficientRights) <==> Resolves(f, src) && REVOKE !in f.live[src.index].cap.rights
    ensures r.Ok? <==> Resolves(f, src) && REVOKE in f.live[src.index].cap.rights
    ensures r.Err? ==> f' == f
  {
  }

  /** A derived capability dies with the next revocation of its source, as does a copy of one. */
  lemma DerivedIsRevoked(f: Forest, src: SlotId, rights: CapRights, obj: CapObject, made: Result<SlotId, CapError>,
                         g: Forest, narrower: CapRights, copied: Result<SlotId, CapError>, g': Forest,
                         r: Result<(), CapError>, f': Forest)
    requires ForestOk(f) && DeriveRel(f, src, rights, obj, made, g) && made.Ok?
    requires CopyRel(g, made.value, narrower, copied, g') && RevokeRel(g', src, r, f')
    ensures r.Ok? <==> REVOKE in f.live[src.index].cap.rights
    ensures r.Ok? ==> Resolves(f', src) && !Resolves(f', made.value) && (copied.Ok? ==> !Resolves(f', copied.value))
  {
    DeriveLaw(f, src, rights, obj, made, g);
    DeriveKeepsOk(f, src, rights, obj, made, g);
    CopyLaw(g, made.value, narrower, copied, g');
    CopyKeepsOk(g, made.value, narrower, copied, g');
    RevokeLaw(g', src, r, f');
    if r.Ok? {
      RevokeIsComplete(g', src, r, f');
    }
  }

  // ----- Generations ---------------------------------------------------------------------------------

  /** A node is never altered while it is in its slot. */
  predicate SameNode(a: Node, b: Node) {
    a == b
  }

  /** Every table operation is a pool step that alters no node. */
  ghost predicate TableNext(f: Forest, f': Forest) {
    PoolNext(f, f', SameNode)
  }

  lemma SameNodePreorder()
    ensures Preorder(SameNode)
  {
  }
}
