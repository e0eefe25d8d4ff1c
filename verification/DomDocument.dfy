/**
 The mutable document: every mutation is validated before any link changes, so
 an error leaves the arena as it was and a success keeps it a forest.
 */
module DomDocument {
  import opened Outcomes
  import opened DomForest
  import opened DomOrder
  import opened DomInvariants

  const U32_MAX: nat := 0xFFFF_FFFF
  const U64_MAX: nat := 0xFFFF_FFFF_FFFF_FFFF

  datatype NodeId = NodeId(document: nat, slot: nat)

  datatype DomError =
    | WrongDocument(expected: nat, actual: nat)
    | UnknownNode(node: NodeId)
    | ArenaCapacityExceeded
    | InvalidName
    | HierarchyRequest
    | Cycle
    | ReferenceIsNotChild
    | NodeIsNotChild
    | NotAnElement
    | NotCharacterData
    | SnapshotInvariant(reason: InvariantError)

  /** A mutation that succeeds either had nothing to do or produced a new arena. */
  datatype Change = Unchanged | Changed(nodes: Nodes)

  function CheckedIndex(id: nat, nodes: Nodes, node: NodeId): (r: Result<nat, DomError>)
    ensures r.Ok? ==> r.value == node.slot < |nodes|
  {
    if node.document != id then Err(WrongDocument(id, node.document))
    else if node.slot >= |nodes| then Err(UnknownNode(node))
    else Ok(node.slot)
  }

  function IndexOf(list: seq<nat>, x: nat): (k: nat)
    ensures k <= |list| && (x in list <==> k < |list|)
    ensures k < |list| ==> list[k] == x
    ensures forall j :: 0 <= j < k ==> list[j] != x
  {
    if list == [] then 0 else if list[0] == x then 0 else 1 + IndexOf(list[1..], x)
  }

  // ---- what each mutation does ------------------------------------------------------------

  /** Where a child goes once it has been taken out of wherever it was. */
  function InsertionIndex(list: seq<nat>, reference: Option<nat>): (k: nat)
    ensures k <= |list|
  {
    if reference.Some? then IndexOf(list, reference.value) else |list|
  }

  /** Moves c under p, unless that breaks the hierarchy. */
  ghost function Move(nodes: Nodes, p: nat, c: nat, reference: Option<nat>): Result<Change, DomError>
    requires Linked(nodes) && p < |nodes| && c < |nodes|
  {
    if c == 0 || !IsContainer(nodes[p].kind) then Err(HierarchyRequest)
    else if Above(nodes, c, p) then Err(Cycle)
    else
      assert NamesItsParent(nodes, c);
      var free := Detach(nodes, c);
      var at := InsertionIndex(free[p].children, reference);
      if LegalChildren(nodes, nodes[p].kind, InsertAt(free[p].children, at, c)) then Ok(Changed(Attach(free, p, c, at)))
      else Err(HierarchyRequest)
  }

  ghost function InsertBefore(id: nat, nodes: Nodes, parent: NodeId, child: NodeId,
                              reference: Option<NodeId>): Result<Change, DomError>
    requires Linked(nodes)
  {
    var p :- CheckedIndex(id, nodes, parent);
    var c :- CheckedIndex(id, nodes, child);
    if reference.None? then Move(nodes, p, c, None)
    else
      var r :- CheckedIndex(id, nodes, reference.value);
      if r !in nodes[p].children then Err(ReferenceIsNotChild)
      else if r == c then Ok(Unchanged)
      else Move(nodes, p, c, Some(r))
  }

  /** The old child's position among the children that stay. */
  function ReplaceIndex(list: seq<nat>, new_: nat, old_: nat): nat {
    var position := IndexOf(list, old_);
    if new_ in list && IndexOf(list, new_) < position then position - 1 else position
  }

  /** Puts n where o is among p's children, unless that breaks the hierarchy. */
  ghost function Replace(nodes: Nodes, p: nat, n: nat, o: nat): Result<Change, DomError>
    requires Linked(nodes) && p < |nodes| && n < |nodes| && o < |nodes| && n != o && o in nodes[p].children
  {
    if n == 0 || !IsContainer(nodes[p].kind) then Err(HierarchyRequest)
    else if Above(nodes, n, p) then Err(Cycle)
    else
      var list := Without(Without(nodes[p].children, n), o);
      var index := ReplaceIndex(nodes[p].children, n, o);
      var at := if index < |list| then index else |list|;
      if !LegalChildren(nodes, nodes[p].kind, InsertAt(list, at, n)) then Err(HierarchyRequest)
      else
        ReplaceStaysInRange(nodes, p, n, o);
        Ok(Changed(Attach(Detach(Detach(nodes, n), o), p, n, at)))
  }

  ghost function ReplaceChild(id: nat, nodes: Nodes, parent: NodeId, newChild: NodeId, oldChild: NodeId)
    : Result<Change, DomError>
    requires Linked(nodes)
  {
    var p :- CheckedIndex(id, nodes, parent);
    var n :- CheckedIndex(id, nodes, newChild);
    var o :- CheckedIndex(id, nodes, oldChild);
    if n == o then if nodes[o].parent == Some(p) then Ok(Unchanged) else Err(NodeIsNotChild)
    else if o !in nodes[p].children then Err(NodeIsNotChild)
    else Replace(nodes, p, n, o)
  }

  lemma ReplaceStaysInRange(nodes: Nodes, p: nat, n: nat, o: nat)
    requires Linked(nodes) && p < |nodes| && n < |nodes| && o < |nodes| && n != o && o in nodes[p].children
    ensures NamesItsParent(nodes, n)
    ensures Detach(nodes, n)[o].parent == Some(p)
    ensures Detach(nodes, n)[p].children == Without(nodes[p].children, n)
    ensures Detach(Detach(nodes, n), o)[p].children == Without(Without(nodes[p].children, n), o)
  {
    assert ListsItsChildren(nodes, p);
    DetachElsewhere(nodes, n, p);
    DetachElsewhere(nodes, n, o);
  }

  ghost function RemoveChild(id: nat, nodes: Nodes, parent: NodeId, child: NodeId): Result<Change, DomError>
    requires Linked(nodes)
  {
    var p :- CheckedIndex(id, nodes, parent);
    var c :- CheckedIndex(id, nodes, child);
    assert NamesItsParent(nodes, c);
    if c in nodes[p].children then Ok(Changed(Detach(nodes, c))) else Err(NodeIsNotChild)
  }

  // ---- every mutation keeps the forest --------------------------------------------------------

  ghost predicate KeepsForest(r: Result<Change, DomError>) {
    r.Ok? && r.value.Changed? ==> Forest(r.value.nodes)
  }

  /** Detaching one node changes no node's ancestors but those below it. */
  lemma {:induction false} DetachKeepsAbove(nodes: Nodes, c: nat, a: nat, x: nat, rank: seq<nat>)
    requires Linked(nodes) && Ranked(nodes, rank) && c < |nodes| && x < |nodes| && NamesItsParent(nodes, c)
    requires !Above(nodes, a, x)
    ensures !Above(Detach(nodes, c), a, x)
    decreases rank[x]
  {
    var next := Detach(nodes, c);
    AboveStep(nodes, a, x);
    AboveStep(next, a, x);
    DetachElsewhere(nodes, c, x);
    if next[x].parent.Some? {
      DetachKeepsAbove(nodes, c, a, nodes[x].parent.value, rank);
    }
  }

  lemma MoveKeepsForest(nodes: Nodes, p: nat, c: nat, reference: Option<nat>)
    requires Forest(nodes) && p < |nodes| && c < |nodes|
    ensures KeepsForest(Move(nodes, p, c, reference))
  {
    var r := Move(nodes, p, c, reference);
    if r.Ok? {
      DetachKeepsForest(nodes, c);
      var free := Detach(nodes, c);
      var rank: seq<nat> :| Ranked(nodes, rank);
      DetachKeepsAbove(nodes, c, c, p, rank);
      var at := InsertionIndex(free[p].children, reference);
      assert KindTag(free[p].kind) == KindTag(nodes[p].kind);
      LegalCarriesOver(nodes, free, nodes[p].kind, InsertAt(free[p].children, at, c));
      LegalSameTag(free, nodes[p].kind, free[p].kind, InsertAt(free[p].children, at, c));
      AttachKeepsForest(free, p, c, at);
    }
  }

  lemma InsertKeepsForest(id: nat, nodes: Nodes, parent: NodeId, child: NodeId, reference: Option<NodeId>)
    requires Forest(nodes)
    ensures KeepsForest(InsertBefore(id, nodes, parent, child, reference))
  {
    if parent.slot < |nodes| && child.slot < |nodes| {
      MoveKeepsForest(nodes, parent.slot, child.slot, None);
      if reference.Some? {
        MoveKeepsForest(nodes, parent.slot, child.slot, Some(reference.value.slot));
      }
    }
  }

  lemma RemoveKeepsForest(id: nat, nodes: Nodes, parent: NodeId, child: NodeId)
    requires Forest(nodes)
    ensures KeepsForest(RemoveChild(id, nodes, parent, child))
  {
    hide Detach;
    if child.slot < |nodes| {
      DetachKeepsForest(nodes, child.slot);
    }
    hide Forest;
    hide Linked;
    assert KeepsForest(RemoveChild(id, nodes, parent, child));
  }

  /** Letting the old and the new child go leaves a forest in which the new one is still not above the parent. */
  lemma ReplaceFrees(nodes: Nodes, p: nat, n: nat, o: nat)
    requires Forest(nodes) && p < |nodes| && n < |nodes| && o < |nodes| && n != o && o in nodes[p].children
    requires !Above(nodes, n, p)
    ensures NamesItsParent(nodes, n) && Detach(nodes, n)[o].parent == Some(p)
    ensures var free := Detach(Detach(nodes, n), o);
            && Forest(free) && !Above(free, n, p) && free[n].parent.None?
            && SameKinds(nodes, free) && KindTag(nodes[p].kind) == KindTag(free[p].kind)
  {
    ReplaceStaysInRange(nodes, p, n, o);
    DetachKeepsForest(nodes, n);
    var once := Detach(nodes, n);
    DetachKeepsForest(once, o);
    var rank: seq<nat> :| Ranked(nodes, rank);
    DetachKeepsAbove(nodes, n, n, p, rank);
    var ranks: seq<nat> :| Ranked(once, ranks);
    DetachKeepsAbove(once, o, n, p, ranks);
    DetachElsewhere(once, o, n);
    KindsCarryOver(nodes, once, Detach(once, o), p);
  }

  lemma ReplacingKeepsForest(nodes: Nodes, p: nat, n: nat, o: nat)
    requires Forest(nodes) && p < |nodes| && n < |nodes| && o < |nodes| && n != o && o in nodes[p].children
    ensures KeepsForest(Replace(nodes, p, n, o))
  {
    if Replace(nodes, p, n, o).Ok? {
      ReplaceStaysInRange(nodes, p, n, o);
      ReplaceFrees(nodes, p, n, o);
      hide Forest;
      hide Detach;
      hide Without;
      hide InsertAt;
      hide LegalChildren;
      var free := Detach(Detach(nodes, n), o);
      var list := free[p].children;
      var index := ReplaceIndex(nodes[p].children, n, o);
      var at := if index < |list| then index else |list|;
      LegalCarriesOver(nodes, free, nodes[p].kind, InsertAt(list, at, n));
      LegalSameTag(free, nodes[p].kind, free[p].kind, InsertAt(list, at, n));
      AttachKeepsForest(free, p, n, at);
    }
  }

  lemma ReplaceKeepsForest(id: nat, nodes: Nodes, parent: NodeId, newChild: NodeId, oldChild: NodeId)
    requires Forest(nodes)
    ensures KeepsForest(ReplaceChild(id, nodes, parent, newChild, oldChild))
  {
    var p, n, o := parent.slot, newChild.slot, oldChild.slot;
    if p < |nodes| && n < |nodes| && o < |nodes| && n != o && o in nodes[p].children {
      ReplacingKeepsForest(nodes, p, n, o);
    }
  }

  lemma KindsCarryOver(a: Nodes, b: Nodes, c: Nodes, p: nat)
    requires SameKinds(a, b) && SameKinds(b, c) && p < |a|
    ensures SameKinds(a, c) && KindTag(a[p].kind) == KindTag(c[p].kind)
  {
    forall i | 0 <= i < |a|
      ensures KindTag(a[i].kind) == KindTag(c[i].kind)
    {
      assert KindTag(a[i].kind) == KindTag(b[i].kind) && KindTag(b[i].kind) == KindTag(c[i].kind);
    }
  }

  // ---- what a mutation achieves ------------------------------------------------------------------

  /** After an insertion the child sits directly before its reference, or last; the other children keep their order. */
  lemma InsertPlacesTheChild(nodes: Nodes, p: nat, c: nat, reference: Option<nat>)
    requires Forest(nodes) && p < |nodes| && c < |nodes|
    requires reference.Some? ==> reference.value in nodes[p].children && reference.value != c
    requires Move(nodes, p, c, reference).Ok?
    ensures var after := Move(nodes, p, c, reference).value.nodes;
            var rest := Without(nodes[p].children, c);
            && |after| == |nodes| && after[c].parent == Some(p)
            && (reference.None? ==> after[p].children == rest + [c])
            && (reference.Some? ==>
                  exists k ::
                      0 <= k < |rest| && rest[k] == reference.value && after[p].children == InsertAt(rest, k, c))
            && (forall x :: 0 <= x < |nodes| && x != c ==> after[x].parent == nodes[x].parent)
            && (forall x :: 0 <= x < |nodes| && x != p ==> after[x].children == Without(nodes[x].children, c))
  {
    var rest := Without(nodes[p].children, c);
    var at := InsertionIndex(rest, reference);
    AboveStep(nodes, c, p);
    DetachElsewhere(nodes, c, p);
    assert Move(nodes, p, c, reference).value == Changed(Attach(Detach(nodes, c), p, c, at));
    AttachWrites(Detach(nodes, c), p, c, p, at);
    if reference.Some? {
      assert reference.value in rest && rest[at] == reference.value;
    } else {
      assert InsertAt(rest, |rest|, c) == rest + [c];
    }
    forall x | 0 <= x < |nodes|
      ensures x != c ==> Attach(Detach(nodes, c), p, c, at)[x].parent == nodes[x].parent
      ensures x != p ==> Attach(Detach(nodes, c), p, c, at)[x].children == Without(nodes[x].children, c)
    {
      DetachElsewhere(nodes, c, x);
    }
  }

  /** The adjusted index is where the old child stood once the new one is taken out. */
  lemma {:induction false} ReplaceIndexIsOldPlace(list: seq<nat>, n: nat, o: nat)
    requires NoDuplicates(list) && n != o && o in list
    ensures ReplaceIndex(list, n, o) == IndexOf(Without(list, n), o) < |Without(list, n)|
  {
    var tail := list[1..];
    assert forall i :: 0 <= i < |tail| ==> tail[i] == list[i + 1];
    assert forall x :: x in list <==> x == list[0] || x in tail;
    if list[0] == o {
      assert Without(list, n) == [o] + Without(tail, n);
    } else if list[0] == n {
      assert n !in tail;
      WithoutAbsent(tail, n);
    } else {
      ReplaceIndexIsOldPlace(tail, n, o);
      var rest := [list[0]] + Without(tail, n);
      assert Without(list, n) == rest && rest[1..] == Without(tail, n);
    }
  }

  /** Leaving out both and putting the new one back at the adjusted index replaces the old one in place. */
  lemma ReplaceInList(list: seq<nat>, n: nat, o: nat)
    requires NoDuplicates(list) && n != o && o in list
    ensures var rest := Without(list, n);
            var index := ReplaceIndex(list, n, o);
            && o in rest && index <= |Without(rest, o)|
            && InsertAt(Without(rest, o), index, n) == rest[IndexOf(rest, o) := n]
  {
    var rest := Without(list, n);
    ReplaceIndexIsOldPlace(list, n, o);
    WithoutKeepsDistinct(list, n);
    RemoveAt(rest, o);
    hide ReplaceIndex;
    hide Without;
    FillGap(rest, IndexOf(rest, o), n);
  }

  lemma FillGap(list: seq<nat>, k: nat, n: nat)
    requires k < |list|
    ensures var gap := list[..k] + list[k + 1..]; k <= |gap| && InsertAt(gap, k, n) == list[k := n]
  {
  }

  /** What attaching writes: the list of the new parent and the child's parent link. */
  lemma AttachWrites(nodes: Nodes, p: nat, n: nat, o: nat, at: nat)
    requires p < |nodes| && n < |nodes| && o < |nodes| && at <= |nodes[p].children| && n != p && o != n
    ensures var after := Attach(nodes, p, n, at);
            after[p].children == InsertAt(nodes[p].children, at, n) && after[n].parent == Some(p) && after[o].parent
                == nodes[o].parent
  {
  }

  /** After a replacement the new child stands where the old one stood, and the old one has no parent. */
  lemma ReplacePutsNewInPlaceOfOld(id: nat, nodes: Nodes, parent: NodeId, newChild: NodeId, oldChild: NodeId)
    requires Forest(nodes) && newChild != oldChild
    requires ReplaceChild(id, nodes, parent, newChild, oldChild).Ok?
    ensures ReplaceChild(id, nodes, parent, newChild, oldChild).value.Changed?
    ensures var after := ReplaceChild(id, nodes, parent, newChild, oldChild).value.nodes;
            var p, n, o := parent.slot, newChild.slot, oldChild.slot;
            var rest := Without(nodes[p].children, n);
            && o in rest && after[p].children == rest[IndexOf(rest, o) := n]
            && after[n].parent == Some(p) && after[o].parent == None && |after| == |nodes|
            && (forall x :: 0 <= x < |nodes| && x != n && x != o ==> after[x].parent == nodes[x].parent)
            && (forall x :: 0 <= x < |nodes| && x != p ==> after[x].children == Without(nodes[x].children, n))
  {
    hide LegalChildren;
    hide ReplaceIndex;
    hide Above;
    hide Attach;
    hide Detach;
    hide InsertAt;
    hide Without;
    hide IndexOf;
    var p, n, o := parent.slot, newChild.slot, oldChild.slot;
    AboveStep(nodes, n, p);
    ReplaceStaysInRange(nodes, p, n, o);
    assert LegalList(nodes, p);
    ReplaceInList(nodes[p].children, n, o);
    var free := Detach(Detach(nodes, n), o);
    AttachWrites(free, p, n, o, ReplaceIndex(nodes[p].children, n, o));
    forall x | 0 <= x < |nodes|
      ensures x != n && x != o ==>
        Attach(free, p, n, ReplaceIndex(nodes[p].children, n, o))[x].parent == nodes[x].parent
      ensures x != p ==>
        Attach(free, p, n, ReplaceIndex(nodes[p].children, n, o))[x].children == Without(nodes[x].children, n)
    {
      DetachElsewhere(nodes, n, x);
      SwapElsewhere(Detach(nodes, n), p, n, o, ReplaceIndex(nodes[p].children, n, o), x);
    }
  }

  /** Letting one child of a node go and taking another in touches no other node. */
  lemma SwapElsewhere(nodes: Nodes, p: nat, n: nat, o: nat, at: nat, x: nat)
    requires p < |nodes| && n < |nodes| && o < |nodes| && x < |nodes| && nodes[o].parent == Some(p)
    requires at <= |Detach(nodes, o)[p].children|
    ensures var after := Attach(Detach(nodes, o), p, n, at);
            && (x != n && x != o ==> after[x].parent == nodes[x].parent)
            && (x != p ==> after[x].children == nodes[x].children)
  {
  }

  /** Dropping a listed node closes the gap it leaves. */
  lemma {:induction false} RemoveAt(list: seq<nat>, o: nat)
    requires NoDuplicates(list) && o in list
    ensures Without(list, o) == list[..IndexOf(list, o)] + list[IndexOf(list, o) + 1..]
  {
    if list[0] == o {
      assert forall i :: 0 <= i < |list[1..]| ==> list[1..][i] == list[i + 1];
      WithoutAbsent(list[1..], o);
    } else {
      assert forall i :: 0 <= i < |list[1..]| ==> list[1..][i] == list[i + 1];
      RemoveAt(list[1..], o);
      var k := IndexOf(list[1..], o);
      assert list[..k + 1] == [list[0]] + list[1..][..k];
      assert list[k + 2..] == list[1..][k + 1..];
    }
  }

  // ---- snapshots ---------------------------------------------------------------------------------

  datatype SnapshotNode = SnapshotNode(slot: nat, record: NodeRecord)

  datatype Snapshot = Snapshot(document: nat, revision: nat, nodes: seq<SnapshotNode>, index: map<nat, nat>)

  /** Nodes in document order, each connected node once, with an index that inverts the order. */
  ghost predicate Pictures(s: Snapshot, nodes: Nodes) {
    && (forall i :: 0 <= i < |s.nodes| ==> s.nodes[i].slot < |nodes| && s.nodes[i].record == nodes[s.nodes[i].slot])
    && (forall i :: 0 <= i < |s.nodes| ==> s.nodes[i].slot in s.index && s.index[s.nodes[i].slot] == i)
    && (forall x :: x in s.index ==> s.index[x] < |s.nodes| && s.nodes[s.index[x]].slot == x)
    && (forall x :: 0 <= x < |nodes| ==> (x in s.index <==> Above(nodes, 0, x)))
  }

  ghost predicate InDocumentOrder(s: Snapshot, nodes: Nodes, rank: seq<nat>, bound: nat) {
    && Ready(nodes, rank, bound)
    && |s.nodes| == |Preorder(nodes, rank, bound, 0)|
    && forall i :: 0 <= i < |s.nodes| ==> s.nodes[i].slot == Preorder(nodes, rank, bound, 0)[i]
  }

  /** The pictures of the nodes of an order without repetition, and where each node is in it. */
  method BuildIndex(nodes: Nodes, order: seq<nat>) returns (pictures: seq<SnapshotNode>, index: map<nat, nat>)
    requires forall i :: 0 <= i < |order| ==> order[i] < |nodes|
    requires forall i, j :: 0 <= i < j < |order| ==> order[i] != order[j]
    ensures |pictures| == |order|
    ensures forall i :: 0 <= i < |order| ==> pictures[i] == SnapshotNode(order[i], nodes[order[i]])
    ensures forall x :: x in index <==> x in order
    ensures forall i :: 0 <= i < |order| ==> order[i] in index && index[order[i]] == i
    ensures forall x :: x in index ==> index[x] < |order| && order[index[x]] == x
  {
    pictures, index := [], map[];
    for k := 0 to |order|
      invariant |pictures| == k
      invariant forall i :: 0 <= i < k ==> pictures[i] == SnapshotNode(order[i], nodes[order[i]])
      invariant forall x :: x in index <==> x in order[..k]
      invariant forall i :: 0 <= i < k ==> order[i] in index && index[order[i]] == i
      invariant forall x :: x in index ==> index[x] < k && order[index[x]] == x
    {
      assert order[..k + 1] == order[..k] + [order[k]];
      index := index[order[k] := |pictures|];
      pictures := pictures + [SnapshotNode(order[k], nodes[order[k]])];
    }
    assert order[..|order|] == order;
  }

  /** A document that is a forest can always be snapshotted. */
  method TakeSnapshot(id: nat, nodes: Nodes, revision: nat) returns (r: Result<Snapshot, DomError>)
    requires Forest(nodes)
    ensures r.Ok? && Pictures(r.value, nodes) && r.value.document == id && r.value.revision == revision
    ensures exists rank: seq<nat>, bound: nat :: InDocumentOrder(r.value, nodes, rank, bound)
  {
    ForestIsAccepted(nodes);
    var valid := ValidateInvariants(nodes);
    assert valid.Ok?;
    ghost var rank, bound := ForestIsReady(nodes);
    var order := DocumentOrder(nodes, rank, bound);
    PreorderIsDistinct(nodes, rank, bound, 0);
    OrderInRange(nodes, rank, bound);
    hide Forest;
    hide Preorder;
    var pictures, index := BuildIndex(nodes, order);
    forall x | 0 <= x < |nodes|
      ensures x in index <==> Above(nodes, 0, x)
    {
      PreorderLists(nodes, rank, bound, 0, x);
    }
    var snapshot := Snapshot(id, revision, pictures, index);
    assert InDocumentOrder(snapshot, nodes, rank, bound);
    return Ok(snapshot);
  }

  lemma OrderInRange(nodes: Nodes, rank: seq<nat>, bound: nat)
    requires Ready(nodes, rank, bound)
    ensures forall i :: 0 <= i < |Preorder(nodes, rank, bound, 0)| ==> Preorder(nodes, rank, bound, 0)[i] < |nodes|
  {
    var order := Preorder(nodes, rank, bound, 0);
    forall i | 0 <= i < |order|
      ensures order[i] < |nodes|
    {
      PreorderInRange(nodes, rank, bound, 0, order[i]);
    }
  }
}
