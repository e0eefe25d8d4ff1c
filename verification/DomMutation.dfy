/** The document object: its methods change links in place, proved equal to the mutations of DomDocument. */
module DomMutation {
  import opened Outcomes
  import opened DomForest
  import opened DomOrder
  import opened DomInvariants
  import opened DomDocument

  /** What a mutation that meets its specification leaves behind. */
  predicate Applied(spec: Result<Change, DomError>, r: Result<(), DomError>, before: Nodes, revision: nat,
                    after: Nodes, next: nat) {
    match spec
    case Err(e) => r == Err(e) && after == before && next == revision
    case Ok(Unchanged) => r == Ok(()) && after == before && next == revision
    case Ok(Changed(nodes)) => r == Ok(()) && after == nodes && next == revision + 1
  }

  method ValidateChildren(nodes: Nodes, kind: NodeKind, children: seq<nat>) returns (legal: bool)
    requires forall i :: 0 <= i < |children| ==> children[i] < |nodes|
    ensures legal == LegalChildren(nodes, kind, children)
  {
    if kind.DocumentNode? {
      legal := ValidateDocumentChildren(nodes, children);
      return;
    }
    if !kind.Element? {
      return false;
    }
    for i := 0 to |children|
      invariant forall k :: 0 <= k < i ==>
        !nodes[children[k]].kind.DocumentNode? && !nodes[children[k]].kind.DocumentType?
    {
      if nodes[children[i]].kind.DocumentNode? || nodes[children[i]].kind.DocumentType? {
        return false;
      }
    }
    return true;
  }

  /** Unlinking from the old parent, writing the new list and the parent link: a detach and an attach. */
  function Relinked(nodes: Nodes, p: nat, c: nat, list: seq<nat>): (next: Nodes)
    requires p < |nodes| && c < |nodes| && (nodes[c].parent.Some? ==> nodes[c].parent.value < |nodes|)
    ensures |next| == |nodes|
  {
    var unlinked := if nodes[c].parent.Some?
      then WithChildren(nodes, nodes[c].parent.value, Without(nodes[nodes[c].parent.value].children, c)) else nodes;
    WithParent(WithChildren(unlinked, p, list), c, Some(p))
  }

  lemma RelinkedIsMoved(nodes: Nodes, p: nat, c: nat, at: nat)
    requires Linked(nodes) && p < |nodes| && c < |nodes| && NamesItsParent(nodes, c) && p != c
    requires at <= |Without(nodes[p].children, c)|
    ensures Detach(nodes, c)[p].children == Without(nodes[p].children, c)
    ensures Relinked(nodes, p, c, InsertAt(Without(nodes[p].children, c), at, c)) == Attach(Detach(nodes, c), p, c, at)
  {
    DetachElsewhere(nodes, c, p);
  }

  /** Node x after the in-place changes of a replacement is node x after two detaches and an attach. */
  lemma RelinkedNode(nodes: Nodes, p: nat, n: nat, o: nat, at: nat, x: nat)
    requires Linked(nodes) && p < |nodes| && n < |nodes| && o < |nodes|
    requires n != o && o in nodes[p].children && p != n && p != o
    requires at <= |Without(Without(nodes[p].children, n), o)| && x < |nodes|
    requires NamesItsParent(nodes, n) && Detach(nodes, n)[o].parent == Some(p)
    requires Detach(Detach(nodes, n), o)[p].children == Without(Without(nodes[p].children, n), o)
    ensures WithParent(Relinked(nodes, p, n, InsertAt(Without(Without(nodes[p].children, n), o), at, n)), o, None)[x]
         == Attach(Detach(Detach(nodes, n), o), p, n, at)[x]
  {
  }

  lemma RelinkedIsReplaced(nodes: Nodes, p: nat, n: nat, o: nat, at: nat)
    requires Linked(nodes) && p < |nodes| && n < |nodes| && o < |nodes|
    requires n != o && o in nodes[p].children && p != n && p != o
    requires at <= |Without(Without(nodes[p].children, n), o)|
    ensures NamesItsParent(nodes, n)
    ensures Detach(nodes, n)[o].parent == Some(p)
    ensures Detach(Detach(nodes, n), o)[p].children == Without(Without(nodes[p].children, n), o)
    ensures WithParent(Relinked(nodes, p, n, InsertAt(Without(Without(nodes[p].children, n), o), at, n)), o, None)
         == Attach(Detach(Detach(nodes, n), o), p, n, at)
  {
    ReplaceStaysInRange(nodes, p, n, o);
    var list := InsertAt(Without(Without(nodes[p].children, n), o), at, n);
    var relinked := WithParent(Relinked(nodes, p, n, list), o, None);
    var replaced := Attach(Detach(Detach(nodes, n), o), p, n, at);
    hide Relinked;
    hide Attach;
    hide Detach;
    hide Without;
    hide InsertAt;
    hide Linked;
    forall x | 0 <= x < |nodes|
      ensures relinked[x] == replaced[x]
    {
      RelinkedNode(nodes, p, n, o, at, x);
    }
  }

  /** Closing the gap a child leaves in its parent's list and clearing its link is a detach. */
  lemma UnlinkedIsDetached(nodes: Nodes, p: nat, c: nat)
    requires Linked(nodes) && p < |nodes| && c in nodes[p].children
    ensures c < |nodes| && NamesItsParent(nodes, c)
    ensures var list, k := nodes[p].children, IndexOf(nodes[p].children, c);
            WithParent(WithChildren(nodes, p, list[..k] + list[k + 1..]), c, None) == Detach(nodes, c)
  {
    assert ListsItsChildren(nodes, p) && LegalList(nodes, p) && NamesItsParent(nodes, c);
    hide Linked;
    hide LegalChildren;
    RemoveAt(nodes[p].children, c);
  }

  lemma ListInRange(nodes: Nodes, p: nat, c: nat, at: nat, list: seq<nat>)
    requires Linked(nodes) && p < |nodes| && c < |nodes| && at <= |list|
    requires forall x :: x in list ==> x in nodes[p].children
    ensures forall i :: 0 <= i < |InsertAt(list, at, c)| ==> InsertAt(list, at, c)[i] < |nodes|
  {
    assert ListsItsChildren(nodes, p);
    InsertMembers(list, at, c);
    var longer := InsertAt(list, at, c);
    forall i | 0 <= i < |longer|
      ensures longer[i] < |nodes|
    {
      assert longer[i] in longer;
    }
  }

  class Document {
    const id: nat
    var nodes: Nodes
    var revision: nat

    ghost predicate Valid()
      reads this
    {
      Forest(nodes)
    }

    constructor (id: nat)
      ensures Valid() && this.id == id && revision == 0 && nodes == [NodeRecord(None, [], DocumentNode)]
    {
      this.id := id;
      nodes := [NodeRecord(None, [], DocumentNode)];
      revision := 0;
      new;
      assert Ranked(nodes, [0]);
    }

    /** A private working copy with the same identities. */
    constructor Copy(id: nat, nodes: Nodes)
      requires Forest(nodes)
      ensures Valid() && this.id == id && this.nodes == nodes && revision == 0
    {
      this.id := id;
      this.nodes := nodes;
      revision := 0;
    }

    method Allocate(kind: NodeKind) returns (r: Result<NodeId, DomError>)
      requires Valid() && !kind.DocumentNode? && revision < U64_MAX
      modifies this
      ensures Valid()
      ensures |old(nodes)| > U32_MAX ==>
        r == Err(ArenaCapacityExceeded) && nodes == old(nodes) && revision == old(revision)
      ensures |old(nodes)| <= U32_MAX ==>
        && r == Ok(NodeId(id, |old(nodes)|))
        && nodes == old(nodes) + [NodeRecord(None, [], kind)] && revision == old(revision) + 1
    {
      if |nodes| > U32_MAX {
        return Err(ArenaCapacityExceeded);
      }
      AllocateKeepsForest(nodes, kind);
      var slot := |nodes|;
      nodes := nodes + [NodeRecord(None, [], kind)];
      revision := revision + 1;
      return Ok(NodeId(id, slot));
    }

    method InsertChildBefore(parent: NodeId, child: NodeId, reference: Option<NodeId>) returns (r: Result<(), DomError>)
      requires Valid() && revision < U64_MAX
      modifies this
      ensures Valid()
      ensures Linked(old(nodes)) &&
        Applied(InsertBefore(id, old(nodes), parent, child, reference), r, old(nodes), old(revision), nodes, revision)
    {
      InsertKeepsForest(id, nodes, parent, child, reference);
      var p :- CheckedIndex(id, nodes, parent);
      var c :- CheckedIndex(id, nodes, child);
      var before: Option<nat> := None;
      if reference.Some? {
        var at :- CheckedIndex(id, nodes, reference.value);
        if at !in nodes[p].children {
          return Err(ReferenceIsNotChild);
        }
        if at == c {
          return Ok(());
        }
        before := Some(at);
      }
      r := MoveNode(p, c, before);
    }

    method MoveNode(p: nat, c: nat, before: Option<nat>) returns (r: Result<(), DomError>)
      requires Valid() && revision < U64_MAX && p < |nodes| && c < |nodes|
      modifies this
      ensures Valid()
      ensures Linked(old(nodes))
      ensures Applied(Move(old(nodes), p, c, before), r, old(nodes), old(revision), nodes, revision)
    {
      MoveKeepsForest(nodes, p, c, before);
      assert NamesItsParent(nodes, c);
      if c == 0 || !IsContainer(nodes[p].kind) {
        return Err(HierarchyRequest);
      }
      ghost var rank: seq<nat> :| Ranked(nodes, rank);
      AboveStep(nodes, c, p);
      var above := IsInclusiveDescendant(nodes, p, c, rank);
      if above {
        return Err(Cycle);
      }
      var list := Without(nodes[p].children, c);
      var at := InsertionIndex(list, before);
      var candidate := InsertAt(list, at, c);
      ListInRange(nodes, p, c, at, list);
      RelinkedIsMoved(nodes, p, c, at);
      var legal := ValidateChildren(nodes, nodes[p].kind, candidate);
      if !legal {
        return Err(HierarchyRequest);
      }
      if nodes[c].parent.Some? {
        var q := nodes[c].parent.value;
        nodes := nodes[q := nodes[q].(children := Without(nodes[q].children, c))];
      }
      nodes := nodes[p := nodes[p].(children := candidate)];
      nodes := nodes[c := nodes[c].(parent := Some(p))];
      revision := revision + 1;
      return Ok(());
    }

    method ReplaceChildWith(parent: NodeId, newChild: NodeId, oldChild: NodeId) returns (r: Result<(), DomError>)
      requires Valid() && revision < U64_MAX
      modifies this
      ensures Valid()
      ensures Linked(old(nodes)) &&
        Applied(ReplaceChild(id, old(nodes), parent, newChild, oldChild), r, old(nodes), old(revision), nodes, revision)
    {
      hide Replace;
      var p :- CheckedIndex(id, nodes, parent);
      var n :- CheckedIndex(id, nodes, newChild);
      var o :- CheckedIndex(id, nodes, oldChild);
      if n == o {
        return if nodes[o].parent == Some(p) then Ok(()) else Err(NodeIsNotChild);
      }
      if o !in nodes[p].children {
        return Err(NodeIsNotChild);
      }
      r := ReplaceNode(p, n, o);
    }

    method ReplaceNode(p: nat, n: nat, o: nat) returns (r: Result<(), DomError>)
      requires Valid() && revision < U64_MAX && p < |nodes| && n < |nodes| && o < |nodes| && n != o
      requires o in nodes[p].children
      modifies this
      ensures Valid()
      ensures Linked(old(nodes)) && Applied(Replace(old(nodes), p, n, o), r, old(nodes), old(revision), nodes, revision)
    {
      ReplacingKeepsForest(nodes, p, n, o);
      if n == 0 || !IsContainer(nodes[p].kind) {
        return Err(HierarchyRequest);
      }
      ghost var rank: seq<nat> :| Ranked(nodes, rank);
      AboveStep(nodes, n, p);
      var above := IsInclusiveDescendant(nodes, p, n, rank);
      if above {
        return Err(Cycle);
      }
      var list := Without(Without(nodes[p].children, n), o);
      var index := ReplaceIndex(nodes[p].children, n, o);
      var at := if index < |list| then index else |list|;
      var candidate := InsertAt(list, at, n);
      ListInRange(nodes, p, n, at, list);
      assert ListsItsChildren(nodes, p);
      RelinkedIsReplaced(nodes, p, n, o, at);
      var legal := ValidateChildren(nodes, nodes[p].kind, candidate);
      if !legal {
        return Err(HierarchyRequest);
      }
      SwapLinks(p, n, o, candidate);
      return Ok(());
    }

    /** The new child leaves its parent, takes the place in the list, and the old child is let go. */
    method SwapLinks(p: nat, n: nat, o: nat, list: seq<nat>)
      requires p < |nodes| && n < |nodes| && o < |nodes| && (nodes[n].parent.Some? ==> nodes[n].parent.value < |nodes|)
      modifies this
      ensures nodes == WithParent(Relinked(old(nodes), p, n, list), o, None) && revision == old(revision) + 1
    {
      if nodes[n].parent.Some? {
        var q := nodes[n].parent.value;
        nodes := nodes[q := nodes[q].(children := Without(nodes[q].children, n))];
      }
      nodes := nodes[p := nodes[p].(children := list)];
      nodes := nodes[n := nodes[n].(parent := Some(p))];
      nodes := nodes[o := nodes[o].(parent := None)];
      revision := revision + 1;
    }

    method RemoveChildNode(parent: NodeId, child: NodeId) returns (r: Result<(), DomError>)
      requires Valid() && revision < U64_MAX
      modifies this
      ensures Valid()
      ensures Linked(old(nodes)) &&
        Applied(RemoveChild(id, old(nodes), parent, child), r, old(nodes), old(revision), nodes, revision)
    {
      RemoveKeepsForest(id, nodes, parent, child);
      var p :- CheckedIndex(id, nodes, parent);
      var c :- CheckedIndex(id, nodes, child);
      if c !in nodes[p].children {
        return Err(NodeIsNotChild);
      }
      var position := IndexOf(nodes[p].children, c);
      UnlinkedIsDetached(nodes, p, c);
      hide Linked;
      hide Detach;
      hide WithParent;
      hide WithChildren;
      hide IndexOf;
      Unlink(p, c, nodes[p].children[..position] + nodes[p].children[position + 1..]);
      return Ok(());
    }

    method Unlink(p: nat, c: nat, list: seq<nat>)
      requires p < |nodes| && c < |nodes|
      modifies this
      ensures nodes == WithParent(WithChildren(old(nodes), p, list), c, None) && revision == old(revision) + 1
    {
      nodes := nodes[p := nodes[p].(children := list)];
      nodes := nodes[c := nodes[c].(parent := None)];
      revision := revision + 1;
    }

    /** Replaces a node's contents by contents of the same kind. */
    method SetKind(slot: nat, kind: NodeKind)
      requires Valid() && revision < U64_MAX && slot < |nodes| && KindTag(kind) == KindTag(nodes[slot].kind)
      modifies this
      ensures Valid() && nodes == old(nodes)[slot := old(nodes)[slot].(kind := kind)] && revision == old(revision) + 1
    {
      ContentsKeepForest(nodes, slot, kind);
      nodes := nodes[slot := nodes[slot].(kind := kind)];
      revision := revision + 1;
    }
  }
}
