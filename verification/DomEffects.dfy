/**
 What mutations do to a document, said of the nodes before and after: exactly which insertions are refused, which
 list and which link a mutation changes and how, and that everything else stays.
 */
module DomEffects {
  import opened Outcomes
  import opened DomForest
  import opened DomOrder
  import opened DomDocument

  // ---- the shape of a document -------------------------------------------------------------------------------

  predicate IsElement(nodes: Nodes, x: nat) {
    x < |nodes| && nodes[x].kind.Element?
  }

  predicate IsDoctype(nodes: Nodes, x: nat) {
    x < |nodes| && nodes[x].kind.DocumentType?
  }

  predicate IsComment(nodes: Nodes, x: nat) {
    x < |nodes| && nodes[x].kind.Comment?
  }

  /** One element at most, and nothing but comments before a doctype. */
  predicate DocumentShape(nodes: Nodes, children: seq<nat>) {
    && (forall i :: 0 <= i < |children| ==>
          IsElement(nodes, children[i]) || IsDoctype(nodes, children[i]) || IsComment(nodes, children[i]))
    && (forall i, j :: 0 <= i < j < |children| ==> IsElement(nodes, children[i]) ==> !IsElement(nodes, children[j]))
    && (forall i, j :: 0 <= i < j < |children| ==> IsDoctype(nodes, children[j]) ==> IsComment(nodes, children[i]))
  }

  predicate NoDoctype(nodes: Nodes, children: seq<nat>) {
    forall x :: x in children ==> !IsDoctype(nodes, x)
  }

  predicate NoElement(nodes: Nodes, children: seq<nat>) {
    forall x :: x in children ==> !IsElement(nodes, x)
  }

  lemma ShapeOfRest(nodes: Nodes, children: seq<nat>)
    requires children != []
    ensures var first, rest := children[0], children[1..];
            DocumentShape(nodes, children) <==>
              && DocumentShape(nodes, rest)
              && (IsElement(nodes, first) || IsDoctype(nodes, first) || IsComment(nodes, first))
              && (IsElement(nodes, first) ==> NoElement(nodes, rest))
              && (!IsComment(nodes, first) ==> NoDoctype(nodes, rest))
  {
    var first, rest := children[0], children[1..];
    assert forall i :: 0 <= i < |rest| ==> rest[i] == children[i + 1];
    assert forall i :: 1 <= i < |children| ==> children[i] == rest[i - 1] && children[i] in rest;
  }

  lemma {:induction false} LegalAfterSeen(nodes: Nodes, children: seq<nat>, seenDoctype: bool, seenElement: bool)
    ensures LegalDocumentChildren(nodes, children, seenDoctype, seenElement) <==>
            && DocumentShape(nodes, children)
            && (seenElement ==> NoElement(nodes, children))
            && (seenDoctype || seenElement ==> NoDoctype(nodes, children))
    decreases |children|
  {
    if children != [] {
      var first, rest := children[0], children[1..];
      ShapeOfRest(nodes, children);
      assert forall x :: x in children <==> x == first || x in rest;
      LegalAfterSeen(nodes, rest, seenDoctype || IsDoctype(nodes, first), seenElement || IsElement(nodes, first));
    }
  }

  /** The one pass over a document's children with two flags decides the shape. */
  lemma LegalIsShape(nodes: Nodes, children: seq<nat>)
    ensures LegalDocumentChildren(nodes, children, false, false) <==> DocumentShape(nodes, children)
  {
    LegalAfterSeen(nodes, children, false, false);
  }

  // ---- which insertions are refused -----------------------------------------------------------------------

  /** Where among the children that stay a node goes: before the reference, or last. */
  predicate PlaceOf(rest: seq<nat>, reference: Option<nat>, at: nat) {
    if reference.Some? then at < |rest| && rest[at] == reference.value else at == |rest|
  }

  /** A node that may join a document's children at a place, as section 4.2.3 of the DOM standard has it. */
  predicate FitsDocument(nodes: Nodes, rest: seq<nat>, at: nat, c: nat)
    requires at <= |rest|
  {
    || IsComment(nodes, c)
    || (IsElement(nodes, c) && NoElement(nodes, rest) && NoDoctype(nodes, rest[at..]))
    || (IsDoctype(nodes, c) && NoDoctype(nodes, rest) && NoElement(nodes, rest[..at]))
  }

  predicate Fits(nodes: Nodes, p: nat, rest: seq<nat>, at: nat, c: nat)
    requires at <= |rest| && p < |nodes| && c < |nodes|
  {
    match nodes[p].kind
    case DocumentNode => FitsDocument(nodes, rest, at, c)
    case Element(_, _) => !nodes[c].kind.DocumentNode? && !nodes[c].kind.DocumentType?
    case _ => false
  }

  lemma InsertedAt(rest: seq<nat>, at: nat, c: nat)
    requires at <= |rest|
    ensures var all := InsertAt(rest, at, c);
            && |all| == |rest| + 1 && all[at] == c
            && (forall i :: 0 <= i < at ==> all[i] == rest[i])
            && (forall i :: at < i < |all| ==> all[i] == rest[i - 1])
            && (forall i :: 0 <= i < |rest| ==> rest[i] == all[if i < at then i else i + 1])
  {
  }

  lemma InsertedShape(nodes: Nodes, rest: seq<nat>, at: nat, c: nat)
    requires DocumentShape(nodes, rest) && at <= |rest|
    ensures DocumentShape(nodes, InsertAt(rest, at, c)) <==> FitsDocument(nodes, rest, at, c)
  {
    var all := InsertAt(rest, at, c);
    InsertedAt(rest, at, c);
    if DocumentShape(nodes, all) {
      ShapeFits(nodes, rest, at, c, all);
    }
    if FitsDocument(nodes, rest, at, c) {
      FitsShape(nodes, rest, at, c, all);
    }
  }

  /** Two children that stay, or one of them and the new one. */
  predicate Compatible(nodes: Nodes, earlier: nat, later: nat) {
    && (IsElement(nodes, earlier) ==> !IsElement(nodes, later))
    && (IsDoctype(nodes, later) ==> IsComment(nodes, earlier))
  }

  lemma FitsBeside(nodes: Nodes, rest: seq<nat>, at: nat, c: nat, k: nat)
    requires at <= |rest| && k < |rest| && DocumentShape(nodes, rest) && FitsDocument(nodes, rest, at, c)
    ensures k < at ==> Compatible(nodes, rest[k], c)
    ensures k >= at ==> Compatible(nodes, c, rest[k])
  {
    assert rest[k] in rest;
    if k < at {
      assert rest[..at][k] == rest[k];
    } else {
      assert rest[at..][k - at] == rest[k];
    }
  }

  lemma FitsShape(nodes: Nodes, rest: seq<nat>, at: nat, c: nat, all: seq<nat>)
    requires at <= |rest| && |all| == |rest| + 1 && all[at] == c
    requires forall i :: 0 <= i < at ==> all[i] == rest[i]
    requires forall i :: at < i < |all| ==> all[i] == rest[i - 1]
    requires DocumentShape(nodes, rest) && FitsDocument(nodes, rest, at, c)
    ensures DocumentShape(nodes, all)
  {
    assert IsElement(nodes, c) || IsDoctype(nodes, c) || IsComment(nodes, c);
    forall i, j | 0 <= i < j < |all|
      ensures Compatible(nodes, all[i], all[j])
    {
      hide FitsDocument;
      if i == at {
        FitsBeside(nodes, rest, at, c, j - 1);
      } else if j == at {
        FitsBeside(nodes, rest, at, c, i);
      } else {
        var a, b := if i < at then i else i - 1, if j < at then j else j - 1;
        assert all[i] == rest[a] && all[j] == rest[b];
      }
    }
    hide FitsDocument;
    assert forall i, j :: 0 <= i < j < |all| ==> Compatible(nodes, all[i], all[j]);
  }

  lemma ShapeFits(nodes: Nodes, rest: seq<nat>, at: nat, c: nat, all: seq<nat>)
    requires at <= |rest| && |all| == |rest| + 1 && all[at] == c
    requires forall i :: 0 <= i < |rest| ==> rest[i] == all[if i < at then i else i + 1]
    requires DocumentShape(nodes, all)
    ensures FitsDocument(nodes, rest, at, c)
  {
    assert IsElement(nodes, all[at]) || IsDoctype(nodes, all[at]) || IsComment(nodes, all[at]);
    if IsElement(nodes, c) {
      assert NoElement(nodes, rest);
      assert NoDoctype(nodes, rest[at..]);
    }
    if IsDoctype(nodes, c) {
      assert NoDoctype(nodes, rest);
      assert NoElement(nodes, rest[..at]);
    }
  }

  lemma PlaceIsIndex(rest: seq<nat>, reference: Option<nat>, at: nat)
    requires NoDuplicates(rest) && PlaceOf(rest, reference, at)
    ensures InsertionIndex(rest, reference) == at
  {
    if reference.Some? {
      assert rest[IndexOf(rest, reference.value)] == rest[at];
    }
  }

  lemma RestIsLegal(nodes: Nodes, p: nat, c: nat)
    requires Linked(nodes) && p < |nodes| && c < |nodes|
    ensures var rest := Without(nodes[p].children, c);
            && NoDuplicates(rest)
            && (nodes[p].kind.DocumentNode? ==> DocumentShape(nodes, rest))
            && (nodes[p].kind.Element? ==> LegalElementChildren(nodes, rest))
  {
    assert LegalList(nodes, p);
    WithoutKeepsDistinct(nodes[p].children, c);
    if nodes[p].children != [] {
      LegalListWithout(nodes, nodes[p].kind, nodes[p].children, c);
    }
    if nodes[p].kind.DocumentNode? {
      LegalIsShape(nodes, Without(nodes[p].children, c));
    }
  }

  lemma JoinsLegally(nodes: Nodes, p: nat, rest: seq<nat>, at: nat, c: nat)
    requires p < |nodes| && c < |nodes| && at <= |rest|
    requires nodes[p].kind.DocumentNode? ==> DocumentShape(nodes, rest)
    requires nodes[p].kind.Element? ==> LegalElementChildren(nodes, rest)
    ensures LegalChildren(nodes, nodes[p].kind, InsertAt(rest, at, c)) <==> Fits(nodes, p, rest, at, c)
  {
    InsertedAt(rest, at, c);
    if nodes[p].kind.DocumentNode? {
      InsertedShape(nodes, rest, at, c);
      LegalIsShape(nodes, InsertAt(rest, at, c));
    }
  }

  lemma MoveDecides(nodes: Nodes, p: nat, c: nat, reference: Option<nat>)
    requires Linked(nodes) && p < |nodes| && c < |nodes|
    ensures var r, rest := Move(nodes, p, c, reference), Without(nodes[p].children, c);
            var legal := LegalChildren(nodes, nodes[p].kind, InsertAt(rest, InsertionIndex(rest, reference), c));
            && (r.Ok? <==> c != 0 && IsContainer(nodes[p].kind) && !Above(nodes, c, p) && legal)
            && (r == Err(Cycle) <==> c != 0 && IsContainer(nodes[p].kind) && Above(nodes, c, p))
            && (r.Err? ==> r.error == Cycle || r.error == HierarchyRequest)
  {
    hide Above;
    hide LegalChildren;
    hide Without;
    hide InsertAt;
    hide Detach;
    hide Attach;
    DetachElsewhere(nodes, c, p);
  }

  /**
   A node moves under another exactly if it is not the document, not the other or above it, and fits among the
   children that stay; a cycle is what is reported of a node above its new parent.
   */
  lemma InsertionIsValid(nodes: Nodes, p: nat, c: nat, reference: Option<nat>, at: nat)
    requires Forest(nodes) && p < |nodes| && c < |nodes|
    requires PlaceOf(Without(nodes[p].children, c), reference, at)
    ensures var r, rest := Move(nodes, p, c, reference), Without(nodes[p].children, c);
            && (r.Ok? <==> c != 0 && !Above(nodes, c, p) && Fits(nodes, p, rest, at, c))
            && (r == Err(Cycle) <==> c != 0 && IsContainer(nodes[p].kind) && Above(nodes, c, p))
            && (r.Err? ==> r.error == Cycle || r.error == HierarchyRequest)
  {
    hide Move;
    hide Above;
    var rest := Without(nodes[p].children, c);
    RestIsLegal(nodes, p, c);
    PlaceIsIndex(rest, reference, at);
    JoinsLegally(nodes, p, rest, at, c);
    MoveDecides(nodes, p, c, reference);
    FitsContainers(nodes, p, rest, at, c);
  }

  lemma FitsContainers(nodes: Nodes, p: nat, rest: seq<nat>, at: nat, c: nat)
    requires at <= |rest| && p < |nodes| && c < |nodes|
    ensures Fits(nodes, p, rest, at, c) ==> IsContainer(nodes[p].kind)
  {
  }

  /** A legal list of children for a node, place by place. */
  predicate Suits(nodes: Nodes, p: nat, list: seq<nat>)
    requires p < |nodes|
  {
    match nodes[p].kind
    case DocumentNode => DocumentShape(nodes, list)
    case Element(_, _) =>
      forall i :: 0 <= i < |list| ==>
        list[i] < |nodes| && !nodes[list[i]].kind.DocumentNode? && !nodes[list[i]].kind.DocumentType?
    case _ => false
  }

  lemma SuitsIsLegal(nodes: Nodes, p: nat, list: seq<nat>)
    requires p < |nodes|
    ensures LegalChildren(nodes, nodes[p].kind, list) <==> Suits(nodes, p, list)
    ensures Suits(nodes, p, list) ==> IsContainer(nodes[p].kind)
  {
    LegalIsShape(nodes, list);
  }

  lemma ReplaceDecides(nodes: Nodes, p: nat, n: nat, o: nat)
    requires Linked(nodes) && p < |nodes| && n < |nodes| && o < |nodes| && n != o && o in nodes[p].children
    ensures var r, rest := Replace(nodes, p, n, o), Without(nodes[p].children, n);
            && o in rest
            && (r.Ok? <==>
                  && n != 0 && IsContainer(nodes[p].kind) && !Above(nodes, n, p)
                  && LegalChildren(nodes, nodes[p].kind, rest[IndexOf(rest, o) := n]))
            && (r == Err(Cycle) <==> n != 0 && IsContainer(nodes[p].kind) && Above(nodes, n, p))
            && (r.Err? ==> r.error == Cycle || r.error == HierarchyRequest)
  {
    hide Above;
    hide LegalChildren;
    hide Without;
    hide InsertAt;
    hide Detach;
    hide Attach;
    assert LegalList(nodes, p);
    ReplaceInList(nodes[p].children, n, o);
  }

  /** A node takes another's place exactly if it is not the document or above it, and the list then suits. */
  lemma ReplacementIsValid(nodes: Nodes, p: nat, n: nat, o: nat, k: nat)
    requires Forest(nodes) && p < |nodes| && n < |nodes| && o < |nodes| && n != o
    requires k < |Without(nodes[p].children, n)| && Without(nodes[p].children, n)[k] == o
    ensures o in nodes[p].children
    ensures var r := Replace(nodes, p, n, o);
            && (r.Ok? <==>
                  n != 0 && !Above(nodes, n, p) && Suits(nodes, p, Without(nodes[p].children, n)[k := n]))
            && (r == Err(Cycle) <==> n != 0 && IsContainer(nodes[p].kind) && Above(nodes, n, p))
            && (r.Err? ==> r.error == Cycle || r.error == HierarchyRequest)
  {
    hide Above;
    var rest := Without(nodes[p].children, n);
    assert o in rest;
    RestIsLegal(nodes, p, n);
    assert rest[IndexOf(rest, o)] == rest[k];
    SuitsIsLegal(nodes, p, rest[k := n]);
    ReplaceDecides(nodes, p, n, o);
    hide Replace;
    hide Suits;
    hide LegalChildren;
    hide Without;
  }

  // ---- what a mutation changes ---------------------------------------------------------------------------------

  /** One node has gone under another, before the reference or last. */
  ghost predicate Moved(before: Nodes, after: Nodes, p: nat, c: nat, reference: Option<nat>)
    requires p < |before| && c < |before|
  {
    var rest := Without(before[p].children, c);
    && |after| == |before| && after[c].parent == Some(p)
    && (exists at: nat :: at <= |rest| && PlaceOf(rest, reference, at)
                          && after[p].children == rest[..at] + [c] + rest[at..])
    && (forall x :: 0 <= x < |before| && x != c ==> after[x].parent == before[x].parent)
    && (forall x :: 0 <= x < |before| && x != p ==> after[x].children == Without(before[x].children, c))
    && (forall x :: 0 <= x < |before| ==> after[x].kind == before[x].kind)
  }

  lemma KindsStay(nodes: Nodes, p: nat, c: nat, reference: Option<nat>, x: nat)
    requires Linked(nodes) && p < |nodes| && c < |nodes| && x < |nodes| && Move(nodes, p, c, reference).Ok?
    ensures var r := Move(nodes, p, c, reference).value;
            r.Changed? && |r.nodes| == |nodes| && r.nodes[x].kind == nodes[x].kind
  {
    hide Above;
    hide LegalChildren;
    hide Without;
    hide InsertAt;
    hide IndexOf;
    assert NamesItsParent(nodes, c);
    hide Linked;
    hide Detach;
    hide Attach;
    var free := Detach(nodes, c);
    LinksKeepKinds(nodes, c, p, c, 0, x);
    LinksKeepKinds(free, c, p, c, InsertionIndex(free[p].children, reference), x);
  }

  lemma LinksKeepKinds(nodes: Nodes, d: nat, p: nat, c: nat, at: nat, x: nat)
    requires d < |nodes| && p < |nodes| && c < |nodes| && x < |nodes| && at <= |nodes[p].children|
    requires nodes[d].parent.Some? ==> nodes[d].parent.value < |nodes|
    ensures Detach(nodes, d)[x].kind == nodes[x].kind && Attach(nodes, p, c, at)[x].kind == nodes[x].kind
  {
  }

  lemma MoveMoves(nodes: Nodes, p: nat, c: nat, reference: Option<nat>)
    requires Forest(nodes) && p < |nodes| && c < |nodes|
    requires reference.Some? ==> reference.value in nodes[p].children && reference.value != c
    requires Move(nodes, p, c, reference).Ok?
    ensures Move(nodes, p, c, reference).value.Changed?
    ensures Moved(nodes, Move(nodes, p, c, reference).value.nodes, p, c, reference)
  {
    InsertPlacesTheChild(nodes, p, c, reference);
    forall x | 0 <= x < |nodes|
      ensures Move(nodes, p, c, reference).value.Changed?
      ensures Move(nodes, p, c, reference).value.nodes[x].kind == nodes[x].kind
    {
      KindsStay(nodes, p, c, reference, x);
    }
    KindsStay(nodes, p, c, reference, p);
    hide Move;
    hide Without;
    hide Forest;
    var after, rest := Move(nodes, p, c, reference).value.nodes, Without(nodes[p].children, c);
    if reference.Some? {
      var k :| 0 <= k < |rest| && rest[k] == reference.value && after[p].children == InsertAt(rest, k, c);
      assert PlaceOf(rest, reference, k);
    } else {
      assert PlaceOf(rest, reference, |rest|) && rest[..|rest|] + [c] + rest[|rest|..] == rest + [c];
    }
    assert Moved(nodes, after, p, c, reference);
  }

  /** One child has left its parent's list, which closes up. */
  ghost predicate Removed(before: Nodes, after: Nodes, p: nat, c: nat)
    requires p < |before| && c < |before|
  {
    && |after| == |before| && after[c] == before[c].(parent := None)
    && (exists k :: 0 <= k < |before[p].children| && before[p].children[k] == c
          && after[p] == before[p].(children := before[p].children[..k] + before[p].children[k + 1..]))
    && (forall x :: 0 <= x < |before| && x != p && x != c ==> after[x] == before[x])
  }

  lemma NotItsOwnParent(nodes: Nodes, c: nat)
    requires Forest(nodes) && c < |nodes|
    ensures nodes[c].parent != Some(c)
  {
    var rank: seq<nat> :| Ranked(nodes, rank);
  }

  lemma ParentsListChildren(nodes: Nodes, p: nat, c: nat)
    requires Linked(nodes) && p < |nodes| && c < |nodes|
    ensures NamesItsParent(nodes, c) && NoDuplicates(nodes[p].children)
    ensures c in nodes[p].children <==> nodes[c].parent == Some(p)
  {
    assert ListsItsChildren(nodes, p) && NamesItsParent(nodes, c) && LegalList(nodes, p);
  }

  lemma DetachRemoves(nodes: Nodes, p: nat, c: nat)
    requires p < |nodes| && c < |nodes| && c != p && nodes[c].parent == Some(p)
    requires NoDuplicates(nodes[p].children) && c in nodes[p].children
    ensures Removed(nodes, Detach(nodes, c), p, c)
  {
    hide Without;
    hide NoDuplicates;
    hide IndexOf;
    RemoveAt(nodes[p].children, c);
    var k, after := IndexOf(nodes[p].children, c), Detach(nodes, c);
    assert 0 <= k < |nodes[p].children| && nodes[p].children[k] == c;
    assert after[p] == nodes[p].(children := nodes[p].children[..k] + nodes[p].children[k + 1..]);
    assert Removed(nodes, after, p, c);
  }

  /** A child is removed exactly if it is one. */
  lemma RemovalRemoves(id: nat, nodes: Nodes, parent: NodeId, child: NodeId)
    requires Forest(nodes)
    ensures var r := RemoveChild(id, nodes, parent, child);
            && (r.Ok? <==>
                  && parent.document == id == child.document && parent.slot < |nodes| && child.slot < |nodes|
                  && nodes[child.slot].parent == Some(parent.slot))
            && (r.Ok? ==> r.value.Changed? && Removed(nodes, r.value.nodes, parent.slot, child.slot))
  {
    hide Detach;
    hide Removed;
    var p, c := parent.slot, child.slot;
    if p < |nodes| && c < |nodes| {
      NotItsOwnParent(nodes, c);
      ParentsListChildren(nodes, p, c);
      if nodes[c].parent == Some(p) {
        DetachRemoves(nodes, p, c);
      }
    }
    hide Forest;
    hide Linked;
  }

  // ---- text ---------------------------------------------------------------------------------------------------

  predicate InRange(nodes: Nodes, list: seq<nat>) {
    forall i :: 0 <= i < |list| ==> list[i] < |nodes|
  }

  /** The data of the text nodes of a list, in order. */
  function TextData(nodes: Nodes, list: seq<nat>): string
    requires InRange(nodes, list)
  {
    if list == [] then []
    else (if nodes[list[0]].kind.Text? then nodes[list[0]].kind.data else []) + TextData(nodes, list[1..])
  }

  lemma {:induction false} TextDataConcat(nodes: Nodes, a: seq<nat>, b: seq<nat>)
    requires InRange(nodes, a) && InRange(nodes, b)
    ensures TextData(nodes, a + b) == TextData(nodes, a) + TextData(nodes, b)
    decreases |a|
  {
    if a == [] {
      assert a + b == b;
    } else {
      assert (a + b)[1..] == a[1..] + b;
      TextDataConcat(nodes, a[1..], b);
    }
  }

  lemma LeavesHaveNoChildren(nodes: Nodes, x: nat)
    requires Linked(nodes) && x < |nodes| && !IsContainer(nodes[x].kind)
    ensures nodes[x].children == []
  {
    assert LegalList(nodes, x);
  }

  lemma ChildrenAreNotDocuments(nodes: Nodes, x: nat, i: nat)
    requires Linked(nodes) && x < |nodes| && i < |nodes[x].children|
    ensures nodes[x].children[i] < |nodes| && nodes[x].children[i] != 0
  {
    assert ListsItsChildren(nodes, x) && nodes[x].children[i] in nodes[x].children;
  }

  lemma OrderIsInRange(nodes: Nodes, rank: seq<nat>, bound: nat, list: seq<nat>, low: int)
    requires Ready(nodes, rank, bound) && Deeper(nodes, rank, list, low) && -1 <= low
    ensures InRange(nodes, PreorderAll(nodes, rank, bound, list, low))
  {
    var order := PreorderAll(nodes, rank, bound, list, low);
    forall i | 0 <= i < |order|
      ensures order[i] < |nodes|
    {
      PreorderAllInRange(nodes, rank, bound, list, low, order[i]);
    }
  }

  /** The text of nodes is the data of the text nodes in them, in document order. */
  lemma {:induction false} TextIsInDocumentOrder(nodes: Nodes, rank: seq<nat>, bound: nat, list: seq<nat>, low: int)
    requires Ready(nodes, rank, bound) && Deeper(nodes, rank, list, low) && -1 <= low
    requires forall i :: 0 <= i < |list| ==> list[i] != 0
    ensures InRange(nodes, PreorderAll(nodes, rank, bound, list, low))
    ensures TextOfAll(nodes, rank, bound, list, low) == TextData(nodes, PreorderAll(nodes, rank, bound, list, low))
    decreases bound - low, 0, |list|
  {
    OrderIsInRange(nodes, rank, bound, list, low);
    if list != [] {
      var x, rest := list[0], list[1..];
      OwnTextIsInDocumentOrder(nodes, rank, bound, x);
      TextIsInDocumentOrder(nodes, rank, bound, rest, low);
      TextDataConcat(nodes, Preorder(nodes, rank, bound, x), PreorderAll(nodes, rank, bound, rest, low));
    }
  }

  lemma {:induction false} OwnTextIsInDocumentOrder(nodes: Nodes, rank: seq<nat>, bound: nat, x: nat)
    requires Ready(nodes, rank, bound) && 0 < x < |nodes|
    ensures InRange(nodes, Preorder(nodes, rank, bound, x))
    ensures OwnText(nodes, rank, bound, x) == TextData(nodes, Preorder(nodes, rank, bound, x))
    decreases bound - rank[x], 1, 0
  {
    ChildrenAreDeeper(nodes, rank, bound, x);
    forall i | 0 <= i < |nodes[x].children|
      ensures nodes[x].children[i] != 0
    {
      ChildrenAreNotDocuments(nodes, x, i);
    }
    TextIsInDocumentOrder(nodes, rank, bound, nodes[x].children, rank[x]);
    var below := PreorderAll(nodes, rank, bound, nodes[x].children, rank[x]);
    TextDataConcat(nodes, [x], below);
    if !IsContainer(nodes[x].kind) {
      LeavesHaveNoChildren(nodes, x);
    }
  }
}
