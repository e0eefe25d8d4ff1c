/**
 The arena's own invariant check: what it accepts, stated without its loops, and that every forest is accepted.
 */
module DomInvariants {
  import opened Outcomes
  import opened DomForest

  datatype InvariantError =
    | InvalidDocumentNode
    | IllegalDocumentChildren
    | LeafHasChildren
    | UnknownChild
    | MultipleParents
    | LinksDisagree
    | OrphanParentLink
    | CycleInParentChain

  ghost predicate GoodSlot(nodes: Nodes, i: nat)
    requires i < |nodes|
  {
    && (nodes[i].children != [] ==> IsContainer(nodes[i].kind))
    && ListsItsChildren(nodes, i)
    && NoDuplicates(nodes[i].children)
  }

  /** Everything the check looks at. */
  ghost predicate Accepts(nodes: Nodes)
    requires |nodes| > 0
  {
    && nodes[0].parent.None? && nodes[0].kind.DocumentNode?
    && LegalDocumentChildren(nodes, nodes[0].children, false, false)
    && (forall i :: 0 <= i < |nodes| ==> GoodSlot(nodes, i))
    && (forall c :: 0 < c < |nodes| ==> NamesItsParent(nodes, c))
    && exists rank: seq<nat> :: Ranked(nodes, rank)
  }

  /** Every state that mutations can reach passes the check. */
  lemma ForestIsAccepted(nodes: Nodes)
    requires Forest(nodes)
    ensures Accepts(nodes)
  {
    assert LegalList(nodes, 0);
    forall i | 0 <= i < |nodes|
      ensures GoodSlot(nodes, i) && NamesItsParent(nodes, i)
    {
      assert ListsItsChildren(nodes, i) && NamesItsParent(nodes, i) && LegalList(nodes, i);
    }
  }

  /** The engine's loop over a document's children. */
  method ValidateDocumentChildren(nodes: Nodes, children: seq<nat>) returns (ok: bool)
    ensures ok == LegalDocumentChildren(nodes, children, false, false)
  {
    var seenElement, seenDoctype := false, false;
    var k := 0;
    assert children[0..] == children;
    while k < |children|
      invariant 0 <= k <= |children|
      invariant LegalDocumentChildren(nodes, children, false, false)
          == LegalDocumentChildren(nodes, children[k..], seenDoctype, seenElement)
    {
      var child := children[k];
      assert children[k..][0] == child && children[k..][1..] == children[k + 1..];
      if child >= |nodes| { return false; }
      var kind := nodes[child].kind;
      if kind.Element? && !seenElement {
        seenElement := true;
      } else if kind.DocumentType? && !seenDoctype && !seenElement {
        seenDoctype := true;
      } else if !kind.Comment? {
        return false;
      }
      k := k + 1;
    }
    return true;
  }

  // ---- child lists -----------------------------------------------------------------------

  function Members(children: seq<nat>): set<nat> {
    set c | c in children
  }

  ghost function ChildrenBefore(nodes: Nodes, i: nat): set<nat>
    requires i <= |nodes|
  {
    if i == 0 then {} else ChildrenBefore(nodes, i - 1) + Members(nodes[i - 1].children)
  }

  lemma {:induction false} SeenHasAParent(nodes: Nodes, i: nat, c: nat)
    requires i <= |nodes|
    ensures c in ChildrenBefore(nodes, i) <==> exists j :: 0 <= j < i && c in nodes[j].children
  {
    if i > 0 {
      SeenHasAParent(nodes, i - 1, c);
      if c in nodes[i - 1].children { assert 0 <= i - 1 < i && c in nodes[i - 1].children; }
    }
  }

  /** Checks one slot's children against the children seen so far. */
  method ValidateSlot(nodes: Nodes, i: nat, seen: set<nat>) returns (r: Result<set<nat>, InvariantError>)
    requires i < |nodes| && seen == ChildrenBefore(nodes, i)
    requires forall j :: 0 <= j < i ==> GoodSlot(nodes, j)
    ensures r.Ok? <==> GoodSlot(nodes, i)
    ensures r.Ok? ==> r.value == ChildrenBefore(nodes, i + 1)
  {
    var children := nodes[i].children;
    if !IsContainer(nodes[i].kind) && children != [] {
      return Err(LeafHasChildren);
    }
    var now := seen;
    for k := 0 to |children|
      invariant now == seen + Members(children[..k])
      invariant forall m :: 0 <= m < k ==> children[m] < |nodes| && nodes[children[m]].parent == Some(i)
      invariant NoDuplicates(children[..k])
    {
      var child := children[k];
      assert child in children;
      if child >= |nodes| {
        return Err(UnknownChild);
      }
      if child in now {
        SeenHasAParent(nodes, i, child);
        RepeatedChild(nodes, i, k);
        return Err(MultipleParents);
      }
      if nodes[child].parent != Some(i) {
        return Err(LinksDisagree);
      }
      now := now + {child};
      assert children[..k + 1] == children[..k] + [child];
    }
    assert children[..|children|] == children;
    return Ok(now);
  }

  lemma RepeatedChild(nodes: Nodes, i: nat, k: nat)
    requires i < |nodes| && k < |nodes[i].children|
    requires forall j :: 0 <= j < i ==> GoodSlot(nodes, j)
    requires
      || (exists j :: 0 <= j < i && nodes[i].children[k] in nodes[j].children)
      || nodes[i].children[k] in nodes[i].children[..k]
    ensures !GoodSlot(nodes, i)
  {
    var child := nodes[i].children[k];
    assert child in nodes[i].children;
    if child in nodes[i].children[..k] {
      var m :| 0 <= m < k && nodes[i].children[m] == child;
    } else {
      var j :| 0 <= j < i && child in nodes[j].children;
      assert GoodSlot(nodes, j);
    }
  }

  method ValidateChildLists(nodes: Nodes) returns (r: Result<set<nat>, InvariantError>)
    ensures r.Ok? <==> forall i :: 0 <= i < |nodes| ==> GoodSlot(nodes, i)
    ensures r.Ok? ==> r.value == ChildrenBefore(nodes, |nodes|)
  {
    var seen: set<nat> := {};
    for i := 0 to |nodes|
      invariant seen == ChildrenBefore(nodes, i)
      invariant forall j :: 0 <= j < i ==> GoodSlot(nodes, j)
    {
      hide GoodSlot;
      seen :- ValidateSlot(nodes, i, seen);
    }
    return Ok(seen);
  }

  // ---- parent chains ------------------------------------------------------------------------

  /** Walking up from a node leaves the arena at the top after n steps. */
  predicate Ends(nodes: Nodes, x: nat, n: nat) {
    Up(nodes, x, n).None? && (n > 0 ==> Up(nodes, x, n - 1).Some? && Up(nodes, x, n - 1).value < |nodes|)
  }

  ghost predicate Grounded(nodes: Nodes, x: nat) {
    exists n: nat :: Ends(nodes, x, n)
  }

  lemma EndsOnce(nodes: Nodes, x: nat, m: nat, n: nat)
    requires Ends(nodes, x, m) && Ends(nodes, x, n)
    ensures m == n
  {
    if m < n { NothingAbove(nodes, x, m, n - 1); }
    if n < m { NothingAbove(nodes, x, n, m - 1); }
  }

  lemma {:induction false} NothingAbove(nodes: Nodes, x: nat, m: nat, n: nat)
    requires Up(nodes, x, m).None? && m <= n
    ensures Up(nodes, x, n).None?
  {
    if m < n { NothingAbove(nodes, x, m, n - 1); }
  }

  /** The length of the walk up. */
  ghost function Depth(nodes: Nodes, x: nat): nat
    requires Grounded(nodes, x)
  {
    var n: nat :| Ends(nodes, x, n);
    n
  }

  /** If every walk up ends, the lengths of the walks rank the arena. */
  lemma GroundedIsRanked(nodes: Nodes)
    requires forall x :: 0 <= x < |nodes| ==> Grounded(nodes, x)
    ensures exists rank: seq<nat> :: Ranked(nodes, rank)
  {
    var rank: seq<nat> := seq(|nodes|, x requires 0 <= x < |nodes| => Depth(nodes, x));
    forall i | 0 <= i < |nodes| && nodes[i].parent.Some?
      ensures nodes[i].parent.value < |nodes| && rank[nodes[i].parent.value] < rank[i]
    {
      var p := nodes[i].parent.value;
      var n := rank[i];
      assert Ends(nodes, i, n);
      assert Up(nodes, i, 0) == Some(i) && Up(nodes, i, 1) == Some(p);
      assert n >= 2;
      UpShifts(nodes, i, n - 1);
      UpShifts(nodes, i, n - 2);
      assert Ends(nodes, p, n - 1);
      NotEndedEarlier(nodes, i, 1, n - 1);
      EndsOnce(nodes, p, Depth(nodes, p), n - 1);
    }
    assert Ranked(nodes, rank);
  }

  lemma {:induction false} NotEndedEarlier(nodes: Nodes, x: nat, m: nat, n: nat)
    requires Up(nodes, x, n).Some? && m <= n
    ensures Up(nodes, x, m).Some? && (m < n ==> Up(nodes, x, m).value < |nodes|)
    decreases n - m
  {
    if m < n {
      NotEndedEarlier(nodes, x, m + 1, n);
    }
  }

  /** Meeting a node twice on the way up rules out every ranking. */
  lemma RepeatedAncestor(nodes: Nodes, x: nat, m: nat, n: nat, rank: seq<nat>)
    requires x < |nodes| && m < n && Up(nodes, x, m) == Up(nodes, x, n) && Up(nodes, x, m).Some?
    ensures !Ranked(nodes, rank)
  {
    if Ranked(nodes, rank) {
      StrictlyLower(nodes, rank, x, m, n);
    }
  }

  lemma {:induction false} StrictlyLower(nodes: Nodes, rank: seq<nat>, x: nat, m: nat, n: nat)
    requires Ranked(nodes, rank) && x < |nodes| && m < n && Up(nodes, x, n).Some?
    ensures Up(nodes, x, m).Some? && Up(nodes, x, m).value < |nodes| && Up(nodes, x, n).value < |nodes|
    ensures rank[Up(nodes, x, n).value] < rank[Up(nodes, x, m).value]
  {
    NotEndedEarlier(nodes, x, m, n);
    NotEndedEarlier(nodes, x, n - 1, n);
    if m < n - 1 {
      StrictlyLower(nodes, rank, x, m, n - 1);
    }
  }

  ghost function Below(n: nat): (slots: set<nat>)
    ensures forall i: nat :: i in slots <==> i < n
  {
    if n == 0 then {} else Below(n - 1) + {n - 1}
  }

  /** The ancestors met so far, nearest first. */
  ghost predicate Climbed(nodes: Nodes, x: nat, path: seq<nat>) {
    forall m: nat :: m < |path| ==> Up(nodes, x, m) == Some(path[m])
  }

  lemma ClimbsIntoCycle(nodes: Nodes, x: nat, path: seq<nat>, ancestor: nat)
    requires x < |nodes| && Climbed(nodes, x, path) && ancestor in path && Up(nodes, x, |path|) == Some(ancestor)
    ensures forall rank: seq<nat> :: !Ranked(nodes, rank)
  {
    var m: nat :| m < |path| && path[m] == ancestor;
    forall rank: seq<nat>
      ensures !Ranked(nodes, rank)
    {
      RepeatedAncestor(nodes, x, m, |path|, rank);
    }
  }

  lemma ClimbsOut(nodes: Nodes, x: nat, n: nat)
    requires x < |nodes| && Up(nodes, x, n).Some? && Up(nodes, x, n).value >= |nodes|
    ensures forall rank: seq<nat> :: !Ranked(nodes, rank)
  {
    forall rank: seq<nat>
      ensures !Ranked(nodes, rank)
    {
      if Ranked(nodes, rank) { AboveRanksLower(nodes, rank, x, n); }
    }
  }

  /** Walks up from a slot, remembering the ancestors met. */
  method ValidateChain(nodes: Nodes, x: nat) returns (r: Result<(), InvariantError>)
    requires x < |nodes|
    ensures r.Ok? ==> Grounded(nodes, x)
    ensures r.Err? ==> forall rank: seq<nat> :: !Ranked(nodes, rank)
  {
    hide Ranked;
    var ancestors: set<nat> := {};
    var cursor := nodes[x].parent;
    ghost var path: seq<nat> := [x];
    assert Up(nodes, x, 0) == Some(x);
    while cursor.Some?
      invariant |path| >= 1 && path[|path| - 1] < |nodes|
      invariant Climbed(nodes, x, path) && Up(nodes, x, |path|) == cursor
      invariant forall a :: a in ancestors ==> a in path
      invariant ancestors <= Below(|nodes|)
      decreases Below(|nodes|) - ancestors
    {
      var ancestor := cursor.value;
      if ancestor in ancestors {
        ClimbsIntoCycle(nodes, x, path, ancestor);
        return Err(CycleInParentChain);
      }
      if ancestor >= |nodes| {
        ClimbsOut(nodes, x, |path|);
        return Err(UnknownChild);
      }
      ancestors := ancestors + {ancestor};
      path := path + [ancestor];
      cursor := nodes[ancestor].parent;
    }
    assert Up(nodes, x, |path| - 1) == Some(path[|path| - 1]);
    assert Ends(nodes, x, |path|);
    return Ok(());
  }

  method ValidateParents(nodes: Nodes, seen: set<nat>) returns (r: Result<(), InvariantError>)
    requires |nodes| > 0 && nodes[0].parent.None?
    requires seen == ChildrenBefore(nodes, |nodes|) && forall i :: 0 <= i < |nodes| ==> GoodSlot(nodes, i)
    ensures r.Ok? <==>
      (forall c :: 0 < c < |nodes| ==> NamesItsParent(nodes, c)) && exists rank: seq<nat> :: Ranked(nodes, rank)
  {
    assert Up(nodes, 0, 0) == Some(0);
    assert Ends(nodes, 0, 1);
    for c := 1 to |nodes|
      invariant forall x :: 0 <= x < c ==> Grounded(nodes, x)
      invariant forall x :: 0 < x < c ==> NamesItsParent(nodes, x)
    {
      hide Grounded;
      SeenMeansNamed(nodes, c);
      if nodes[c].parent.Some? != (c in seen) {
        return Err(OrphanParentLink);
      }
      var _ :- ValidateChain(nodes, c);
    }
    GroundedIsRanked(nodes);
    return Ok(());
  }

  lemma SeenMeansNamed(nodes: Nodes, c: nat)
    requires 0 < c < |nodes| && forall i :: 0 <= i < |nodes| ==> GoodSlot(nodes, i)
    ensures NamesItsParent(nodes, c) <==> (nodes[c].parent.Some? == (c in ChildrenBefore(nodes, |nodes|)))
  {
    SeenHasAParent(nodes, |nodes|, c);
    if c in ChildrenBefore(nodes, |nodes|) {
      var j :| 0 <= j < |nodes| && c in nodes[j].children;
      assert GoodSlot(nodes, j);
    }
  }

  /** The check accepts an arena if and only if its links agree, its lists are legal and it has no cycle. */
  method ValidateInvariants(nodes: Nodes) returns (r: Result<(), InvariantError>)
    requires |nodes| > 0
    ensures r.Ok? <==> Accepts(nodes)
  {
    hide GoodSlot;
    if nodes[0].parent.Some? || !nodes[0].kind.DocumentNode? {
      return Err(InvalidDocumentNode);
    }
    var legal := ValidateDocumentChildren(nodes, nodes[0].children);
    if !legal {
      return Err(IllegalDocumentChildren);
    }
    var seen :- ValidateChildLists(nodes);
    r := ValidateParents(nodes, seen);
  }
}
