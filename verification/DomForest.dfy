/**
 The node arena of a document: parent and child links that form a forest of
 legal shape, and the two primitive link changes every mutation is made of.
 */
module DomForest {
  import opened Outcomes

  datatype Attribute = Attribute(namespace: Option<string>, localName: string, value: string)

  datatype NodeKind =
    | DocumentNode
    | DocumentType(name: string, publicId: string, systemId: string)
    | Element(localName: string, attributes: seq<Attribute>)
    | Text(data: string)
    | Comment(data: string)

  /** Links are slots of the same arena; slot 0 is the document node. */
  datatype NodeRecord = NodeRecord(parent: Option<nat>, children: seq<nat>, kind: NodeKind)

  type Nodes = seq<NodeRecord>

  predicate IsContainer(kind: NodeKind) {
    kind.DocumentNode? || kind.Element?
  }

  // ---- legal children ---------------------------------------------------------------

  /** A document takes comments, at most one doctype and at most one element, the doctype first. */
  predicate LegalDocumentChildren(nodes: Nodes, children: seq<nat>, seenDoctype: bool, seenElement: bool) {
    if children == [] then true
    else
      children[0] < |nodes| &&
      match nodes[children[0]].kind
      case Element(_, _) => !seenElement && LegalDocumentChildren(nodes, children[1..], seenDoctype, true)
      case DocumentType(_, _, _) =>
        !seenDoctype && !seenElement && LegalDocumentChildren(nodes, children[1..], true, seenElement)
      case Comment(_) => LegalDocumentChildren(nodes, children[1..], seenDoctype, seenElement)
      case DocumentNode => false
      case Text(_) => false
  }

  predicate LegalElementChildren(nodes: Nodes, children: seq<nat>) {
    forall i :: 0 <= i < |children| ==>
      children[i] < |nodes| && !nodes[children[i]].kind.DocumentNode? && !nodes[children[i]].kind.DocumentType?
  }

  predicate LegalChildren(nodes: Nodes, kind: NodeKind, children: seq<nat>) {
    match kind
    case DocumentNode => LegalDocumentChildren(nodes, children, false, false)
    case Element(_, _) => LegalElementChildren(nodes, children)
    case _ => false
  }

  /** Dropping a child never makes a legal list illegal. */
  lemma {:induction false} LegalWithout(nodes: Nodes, children: seq<nat>, c: nat, seenDoctype: bool, seenElement: bool)
    requires LegalDocumentChildren(nodes, children, seenDoctype, seenElement)
    ensures LegalDocumentChildren(nodes, Without(children, c), seenDoctype, seenElement)
    decreases |children|
  {
    if children != [] {
      var kind := nodes[children[0]].kind;
      var doctype, element := seenDoctype || kind.DocumentType?, seenElement || kind.Element?;
      LegalWithout(nodes, children[1..], c, doctype, element);
      LegalWithFewerSeen(nodes, Without(children[1..], c), doctype, element, seenDoctype, seenElement);
      if children[0] != c {
        assert ([children[0]] + Without(children[1..], c))[1..] == Without(children[1..], c);
      }
    }
  }

  lemma {:induction false} LegalWithFewerSeen(nodes: Nodes, children: seq<nat>, d: bool, e: bool, d': bool, e': bool)
    requires LegalDocumentChildren(nodes, children, d, e) && (d' ==> d) && (e' ==> e)
    ensures LegalDocumentChildren(nodes, children, d', e')
    decreases |children|
  {
    if children != [] {
      var kind := nodes[children[0]].kind;
      LegalWithFewerSeen(nodes, children[1..], d || kind.DocumentType?, e || kind.Element?, d' || kind.DocumentType?,
          e' || kind.Element?);
    }
  }

  /** Two arenas whose nodes have the same kinds. */
  predicate SameKinds(a: Nodes, b: Nodes) {
    |a| <= |b| && forall i :: 0 <= i < |a| ==> KindTag(a[i].kind) == KindTag(b[i].kind)
  }

  function KindTag(kind: NodeKind): nat {
    match kind
    case DocumentNode => 0
    case DocumentType(_, _, _) => 1
    case Element(_, _) => 2
    case Text(_) => 3
    case Comment(_) => 4
  }

  /** Legality looks at kinds only. */
  lemma {:induction false} LegalSameKinds(a: Nodes, b: Nodes, children: seq<nat>, d: bool, e: bool)
    requires SameKinds(a, b) && LegalDocumentChildren(a, children, d, e)
    ensures LegalDocumentChildren(b, children, d, e)
    decreases |children|
  {
    if children != [] {
      var kind := a[children[0]].kind;
      assert KindTag(kind) == KindTag(b[children[0]].kind);
      LegalSameKinds(a, b, children[1..], d || kind.DocumentType?, e || kind.Element?);
    }
  }

  // ---- child lists -------------------------------------------------------------------

  function Without(children: seq<nat>, c: nat): (rest: seq<nat>)
    ensures forall x :: x in rest <==> x in children && x != c
    ensures |rest| <= |children|
    decreases |children|
  {
    if children == [] then []
    else if children[0] == c then Without(children[1..], c)
    else [children[0]] + Without(children[1..], c)
  }

  predicate NoDuplicates(children: seq<nat>) {
    forall i, j :: 0 <= i < j < |children| ==> children[i] != children[j]
  }

  lemma {:induction false} WithoutKeepsDistinct(children: seq<nat>, c: nat)
    requires NoDuplicates(children)
    ensures NoDuplicates(Without(children, c))
    decreases |children|
  {
    if children != [] {
      WithoutKeepsDistinct(children[1..], c);
      assert forall i :: 0 < i < |children| ==> children[i] == children[1..][i - 1];
      assert children[0] !in children[1..];
    }
  }

  lemma {:induction false} WithoutAbsent(children: seq<nat>, c: nat)
    requires c !in children
    ensures Without(children, c) == children
    decreases |children|
  {
    if children != [] {
      WithoutAbsent(children[1..], c);
      assert children == [children[0]] + children[1..];
    }
  }

  function InsertAt(children: seq<nat>, i: nat, c: nat): seq<nat>
    requires i <= |children|
  {
    children[..i] + [c] + children[i..]
  }

  lemma InsertMembers(children: seq<nat>, i: nat, c: nat)
    requires i <= |children|
    ensures forall x :: x in InsertAt(children, i, c) <==> x in children || x == c
    ensures NoDuplicates(children) && c !in children ==> NoDuplicates(InsertAt(children, i, c))
  {
    assert children == children[..i] + children[i..];
  }

  // ---- ancestry ------------------------------------------------------------------------

  /** The n-th ancestor of a node. */
  function Up(nodes: Nodes, x: nat, n: nat): Option<nat> {
    if n == 0 then Some(x)
    else
      var below := Up(nodes, x, n - 1);
      if below.Some? && below.value < |nodes| then nodes[below.value].parent else None
  }

  /** a is x or an ancestor of x. */
  ghost predicate Above(nodes: Nodes, a: nat, x: nat) {
    exists n: nat :: Up(nodes, x, n) == Some(a)
  }

  lemma {:induction false} UpShifts(nodes: Nodes, x: nat, n: nat)
    requires x < |nodes| && nodes[x].parent.Some?
    ensures Up(nodes, x, n + 1) == Up(nodes, nodes[x].parent.value, n)
  {
    if n > 0 {
      UpShifts(nodes, x, n - 1);
    } else {
      assert Up(nodes, x, 0) == Some(x);
    }
  }

  /** The ancestors of a node are itself and the ancestors of its parent. */
  lemma AboveStep(nodes: Nodes, a: nat, x: nat)
    requires x < |nodes|
    ensures Above(nodes, a, x) <==> a == x || (nodes[x].parent.Some? && Above(nodes, a, nodes[x].parent.value))
  {
    assert Up(nodes, x, 0) == Some(x);
    if nodes[x].parent.Some? {
      forall n: nat
        ensures Up(nodes, x, n + 1) == Up(nodes, nodes[x].parent.value, n)
      {
        UpShifts(nodes, x, n);
      }
      if Above(nodes, a, x) {
        var n: nat :| Up(nodes, x, n) == Some(a);
        if n > 0 { assert Up(nodes, nodes[x].parent.value, n - 1) == Some(a); }
      }
      if Above(nodes, a, nodes[x].parent.value) {
        var n: nat :| Up(nodes, nodes[x].parent.value, n) == Some(a);
        assert Up(nodes, x, n + 1) == Some(a);
      }
    } else {
      forall n: nat | n > 0
        ensures Up(nodes, x, n) == None
      {
        NoneAbove(nodes, x, n);
      }
    }
  }

  lemma {:induction false} NoneAbove(nodes: Nodes, x: nat, n: nat)
    requires x < |nodes| && nodes[x].parent.None? && n > 0
    ensures Up(nodes, x, n) == None
  {
    if n > 1 {
      NoneAbove(nodes, x, n - 1);
    } else {
      assert Up(nodes, x, 0) == Some(x);
    }
  }

  /** Numbers that grow from parent to child: there are no cycles. */
  ghost predicate Ranked(nodes: Nodes, rank: seq<nat>) {
    && |rank| == |nodes|
    && forall i :: 0 <= i < |nodes| && nodes[i].parent.Some? ==>
         nodes[i].parent.value < |nodes| && rank[nodes[i].parent.value] < rank[i]
  }

  lemma {:induction false} AboveRanksLower(nodes: Nodes, rank: seq<nat>, x: nat, n: nat)
    requires Ranked(nodes, rank) && x < |nodes| && Up(nodes, x, n).Some?
    ensures Up(nodes, x, n).value < |nodes| && rank[Up(nodes, x, n).value] + n <= rank[x]
  {
    if n > 0 {
      AboveRanksLower(nodes, rank, x, n - 1);
    }
  }

  // ---- the invariant --------------------------------------------------------------------

  /** The children a node lists name it as their parent. */
  ghost predicate ListsItsChildren(nodes: Nodes, i: nat)
    requires i < |nodes|
  {
    forall c :: c in nodes[i].children ==> c < |nodes| && nodes[c].parent == Some(i)
  }

  /** The parent a node names lists it. */
  ghost predicate NamesItsParent(nodes: Nodes, c: nat)
    requires c < |nodes|
  {
    nodes[c].parent.Some? ==> nodes[c].parent.value < |nodes| && c in nodes[nodes[c].parent.value].children
  }

  /** A node lists no child twice, and lists children only if they make a legal shape. */
  ghost predicate LegalList(nodes: Nodes, i: nat)
    requires i < |nodes|
  {
    && NoDuplicates(nodes[i].children)
    && (nodes[i].children != [] ==> LegalChildren(nodes, nodes[i].kind, nodes[i].children))
  }

  /** Parent and child links agree, each node is listed once, and every list has a legal shape. */
  ghost predicate Linked(nodes: Nodes) {
    && |nodes| > 0
    && nodes[0].kind.DocumentNode? && nodes[0].parent.None?
    && (forall i :: 0 < i < |nodes| ==> !nodes[i].kind.DocumentNode?)
    && (forall i :: 0 <= i < |nodes| ==> ListsItsChildren(nodes, i) && NamesItsParent(nodes, i) && LegalList(nodes, i))
  }

  ghost predicate Forest(nodes: Nodes) {
    Linked(nodes) && exists rank: seq<nat> :: Ranked(nodes, rank)
  }

  // ---- the primitive changes ---------------------------------------------------------------

  function WithChildren(nodes: Nodes, i: nat, children: seq<nat>): Nodes
    requires i < |nodes|
  {
    nodes[i := nodes[i].(children := children)]
  }

  function WithParent(nodes: Nodes, i: nat, parent: Option<nat>): Nodes
    requires i < |nodes|
  {
    nodes[i := nodes[i].(parent := parent)]
  }

  /** Takes a node out of its parent, if it has one. */
  function Detach(nodes: Nodes, c: nat): (next: Nodes)
    requires c < |nodes| && (nodes[c].parent.Some? ==> nodes[c].parent.value < |nodes|)
    ensures |next| == |nodes| && SameKinds(nodes, next) && next[c].parent.None?
  {
    if nodes[c].parent.None? then nodes
    else
      var p := nodes[c].parent.value;
      WithParent(WithChildren(nodes, p, Without(nodes[p].children, c)), c, None)
  }

  /** Puts a node without a parent among a node's children. */
  function Attach(nodes: Nodes, p: nat, c: nat, i: nat): (next: Nodes)
    requires p < |nodes| && c < |nodes| && i <= |nodes[p].children|
    ensures |next| == |nodes| && SameKinds(nodes, next)
  {
    WithParent(WithChildren(nodes, p, InsertAt(nodes[p].children, i, c)), c, Some(p))
  }

  lemma LegalCarriesOver(a: Nodes, b: Nodes, kind: NodeKind, children: seq<nat>)
    requires SameKinds(a, b) && LegalChildren(a, kind, children)
    ensures LegalChildren(b, kind, children)
  {
    if kind.DocumentNode? {
      LegalSameKinds(a, b, children, false, false);
    } else {
      forall i | 0 <= i < |children|
        ensures children[i] < |b| && !b[children[i]].kind.DocumentNode? && !b[children[i]].kind.DocumentType?
      {
        assert KindTag(a[children[i]].kind) == KindTag(b[children[i]].kind);
      }
    }
  }

  lemma LegalListWithout(nodes: Nodes, kind: NodeKind, children: seq<nat>, c: nat)
    requires LegalChildren(nodes, kind, children)
    ensures LegalChildren(nodes, kind, Without(children, c))
  {
    if kind.DocumentNode? {
      LegalWithout(nodes, children, c, false, false);
    } else {
      var rest := Without(children, c);
      forall i | 0 <= i < |rest|
        ensures rest[i] < |nodes| && !nodes[rest[i]].kind.DocumentNode? && !nodes[rest[i]].kind.DocumentType?
      {
        assert rest[i] in children;
        var k :| 0 <= k < |children| && children[k] == rest[i];
      }
    }
  }

  lemma DetachLegal(nodes: Nodes, c: nat, i: nat)
    requires c < |nodes| && NamesItsParent(nodes, c) && nodes[c].parent.Some? && nodes[c].parent.value != c
    requires i < |nodes| && LegalList(nodes, i)
    ensures LegalList(Detach(nodes, c), i)
  {
    var next, p := Detach(nodes, c), nodes[c].parent.value;
    if i == p {
      WithoutKeepsDistinct(nodes[p].children, c);
    }
    if next[i].children != [] {
      if i == p {
        LegalListWithout(nodes, nodes[p].kind, nodes[p].children, c);
      }
      LegalCarriesOver(nodes, next, nodes[i].kind, next[i].children);
    }
  }

  lemma DetachLinks(nodes: Nodes, c: nat, i: nat)
    requires Linked(nodes) && c < |nodes| && NamesItsParent(nodes, c) && nodes[c].parent.Some?
    requires nodes[c].parent.value != c && i < |nodes|
    ensures var next := Detach(nodes, c); ListsItsChildren(next, i) && NamesItsParent(next, i) && LegalList(next, i)
  {
    var next := Detach(nodes, c);
    assert ListsItsChildren(nodes, i) && NamesItsParent(nodes, i) && LegalList(nodes, i);
    DetachLegal(nodes, c, i);
    hide Linked;
    hide LegalList;
    hide Without;
    assert ListsItsChildren(next, i);
    assert NamesItsParent(next, i);
  }

  lemma DetachKeepsForest(nodes: Nodes, c: nat)
    requires Forest(nodes) && c < |nodes|
    ensures NamesItsParent(nodes, c) && Forest(Detach(nodes, c))
  {
    assert NamesItsParent(nodes, c);
    var next := Detach(nodes, c);
    var rank: seq<nat> :| Ranked(nodes, rank);
    assert Ranked(next, rank);
    if nodes[c].parent.Some? {
      forall i | 0 <= i < |next|
        ensures ListsItsChildren(next, i) && NamesItsParent(next, i) && LegalList(next, i)
      {
        DetachLinks(nodes, c, i);
      }
      forall i | 0 < i < |next|
        ensures !next[i].kind.DocumentNode?
      {
        assert KindTag(nodes[i].kind) == KindTag(next[i].kind);
      }
    }
  }

  lemma DetachElsewhere(nodes: Nodes, c: nat, x: nat)
    requires Linked(nodes) && c < |nodes| && x < |nodes|
    ensures NamesItsParent(nodes, c)
    ensures x != c ==> Detach(nodes, c)[x].parent == nodes[x].parent
    ensures Detach(nodes, c)[x].children == Without(nodes[x].children, c)
  {
    assert NamesItsParent(nodes, c) && ListsItsChildren(nodes, x);
    if nodes[c].parent != Some(x) {
      assert c !in nodes[x].children;
      WithoutAbsent(nodes[x].children, c);
    }
  }

  /** The new ranks after putting c under p: everything under c moves below p. */
  lemma AttachRanks(nodes: Nodes, p: nat, c: nat, i: nat, rank: seq<nat>) returns (next: seq<nat>)
    requires Ranked(nodes, rank) && p < |nodes| && c < |nodes| && i <= |nodes[p].children|
    requires nodes[c].parent.None? && !Above(nodes, c, p)
    ensures Ranked(Attach(nodes, p, c, i), next)
  {
    next := seq(|nodes|, x requires 0 <= x < |nodes| => if Above(nodes, c, x) then rank[x] + rank[p] + 1 else rank[x]);
    var after := Attach(nodes, p, c, i);
    forall x | 0 <= x < |after| && after[x].parent.Some?
      ensures after[x].parent.value < |after| && next[after[x].parent.value] < next[x]
    {
      AboveStep(nodes, c, x);
      if x != c {
        assert after[x].parent == nodes[x].parent;
      }
    }
  }

  lemma AttachLegal(nodes: Nodes, p: nat, c: nat, i: nat, j: nat)
    requires p < |nodes| && c < |nodes| && i <= |nodes[p].children| && c !in nodes[p].children
    requires LegalChildren(nodes, nodes[p].kind, InsertAt(nodes[p].children, i, c))
    requires j < |nodes| && LegalList(nodes, j)
    ensures LegalList(Attach(nodes, p, c, i), j)
  {
    var next := Attach(nodes, p, c, i);
    InsertMembers(nodes[p].children, i, c);
    hide InsertAt;
    if next[j].children != [] {
      LegalCarriesOver(nodes, next, nodes[j].kind, next[j].children);
    }
  }

  lemma AttachLinks(nodes: Nodes, p: nat, c: nat, i: nat, j: nat)
    requires Linked(nodes) && p < |nodes| && 0 < c < |nodes| && i <= |nodes[p].children|
    requires nodes[c].parent.None? && c != p && j < |nodes|
    requires LegalChildren(nodes, nodes[p].kind, InsertAt(nodes[p].children, i, c))
    ensures var next := Attach(nodes, p, c, i);
            ListsItsChildren(next, j) && NamesItsParent(next, j) && LegalList(next, j)
  {
    assert ListsItsChildren(nodes, j) && NamesItsParent(nodes, j) && LegalList(nodes, j);
    assert c !in nodes[p].children by { assert ListsItsChildren(nodes, p); }
    AttachLegal(nodes, p, c, i, j);
    InsertMembers(nodes[p].children, i, c);
    hide Linked;
    hide LegalList;
    hide LegalChildren;
    hide InsertAt;
    hide NoDuplicates;
    var next := Attach(nodes, p, c, i);
    assert ListsItsChildren(next, j);
    assert NamesItsParent(next, j);
  }

  /** Putting a free node under a node it is not above, in a list of legal shape, keeps the forest. */
  lemma AttachKeepsForest(nodes: Nodes, p: nat, c: nat, i: nat)
    requires Forest(nodes) && p < |nodes| && 0 < c < |nodes| && i <= |nodes[p].children|
    requires nodes[c].parent.None? && !Above(nodes, c, p)
    requires LegalChildren(nodes, nodes[p].kind, InsertAt(nodes[p].children, i, c))
    ensures Forest(Attach(nodes, p, c, i))
  {
    var next := Attach(nodes, p, c, i);
    AboveStep(nodes, c, p);
    var rank: seq<nat> :| Ranked(nodes, rank);
    var ranks := AttachRanks(nodes, p, c, i, rank);
    forall j | 0 <= j < |next|
      ensures ListsItsChildren(next, j) && NamesItsParent(next, j) && LegalList(next, j)
    {
      AttachLinks(nodes, p, c, i, j);
    }
    forall j | 0 < j < |next|
      ensures !next[j].kind.DocumentNode?
    {
      assert KindTag(nodes[j].kind) == KindTag(next[j].kind);
    }
  }

  /** Adding a node without links keeps the forest. */
  lemma AllocateKeepsForest(nodes: Nodes, kind: NodeKind)
    requires Forest(nodes) && !kind.DocumentNode?
    ensures Forest(nodes + [NodeRecord(None, [], kind)])
  {
    var next := nodes + [NodeRecord(None, [], kind)];
    var rank: seq<nat> :| Ranked(nodes, rank);
    assert Ranked(next, rank + [0]);
    forall j | 0 <= j < |next|
      ensures ListsItsChildren(next, j) && NamesItsParent(next, j) && LegalList(next, j)
    {
      if j < |nodes| {
        assert next[j] == nodes[j];
        assert ListsItsChildren(nodes, j) && NamesItsParent(nodes, j) && LegalList(nodes, j);
        if nodes[j].children != [] {
          LegalCarriesOver(nodes, next, nodes[j].kind, nodes[j].children);
        }
      }
    }
  }

  /** Changing a node's contents, but not its kind, keeps the forest. */
  lemma ContentsKeepForest(nodes: Nodes, i: nat, kind: NodeKind)
    requires Forest(nodes) && i < |nodes| && KindTag(kind) == KindTag(nodes[i].kind)
    ensures Forest(nodes[i := nodes[i].(kind := kind)])
  {
    var next := nodes[i := nodes[i].(kind := kind)];
    var rank: seq<nat> :| Ranked(nodes, rank);
    assert Ranked(next, rank);
    forall j | 0 <= j < |next|
      ensures ListsItsChildren(next, j) && NamesItsParent(next, j) && LegalList(next, j)
    {
      assert ListsItsChildren(nodes, j) && NamesItsParent(nodes, j) && LegalList(nodes, j);
      if nodes[j].children != [] {
        LegalCarriesOver(nodes, next, nodes[j].kind, nodes[j].children);
        LegalSameTag(next, nodes[j].kind, next[j].kind, nodes[j].children);
      }
    }
  }

  lemma LegalSameTag(nodes: Nodes, a: NodeKind, b: NodeKind, children: seq<nat>)
    requires KindTag(a) == KindTag(b) && LegalChildren(nodes, a, children)
    ensures LegalChildren(nodes, b, children)
  {
  }
}
