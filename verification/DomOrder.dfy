/** Walks over the forest: document order, text content and ancestor tests. */
module DomOrder {
  import opened Outcomes
  import opened DomForest

  ghost predicate Ready(nodes: Nodes, rank: seq<nat>, bound: nat) {
    Linked(nodes) && Ranked(nodes, rank) && forall i :: 0 <= i < |rank| ==> rank[i] < bound
  }

  /** A forest can be walked: some ranks and a bound on them exist. */
  lemma ForestIsReady(nodes: Nodes) returns (rank: seq<nat>, bound: nat)
    requires Forest(nodes)
    ensures Ready(nodes, rank, bound)
  {
    rank :| Ranked(nodes, rank);
    bound := Largest(rank) + 1;
  }

  ghost function Largest(rank: seq<nat>): (most: nat)
    ensures forall i :: 0 <= i < |rank| ==> rank[i] <= most
  {
    if rank == [] then 0
    else
      var rest := Largest(rank[..|rank| - 1]);
      if rest < rank[|rank| - 1] then rank[|rank| - 1] else rest
  }

  ghost predicate Deeper(nodes: Nodes, rank: seq<nat>, list: seq<nat>, low: int) {
    |rank| == |nodes| && forall i :: 0 <= i < |list| ==> list[i] < |nodes| && low < rank[list[i]]
  }

  lemma ChildrenAreDeeper(nodes: Nodes, rank: seq<nat>, bound: nat, x: nat)
    requires Ready(nodes, rank, bound) && x < |nodes|
    ensures Deeper(nodes, rank, nodes[x].children, rank[x])
  {
    assert ListsItsChildren(nodes, x);
    forall i | 0 <= i < |nodes[x].children|
      ensures nodes[x].children[i] < |nodes| && rank[x] < rank[nodes[x].children[i]]
    {
      assert nodes[x].children[i] in nodes[x].children;
    }
  }

  /** A node, then its children's trees in order. */
  ghost function Preorder(nodes: Nodes, rank: seq<nat>, bound: nat, x: nat): seq<nat>
    requires Ready(nodes, rank, bound) && x < |nodes|
    decreases bound - rank[x], 1, 0
  {
    ChildrenAreDeeper(nodes, rank, bound, x);
    [x] + PreorderAll(nodes, rank, bound, nodes[x].children, rank[x])
  }

  ghost function PreorderAll(nodes: Nodes, rank: seq<nat>, bound: nat, list: seq<nat>, low: int): seq<nat>
    requires Ready(nodes, rank, bound) && Deeper(nodes, rank, list, low) && -1 <= low
    decreases bound - low, 0, |list|
  {
    if list == [] then [] else Preorder(nodes, rank, bound, list[0]) + PreorderAll(nodes, rank, bound, list[1..], low)
  }

  lemma DeeperConcat(nodes: Nodes, rank: seq<nat>, a: seq<nat>, b: seq<nat>, low: int, low': int)
    requires low' <= low && Deeper(nodes, rank, a, low) && Deeper(nodes, rank, b, low')
    ensures Deeper(nodes, rank, a + b, low')
    ensures a != [] ==> Deeper(nodes, rank, a[1..], low) && a[0] < |nodes| && (a + b)[0] == a[0]
  {
  }

  lemma {:induction false} PreorderAllConcat(nodes: Nodes, rank: seq<nat>, bound: nat, a: seq<nat>, b: seq<nat>,
                                             low: int, low': int)
    requires Ready(nodes, rank, bound) && -1 <= low' <= low
    requires Deeper(nodes, rank, a, low) && Deeper(nodes, rank, b, low')
    ensures Deeper(nodes, rank, a + b, low')
    ensures PreorderAll(nodes, rank, bound, a + b, low') == PreorderAll(nodes, rank, bound, a, low)
        + PreorderAll(nodes, rank, bound, b, low')
    decreases |a|
  {
    DeeperConcat(nodes, rank, a, b, low, low');
    if a == [] {
      assert a + b == b;
    } else {
      hide Ready;
      hide Deeper;
      assert (a + b)[1..] == a[1..] + b;
      PreorderAllConcat(nodes, rank, bound, a[1..], b, low, low');
    }
  }

  function Reversed(s: seq<nat>): seq<nat> {
    if s == [] then [] else [s[|s| - 1]] + Reversed(s[..|s| - 1])
  }

  lemma {:induction false} ReversedConcat(a: seq<nat>, b: seq<nat>)
    ensures Reversed(a + b) == Reversed(b) + Reversed(a)
    decreases |b|
  {
    if b == [] {
      assert a + b == a;
    } else {
      assert (a + b)[..|a + b| - 1] == a + b[..|b| - 1];
      ReversedConcat(a, b[..|b| - 1]);
    }
  }

  lemma {:induction false} ReversedTwice(s: seq<nat>)
    ensures Reversed(Reversed(s)) == s
  {
    if s != [] {
      var init := s[..|s| - 1];
      ReversedTwice(init);
      ReversedConcat([s[|s| - 1]], Reversed(init));
      assert Reversed([s[|s| - 1]]) == [s[|s| - 1]] + Reversed([s[|s| - 1]][..0]);
      assert s == init + [s[|s| - 1]];
    }
  }

  lemma OrderStarts(nodes: Nodes, rank: seq<nat>, bound: nat)
    requires Ready(nodes, rank, bound)
    ensures Deeper(nodes, rank, Reversed([0]), -1) && Deeper(nodes, rank, Reversed([]), -1)
    ensures PreorderAll(nodes, rank, bound, Reversed([0]), -1) == Preorder(nodes, rank, bound, 0)
    ensures PreorderAll(nodes, rank, bound, Reversed([]), -1) == []
  {
    var pending := [0];
    assert pending[..0] == [] && Reversed(pending) == [0] + Reversed(pending[..0]);
    assert Reversed(pending)[1..] == [];
  }

  /** The explicit stack visits the tree in recursive preorder, and ends. */
  method DocumentOrder(nodes: Nodes, ghost rank: seq<nat>, ghost bound: nat) returns (order: seq<nat>)
    requires Ready(nodes, rank, bound)
    ensures order == Preorder(nodes, rank, bound, 0)
  {
    order := [];
    var pending := [0];
    OrderStarts(nodes, rank, bound);
    hide Ready;
    hide Deeper;
    hide Reversed;
    hide Preorder;
    hide PreorderAll;
    while pending != []
      invariant Deeper(nodes, rank, Reversed(pending), -1)
      invariant Preorder(nodes, rank, bound, 0) == order + PreorderAll(nodes, rank, bound, Reversed(pending), -1)
      decreases |PreorderAll(nodes, rank, bound, Reversed(pending), -1)|
    {
      var node, rest := pending[|pending| - 1], pending[..|pending| - 1];
      PopAndPush(nodes, rank, bound, pending);
      order := order + [node];
      pending := rest + Reversed(nodes[node].children);
    }
  }

  /** Popping a node off the stack and pushing its children: what is left to visit. */
  lemma PopStack(nodes: Nodes, rank: seq<nat>, bound: nat, pending: seq<nat>)
    requires Ready(nodes, rank, bound) && pending != [] && Deeper(nodes, rank, Reversed(pending), -1)
    ensures var node, rest := pending[|pending| - 1], pending[..|pending| - 1];
            && node < |nodes| && Deeper(nodes, rank, Reversed(rest), -1)
            && Deeper(nodes, rank, nodes[node].children, rank[node])
            && Reversed(pending) == [node] + Reversed(rest)
            && Reversed(rest + Reversed(nodes[node].children)) == nodes[node].children + Reversed(rest)
  {
    var node, rest := pending[|pending| - 1], pending[..|pending| - 1];
    assert Reversed(pending)[0] == node && Reversed(pending)[1..] == Reversed(rest);
    ChildrenAreDeeper(nodes, rank, bound, node);
    ReversedConcat(rest, Reversed(nodes[node].children));
    ReversedTwice(nodes[node].children);
    hide Ready;
    forall i | 0 <= i < |Reversed(rest)|
      ensures Reversed(rest)[i] < |nodes|
    {
      assert Reversed(rest)[i] == Reversed(pending)[i + 1];
    }
  }

  lemma PopAndPush(nodes: Nodes, rank: seq<nat>, bound: nat, pending: seq<nat>)
    requires Ready(nodes, rank, bound) && pending != [] && Deeper(nodes, rank, Reversed(pending), -1)
    ensures var node, rest := pending[|pending| - 1], pending[..|pending| - 1];
            && node < |nodes|
            && Deeper(nodes, rank, Reversed(rest + Reversed(nodes[node].children)), -1)
            && PreorderAll(nodes, rank, bound, Reversed(pending), -1)
               == [node] + PreorderAll(nodes, rank, bound, Reversed(rest + Reversed(nodes[node].children)), -1)
  {
    var node, rest := pending[|pending| - 1], pending[..|pending| - 1];
    PopStack(nodes, rank, bound, pending);
    hide Ready;
    hide Deeper;
    hide Reversed;
    assert Reversed(pending)[0] == node && Reversed(pending)[1..] == Reversed(rest);
    PreorderAllConcat(nodes, rank, bound, nodes[node].children, Reversed(rest), rank[node], -1);
  }

  // ---- what document order contains ------------------------------------------------------------

  lemma {:induction false} UpComposes(nodes: Nodes, x: nat, m: nat, n: nat)
    requires Up(nodes, x, m).Some?
    ensures Up(nodes, x, m + n) == Up(nodes, Up(nodes, x, m).value, n)
  {
    if n > 0 {
      UpComposes(nodes, x, m, n - 1);
    }
  }

  /** Two nodes above a third are above one another. */
  lemma AncestorsFormAChain(nodes: Nodes, a: nat, b: nat, y: nat)
    requires Above(nodes, a, y) && Above(nodes, b, y)
    ensures Above(nodes, a, b) || Above(nodes, b, a)
  {
    var m: nat :| Up(nodes, y, m) == Some(a);
    var n: nat :| Up(nodes, y, n) == Some(b);
    if m <= n {
      UpComposes(nodes, y, m, n - m);
      assert Up(nodes, a, n - m) == Some(b);
    } else {
      UpComposes(nodes, y, n, m - n);
      assert Up(nodes, b, m - n) == Some(a);
    }
  }

  lemma AboveThroughChild(nodes: Nodes, x: nat, c: nat, y: nat)
    requires Linked(nodes) && x < |nodes| && c in nodes[x].children && Above(nodes, c, y)
    ensures Above(nodes, x, y)
  {
    assert ListsItsChildren(nodes, x);
    var n: nat :| Up(nodes, y, n) == Some(c);
    assert Up(nodes, y, n + 1) == Some(x);
  }

  lemma ChildTowards(nodes: Nodes, x: nat, y: nat) returns (c: nat)
    requires Linked(nodes) && x < |nodes| && y < |nodes| && Above(nodes, x, y) && x != y
    ensures c in nodes[x].children && Above(nodes, c, y)
  {
    var n: nat :| Up(nodes, y, n) == Some(x);
    assert n > 0;
    c := Up(nodes, y, n - 1).value;
    assert Up(nodes, y, n - 1) == Some(c);
    assert NamesItsParent(nodes, c);
  }

  /** Document order from a node lists exactly the node and its descendants. */
  lemma {:induction false} PreorderLists(nodes: Nodes, rank: seq<nat>, bound: nat, x: nat, y: nat)
    requires Ready(nodes, rank, bound) && x < |nodes| && y < |nodes|
    ensures y in Preorder(nodes, rank, bound, x) <==> Above(nodes, x, y)
    decreases bound - rank[x], 1, 0
  {
    ChildrenAreDeeper(nodes, rank, bound, x);
    var children := nodes[x].children;
    PreorderAllLists(nodes, rank, bound, children, rank[x], y);
    if x == y {
      assert Up(nodes, y, 0) == Some(y);
    } else if Above(nodes, x, y) {
      var c := ChildTowards(nodes, x, y);
      var i :| 0 <= i < |children| && children[i] == c;
    } else if y in PreorderAll(nodes, rank, bound, children, rank[x]) {
      var i :| 0 <= i < |children| && Above(nodes, children[i], y);
      AboveThroughChild(nodes, x, children[i], y);
    }
  }

  lemma {:induction false} PreorderAllLists(nodes: Nodes, rank: seq<nat>, bound: nat, list: seq<nat>, low: int, y: nat)
    requires Ready(nodes, rank, bound) && Deeper(nodes, rank, list, low) && -1 <= low && y < |nodes|
    ensures y in PreorderAll(nodes, rank, bound, list, low) <==> exists i :: 0 <= i < |list| && Above(nodes, list[i], y)
    decreases bound - low, 0, |list|
  {
    if list != [] {
      PreorderLists(nodes, rank, bound, list[0], y);
      PreorderAllLists(nodes, rank, bound, list[1..], low, y);
      assert forall i :: 0 < i < |list| ==> list[i] == list[1..][i - 1];
      if exists i :: 0 <= i < |list[1..]| && Above(nodes, list[1..][i], y) {
        var i :| 0 <= i < |list[1..]| && Above(nodes, list[1..][i], y);
        assert Above(nodes, list[i + 1], y);
      }
    }
  }

  /** Siblings have no node in common below them. */
  lemma SiblingsAreApart(nodes: Nodes, rank: seq<nat>, bound: nat, a: nat, b: nat, y: nat)
    requires Ready(nodes, rank, bound) && a < |nodes| && b < |nodes| && a != b && nodes[a].parent == nodes[b].parent
    ensures !(Above(nodes, a, y) && Above(nodes, b, y))
  {
    NotAboveSibling(nodes, rank, bound, a, b);
    NotAboveSibling(nodes, rank, bound, b, a);
    if Above(nodes, a, y) && Above(nodes, b, y) {
      AncestorsFormAChain(nodes, a, b, y);
    }
  }

  lemma NotAboveSibling(nodes: Nodes, rank: seq<nat>, bound: nat, a: nat, b: nat)
    requires Ready(nodes, rank, bound) && a < |nodes| && b < |nodes| && a != b && nodes[a].parent == nodes[b].parent
    ensures !Above(nodes, a, b)
  {
    AboveStep(nodes, a, b);
    if Above(nodes, a, b) {
      var p := nodes[b].parent.value;
      var n: nat :| Up(nodes, p, n) == Some(a);
      AboveRanksLower(nodes, rank, p, n);
      assert false;
    }
  }

  /** Document order visits no node twice. */
  lemma {:induction false} PreorderIsDistinct(nodes: Nodes, rank: seq<nat>, bound: nat, x: nat)
    requires Ready(nodes, rank, bound) && x < |nodes|
    ensures NoDuplicates(Preorder(nodes, rank, bound, x))
    decreases bound - rank[x], 1, 0
  {
    ChildrenAreDeeper(nodes, rank, bound, x);
    assert ListsItsChildren(nodes, x) && LegalList(nodes, x);
    PreorderAllIsDistinct(nodes, rank, bound, nodes[x].children, rank[x], Some(x));
    PreorderAllLists(nodes, rank, bound, nodes[x].children, rank[x], x);
    if exists i :: 0 <= i < |nodes[x].children| && Above(nodes, nodes[x].children[i], x) {
      var i :| 0 <= i < |nodes[x].children| && Above(nodes, nodes[x].children[i], x);
      var n: nat :| Up(nodes, x, n) == Some(nodes[x].children[i]);
      AboveRanksLower(nodes, rank, x, n);
      assert false;
    }
  }

  lemma {:induction false} PreorderAllIsDistinct(nodes: Nodes, rank: seq<nat>, bound: nat, list: seq<nat>, low: int,
                                                 parent: Option<nat>)
    requires Ready(nodes, rank, bound) && Deeper(nodes, rank, list, low) && -1 <= low && NoDuplicates(list)
    requires forall i :: 0 <= i < |list| ==> list[i] < |nodes| && nodes[list[i]].parent == parent
    ensures NoDuplicates(PreorderAll(nodes, rank, bound, list, low))
    decreases bound - low, 0, |list|
  {
    if list != [] {
      assert forall i :: 0 <= i < |list[1..]| ==> list[1..][i] == list[i + 1];
      PreorderIsDistinct(nodes, rank, bound, list[0]);
      PreorderAllIsDistinct(nodes, rank, bound, list[1..], low, parent);
      var first, rest := Preorder(nodes, rank, bound, list[0]), PreorderAll(nodes, rank, bound, list[1..], low);
      forall y | y in first
        ensures y !in rest
      {
        PreorderInRange(nodes, rank, bound, list[0], y);
        PreorderLists(nodes, rank, bound, list[0], y);
        PreorderAllLists(nodes, rank, bound, list[1..], low, y);
        forall i | 0 <= i < |list[1..]|
          ensures !Above(nodes, list[1..][i], y)
        {
          SiblingsAreApart(nodes, rank, bound, list[0], list[i + 1], y);
        }
      }
      DistinctConcat(first, rest);
    }
  }

  lemma DistinctConcat(a: seq<nat>, b: seq<nat>)
    requires NoDuplicates(a) && NoDuplicates(b) && forall y :: !(y in a && y in b)
    ensures NoDuplicates(a + b)
  {
    forall i, j | 0 <= i < j < |a + b|
      ensures (a + b)[i] != (a + b)[j]
    {
      if i < |a| && |a| <= j { assert (a + b)[i] in a && (a + b)[j] in b; }
    }
  }

  lemma {:induction false} PreorderInRange(nodes: Nodes, rank: seq<nat>, bound: nat, x: nat, y: nat)
    requires Ready(nodes, rank, bound) && x < |nodes| && y in Preorder(nodes, rank, bound, x)
    ensures y < |nodes|
    decreases bound - rank[x], 1, 0
  {
    ChildrenAreDeeper(nodes, rank, bound, x);
    if y != x { PreorderAllInRange(nodes, rank, bound, nodes[x].children, rank[x], y); }
  }

  lemma {:induction false} PreorderAllInRange(nodes: Nodes, rank: seq<nat>, bound: nat, list: seq<nat>, low: int,
                                              y: nat)
    requires Ready(nodes, rank, bound) && Deeper(nodes, rank, list, low) && -1 <= low
        && y in PreorderAll(nodes, rank, bound, list, low)
    ensures y < |nodes|
    decreases bound - low, 0, |list|
  {
    if y in Preorder(nodes, rank, bound, list[0]) {
      PreorderInRange(nodes, rank, bound, list[0], y);
    } else {
      PreorderAllInRange(nodes, rank, bound, list[1..], low, y);
    }
  }

  // ---- text content ---------------------------------------------------------------------------------

  /** The text of a node: a text node's data, an element's children, nothing else. */
  ghost function OwnText(nodes: Nodes, rank: seq<nat>, bound: nat, x: nat): string
    requires Ready(nodes, rank, bound) && x < |nodes|
    decreases bound - rank[x], 1, 0
  {
    ChildrenAreDeeper(nodes, rank, bound, x);
    match nodes[x].kind
    case Text(data) => data
    case Element(_, _) => TextOfAll(nodes, rank, bound, nodes[x].children, rank[x])
    case _ => []
  }

  /** The text of a list of nodes, in order. */
  ghost function TextOfAll(nodes: Nodes, rank: seq<nat>, bound: nat, list: seq<nat>, low: int): string
    requires Ready(nodes, rank, bound) && Deeper(nodes, rank, list, low) && -1 <= low
    decreases bound - low, 0, |list|
  {
    if list == [] then [] else OwnText(nodes, rank, bound, list[0]) + TextOfAll(nodes, rank, bound, list[1..], low)
  }

  lemma {:induction false} TextConcat(nodes: Nodes, rank: seq<nat>, bound: nat, a: seq<nat>, b: seq<nat>,
                                      low: int, low': int)
    requires Ready(nodes, rank, bound) && -1 <= low' <= low
    requires Deeper(nodes, rank, a, low) && Deeper(nodes, rank, b, low')
    ensures Deeper(nodes, rank, a + b, low')
    ensures TextOfAll(nodes, rank, bound, a + b, low')
         == TextOfAll(nodes, rank, bound, a, low) + TextOfAll(nodes, rank, bound, b, low')
    decreases |a|
  {
    DeeperConcat(nodes, rank, a, b, low, low');
    if a == [] {
      assert a + b == b;
    } else {
      hide Ready;
      hide Deeper;
      hide OwnText;
      assert (a + b)[1..] == a[1..] + b;
      TextConcat(nodes, rank, bound, a[1..], b, low, low');
    }
  }

  lemma PopText(nodes: Nodes, rank: seq<nat>, bound: nat, pending: seq<nat>)
    requires Ready(nodes, rank, bound) && pending != [] && Deeper(nodes, rank, Reversed(pending), -1)
    ensures var node, rest := pending[|pending| - 1], pending[..|pending| - 1];
            && node < |nodes|
            && Deeper(nodes, rank, Reversed(rest), -1)
            && (nodes[node].kind.Element? ==>
                  && Deeper(nodes, rank, Reversed(rest + Reversed(nodes[node].children)), -1)
                  && TextOfAll(nodes, rank, bound, Reversed(pending), -1)
                     == TextOfAll(nodes, rank, bound, Reversed(rest + Reversed(nodes[node].children)), -1))
            && (!nodes[node].kind.Element? ==>
                  TextOfAll(nodes, rank, bound, Reversed(pending), -1)
                  == (if nodes[node].kind.Text? then nodes[node].kind.data else [])
                      + TextOfAll(nodes, rank, bound, Reversed(rest), -1))
  {
    var node, rest := pending[|pending| - 1], pending[..|pending| - 1];
    PopStack(nodes, rank, bound, pending);
    hide Ready;
    hide Deeper;
    hide Reversed;
    assert Reversed(pending)[0] == node && Reversed(pending)[1..] == Reversed(rest);
    TextConcat(nodes, rank, bound, nodes[node].children, Reversed(rest), rank[node], -1);
  }

  ghost predicate Stack(nodes: Nodes, rank: seq<nat>, pending: seq<nat>) {
    Deeper(nodes, rank, Reversed(pending), -1)
  }

  /** The text still to be collected from a stack. */
  ghost function StackText(nodes: Nodes, rank: seq<nat>, bound: nat, pending: seq<nat>): string
    requires Ready(nodes, rank, bound) && Stack(nodes, rank, pending)
  {
    TextOfAll(nodes, rank, bound, Reversed(pending), -1)
  }

  /** The number of nodes still to be visited from a stack. */
  ghost function StackSize(nodes: Nodes, rank: seq<nat>, bound: nat, pending: seq<nat>): nat
    requires Ready(nodes, rank, bound) && Stack(nodes, rank, pending)
  {
    |PreorderAll(nodes, rank, bound, Reversed(pending), -1)|
  }

  lemma TextStarts(nodes: Nodes, rank: seq<nat>, bound: nat, list: seq<nat>, low: nat)
    requires Ready(nodes, rank, bound) && Deeper(nodes, rank, list, low)
    ensures Stack(nodes, rank, Reversed(list)) && StackText(nodes, rank, bound, Reversed(list))
        == TextOfAll(nodes, rank, bound, list, low)
    ensures Stack(nodes, rank, []) && StackText(nodes, rank, bound, []) == []
  {
    ReversedTwice(list);
    TextConcat(nodes, rank, bound, list, [], low, -1);
    assert list + [] == list;
  }

  /** One turn of the collecting loop: the node's own text, and the stack it leaves. */
  function NextStack(nodes: Nodes, pending: seq<nat>): (r: (string, seq<nat>))
    requires pending != [] && pending[|pending| - 1] < |nodes|
  {
    var node, rest := pending[|pending| - 1], pending[..|pending| - 1];
    match nodes[node].kind
    case Text(data) => (data, rest)
    case Element(_, _) => ([], rest + Reversed(nodes[node].children))
    case _ => ([], rest)
  }

  lemma TextTurn(nodes: Nodes, rank: seq<nat>, bound: nat, pending: seq<nat>)
    requires Ready(nodes, rank, bound) && pending != [] && Stack(nodes, rank, pending)
    ensures pending[|pending| - 1] < |nodes|
    ensures var (own, next) := NextStack(nodes, pending);
            && Stack(nodes, rank, next)
            && StackText(nodes, rank, bound, pending) == own + StackText(nodes, rank, bound, next)
            && StackSize(nodes, rank, bound, next) < StackSize(nodes, rank, bound, pending)
  {
    hide Ready;
    hide Deeper;
    hide TextOfAll;
    hide PreorderAll;
    hide Reversed;
    PopText(nodes, rank, bound, pending);
    PopAndPush(nodes, rank, bound, pending);
    LeafHasNothingBelow(nodes, rank, bound, pending);
  }

  method CollectText(nodes: Nodes, children: seq<nat>, ghost low: nat, ghost rank: seq<nat>,
                     ghost bound: nat) returns (content: string)
    requires Ready(nodes, rank, bound) && Deeper(nodes, rank, children, low)
    ensures content == TextOfAll(nodes, rank, bound, children, low)
  {
    hide Ready;
    hide Stack;
    hide StackText;
    hide StackSize;
    hide TextOfAll;
    hide Reversed;
    TextStarts(nodes, rank, bound, children, low);
    content := [];
    var pending := Reversed(children);
    ghost var goal := TextOfAll(nodes, rank, bound, children, low);
    while pending != []
      invariant Stack(nodes, rank, pending) && goal == content + StackText(nodes, rank, bound, pending)
      decreases StackSize(nodes, rank, bound, pending)
    {
      TextTurn(nodes, rank, bound, pending);
      var (own, next) := NextStack(nodes, pending);
      content := content + own;
      pending := next;
    }
  }

  /** The iterative collection of an element's text is the recursive one. */
  method TextContent(nodes: Nodes, x: nat, ghost rank: seq<nat>, ghost bound: nat) returns (text: Option<string>)
    requires Ready(nodes, rank, bound) && x < |nodes|
    ensures text.None? <==> nodes[x].kind.DocumentNode? || nodes[x].kind.DocumentType?
    ensures nodes[x].kind.Text? || nodes[x].kind.Comment? ==> text == Some(nodes[x].kind.data)
    ensures nodes[x].kind.Element? ==>
      && Deeper(nodes, rank, nodes[x].children, rank[x])
      && text == Some(TextOfAll(nodes, rank, bound, nodes[x].children, rank[x]))
  {
    ChildrenAreDeeper(nodes, rank, bound, x);
    match nodes[x].kind
    case DocumentNode => return None;
    case DocumentType(_, _, _) => return None;
    case Text(data) => return Some(data);
    case Comment(data) => return Some(data);
    case Element(_, _) =>
      var content := CollectText(nodes, nodes[x].children, rank[x], rank, bound);
      return Some(content);
  }

  /** Dropping a node from the stack without its children shortens what is left to visit. */
  lemma LeafHasNothingBelow(nodes: Nodes, rank: seq<nat>, bound: nat, pending: seq<nat>)
    requires Ready(nodes, rank, bound) && pending != [] && Deeper(nodes, rank, Reversed(pending), -1)
    requires Deeper(nodes, rank, Reversed(pending[..|pending| - 1]), -1)
    ensures |PreorderAll(nodes, rank, bound, Reversed(pending[..|pending| - 1]), -1)| < |PreorderAll(nodes, rank,
        bound, Reversed(pending), -1)|
  {
    hide Linked;
    hide Ranked;
    var node, rest := pending[|pending| - 1], pending[..|pending| - 1];
    assert Reversed(pending) == [node] + Reversed(rest);
    assert Reversed(pending)[0] == node && Reversed(pending)[1..] == Reversed(rest);
    assert PreorderAll(nodes, rank, bound, Reversed(pending), -1)
        == Preorder(nodes, rank, bound, node) + PreorderAll(nodes, rank, bound, Reversed(rest), -1);
  }

  // ---- the ancestor test ------------------------------------------------------------------------------

  /** The walk up from a node ends, and meets exactly the node and its ancestors. */
  method IsInclusiveDescendant(nodes: Nodes, candidate: nat, ancestor: nat, ghost rank: seq<nat>) returns (r: bool)
    requires Ranked(nodes, rank) && candidate < |nodes|
    ensures r == Above(nodes, ancestor, candidate)
  {
    var cursor: nat := candidate;
    while true
      invariant cursor < |nodes|
      invariant Above(nodes, ancestor, candidate) == Above(nodes, ancestor, cursor)
      decreases rank[cursor]
    {
      AboveStep(nodes, ancestor, cursor);
      if cursor == ancestor {
        return true;
      }
      if nodes[cursor].parent.None? {
        return false;
      }
      cursor := nodes[cursor].parent.value;
    }
  }
}
