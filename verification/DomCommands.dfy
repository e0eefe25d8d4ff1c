/**
 The commands of a script batch, each as a relation between the nodes before and after it, and exactly when each
 succeeds. A batch is a run of such steps, or stops at the first command that cannot be taken.
 */
module DomCommands {
  import opened Outcomes
  import opened Ascii
  import opened DomForest
  import opened DomDocument
  import opened DomEffects
  import opened DomScript

  // ---- attributes ------------------------------------------------------------------------------------------

  predicate Named(a: Attribute, name: string) {
    a.namespace.None? && a.localName == name
  }

  /** The first attribute of a name. */
  predicate FirstNamed(attributes: seq<Attribute>, k: nat, name: string) {
    k < |attributes| && Named(attributes[k], name) && forall j :: 0 <= j < k ==> !Named(attributes[j], name)
  }

  /** What reading an attribute gives. */
  function Lookup(attributes: seq<Attribute>, name: string): Option<string> {
    if attributes == [] then None
    else if Named(attributes[0], name) then Some(attributes[0].value)
    else Lookup(attributes[1..], name)
  }

  /** The first attribute of the name has the value, or a new last one has; the others stay in place. */
  ghost predicate AttributesSet(before: seq<Attribute>, after: seq<Attribute>, name: string, value: string) {
    || (exists k: nat :: FirstNamed(before, k, name) && after == before[k := Attribute(None, name, value)])
    || ((forall k: nat :: !FirstNamed(before, k, name)) && after == before + [Attribute(None, name, value)])
  }

  /** The first attribute of the name is gone, if there was one; the others keep their order. */
  ghost predicate AttributeDropped(before: seq<Attribute>, after: seq<Attribute>, name: string) {
    || (exists k: nat :: FirstNamed(before, k, name) && after == before[..k] + before[k + 1..])
    || ((forall k: nat :: !FirstNamed(before, k, name)) && after == before)
  }

  lemma FoundIsFirst(attributes: seq<Attribute>, name: string)
    ensures var k := FindAttribute(attributes, name);
            && (k < |attributes| ==> FirstNamed(attributes, k, name))
            && (k == |attributes| ==> forall j: nat :: !FirstNamed(attributes, j, name))
  {
    var k := FindAttribute(attributes, name);
    assert forall j :: 0 <= j < |attributes| ==> SameName(attributes[j], name) == Named(attributes[j], name);
  }

  lemma SettingSets(attributes: seq<Attribute>, name: string, value: string)
    ensures AttributesSet(attributes, WithAttribute(attributes, name, value), name, value)
  {
    FoundIsFirst(attributes, name);
    var k := FindAttribute(attributes, name);
    if k < |attributes| {
      assert attributes[k].(value := value) == Attribute(None, name, value);
    }
  }

  lemma RemovingDrops(attributes: seq<Attribute>, name: string)
    ensures AttributeDropped(attributes, WithoutAttribute(attributes, name), name)
  {
    FoundIsFirst(attributes, name);
  }

  /** A value that was set is the value that is read, and every other name reads as before. */
  lemma {:induction false} SetReadsBack(attributes: seq<Attribute>, name: string, value: string, other: string)
    ensures Lookup(WithAttribute(attributes, name, value), other)
         == if other == name then Some(value) else Lookup(attributes, other)
  {
    var after := WithAttribute(attributes, name, value);
    if attributes == [] {
      assert after == [Attribute(None, name, value)];
    } else if !Named(attributes[0], name) {
      SetReadsBack(attributes[1..], name, value, other);
      assert after[1..] == WithAttribute(attributes[1..], name, value) && after[0] == attributes[0];
    } else {
      assert after[1..] == attributes[1..];
    }
  }

  /** No name twice. */
  predicate NamedOnce(attributes: seq<Attribute>) {
    forall i, j :: 0 <= i < j < |attributes| ==>
      attributes[i].namespace != attributes[j].namespace || attributes[i].localName != attributes[j].localName
  }

  /** Setting and removing never leave a name twice. */
  lemma NamesStayApart(attributes: seq<Attribute>, name: string, value: string)
    requires NamedOnce(attributes)
    ensures NamedOnce(WithAttribute(attributes, name, value)) && NamedOnce(WithoutAttribute(attributes, name))
  {
    var k := FindAttribute(attributes, name);
    hide FindAttribute;
    if k == |attributes| {
      assert forall j :: 0 <= j < |attributes| ==> !SameName(attributes[j], name);
    } else {
      var less := attributes[..k] + attributes[k + 1..];
      forall i, j | 0 <= i < j < |less|
        ensures less[i].namespace != less[j].namespace || less[i].localName != less[j].localName
      {
        assert less[i] == attributes[if i < k then i else i + 1] && less[j] == attributes[if j < k then j else j + 1];
      }
    }
  }

  /** A removed name reads as absent, and every other name as before. */
  lemma {:induction false} RemovedReadsAbsent(attributes: seq<Attribute>, name: string, other: string)
    ensures other != name ==> Lookup(WithoutAttribute(attributes, name), other) == Lookup(attributes, other)
    ensures NamedOnce(attributes) ==> Lookup(WithoutAttribute(attributes, name), name) == None
  {
    var after := WithoutAttribute(attributes, name);
    if attributes != [] {
      var rest := attributes[1..];
      assert forall i :: 0 <= i < |rest| ==> rest[i] == attributes[i + 1];
      if Named(attributes[0], name) {
        assert after == rest;
        if NamedOnce(attributes) {
          NoneNamed(rest, name);
        }
      } else {
        RemovedReadsAbsent(rest, name, other);
        assert NamedOnce(attributes) ==> NamedOnce(rest);
        assert after[0] == attributes[0] && after[1..] == WithoutAttribute(rest, name);
      }
    }
  }

  lemma {:induction false} NoneNamed(attributes: seq<Attribute>, name: string)
    requires forall i :: 0 <= i < |attributes| ==> !Named(attributes[i], name)
    ensures Lookup(attributes, name) == None
  {
    if attributes != [] {
      NoneNamed(attributes[1..], name);
    }
  }

  // ---- what a command does ------------------------------------------------------------------------------------

  /** The node of the document that an operand stands for. */
  predicate Operand(id: nat, work: Work, node: ScriptNode, found: NodeId) {
    Means(work, node, found) && found.document == id && found.slot < |work.nodes|
  }

  /** Only the contents of one node differ. */
  predicate OnlyContents(before: Nodes, after: Nodes, slot: nat) {
    && slot < |before| == |after|
    && after[slot].parent == before[slot].parent && after[slot].children == before[slot].children
    && forall x :: 0 <= x < |before| && x != slot ==> after[x] == before[x]
  }

  ghost predicate SetsAttribute(before: Nodes, after: Nodes, slot: nat, name: string, value: string) {
    && OnlyContents(before, after, slot) && before[slot].kind.Element? && after[slot].kind.Element?
    && after[slot].kind.localName == before[slot].kind.localName
    && AttributesSet(before[slot].kind.attributes, after[slot].kind.attributes, name, value)
  }

  ghost predicate DropsAttribute(before: Nodes, after: Nodes, slot: nat, name: string) {
    && OnlyContents(before, after, slot) && before[slot].kind.Element? && after[slot].kind.Element?
    && after[slot].kind.localName == before[slot].kind.localName
    && AttributeDropped(before[slot].kind.attributes, after[slot].kind.attributes, name)
  }

  predicate SetsData(before: Nodes, after: Nodes, slot: nat, data: string) {
    && OnlyContents(before, after, slot)
    && ((before[slot].kind.Text? && after[slot].kind == Text(data))
        || (before[slot].kind.Comment? && after[slot].kind == Comment(data)))
  }

  /** A new node at the end of the arena, without links, which the next token stands for. */
  predicate Creates(id: nat, before: Work, after: Work, token: nat, kind: NodeKind) {
    && token == |before.created|
    && after.nodes == before.nodes + [NodeRecord(None, [], kind)]
    && after.created == before.created + [NodeId(id, |before.nodes|)]
  }

  function StringBytes(command: Command): nat {
    match command
    case CreateHtmlElement(_, name) => |name|
    case CreateText(_, data) => |data|
    case SetHtmlAttribute(_, name, value) => |name| + |value|
    case RemoveHtmlAttribute(_, name) => |name|
    case SetCharacterData(_, data) => |data|
    case _ => 0
  }

  /** The change that a command makes. */
  ghost predicate Does(id: nat, before: Work, command: Command, after: Work) {
    && after.bytes == before.bytes + StringBytes(command)
    && (!command.CreateHtmlElement? && !command.CreateText? ==> after.created == before.created)
    && match command
       case CreateHtmlElement(token, name) =>
         name != [] && Creates(id, before, after, token, Element(LowerAll(name), []))
       case CreateText(token, data) => Creates(id, before, after, token, Text(data))
       case AppendChild(parent, child) =>
         exists p, c :: Operand(id, before, parent, p) && Operand(id, before, child, c)
                        && Moved(before.nodes, after.nodes, p.slot, c.slot, None)
       case InsertBeforeNode(parent, child, reference) =>
         exists p, c :: Operand(id, before, parent, p) && Operand(id, before, child, c)
                        && InsertsBefore(id, before, after.nodes, p, c, reference)
       case SetHtmlAttribute(element, name, value) =>
         exists e :: Operand(id, before, element, e)
                     && SetsAttribute(before.nodes, after.nodes, e.slot, LowerAll(name), value)
       case RemoveHtmlAttribute(element, name) =>
         exists e :: Operand(id, before, element, e)
                     && DropsAttribute(before.nodes, after.nodes, e.slot, LowerAll(name))
       case SetCharacterData(node, data) =>
         exists n :: Operand(id, before, node, n) && SetsData(before.nodes, after.nodes, n.slot, data)
       case RemoveChildOf(parent, child) =>
         exists p, c :: Operand(id, before, parent, p) && Operand(id, before, child, c)
                        && Removed(before.nodes, after.nodes, p.slot, c.slot)
  }

  /** A node inserted before itself stays where it is. */
  ghost predicate InsertsBefore(id: nat, before: Work, after: Nodes, p: NodeId, c: NodeId,
                                reference: Option<ScriptNode>)
    requires p.slot < |before.nodes| && c.slot < |before.nodes|
  {
    match reference
    case None => Moved(before.nodes, after, p.slot, c.slot, None)
    case Some(node) =>
      exists r :: Operand(id, before, node, r) && before.nodes[r.slot].parent == Some(p.slot)
                  && if r.slot == c.slot then after == before.nodes
                     else Moved(before.nodes, after, p.slot, c.slot, Some(r.slot))
  }

  // ---- when a command succeeds --------------------------------------------------------------------------------

  predicate StringsFit(work: Work, limits: Limits, command: Command) {
    && work.bytes + StringBytes(command) <= limits.maxTotalStringBytes
    && match command
       case CreateHtmlElement(_, name) => |name| <= limits.maxStringBytes
       case CreateText(_, data) => |data| <= limits.maxStringBytes
       case SetHtmlAttribute(_, name, value) => |name| <= limits.maxStringBytes && |value| <= limits.maxStringBytes
       case RemoveHtmlAttribute(_, name) => |name| <= limits.maxStringBytes
       case SetCharacterData(_, data) => |data| <= limits.maxStringBytes
       case _ => true
  }

  ghost predicate CanMove(nodes: Nodes, p: nat, c: nat, reference: Option<nat>)
    requires p < |nodes| && c < |nodes|
  {
    && c != 0 && !Above(nodes, c, p)
    && exists at: nat :: PlaceOf(Without(nodes[p].children, c), reference, at)
                         && Fits(nodes, p, Without(nodes[p].children, c), at, c)
  }

  ghost predicate CanInsert(id: nat, work: Work, p: NodeId, c: NodeId, reference: Option<ScriptNode>)
    requires p.slot < |work.nodes| && c.slot < |work.nodes|
  {
    match reference
    case None => CanMove(work.nodes, p.slot, c.slot, None)
    case Some(node) =>
      exists r :: Operand(id, work, node, r) && work.nodes[r.slot].parent == Some(p.slot)
                  && (r.slot == c.slot || CanMove(work.nodes, p.slot, c.slot, Some(r.slot)))
  }

  predicate CanCreate(work: Work, limits: Limits, token: nat) {
    token == |work.created| < limits.maxCreatedNodes && |work.nodes| <= U32_MAX
  }

  /** The command names nodes of the document that it may change, within the limits. */
  ghost predicate CanDo(id: nat, work: Work, limits: Limits, command: Command) {
    match command
    case CreateHtmlElement(token, name) =>
      StringsFit(work, limits, command) && CanCreate(work, limits, token) && name != []
    case CreateText(token, data) => StringsFit(work, limits, command) && CanCreate(work, limits, token)
    case AppendChild(parent, child) =>
      exists p, c :: Operand(id, work, parent, p) && Operand(id, work, child, c)
                     && CanMove(work.nodes, p.slot, c.slot, None)
    case InsertBeforeNode(parent, child, reference) =>
      exists p, c :: Operand(id, work, parent, p) && Operand(id, work, child, c)
                     && CanInsert(id, work, p, c, reference)
    case SetHtmlAttribute(element, name, _) =>
      StringsFit(work, limits, command) && name != []
      && exists e :: Operand(id, work, element, e) && work.nodes[e.slot].kind.Element?
    case RemoveHtmlAttribute(element, _) =>
      StringsFit(work, limits, command)
      && exists e :: Operand(id, work, element, e) && work.nodes[e.slot].kind.Element?
    case SetCharacterData(node, _) =>
      StringsFit(work, limits, command)
      && exists n :: Operand(id, work, node, n) && (work.nodes[n.slot].kind.Text? || work.nodes[n.slot].kind.Comment?)
    case RemoveChildOf(parent, child) =>
      exists p, c :: Operand(id, work, parent, p) && Operand(id, work, child, c)
                     && work.nodes[c.slot].parent == Some(p.slot)
  }

  // ---- each command -------------------------------------------------------------------------------------------

  /** The command succeeds exactly if it can, and then does what it is for. */
  ghost predicate Faithful(id: nat, work: Work, limits: Limits, command: Command, r: Result<Work, ScriptError>) {
    (r.Ok? <==> CanDo(id, work, limits, command)) && (r.Ok? ==> Does(id, work, command, r.value))
  }

  lemma ResolveFinds(id: nat, work: Work, node: ScriptNode, index: nat)
    ensures var r := Resolve(id, work, node, index);
            && (r.Ok? ==> Operand(id, work, node, r.value))
            && (forall found :: Operand(id, work, node, found) ==> r == Ok(found))
  {
  }

  lemma CreationIsFaithful(id: nat, work: Work, limits: Limits, index: nat, command: Command)
    requires Linked(work.nodes) && (command.CreateHtmlElement? || command.CreateText?)
    ensures Faithful(id, work, limits, command, Apply(id, work, limits, index, command))
  {
  }

  /** The nodes after a change, which may have nothing to do. */
  function After(nodes: Nodes, change: Change): Nodes {
    if change.Changed? then change.nodes else nodes
  }

  /** Setting an attribute of an element puts the value there and touches nothing else. */
  lemma SetAttributeSets(nodes: Nodes, slot: nat, name: string, value: string)
    requires slot < |nodes|
    ensures var r := SetAttribute(nodes, slot, name, value);
            && (r.Ok? <==> name != [] && nodes[slot].kind.Element?)
            && (r.Ok? ==> SetsAttribute(nodes, After(nodes, r.value), slot, name, value))
  {
    if nodes[slot].kind.Element? {
      SettingSets(nodes[slot].kind.attributes, name, value);
    }
    hide WithAttribute;
    hide AttributesSet;
  }

  lemma RemoveAttributeDrops(nodes: Nodes, slot: nat, name: string)
    requires slot < |nodes|
    ensures var r := RemoveAttribute(nodes, slot, name);
            && (r.Ok? <==> nodes[slot].kind.Element?)
            && (r.Ok? ==> DropsAttribute(nodes, After(nodes, r.value), slot, name))
  {
    if nodes[slot].kind.Element? {
      RemovingDrops(nodes[slot].kind.attributes, name);
    }
    hide AttributeDropped;
  }

  lemma SetDataSets(nodes: Nodes, slot: nat, data: string)
    requires slot < |nodes|
    ensures var r := SetData(nodes, slot, data);
            && (r.Ok? <==> nodes[slot].kind.Text? || nodes[slot].kind.Comment?)
            && (r.Ok? ==> SetsData(nodes, After(nodes, r.value), slot, data))
  {
  }

  lemma AttributeIsFaithful(id: nat, work: Work, limits: Limits, index: nat, element: ScriptNode, name: string,
                            value: string)
    requires Linked(work.nodes)
    ensures var command := SetHtmlAttribute(element, name, value);
            Faithful(id, work, limits, command, Apply(id, work, limits, index, command))
  {
    ResolveFinds(id, work, element, index);
    hide Linked;
    hide Resolve;
    hide SetAttribute;
    hide SetsAttribute;
    var found := Resolve(id, work, element, index);
    if found.Ok? {
      SetAttributeSets(work.nodes, found.value.slot, LowerAll(name), value);
    }
    var command := SetHtmlAttribute(element, name, value);
    assert Faithful(id, work, limits, command, Apply(id, work, limits, index, command));
  }

  lemma RemovalIsFaithful(id: nat, work: Work, limits: Limits, index: nat, element: ScriptNode, name: string)
    requires Linked(work.nodes)
    ensures var command := RemoveHtmlAttribute(element, name);
            Faithful(id, work, limits, command, Apply(id, work, limits, index, command))
  {
    ResolveFinds(id, work, element, index);
    hide Linked;
    hide Resolve;
    hide RemoveAttribute;
    hide DropsAttribute;
    var found := Resolve(id, work, element, index);
    if found.Ok? {
      RemoveAttributeDrops(work.nodes, found.value.slot, LowerAll(name));
    }
    var command := RemoveHtmlAttribute(element, name);
    assert Faithful(id, work, limits, command, Apply(id, work, limits, index, command));
  }

  lemma DataIsFaithful(id: nat, work: Work, limits: Limits, index: nat, node: ScriptNode, data: string)
    requires Linked(work.nodes)
    ensures var command := SetCharacterData(node, data);
            Faithful(id, work, limits, command, Apply(id, work, limits, index, command))
  {
    ResolveFinds(id, work, node, index);
    hide Linked;
    hide Resolve;
    hide SetData;
    hide SetsData;
    var found := Resolve(id, work, node, index);
    if found.Ok? {
      SetDataSets(work.nodes, found.value.slot, data);
    }
    var command := SetCharacterData(node, data);
    assert Faithful(id, work, limits, command, Apply(id, work, limits, index, command));
  }

  lemma ChildRemovalIsFaithful(id: nat, work: Work, limits: Limits, index: nat, parent: ScriptNode, child: ScriptNode)
    requires Forest(work.nodes)
    ensures var command := RemoveChildOf(parent, child);
            Faithful(id, work, limits, command, Apply(id, work, limits, index, command))
  {
    ResolveFinds(id, work, parent, index);
    ResolveFinds(id, work, child, index);
    var p, c := Resolve(id, work, parent, index), Resolve(id, work, child, index);
    if p.Ok? && c.Ok? {
      RemovalRemoves(id, work.nodes, p.value, c.value);
    }
    hide Forest;
    hide Resolve;
    hide RemoveChild;
    hide Removed;
  }

  /** A place among the children that stay, if the reference is one of them. */
  lemma PlaceExists(rest: seq<nat>, reference: Option<nat>) returns (at: nat)
    requires reference.Some? ==> reference.value in rest
    ensures PlaceOf(rest, reference, at)
  {
    at := InsertionIndex(rest, reference);
  }

  lemma MoveIsFaithful(nodes: Nodes, p: nat, c: nat, reference: Option<nat>)
    requires Forest(nodes) && p < |nodes| && c < |nodes|
    requires reference.Some? ==> reference.value in nodes[p].children && reference.value != c
    ensures var r := Move(nodes, p, c, reference);
            && (r.Ok? <==> CanMove(nodes, p, c, reference))
            && (r.Ok? ==> r.value.Changed? && Moved(nodes, r.value.nodes, p, c, reference))
  {
    hide Move;
    hide Moved;
    hide Fits;
    hide Above;
    var rest := Without(nodes[p].children, c);
    var at := PlaceExists(rest, reference);
    InsertionIsValid(nodes, p, c, reference, at);
    if CanMove(nodes, p, c, reference) {
      var other: nat :| PlaceOf(rest, reference, other) && Fits(nodes, p, rest, other, c);
      InsertionIsValid(nodes, p, c, reference, other);
    }
    if Move(nodes, p, c, reference).Ok? {
      MoveMoves(nodes, p, c, reference);
    }
  }

  lemma AppendWithOperands(id: nat, work: Work, limits: Limits, index: nat, command: Command, p: NodeId, c: NodeId)
    requires Forest(work.nodes) && command.AppendChild?
    requires Operand(id, work, command.parent, p) && Operand(id, work, command.child, c)
    ensures Faithful(id, work, limits, command,
                     Changes(work, InsertBefore(id, work.nodes, p, c, None), work.bytes, index))
  {
    MoveIsFaithful(work.nodes, p.slot, c.slot, None);
    hide Forest;
    hide Move;
    hide Moved;
    hide CanMove;
    assert Faithful(id, work, limits, command,
                    Changes(work, InsertBefore(id, work.nodes, p, c, None), work.bytes, index));
  }

  lemma AppendIsFaithful(id: nat, work: Work, limits: Limits, index: nat, command: Command)
    requires Forest(work.nodes) && command.AppendChild?
    ensures Faithful(id, work, limits, command, Apply(id, work, limits, index, command))
  {
    hide Resolve;
    hide CanMove;
    hide Moved;
    hide InsertBefore;
    ResolveFinds(id, work, command.parent, index);
    ResolveFinds(id, work, command.child, index);
    var p, c := Resolve(id, work, command.parent, index), Resolve(id, work, command.child, index);
    if p.Ok? && c.Ok? {
      AppendWithOperands(id, work, limits, index, command, p.value, c.value);
    } else {
      hide Forest;
      assert !CanDo(id, work, limits, command);
    }
  }

  /** Inserting a node of the document before another of its nodes. */
  lemma InsertIsFaithful(id: nat, nodes: Nodes, p: NodeId, c: NodeId, r: NodeId)
    requires Forest(nodes) && p.document == c.document == r.document == id
    requires p.slot < |nodes| && c.slot < |nodes| && r.slot < |nodes|
    ensures var inserted := InsertBefore(id, nodes, p, c, Some(r));
            && (inserted.Ok? <==>
                  && nodes[r.slot].parent == Some(p.slot)
                  && (r.slot == c.slot || CanMove(nodes, p.slot, c.slot, Some(r.slot))))
            && (inserted.Ok? ==>
                  if r.slot == c.slot then inserted.value == Unchanged
                  else inserted.value.Changed?
                       && Moved(nodes, inserted.value.nodes, p.slot, c.slot, Some(r.slot)))
  {
    ParentsListChildren(nodes, p.slot, r.slot);
    hide Forest;
    hide Linked;
    hide Move;
    hide Moved;
    hide CanMove;
    if r.slot in nodes[p.slot].children && r.slot != c.slot {
      MoveIsFaithful(nodes, p.slot, c.slot, Some(r.slot));
    }
  }

  /** The outcome of an insertion whose parent and child are known. */
  ghost function Inserting(id: nat, work: Work, p: NodeId, c: NodeId, reference: Option<ScriptNode>, index: nat)
    : Result<Work, ScriptError>
    requires Linked(work.nodes)
  {
    if reference.None? then Changes(work, InsertBefore(id, work.nodes, p, c, None), work.bytes, index)
    else
      var before :- Resolve(id, work, reference.value, index);
      Changes(work, InsertBefore(id, work.nodes, p, c, Some(before)), work.bytes, index)
  }

  predicate SameOtherwise(before: Work, after: Work) {
    after.created == before.created && after.bytes == before.bytes
  }

  lemma InsertingIsFaithful(id: nat, work: Work, p: NodeId, c: NodeId, reference: Option<ScriptNode>, index: nat)
    requires Forest(work.nodes) && p.document == c.document == id
    requires p.slot < |work.nodes| && c.slot < |work.nodes|
    ensures var r := Inserting(id, work, p, c, reference, index);
            && (r.Ok? <==> CanInsert(id, work, p, c, reference))
            && (r.Ok? ==> InsertsBefore(id, work, r.value.nodes, p, c, reference) && SameOtherwise(work, r.value))
  {
    hide Move;
    hide Moved;
    hide CanMove;
    hide Resolve;
    if reference.None? {
      MoveIsFaithful(work.nodes, p.slot, c.slot, None);
    } else {
      ResolveFinds(id, work, reference.value, index);
      var r := Resolve(id, work, reference.value, index);
      if r.Ok? {
        InsertIsFaithful(id, work.nodes, p, c, r.value);
        hide InsertBefore;
        hide Forest;
        assert CanInsert(id, work, p, c, reference) <==> Inserting(id, work, p, c, reference, index).Ok?;
      }
    }
    hide Forest;
  }

  /** What an insertion with operands that stand for two nodes comes to. */
  lemma InsertionWithOperands(id: nat, work: Work, limits: Limits, index: nat, command: Command, p: NodeId, c: NodeId)
    requires Forest(work.nodes) && command.InsertBeforeNode?
    requires Operand(id, work, command.parent, p) && Operand(id, work, command.child, c)
    ensures Faithful(id, work, limits, command, Inserting(id, work, p, c, command.reference, index))
  {
    InsertingIsFaithful(id, work, p, c, command.reference, index);
    hide Inserting;
    hide CanInsert;
    hide InsertsBefore;
    hide Forest;
    assert Faithful(id, work, limits, command, Inserting(id, work, p, c, command.reference, index));
  }

  lemma InsertionIsFaithful(id: nat, work: Work, limits: Limits, index: nat, command: Command)
    requires Forest(work.nodes) && command.InsertBeforeNode?
    ensures Faithful(id, work, limits, command, Apply(id, work, limits, index, command))
  {
    hide Resolve;
    hide CanInsert;
    hide InsertsBefore;
    ResolveFinds(id, work, command.parent, index);
    ResolveFinds(id, work, command.child, index);
    var p, c := Resolve(id, work, command.parent, index), Resolve(id, work, command.child, index);
    if p.Ok? && c.Ok? {
      assert Apply(id, work, limits, index, command) == Inserting(id, work, p.value, c.value, command.reference, index);
      InsertionWithOperands(id, work, limits, index, command, p.value, c.value);
    } else {
      hide Forest;
      assert !CanDo(id, work, limits, command);
    }
  }

  /** Every command succeeds exactly if it can, and then does what it is for. */
  lemma CommandsAreFaithful(id: nat, work: Work, limits: Limits, index: nat, command: Command)
    requires Forest(work.nodes)
    ensures Faithful(id, work, limits, command, Apply(id, work, limits, index, command))
  {
    hide Faithful;
    hide Apply;
    match command
    case CreateHtmlElement(_, _) => CreationIsFaithful(id, work, limits, index, command);
    case CreateText(_, _) => CreationIsFaithful(id, work, limits, index, command);
    case AppendChild(_, _) => AppendIsFaithful(id, work, limits, index, command);
    case InsertBeforeNode(_, _, _) => InsertionIsFaithful(id, work, limits, index, command);
    case SetHtmlAttribute(element, name, value) =>
      AttributeIsFaithful(id, work, limits, index, element, name, value);
    case RemoveHtmlAttribute(element, name) => RemovalIsFaithful(id, work, limits, index, element, name);
    case SetCharacterData(node, data) => DataIsFaithful(id, work, limits, index, node, data);
    case RemoveChildOf(parent, child) => ChildRemovalIsFaithful(id, work, limits, index, parent, child);
  }

  // ---- whole batches ------------------------------------------------------------------------------------------

  /** States that commands lead through, one after another. */
  ghost predicate Steps(id: nat, limits: Limits, commands: seq<Command>, states: seq<Work>) {
    && 0 < |states| <= |commands| + 1
    && forall i, j :: 0 <= i && j == i + 1 < |states| ==>
         CanDo(id, states[i], limits, commands[i]) && Does(id, states[i], commands[i], states[j])
  }

  lemma {:induction false} RunSteps(id: nat, start: Nodes, work: Work, limits: Limits, commands: seq<Command>,
                                    index: nat)
    returns (states: seq<Work>)
    requires Grown(id, start, work) && index <= |commands|
    ensures var r := RunFrom(id, start, work, limits, commands, index);
            && Steps(id, limits, commands[index..], states) && states[0] == work
            && (r.Ok? ==> |states| == |commands| - index + 1 && states[|states| - 1] == r.value)
            && (r.Err? ==> index + |states| <= |commands|
                           && !CanDo(id, states[|states| - 1], limits, commands[index + |states| - 1]))
    decreases |commands| - index
  {
    hide Grown;
    hide Forest;
    hide Apply;
    hide CanDo;
    hide Does;
    states := [work];
    if index < |commands| {
      GrownIsForest(id, start, work);
      CommandsAreFaithful(id, work, limits, index, commands[index]);
      CommandGrows(id, start, work, limits, index, commands[index]);
      var next := Apply(id, work, limits, index, commands[index]);
      if next.Ok? {
        var rest := RunSteps(id, start, next.value, limits, commands, index + 1);
        StepsFrom(id, limits, commands[index..], work, rest);
        states := [work] + rest;
      }
    }
  }

  lemma StepsFrom(id: nat, limits: Limits, commands: seq<Command>, work: Work, rest: seq<Work>)
    requires commands != [] && Steps(id, limits, commands[1..], rest)
    requires CanDo(id, work, limits, commands[0]) && Does(id, work, commands[0], rest[0])
    ensures Steps(id, limits, commands, [work] + rest)
  {
    hide CanDo;
    hide Does;
    var states, others := [work] + rest, commands[1..];
    forall i, j | 0 <= i && j == i + 1 < |states|
      ensures CanDo(id, states[i], limits, commands[i]) && Does(id, states[i], commands[i], states[j])
    {
      assert states[j] == rest[j - 1];
      if i > 0 {
        assert states[i] == rest[i - 1] && commands[i] == others[i - 1];
        assert Does(id, rest[i - 1], others[i - 1], rest[j - 1]);
      }
    }
    assert Steps(id, limits, commands, states);
  }

  /**
   A batch leads the document through its commands one by one; it is refused exactly because some command cannot be
   taken after those before it.
   */
  lemma BatchesStep(id: nat, nodes: Nodes, limits: Limits, commands: seq<Command>) returns (states: seq<Work>)
    requires Forest(nodes)
    ensures var r := RunBatch(id, nodes, limits, commands);
            && Steps(id, limits, commands, states) && states[0] == Work(nodes, [], 0)
            && (r.Ok? ==> |states| == |commands| + 1 && states[|commands|] == r.value)
            && (r.Err? ==> |states| <= |commands|
                           && !CanDo(id, states[|states| - 1], limits, commands[|states| - 1]))
  {
    StartIsGrown(id, nodes);
    states := RunSteps(id, nodes, Work(nodes, [], 0), limits, commands, 0);
    assert commands[0..] == commands;
  }
}
