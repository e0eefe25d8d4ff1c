/**
 Script mutation batches: all or nothing, the same as running the commands one
 by one, with one revision for the whole batch and a snapshot that cannot fail.
 */
module DomScript {
  import opened Outcomes
  import opened Ascii
  import opened DomForest
  import opened DomOrder
  import opened DomInvariants
  import opened DomDocument
  import opened DomMutation

  datatype ScriptNode = Existing(node: NodeId) | Created(token: nat)

  datatype Command =
    | CreateHtmlElement(token: nat, localName: string)
    | CreateText(token: nat, data: string)
    | AppendChild(parent: ScriptNode, child: ScriptNode)
    | InsertBeforeNode(parent: ScriptNode, child: ScriptNode, reference: Option<ScriptNode>)
    | SetHtmlAttribute(element: ScriptNode, localName: string, value: string)
    | RemoveHtmlAttribute(element: ScriptNode, localName: string)
    | SetCharacterData(node: ScriptNode, data: string)
    | RemoveChildOf(parent: ScriptNode, child: ScriptNode)

  datatype Limits = Limits(maxCommands: nat, maxCreatedNodes: nat, maxStringBytes: nat, maxTotalStringBytes: nat)

  const HARD_MAX_COMMANDS: nat := 4_096
  const HARD_MAX_CREATED_NODES: nat := 2_048
  const HARD_MAX_STRING_BYTES: nat := 1024 * 1024
  const HARD_MAX_TOTAL_STRING_BYTES: nat := 4 * 1024 * 1024

  /** Limits can only narrow the hard caps. */
  predicate Narrowed(limits: Limits) {
    && limits.maxCommands <= HARD_MAX_COMMANDS
    && limits.maxCreatedNodes <= HARD_MAX_CREATED_NODES
    && limits.maxStringBytes <= HARD_MAX_STRING_BYTES
    && limits.maxTotalStringBytes <= HARD_MAX_TOTAL_STRING_BYTES
  }

  datatype LimitKind = Commands | CreatedNodes | StringBytes | TotalStringBytes

  datatype Version = Version(document: nat, revision: nat)

  datatype ScriptError =
    | EmptyBatch
    | VersionMismatch(expectedVersion: Version, actualVersion: Version)
    | RevisionExhausted(version: Version)
    | LimitExceeded(index: nat, kind: LimitKind, limit: nat, actual: nat)
    | CreationOrder(index: nat, expected: nat, actual: nat)
    | TokenUnavailable(index: nat, token: nat, available: nat)
    | CommandFailed(index: nat, error: DomError)
    | Finalization(error: DomError)

  /** The private state a batch works on. */
  datatype Work = Work(nodes: Nodes, created: seq<NodeId>, bytes: nat)

  // ---- one command ---------------------------------------------------------------------------

  function AccountString(s: string, bytes: nat, limits: Limits, index: nat): (r: Result<nat, ScriptError>)
    ensures r.Ok? <==> |s| <= limits.maxStringBytes && bytes + |s| <= limits.maxTotalStringBytes
    ensures r.Ok? ==> r.value == bytes + |s|
    ensures r.Err? ==> r.error.LimitExceeded? && r.error.index == index && r.error.actual > r.error.limit
  {
    if |s| > limits.maxStringBytes then Err(LimitExceeded(index, StringBytes, limits.maxStringBytes, |s|))
    else if bytes + |s| > limits.maxTotalStringBytes then Err(LimitExceeded(index, TotalStringBytes,
        limits.maxTotalStringBytes, bytes + |s|))
    else Ok(bytes + |s|)
  }

  function CheckToken(token: nat, created: seq<NodeId>, limits: Limits, index: nat): (r: Result<(), ScriptError>)
    ensures r.Ok? <==> token == |created| < limits.maxCreatedNodes
    ensures r.Err? && r.error.CreationOrder? ==> r.error.expected == |created| != r.error.actual == token
  {
    if |created| >= limits.maxCreatedNodes
    then Err(LimitExceeded(index, CreatedNodes, limits.maxCreatedNodes, |created| + 1))
    else if token != |created| then Err(CreationOrder(index, |created|, token))
    else Ok(())
  }

  /** The node that an operand stands for. */
  predicate Means(work: Work, node: ScriptNode, found: NodeId) {
    match node
    case Existing(given) => found == given
    case Created(token) => token < |work.created| && found == work.created[token]
  }

  /** Tokens stand for nodes created earlier in the same batch; every operand is checked against the arena. */
  function Resolve(id: nat, work: Work, node: ScriptNode, index: nat): (r: Result<NodeId, ScriptError>)
    ensures r.Ok? <==> exists found :: Means(work, node, found) && found.document == id && found.slot < |work.nodes|
    ensures r.Ok? ==> Means(work, node, r.value) && r.value.document == id && r.value.slot < |work.nodes|
  {
    if node.Created? && node.token >= |work.created| then Err(TokenUnavailable(index, node.token, |work.created|))
    else
      var found := if node.Created? then work.created[node.token] else node.node;
      var checked := CheckedIndex(id, work.nodes, found);
      if checked.Err? then Err(CommandFailed(index, checked.error)) else Ok(found)
  }

  function Allocated(id: nat, work: Work, kind: NodeKind, bytes: nat, index: nat): Result<Work, ScriptError> {
    if |work.nodes| > U32_MAX then Err(CommandFailed(index, ArenaCapacityExceeded))
    else Ok(Work(work.nodes + [NodeRecord(None, [], kind)], work.created + [NodeId(id, |work.nodes|)], bytes))
  }

  ghost function Changes(work: Work, change: Result<Change, DomError>, bytes: nat, index: nat)
    : Result<Work, ScriptError>
  {
    match change
    case Err(e) => Err(CommandFailed(index, e))
    case Ok(Unchanged) => Ok(work.(bytes := bytes))
    case Ok(Changed(nodes)) => Ok(Work(nodes, work.created, bytes))
  }

  predicate SameName(a: Attribute, name: string) {
    a.namespace == None && a.localName == name
  }

  function FindAttribute(attributes: seq<Attribute>, name: string): (k: nat)
    ensures k <= |attributes|
    ensures k < |attributes| ==> SameName(attributes[k], name)
    ensures forall j :: 0 <= j < k ==> !SameName(attributes[j], name)
  {
    if attributes == [] then 0 else if SameName(attributes[0], name) then 0
    else 1 + FindAttribute(attributes[1..], name)
  }

  /** Replacing a value keeps the attribute's place; a new attribute goes last. */
  function WithAttribute(attributes: seq<Attribute>, name: string, value: string): seq<Attribute> {
    var k := FindAttribute(attributes, name);
    if k < |attributes| then attributes[k := attributes[k].(value := value)]
    else attributes + [Attribute(None, name, value)]
  }

  function WithoutAttribute(attributes: seq<Attribute>, name: string): seq<Attribute> {
    var k := FindAttribute(attributes, name);
    if k < |attributes| then attributes[..k] + attributes[k + 1..] else attributes
  }

  function WithKind(nodes: Nodes, slot: nat, kind: NodeKind): Nodes
    requires slot < |nodes|
  {
    nodes[slot := nodes[slot].(kind := kind)]
  }

  function SetAttribute(nodes: Nodes, slot: nat, name: string, value: string): Result<Change, DomError>
    requires slot < |nodes|
  {
    if name == [] then Err(InvalidName)
    else
      match nodes[slot].kind
      case Element(local, attributes) => Ok(Changed(WithKind(nodes, slot,
          Element(local, WithAttribute(attributes, name, value)))))
      case _ => Err(NotAnElement)
  }

  function RemoveAttribute(nodes: Nodes, slot: nat, name: string): Result<Change, DomError>
    requires slot < |nodes|
  {
    match nodes[slot].kind
    case Element(local, attributes) =>
      if FindAttribute(attributes, name) == |attributes| then Ok(Unchanged)
      else Ok(Changed(WithKind(nodes, slot, Element(local, WithoutAttribute(attributes, name)))))
    case _ => Err(NotAnElement)
  }

  function SetData(nodes: Nodes, slot: nat, data: string): Result<Change, DomError>
    requires slot < |nodes|
  {
    match nodes[slot].kind
    case Text(_) => Ok(Changed(WithKind(nodes, slot, Text(data))))
    case Comment(_) => Ok(Changed(WithKind(nodes, slot, Comment(data))))
    case _ => Err(NotCharacterData)
  }

  /** One command on the private state, as the document's own operations would run it. */
  ghost function Apply(id: nat, work: Work, limits: Limits, index: nat, command: Command)
    : (r: Result<Work, ScriptError>)
    requires Linked(work.nodes)
    ensures r.Err? ==> !r.error.Finalization?
  {
    match command
    case CreateHtmlElement(token, name) =>
      var bytes :- AccountString(name, work.bytes, limits, index);
      var _ :- CheckToken(token, work.created, limits, index);
      if name == [] then Err(CommandFailed(index, InvalidName))
          else Allocated(id, work, Element(LowerAll(name), []), bytes, index)
    case CreateText(token, data) =>
      var bytes :- AccountString(data, work.bytes, limits, index);
      var _ :- CheckToken(token, work.created, limits, index);
      Allocated(id, work, Text(data), bytes, index)
    case AppendChild(parent, child) =>
      var p :- Resolve(id, work, parent, index);
      var c :- Resolve(id, work, child, index);
      Changes(work, InsertBefore(id, work.nodes, p, c, None), work.bytes, index)
    case InsertBeforeNode(parent, child, reference) =>
      var p :- Resolve(id, work, parent, index);
      var c :- Resolve(id, work, child, index);
      if reference.None? then Changes(work, InsertBefore(id, work.nodes, p, c, None), work.bytes, index)
      else
        var before :- Resolve(id, work, reference.value, index);
        Changes(work, InsertBefore(id, work.nodes, p, c, Some(before)), work.bytes, index)
    case SetHtmlAttribute(element, name, value) =>
      var some :- AccountString(name, work.bytes, limits, index);
      var bytes :- AccountString(value, some, limits, index);
      var e :- Resolve(id, work, element, index);
      Changes(work, SetAttribute(work.nodes, e.slot, LowerAll(name), value), bytes, index)
    case RemoveHtmlAttribute(element, name) =>
      var bytes :- AccountString(name, work.bytes, limits, index);
      var e :- Resolve(id, work, element, index);
      Changes(work, RemoveAttribute(work.nodes, e.slot, LowerAll(name)), bytes, index)
    case SetCharacterData(node, data) =>
      var bytes :- AccountString(data, work.bytes, limits, index);
      var n :- Resolve(id, work, node, index);
      Changes(work, SetData(work.nodes, n.slot, data), bytes, index)
    case RemoveChildOf(parent, child) =>
      var p :- Resolve(id, work, parent, index);
      var c :- Resolve(id, work, child, index);
      Changes(work, RemoveChild(id, work.nodes, p, c), work.bytes, index)
  }

  // ---- whole batches -------------------------------------------------------------------------------

  /** Existing nodes keep their slot and their kind; created nodes are the consecutive new slots, in token order. */
  ghost predicate Grown(id: nat, start: Nodes, work: Work) {
    && Forest(work.nodes)
    && SameKinds(start, work.nodes)
    && |work.nodes| == |start| + |work.created|
    && forall i :: 0 <= i < |work.created| ==> work.created[i] == NodeId(id, |start| + i)
  }

  ghost predicate StaysGrown(id: nat, start: Nodes, r: Result<Work, ScriptError>) {
    r.Ok? ==> Grown(id, start, r.value)
  }

  lemma {:induction false} SameKindsTransitive(a: Nodes, b: Nodes, c: Nodes)
    requires SameKinds(a, b) && SameKinds(b, c)
    ensures SameKinds(a, c)
  {
    forall i | 0 <= i < |a|
      ensures KindTag(a[i].kind) == KindTag(c[i].kind)
    {
      assert KindTag(a[i].kind) == KindTag(b[i].kind) && KindTag(b[i].kind) == KindTag(c[i].kind);
    }
  }

  lemma AllocationGrows(id: nat, start: Nodes, work: Work, kind: NodeKind, bytes: nat, index: nat)
    requires Grown(id, start, work) && !kind.DocumentNode?
    ensures StaysGrown(id, start, Allocated(id, work, kind, bytes, index))
  {
    AllocateKeepsForest(work.nodes, kind);
    SameKindsTransitive(start, work.nodes, work.nodes + [NodeRecord(None, [], kind)]);
  }

  /** A mutation that changes links or contents keeps the number of nodes and their kinds. */
  ghost predicate Quiet(nodes: Nodes, change: Result<Change, DomError>) {
    change.Ok? && change.value.Changed? ==>
      Forest(change.value.nodes) && |change.value.nodes| == |nodes| && SameKinds(nodes, change.value.nodes)
  }

  lemma QuietGrows(id: nat, start: Nodes, work: Work, change: Result<Change, DomError>, bytes: nat, index: nat)
    requires Grown(id, start, work) && Quiet(work.nodes, change)
    ensures StaysGrown(id, start, Changes(work, change, bytes, index))
  {
    if change.Ok? && change.value.Changed? {
      SameKindsTransitive(start, work.nodes, change.value.nodes);
    }
  }

  lemma LinkChangesAreQuiet(id: nat, nodes: Nodes, p: NodeId, c: NodeId, reference: Option<NodeId>)
    requires Forest(nodes)
    ensures Quiet(nodes, InsertBefore(id, nodes, p, c, reference)) && Quiet(nodes, RemoveChild(id, nodes, p, c))
  {
    InsertKeepsForest(id, nodes, p, c, reference);
    RemoveKeepsForest(id, nodes, p, c);
    hide Forest;
    hide Above;
    hide LegalChildren;
    hide Without;
    hide InsertAt;
    hide SameKinds;
    var inserted := InsertBefore(id, nodes, p, c, reference);
    if inserted.Ok? && inserted.value.Changed? {
      assert NamesItsParent(nodes, c.slot);
      var free := Detach(nodes, c.slot);
      var at := InsertionIndex(free[p.slot].children, if reference.Some? then Some(reference.value.slot) else None);
      SameKindsTransitive(nodes, free, Attach(free, p.slot, c.slot, at));
    }
  }

  lemma ContentsAreQuiet(nodes: Nodes, slot: nat, name: string, value: string)
    requires Forest(nodes) && slot < |nodes|
    ensures Quiet(nodes, SetAttribute(nodes, slot, name, value)) && Quiet(nodes, RemoveAttribute(nodes, slot, name))
    ensures Quiet(nodes, SetData(nodes, slot, value))
  {
    var kind := nodes[slot].kind;
    match kind
    case Element(local, attributes) =>
      ContentsKeepForest(nodes, slot, Element(local, WithAttribute(attributes, name, value)));
      ContentsKeepForest(nodes, slot, Element(local, WithoutAttribute(attributes, name)));
    case Text(_) => ContentsKeepForest(nodes, slot, Text(value));
    case Comment(_) => ContentsKeepForest(nodes, slot, Comment(value));
    case _ =>
  }

  lemma CommandGrows(id: nat, start: Nodes, work: Work, limits: Limits, index: nat, command: Command)
    requires Grown(id, start, work)
    ensures StaysGrown(id, start, Apply(id, work, limits, index, command))
  {
    hide Grown;
    hide InsertBefore;
    hide RemoveChild;
    hide SetAttribute;
    hide RemoveAttribute;
    hide SetData;
    hide Changes;
    hide Allocated;
    hide LowerAll;
    assert Forest(work.nodes) by { GrownIsForest(id, start, work); }
    hide Quiet;
    match command
    case CreateHtmlElement(_, name) => AllocationGrowsForAll(id, start, work, Element(LowerAll(name), []), index);
    case CreateText(_, data) => AllocationGrowsForAll(id, start, work, Text(data), index);
    case AppendChild(parent, child) => LinkGrows(id, start, work, index, parent, child, None);
    case InsertBeforeNode(parent, child, reference) => LinkGrows(id, start, work, index, parent, child, reference);
    case SetHtmlAttribute(element, name, value) => ContentGrows(id, start, work, index, element, LowerAll(name), value);
    case RemoveHtmlAttribute(element, name) => ContentGrows(id, start, work, index, element, LowerAll(name), []);
    case SetCharacterData(node, data) => ContentGrows(id, start, work, index, node, [], data);
    case RemoveChildOf(parent, child) => LinkGrows(id, start, work, index, parent, child, None);
  }

  lemma GrownIsForest(id: nat, start: Nodes, work: Work)
    requires Grown(id, start, work)
    ensures Forest(work.nodes)
  {
  }

  lemma AllocationGrowsForAll(id: nat, start: Nodes, work: Work, kind: NodeKind, index: nat)
    requires Grown(id, start, work) && !kind.DocumentNode?
    ensures forall bytes: nat :: StaysGrown(id, start, Allocated(id, work, kind, bytes, index))
  {
    forall bytes: nat
      ensures StaysGrown(id, start, Allocated(id, work, kind, bytes, index))
    {
      AllocationGrows(id, start, work, kind, bytes, index);
    }
  }

  lemma LinkGrows(id: nat, start: Nodes, work: Work, index: nat, parent: ScriptNode, child: ScriptNode,
                  reference: Option<ScriptNode>)
    requires Grown(id, start, work)
    ensures var p, c := Resolve(id, work, parent, index), Resolve(id, work, child, index);
            p.Ok? && c.Ok? ==>
              && StaysGrown(id, start,
                            Changes(work, InsertBefore(id, work.nodes, p.value, c.value, None), work.bytes, index))
              && StaysGrown(id, start, Changes(work, RemoveChild(id, work.nodes, p.value, c.value), work.bytes, index))
              && (reference.Some? && Resolve(id, work, reference.value, index).Ok? ==>
                    StaysGrown(id, start, Changes(work, InsertBefore(id, work.nodes, p.value, c.value,
                      Some(Resolve(id, work, reference.value, index).value)), work.bytes, index)))
  {
    hide InsertBefore;
    hide RemoveChild;
    hide Changes;
    hide Quiet;
    hide StaysGrown;
    var p, c := Resolve(id, work, parent, index), Resolve(id, work, child, index);
    if p.Ok? && c.Ok? {
      LinkChangesAreQuiet(id, work.nodes, p.value, c.value, None);
      QuietGrows(id, start, work, InsertBefore(id, work.nodes, p.value, c.value, None), work.bytes, index);
      QuietGrows(id, start, work, RemoveChild(id, work.nodes, p.value, c.value), work.bytes, index);
      if reference.Some? && Resolve(id, work, reference.value, index).Ok? {
        var before := Resolve(id, work, reference.value, index).value;
        LinkChangesAreQuiet(id, work.nodes, p.value, c.value, Some(before));
        QuietGrows(id, start, work, InsertBefore(id, work.nodes, p.value, c.value, Some(before)), work.bytes, index);
      }
    }
  }

  lemma ContentGrows(id: nat, start: Nodes, work: Work, index: nat, node: ScriptNode, name: string, value: string)
    requires Grown(id, start, work)
    ensures var n := Resolve(id, work, node, index);
            n.Ok? ==> forall bytes: nat ::
              && StaysGrown(id, start, Changes(work, SetAttribute(work.nodes, n.value.slot, name, value), bytes, index))
              && StaysGrown(id, start, Changes(work, RemoveAttribute(work.nodes, n.value.slot, name), bytes, index))
              && StaysGrown(id, start, Changes(work, SetData(work.nodes, n.value.slot, value), bytes, index))
  {
    hide SetAttribute;
    hide RemoveAttribute;
    hide SetData;
    hide Changes;
    hide Quiet;
    hide StaysGrown;
    var n := Resolve(id, work, node, index);
    if n.Ok? {
      ContentsAreQuiet(work.nodes, n.value.slot, name, value);
      forall bytes: nat
        ensures StaysGrown(id, start, Changes(work, SetAttribute(work.nodes, n.value.slot, name, value), bytes, index))
        ensures StaysGrown(id, start, Changes(work, RemoveAttribute(work.nodes, n.value.slot, name), bytes, index))
        ensures StaysGrown(id, start, Changes(work, SetData(work.nodes, n.value.slot, value), bytes, index))
      {
        QuietGrows(id, start, work, SetAttribute(work.nodes, n.value.slot, name, value), bytes, index);
        QuietGrows(id, start, work, RemoveAttribute(work.nodes, n.value.slot, name), bytes, index);
        QuietGrows(id, start, work, SetData(work.nodes, n.value.slot, value), bytes, index);
      }
    }
  }

  /** The commands from `index` on, one after another; the first failure is the outcome. */
  ghost function RunFrom(id: nat, start: Nodes, work: Work, limits: Limits, commands: seq<Command>,
                         index: nat): (r: Result<Work, ScriptError>)
    requires Grown(id, start, work) && index <= |commands|
    ensures StaysGrown(id, start, r) && (r.Err? ==> !r.error.Finalization?)
    decreases |commands| - index
  {
    if index == |commands| then Ok(work)
    else
      CommandGrows(id, start, work, limits, index, commands[index]);
      var next := Apply(id, work, limits, index, commands[index]);
      if next.Err? then Err(next.error) else RunFrom(id, start, next.value, limits, commands, index + 1)
  }

  lemma StartIsGrown(id: nat, nodes: Nodes)
    requires Forest(nodes)
    ensures Grown(id, nodes, Work(nodes, [], 0))
  {
  }

  ghost function RunBatch(id: nat, nodes: Nodes, limits: Limits, commands: seq<Command>): (r: Result<Work, ScriptError>)
    requires Forest(nodes)
    ensures StaysGrown(id, nodes, r) && (r.Err? ==> !r.error.Finalization?)
  {
    StartIsGrown(id, nodes);
    RunFrom(id, nodes, Work(nodes, [], 0), limits, commands, 0)
  }

  // ---- the batch on a document ----------------------------------------------------------------------

  /** The document holds the working arena, and the batch's outcome matches the command's specification. */
  ghost predicate Ran(spec: Result<Work, ScriptError>, r: Result<(seq<NodeId>, nat), ScriptError>, nodes: Nodes) {
    match spec
    case Err(e) => r == Err(e)
    case Ok(work) => r == Ok((work.created, work.bytes)) && nodes == work.nodes
  }

  function Settle(created: seq<NodeId>, bytes: nat, index: nat,
                  r: Result<(), DomError>): Result<(seq<NodeId>, nat), ScriptError> {
    if r.Err? then Err(CommandFailed(index, r.error)) else Ok((created, bytes))
  }

  method CreateNode(document: Document, created: seq<NodeId>, limits: Limits, index: nat, token: nat, kind: NodeKind,
                    name: string, bytes: nat)
    returns (r: Result<(seq<NodeId>, nat), ScriptError>)
    requires document.Valid() && document.revision < U64_MAX && !kind.DocumentNode?
    modifies document
    ensures document.Valid() && document.revision <= old(document.revision) + 1
    ensures var work := Work(old(document.nodes), created, bytes);
            var spec := (var total :- AccountString(name, bytes, limits, index);
                         var _ :- CheckToken(token, created, limits, index);
                         if kind.Element? && name == [] then Err(CommandFailed(index, InvalidName))
                         else Allocated(document.id, work, kind, total, index));
            Ran(spec, r, document.nodes)
  {
    var total :- AccountString(name, bytes, limits, index);
    var _ :- CheckToken(token, created, limits, index);
    if kind.Element? && name == [] {
      return Err(CommandFailed(index, InvalidName));
    }
    var node := document.Allocate(kind);
    if node.Err? {
      return Err(CommandFailed(index, node.error));
    }
    return Ok((created + [node.value], total));
  }

  method ChangeContents(document: Document, created: seq<NodeId>, index: nat, bytes: nat, slot: nat,
                        change: Result<Change, DomError>, kind: NodeKind)
    returns (r: Result<(seq<NodeId>, nat), ScriptError>)
    requires document.Valid() && document.revision < U64_MAX && slot < |document.nodes|
    requires change.Ok? && change.value.Changed? ==>
      KindTag(kind) == KindTag(document.nodes[slot].kind) && change.value.nodes == WithKind(document.nodes, slot, kind)
    modifies document
    ensures document.Valid() && document.revision <= old(document.revision) + 1
    ensures forall before: nat :: Ran(Changes(Work(old(document.nodes), created, before), change, bytes, index), r,
        document.nodes)
  {
    if change.Err? {
      return Err(CommandFailed(index, change.error));
    }
    if change.value.Changed? {
      document.SetKind(slot, kind);
    }
    return Ok((created, bytes));
  }

  /** Dispatches one command to the working document. */
  method ApplyCommand(document: Document, created: seq<NodeId>, bytes: nat, limits: Limits, index: nat,
                      command: Command)
    returns (r: Result<(seq<NodeId>, nat), ScriptError>)
    requires document.Valid() && document.revision < U64_MAX
    modifies document
    ensures document.Valid() && document.revision <= old(document.revision) + 1
    ensures Linked(old(document.nodes)) &&
      Ran(Apply(document.id, Work(old(document.nodes), created, bytes), limits, index, command), r, document.nodes)
  {
    hide InsertBefore;
    hide RemoveChild;
    hide Forest;
    assert Linked(document.nodes) by { ForestIsLinked(document.nodes); }
    hide Linked;
    ghost var before := document.nodes;
    var id := document.id;
    var work := Work(document.nodes, created, bytes);
    match command {
      case CreateHtmlElement(token, name) =>
        r := CreateNode(document, created, limits, index, token, Element(LowerAll(name), []), name, bytes);
      case CreateText(token, data) =>
        r := CreateNode(document, created, limits, index, token, Text(data), data, bytes);
      case AppendChild(parent, child) =>
        var p :- Resolve(id, work, parent, index);
        var c :- Resolve(id, work, child, index);
        var done := document.InsertChildBefore(p, c, None);
        r := Settle(created, bytes, index, done);
      case InsertBeforeNode(parent, child, reference) =>
        var p :- Resolve(id, work, parent, index);
        var c :- Resolve(id, work, child, index);
        var at: Option<NodeId> := None;
        if reference.Some? {
          var node :- Resolve(id, work, reference.value, index);
          at := Some(node);
        }
        var done := document.InsertChildBefore(p, c, at);
        r := Settle(created, bytes, index, done);
      case SetHtmlAttribute(element, name, value) =>
        var some :- AccountString(name, bytes, limits, index);
        var total :- AccountString(value, some, limits, index);
        var e :- Resolve(id, work, element, index);
        var change := SetAttribute(document.nodes, e.slot, LowerAll(name), value);
        r := ChangeContents(document, created, index, total, e.slot, change,
                            if change.Ok? && change.value.Changed? then change.value.nodes[e.slot].kind
                                else document.nodes[e.slot].kind);
      case RemoveHtmlAttribute(element, name) =>
        var total :- AccountString(name, bytes, limits, index);
        var e :- Resolve(id, work, element, index);
        var change := RemoveAttribute(document.nodes, e.slot, LowerAll(name));
        r := ChangeContents(document, created, index, total, e.slot, change,
                            if change.Ok? && change.value.Changed? then change.value.nodes[e.slot].kind
                                else document.nodes[e.slot].kind);
      case SetCharacterData(node, data) =>
        var total :- AccountString(data, bytes, limits, index);
        var n :- Resolve(id, work, node, index);
        var change := SetData(document.nodes, n.slot, data);
        r := ChangeContents(document, created, index, total, n.slot, change,
                            if change.Ok? && change.value.Changed? then change.value.nodes[n.slot].kind
                                else document.nodes[n.slot].kind);
      case RemoveChildOf(parent, child) =>
        var p :- Resolve(id, work, parent, index);
        var c :- Resolve(id, work, child, index);
        var done := document.RemoveChildNode(p, c);
        r := Settle(created, bytes, index, done);
    }
  }

  lemma ForestIsLinked(nodes: Nodes)
    requires Forest(nodes)
    ensures Linked(nodes)
  {
  }

  datatype Commit = Commit(snapshot: Snapshot, created: seq<NodeId>)

  /** Runs all commands on a working copy. */
  method RunCommands(document: Document, limits: Limits, commands: seq<Command>)
    returns (r: Result<seq<NodeId>, ScriptError>)
    requires document.Valid() && document.revision == 0 && |commands| <= HARD_MAX_COMMANDS
    modifies document
    ensures document.Valid()
    ensures Forest(old(document.nodes))
    ensures match RunBatch(document.id, old(document.nodes), limits, commands)
            case Err(e) => r == Err(e)
            case Ok(work) => r == Ok(work.created) && document.nodes == work.nodes
  {
    hide Forest;
    ghost var start := document.nodes;
    StartIsGrown(document.id, start);
    var created: seq<NodeId> := [];
    var bytes := 0;
    for i := 0 to |commands|
      invariant document.Valid() && document.revision <= i
      invariant Grown(document.id, start, Work(document.nodes, created, bytes))
      invariant RunBatch(document.id, start, limits, commands)
             == RunFrom(document.id, start, Work(document.nodes, created, bytes), limits, commands, i)
    {
      hide Grown;
      hide Apply;
      ghost var work := Work(document.nodes, created, bytes);
      CommandGrows(document.id, start, work, limits, i, commands[i]);
      var next :- ApplyCommand(document, created, bytes, limits, i, commands[i]);
      created, bytes := next.0, next.1;
    }
    return Ok(created);
  }

  /**
   A batch either leaves the document entirely as it was, or gives it the arena that running the
   commands one by one gives, with the revision raised by exactly one. Snapshotting never fails.
   */
  method ApplyScriptMutations(document: Document, expected: Version, commands: seq<Command>,
                              limits: Limits) returns (r: Result<Commit, ScriptError>)
    requires document.Valid() && document.revision <= U64_MAX && Narrowed(limits)
    modifies document
    ensures document.Valid()
    ensures r.Err? ==> document.nodes == old(document.nodes) && document.revision == old(document.revision)
    ensures r.Err? ==> !r.error.Finalization?
    ensures Forest(old(document.nodes)) && (r.Ok? ==>
      var outcome := RunBatch(document.id, old(document.nodes), limits, commands);
      && expected == Version(document.id, old(document.revision)) && 0 < |commands| <= limits.maxCommands
      && outcome.Ok? && document.nodes == outcome.value.nodes && r.value.created == outcome.value.created
      && Grown(document.id, old(document.nodes), outcome.value)
      && document.revision == old(document.revision) + 1
      && Pictures(r.value.snapshot, document.nodes) && r.value.snapshot.revision == document.revision)
    ensures Forest(old(document.nodes)) && (r.Err? ==>
      || expected != Version(document.id, old(document.revision))
      || |commands| == 0 || |commands| > limits.maxCommands || old(document.revision) == U64_MAX
      || RunBatch(document.id, old(document.nodes), limits, commands) == Err(r.error))
  {
    hide Grown;
    hide Pictures;
    hide Forest;
    var actual := Version(document.id, document.revision);
    if expected != actual {
      return Err(VersionMismatch(expected, actual));
    }
    if |commands| == 0 {
      return Err(EmptyBatch);
    }
    if document.revision == U64_MAX {
      return Err(RevisionExhausted(actual));
    }
    if |commands| > limits.maxCommands {
      return Err(LimitExceeded(limits.maxCommands, Commands, limits.maxCommands, |commands|));
    }
    var working := new Document.Copy(document.id, document.nodes);
    var created :- RunCommands(working, limits, commands);
    var snapshot := TakeSnapshot(document.id, working.nodes, document.revision + 1);
    assert snapshot.Ok?;
    document.nodes := working.nodes;
    document.revision := document.revision + 1;
    return Ok(Commit(snapshot.value, created));
  }
}
