/**
 Mark and sweep over the five arenas of a script heap: which records a
 collection keeps, when it fails, and that failing changes nothing.
 */
module Collector {
  import opened Outcomes
  import opened Arena
  import opened HeapRecords
  import opened HeapReferences

  datatype AllocationKind = StringKind | SymbolKind | ObjectRecordKind | FunctionKind | EnvironmentKind

  ghost predicate ValidHeap(h: HeapState) {
    Valid(h.strings) && Valid(h.symbols) && Valid(h.objects) && Valid(h.functions) && Valid(h.environments)
  }

  /** A node that holds no handle is never stale. */
  predicate NodeResolves(h: HeapState, n: TraceNode) {
    match n
    case EnvironmentNode(id) => Resolves(h.environments, id)
    case ValueNode(StringValue(id)) => Resolves(h.strings, id)
    case ValueNode(SymbolValue(id)) => Resolves(h.symbols, id)
    case ValueNode(ObjectValue(id)) => Resolves(h.objects, id)
    case ValueNode(FunctionValue(id)) => Resolves(h.functions, id)
    case ValueNode(_) => true
  }

  /** Marked, or nothing to mark. */
  predicate Done(h: HeapState, n: TraceNode) {
    match n
    case EnvironmentNode(id) => Marked(h.environments, id)
    case ValueNode(StringValue(id)) => Marked(h.strings, id)
    case ValueNode(SymbolValue(id)) => Marked(h.symbols, id)
    case ValueNode(ObjectValue(id)) => Marked(h.objects, id)
    case ValueNode(FunctionValue(id)) => Marked(h.functions, id)
    case ValueNode(_) => true
  }

  function MarkNode(h: HeapState, n: TraceNode): HeapState {
    match n
    case EnvironmentNode(id) => h.(environments := WithMark(h.environments, id))
    case ValueNode(StringValue(id)) => h.(strings := WithMark(h.strings, id))
    case ValueNode(SymbolValue(id)) => h.(symbols := WithMark(h.symbols, id))
    case ValueNode(ObjectValue(id)) => h.(objects := WithMark(h.objects, id))
    case ValueNode(FunctionValue(id)) => h.(functions := WithMark(h.functions, id))
    case ValueNode(_) => h
  }

  function KindOf(n: TraceNode): AllocationKind {
    match n
    case EnvironmentNode(_) => EnvironmentKind
    case ValueNode(SymbolValue(_)) => SymbolKind
    case ValueNode(ObjectValue(_)) => ObjectRecordKind
    case ValueNode(FunctionValue(_)) => FunctionKind
    case ValueNode(_) => StringKind
  }

  function UnmarkedHeap(h: HeapState): HeapState {
    HeapState(Unmarked(h.strings), Unmarked(h.symbols), Unmarked(h.objects), Unmarked(h.functions),
              Unmarked(h.environments))
  }

  function SweptHeap(h: HeapState): HeapState {
    HeapState(Swept(h.strings), Swept(h.symbols), Swept(h.objects), Swept(h.functions), Swept(h.environments))
  }

  /** The references of the record behind a node; a stale node has none. */
  function Children(h: HeapState, n: TraceNode): set<TraceNode> {
    match n
    case ValueNode(ObjectValue(id)) => if Resolves(h.objects, id) then ObjectNodes(Lookup(h.objects, id).value) else {}
    case ValueNode(FunctionValue(id)) =>
      if Resolves(h.functions, id) then FunctionNodes(Lookup(h.functions, id).value) else {}
    case EnvironmentNode(id) =>
      if Resolves(h.environments, id) then EnvironmentNodes(Lookup(h.environments, id).value) else {}
    case ValueNode(_) => {}
  }

  // ---- reachability -----------------------------------------------------------------

  ghost predicate IsPath(h: HeapState, roots: set<TraceNode>, path: seq<TraceNode>) {
    && |path| > 0
    && path[0] in roots
    && forall i :: 0 <= i < |path| - 1 ==> path[i + 1] in Children(h, path[i])
  }

  ghost predicate Reaches(h: HeapState, roots: set<TraceNode>, n: TraceNode, path: seq<TraceNode>) {
    IsPath(h, roots, path) && path[|path| - 1] == n
  }

  /** Some path of references leads from a root to the node; only records that resolve carry references. */
  ghost predicate Reachable(h: HeapState, roots: set<TraceNode>, n: TraceNode) {
    exists path: seq<TraceNode> :: Reaches(h, roots, n, path)
  }

  ghost predicate SomeReferenceIsStale(h: HeapState, roots: set<TraceNode>) {
    exists n: TraceNode :: Reachable(h, roots, n) && !NodeResolves(h, n)
  }

  lemma RootIsReachable(h: HeapState, roots: set<TraceNode>, n: TraceNode)
    requires n in roots
    ensures Reachable(h, roots, n)
  {
    assert Reaches(h, roots, n, [n]);
  }

  lemma ChildIsReachable(h: HeapState, roots: set<TraceNode>, n: TraceNode, child: TraceNode)
    requires Reachable(h, roots, n) && child in Children(h, n)
    ensures Reachable(h, roots, child)
  {
    var path: seq<TraceNode> :| Reaches(h, roots, n, path);
    assert Reaches(h, roots, child, path + [child]);
  }

  // ---- marks do not change what a heap says -------------------------------------------

  lemma UnmarkedLooksTheSame<T>(a: ArenaState<T>, h: Handle)
    ensures Lookup(Unmarked(a), h) == Lookup(a, h) && Resolves(Unmarked(a), h) == Resolves(a, h)
    ensures !Marked(Unmarked(a), h)
  {
  }

  lemma MarkingIsInvisible<T>(a: ArenaState<T>, h: Handle)
    ensures Unmarked(WithMark(a, h)) == Unmarked(a)
  {
  }

  lemma UnmarkedHeapLooksTheSame(h: HeapState, n: TraceNode)
    ensures NodeResolves(UnmarkedHeap(h), n) == NodeResolves(h, n)
    ensures Children(UnmarkedHeap(h), n) == Children(h, n)
  {
    match n
    case EnvironmentNode(id) => UnmarkedLooksTheSame(h.environments, id);
    case ValueNode(StringValue(id)) => UnmarkedLooksTheSame(h.strings, id);
    case ValueNode(SymbolValue(id)) => UnmarkedLooksTheSame(h.symbols, id);
    case ValueNode(ObjectValue(id)) => UnmarkedLooksTheSame(h.objects, id);
    case ValueNode(FunctionValue(id)) => UnmarkedLooksTheSame(h.functions, id);
    case ValueNode(_) =>
  }

  lemma NothingMarked(h: HeapState, n: TraceNode)
    requires Done(UnmarkedHeap(h), n)
    ensures Children(h, n) == {} && NodeResolves(h, n)
  {
  }

  /** What marking one node does: that node is done, every other node is as it was. */
  lemma MarkingANode(h: HeapState, n: TraceNode, other: TraceNode)
    requires NodeResolves(h, n)
    ensures Done(MarkNode(h, n), other) == (Done(h, other) || other == n)
  {
  }

  lemma MarkingKeepsTheRest(h: HeapState, n: TraceNode)
    ensures UnmarkedHeap(MarkNode(h, n)) == UnmarkedHeap(h)
  {
    match n
    case EnvironmentNode(id) => MarkingIsInvisible(h.environments, id);
    case ValueNode(StringValue(id)) => MarkingIsInvisible(h.strings, id);
    case ValueNode(SymbolValue(id)) => MarkingIsInvisible(h.symbols, id);
    case ValueNode(ObjectValue(id)) => MarkingIsInvisible(h.objects, id);
    case ValueNode(FunctionValue(id)) => MarkingIsInvisible(h.functions, id);
    case ValueNode(_) =>
  }

  // ---- the worklist terminates ---------------------------------------------------------

  function IsUnmarkedLive<T>(slot: Slot<T>): nat {
    if slot.state.Occupied? && !slot.state.marked then 1 else 0
  }

  /** Records that a trace may still mark. */
  function Pending(h: HeapState): nat {
    Count(h.strings.slots, IsUnmarkedLive) + Count(h.symbols.slots, IsUnmarkedLive)
    + Count(h.objects.slots, IsUnmarkedLive)
    + Count(h.functions.slots, IsUnmarkedLive) + Count(h.environments.slots, IsUnmarkedLive)
  }

  lemma MarkingCounts<T>(a: ArenaState<T>, h: Handle)
    requires Resolves(a, h) && !Marked(a, h)
    ensures Count(WithMark(a, h).slots, IsUnmarkedLive) < Count(a.slots, IsUnmarkedLive)
  {
    CountUpdate(a.slots, h.index, Slot(h.generation, Occupied(a.slots[h.index].state.value, true)), IsUnmarkedLive);
  }

  lemma MarkingMakesProgress(h: HeapState, n: TraceNode)
    requires NodeResolves(h, n) && !Done(h, n)
    ensures Pending(MarkNode(h, n)) < Pending(h)
  {
    match n
    case EnvironmentNode(id) => MarkingCounts(h.environments, id);
    case ValueNode(StringValue(id)) => MarkingCounts(h.strings, id);
    case ValueNode(SymbolValue(id)) => MarkingCounts(h.symbols, id);
    case ValueNode(ObjectValue(id)) => MarkingCounts(h.objects, id);
    case ValueNode(FunctionValue(id)) => MarkingCounts(h.functions, id);
  }

  // ---- what a trace keeps ----------------------------------------------------------------

  /** Marks and worklist hold reachable nodes only, and every reference of a marked record is marked or listed. */
  ghost predicate Tracing(start: HeapState, roots: set<TraceNode>, now: HeapState, worklist: set<TraceNode>) {
    && UnmarkedHeap(now) == UnmarkedHeap(start)
    && (forall n :: n in worklist ==> Reachable(start, roots, n))
    && (forall n :: n in roots ==> Done(now, n) || n in worklist)
    && (forall n :: Done(now, n) ==> NodeResolves(start, n) && Settled(start, roots, now, worklist, n))
  }

  /** Every reference of a done node is done or listed; a done node with references is reachable. */
  ghost predicate Settled(start: HeapState, roots: set<TraceNode>, now: HeapState, worklist: set<TraceNode>,
                          n: TraceNode)
  {
    && (HoldsHandle(n) ==> Reachable(start, roots, n))
    && forall child :: child in Children(start, n) ==> Done(now, child) || child in worklist
  }

  predicate HoldsHandle(n: TraceNode) {
    n.EnvironmentNode? || n.value.StringValue? || n.value.SymbolValue? || n.value.ObjectValue? || n.value.FunctionValue?
  }

  lemma TracingStarts(start: HeapState, roots: set<TraceNode>)
    ensures Tracing(start, roots, UnmarkedHeap(start), roots)
  {
    var now := UnmarkedHeap(start);
    forall n | n in roots
      ensures Reachable(start, roots, n)
    {
      RootIsReachable(start, roots, n);
    }
    forall n | Done(now, n)
      ensures NodeResolves(start, n) && Settled(start, roots, now, roots, n)
    {
      NothingMarked(start, n);
    }
    UnmarkingTwice(start.strings);
    UnmarkingTwice(start.symbols);
    UnmarkingTwice(start.objects);
    UnmarkingTwice(start.functions);
    UnmarkingTwice(start.environments);
  }

  lemma UnmarkingTwice<T>(a: ArenaState<T>)
    ensures Unmarked(Unmarked(a)) == Unmarked(a)
  {
  }

  lemma SameUnmarkedSameView(a: HeapState, b: HeapState, n: TraceNode)
    requires UnmarkedHeap(a) == UnmarkedHeap(b)
    ensures NodeResolves(a, n) == NodeResolves(b, n) && Children(a, n) == Children(b, n)
  {
    UnmarkedHeapLooksTheSame(a, n);
    UnmarkedHeapLooksTheSame(b, n);
  }

  /** Taking a node that is already done off the worklist. */
  lemma TracingSkips(start: HeapState, roots: set<TraceNode>, now: HeapState, worklist: set<TraceNode>,
                     rest: set<TraceNode>, n: TraceNode)
    requires Tracing(start, roots, now, worklist) && worklist == rest + {n} && Done(now, n)
    ensures Tracing(start, roots, now, rest)
  {
    hide Done;
    hide Children;
    hide NodeResolves;
    hide UnmarkedHeap;
    forall m | Done(now, m)
      ensures NodeResolves(start, m) && Settled(start, roots, now, rest, m)
    {
      assert Settled(start, roots, now, worklist, m);
    }
  }

  /** Marking a node taken off the worklist and listing its references. */
  lemma TracingMarks(start: HeapState, roots: set<TraceNode>, now: HeapState, worklist: set<TraceNode>,
                     rest: set<TraceNode>, n: TraceNode)
    requires Tracing(start, roots, now, worklist) && worklist == rest + {n} && NodeResolves(now, n)
    ensures Tracing(start, roots, MarkNode(now, n), rest + Children(now, n))
  {
    SameUnmarkedSameView(now, start, n);
    hide Done;
    hide Children;
    hide NodeResolves;
    hide UnmarkedHeap;
    hide MarkNode;
    var next, listed := MarkNode(now, n), rest + Children(now, n);
    MarkingKeepsTheRest(now, n);
    forall m | m in listed
      ensures Reachable(start, roots, m)
    {
      if m in Children(now, n) { ChildIsReachable(start, roots, n, m); }
    }
    forall m
      ensures Done(next, m) == (Done(now, m) || m == n)
    {
      MarkingANode(now, n, m);
    }
    forall m | Done(next, m)
      ensures NodeResolves(start, m) && Settled(start, roots, next, listed, m)
    {
      if m != n { assert Settled(start, roots, now, worklist, m); }
    }
  }

  /** With the worklist empty, every reachable node is done. */
  lemma {:induction false} TracedPath(start: HeapState, roots: set<TraceNode>, now: HeapState, path: seq<TraceNode>)
    requires Tracing(start, roots, now, {}) && IsPath(start, roots, path)
    ensures Done(now, path[|path| - 1])
    decreases |path|
  {
    if |path| > 1 {
      hide Done;
      hide Children;
      var k := |path| - 2;
      assert IsPath(start, roots, path[..k + 1]);
      TracedPath(start, roots, now, path[..k + 1]);
      assert Settled(start, roots, now, {}, path[k]);
    }
  }

  /** A finished trace has marked exactly the reachable records, all of which resolve. */
  lemma TraceIsExact(start: HeapState, roots: set<TraceNode>, now: HeapState, n: TraceNode)
    requires Tracing(start, roots, now, {})
    ensures HoldsHandle(n) ==> (Done(now, n) <==> Reachable(start, roots, n))
    ensures Reachable(start, roots, n) ==> NodeResolves(start, n)
  {
    hide Done;
    hide Children;
    if Reachable(start, roots, n) {
      var path: seq<TraceNode> :| Reaches(start, roots, n, path);
      TracedPath(start, roots, now, path);
    }
    if Done(now, n) && HoldsHandle(n) {
      assert Settled(start, roots, now, {}, n);
    }
  }

  // ---- what a collection leaves behind ---------------------------------------------------

  /** A record survives exactly when it is reachable, and then with its value. */
  ghost predicate Collected(before: HeapState, roots: set<TraceNode>, after: HeapState) {
    && (forall id: Handle :: Lookup(after.strings, id) ==
          if Reachable(before, roots, ValueNode(StringValue(id))) then Lookup(before.strings, id) else None)
    && (forall id: Handle :: Lookup(after.symbols, id) ==
          if Reachable(before, roots, ValueNode(SymbolValue(id))) then Lookup(before.symbols, id) else None)
    && (forall id: Handle :: Lookup(after.objects, id) ==
          if Reachable(before, roots, ValueNode(ObjectValue(id))) then Lookup(before.objects, id) else None)
    && (forall id: Handle :: Lookup(after.functions, id) ==
          if Reachable(before, roots, ValueNode(FunctionValue(id))) then Lookup(before.functions, id) else None)
    && (forall id: Handle :: Lookup(after.environments, id) ==
          if Reachable(before, roots, EnvironmentNode(id)) then Lookup(before.environments, id) else None)
  }

  ghost predicate NoMarks(h: HeapState) {
    forall n: TraceNode :: HoldsHandle(n) ==> !Done(h, n)
  }

  lemma SweptArena<T>(a: ArenaState<T>, b: ArenaState<T>, h: Handle)
    requires Unmarked(a) == Unmarked(b)
    ensures Lookup(Swept(a), h) == if Marked(a, h) then Lookup(b, h) else None
    ensures !Marked(Swept(a), h)
  {
    SweepKeepsTheMarked(a, h);
    UnmarkedLooksTheSame(a, h);
    UnmarkedLooksTheSame(b, h);
  }

  /** Sweeping after a finished trace keeps exactly the reachable records. */
  lemma SweepCollects(before: HeapState, roots: set<TraceNode>, traced: HeapState)
    requires Tracing(before, roots, traced, {})
    ensures Collected(before, roots, SweptHeap(traced)) && NoMarks(SweptHeap(traced))
    ensures !SomeReferenceIsStale(before, roots)
  {
    hide Children;
    hide Swept;
    hide Unmarked;
    hide Tracing;
    assert UnmarkedHeap(traced) == UnmarkedHeap(before) by { TracingSameView(before, roots, traced); }
    forall n
      ensures HoldsHandle(n) ==> (Done(traced, n) <==> Reachable(before, roots, n))
      ensures Reachable(before, roots, n) ==> NodeResolves(before, n)
    {
      TraceIsExact(before, roots, traced, n);
    }
    hide Reachable;
    SweepCollectsEach(before, roots, traced);
  }

  lemma TracingSameView(before: HeapState, roots: set<TraceNode>, traced: HeapState)
    requires Tracing(before, roots, traced, {})
    ensures UnmarkedHeap(traced) == UnmarkedHeap(before)
  {
  }

  lemma SweepCollectsEach(before: HeapState, roots: set<TraceNode>, traced: HeapState)
    requires UnmarkedHeap(traced) == UnmarkedHeap(before)
    requires forall n :: HoldsHandle(n) ==> (Done(traced, n) <==> Reachable(before, roots, n))
    ensures Collected(before, roots, SweptHeap(traced)) && NoMarks(SweptHeap(traced))
  {
    hide Reachable;
    hide Swept;
    hide Unmarked;
    hide Lookup;
    hide Marked;
    forall id: Handle
      ensures Lookup(Swept(traced.strings), id) ==
        if Reachable(before, roots, ValueNode(StringValue(id))) then Lookup(before.strings, id) else None
      ensures !Marked(Swept(traced.strings), id)
    {
      SweptArena(traced.strings, before.strings, id);
      assert HoldsHandle(ValueNode(StringValue(id)));
    }
    forall id: Handle
      ensures Lookup(Swept(traced.symbols), id) ==
        if Reachable(before, roots, ValueNode(SymbolValue(id))) then Lookup(before.symbols, id) else None
      ensures !Marked(Swept(traced.symbols), id)
    {
      SweptArena(traced.symbols, before.symbols, id);
      assert HoldsHandle(ValueNode(SymbolValue(id)));
    }
    forall id: Handle
      ensures Lookup(Swept(traced.objects), id) ==
        if Reachable(before, roots, ValueNode(ObjectValue(id))) then Lookup(before.objects, id) else None
      ensures !Marked(Swept(traced.objects), id)
    {
      SweptArena(traced.objects, before.objects, id);
      assert HoldsHandle(ValueNode(ObjectValue(id)));
    }
    forall id: Handle
      ensures Lookup(Swept(traced.functions), id) ==
        if Reachable(before, roots, ValueNode(FunctionValue(id))) then Lookup(before.functions, id) else None
      ensures !Marked(Swept(traced.functions), id)
    {
      SweptArena(traced.functions, before.functions, id);
      assert HoldsHandle(ValueNode(FunctionValue(id)));
    }
    forall id: Handle
      ensures Lookup(Swept(traced.environments), id) ==
        if Reachable(before, roots, EnvironmentNode(id)) then Lookup(before.environments, id) else None
      ensures !Marked(Swept(traced.environments), id)
    {
      SweptArena(traced.environments, before.environments, id);
      assert HoldsHandle(EnvironmentNode(id));
    }
  }

  // ---- references are what the fields hold ---------------------------------------------------

  lemma DescriptorNodesAreHeld(d: PropertyDescriptor, v: RawValue)
    ensures ValueNode(v) in DescriptorNodes(d) <==> DescriptorHolds(d, v)
  {
  }

  lemma PropertyNodesAreHeld<K>(properties: map<K, PropertyDescriptor>, v: RawValue)
    ensures ValueNode(v) in PropertyNodes(properties) <==>
      exists k :: k in properties && DescriptorHolds(properties[k], v)
  {
    forall k | k in properties
      ensures ValueNode(v) in DescriptorNodes(properties[k]) <==> DescriptorHolds(properties[k], v)
    {
      DescriptorNodesAreHeld(properties[k], v);
    }
  }

  lemma DataNodesAreHeld(data: ObjectData, n: TraceNode)
    ensures n in DataNodes(data) <==> n.ValueNode? && DataHolds(data, n.value)
  {
    if n.ValueNode? {
      PropertyNodesAreHeld(data.properties.entries, n.value);
    }
  }

  /** The references that tracing follows are exactly what the fields of the record hold. */
  lemma ChildrenAreHeld(h: HeapState, owner: TraceNode, held: TraceNode)
    ensures held in Children(h, owner) <==> Holds(h, owner, held)
  {
    match owner
    case ValueNode(ObjectValue(id)) =>
      if Resolves(h.objects, id) {
        var record := Lookup(h.objects, id).value;
        DataNodesAreHeld(record.data, held);
        if record.kind.ArrayObject? && held.ValueNode? {
          PropertyNodesAreHeld(record.kind.elements, held.value);
        }
      }
    case ValueNode(FunctionValue(id)) =>
      if Resolves(h.functions, id) {
        DataNodesAreHeld(Lookup(h.functions, id).value.data, held);
      }
    case EnvironmentNode(id) =>
    case ValueNode(_) =>
  }

  lemma ReachableIsRetained(h: HeapState, values: seq<RawValue>, permanent: seq<Handle>, n: TraceNode)
    ensures Reachable(h, RootNodes(values, permanent), n) <==> Retained(h, values, permanent, n)
  {
    forall owner, held
      ensures held in Children(h, owner) <==> Holds(h, owner, held)
    {
      ChildrenAreHeld(h, owner, held);
    }
    hide Children;
    hide Holds;
    var roots := RootNodes(values, permanent);
    assert forall m :: m in roots <==> IsRoot(values, permanent, m);
    if Reachable(h, roots, n) {
      var path: seq<TraceNode> :| Reaches(h, roots, n, path);
      assert EndsAt(h, values, permanent, path, n);
    }
    if Retained(h, values, permanent, n) {
      var chain: seq<TraceNode> :| EndsAt(h, values, permanent, chain, n);
      assert Reaches(h, roots, n, chain);
    }
  }

  /** What survives is what the roots retain, with what it held. */
  lemma SurvivorsAreRetained(before: HeapState, values: seq<RawValue>, permanent: seq<Handle>, after: HeapState,
                             n: TraceNode)
    requires Collected(before, RootNodes(values, permanent), after)
    requires !SomeReferenceIsStale(before, RootNodes(values, permanent))
    ensures Survives(after, n) <==> HoldsHandle(n) && Retained(before, values, permanent, n)
    ensures Survives(after, n) ==> forall held :: Holds(after, n, held) <==> Holds(before, n, held)
    ensures Survives(before, n) && Retained(before, values, permanent, n) ==> Survives(after, n)
  {
    ReachableIsRetained(before, values, permanent, n);
    hide Reachable;
    hide Retained;
    hide DataHolds;
    assert Reachable(before, RootNodes(values, permanent), n) ==> NodeResolves(before, n);
  }

  lemma HeldIsRetained(h: HeapState, values: seq<RawValue>, permanent: seq<Handle>, owner: TraceNode, held: TraceNode)
    requires Retained(h, values, permanent, owner) && Holds(h, owner, held)
    ensures Retained(h, values, permanent, held)
  {
    hide Holds;
    var chain: seq<TraceNode> :| EndsAt(h, values, permanent, chain, owner);
    assert EndsAt(h, values, permanent, chain + [held], held);
  }

  /** What a survivor holds survives too, if it has a handle at all. */
  lemma HeldSurvives(before: HeapState, values: seq<RawValue>, permanent: seq<Handle>, after: HeapState,
                     owner: TraceNode, held: TraceNode)
    requires Collected(before, RootNodes(values, permanent), after)
    requires !SomeReferenceIsStale(before, RootNodes(values, permanent))
    requires Survives(after, owner) && Holds(after, owner, held)
    ensures HoldsHandle(held) ==> Survives(after, held)
    ensures held.ValueNode? ==> ValueResolves(after, held.value)
    ensures held.EnvironmentNode? ==> Resolves(after.environments, held.id)
  {
    hide Collected;
    hide Retained;
    hide Holds;
    hide SomeReferenceIsStale;
    SurvivorsAreRetained(before, values, permanent, after, owner);
    HeldIsRetained(before, values, permanent, owner, held);
    SurvivorsAreRetained(before, values, permanent, after, held);
  }

  lemma OwnerSurvives(before: HeapState, values: seq<RawValue>, permanent: seq<Handle>, after: HeapState, n: TraceNode)
    requires Collected(before, RootNodes(values, permanent), after)
    requires !SomeReferenceIsStale(before, RootNodes(values, permanent))
    requires Survives(after, n) && !IsRoot(values, permanent, n)
    ensures exists owner :: Survives(after, owner) && Holds(after, owner, n)
  {
    SurvivorsAreRetained(before, values, permanent, after, n);
    hide Collected;
    hide SomeReferenceIsStale;
    var chain: seq<TraceNode> :| EndsAt(before, values, permanent, chain, n);
    var k := |chain| - 2;
    var owner := chain[k];
    assert Holds(before, chain[k], chain[k + 1]);
    assert EndsAt(before, values, permanent, chain[..k + 1], owner) by { hide Holds; }
    assert Survives(before, owner) by { hide DataHolds; }
    hide Holds;
    hide Survives;
    SurvivorsAreRetained(before, values, permanent, after, owner);
    assert Survives(after, owner) && Holds(after, owner, n);
  }

  ghost predicate HeldResolves(h: HeapState, owner: TraceNode) {
    forall held :: Holds(h, owner, held) ==>
      if held.ValueNode? then ValueResolves(h, held.value) else Resolves(h.environments, held.id)
  }

  lemma DescriptorFieldsResolve(h: HeapState, d: PropertyDescriptor)
    requires forall v :: DescriptorHolds(d, v) ==> ValueResolves(h, v)
    ensures DescriptorResolves(h, d)
  {
    match d.kind
    case Data(value, _) => assert DescriptorHolds(d, value);
    case Accessor(getter, setter) =>
      if getter.Some? { assert DescriptorHolds(d, getter.value); }
      if setter.Some? { assert DescriptorHolds(d, setter.value); }
  }

  lemma DataFieldsResolve(h: HeapState, data: ObjectData)
    requires forall v :: DataHolds(data, v) ==> ValueResolves(h, v)
    ensures DataResolves(h, data)
  {
    if data.prototype.Some? {
      assert DataHolds(data, data.prototype.value);
    }
    forall k | k in data.properties.insertionOrder && k.SymbolKey?
      ensures Resolves(h.symbols, k.symbol)
    {
      assert DataHolds(data, SymbolValue(k.symbol));
    }
    forall k | k in data.properties.entries
      ensures DescriptorResolves(h, data.properties.entries[k])
    {
      forall v | DescriptorHolds(data.properties.entries[k], v)
        ensures ValueResolves(h, v)
      {
        assert DataHolds(data, v);
      }
      DescriptorFieldsResolve(h, data.properties.entries[k]);
    }
  }

  lemma ObjectFieldsResolve(h: HeapState, id: Handle)
    requires Lookup(h.objects, id).Some? && HeldResolves(h, ValueNode(ObjectValue(id)))
    ensures ObjectResolves(h, Lookup(h.objects, id).value)
  {
    var owner, record := ValueNode(ObjectValue(id)), Lookup(h.objects, id).value;
    forall v | DataHolds(record.data, v)
      ensures ValueResolves(h, v)
    {
      assert Holds(h, owner, ValueNode(v));
    }
    DataFieldsResolve(h, record.data);
    if record.kind.ArrayObject? {
      forall i | i in record.kind.elements
        ensures DescriptorResolves(h, record.kind.elements[i])
      {
        forall v | DescriptorHolds(record.kind.elements[i], v)
          ensures ValueResolves(h, v)
        {
          assert Holds(h, owner, ValueNode(v));
        }
        DescriptorFieldsResolve(h, record.kind.elements[i]);
      }
    }
  }

  lemma FunctionFieldsResolve(h: HeapState, id: Handle)
    requires Lookup(h.functions, id).Some? && HeldResolves(h, ValueNode(FunctionValue(id)))
    ensures FunctionResolves(h, Lookup(h.functions, id).value)
  {
    var owner, record := ValueNode(FunctionValue(id)), Lookup(h.functions, id).value;
    forall v | DataHolds(record.data, v)
      ensures ValueResolves(h, v)
    {
      assert Holds(h, owner, ValueNode(v));
    }
    DataFieldsResolve(h, record.data);
    if record.callable.Script? {
      assert Holds(h, owner, EnvironmentNode(record.callable.closure));
    }
  }

  lemma EnvironmentFieldsResolve(h: HeapState, id: Handle)
    requires Lookup(h.environments, id).Some? && HeldResolves(h, EnvironmentNode(id))
    ensures EnvironmentResolves(h, Lookup(h.environments, id).value)
  {
    var owner, record := EnvironmentNode(id), Lookup(h.environments, id).value;
    if record.outer.Some? {
      assert Holds(h, owner, EnvironmentNode(record.outer.value));
    }
    forall name | name in record.bindings && record.bindings[name].state.Initialized?
      ensures ValueResolves(h, record.bindings[name].state.value)
    {
      assert Holds(h, owner, ValueNode(record.bindings[name].state.value));
    }
  }

  lemma SurvivorsResolve(before: HeapState, values: seq<RawValue>, permanent: seq<Handle>, after: HeapState)
    requires Collected(before, RootNodes(values, permanent), after)
    requires !SomeReferenceIsStale(before, RootNodes(values, permanent))
    ensures NothingDangles(after)
  {
    forall owner, held | Survives(after, owner) && Holds(after, owner, held)
      ensures if held.ValueNode? then ValueResolves(after, held.value) else Resolves(after.environments, held.id)
    {
      HeldSurvives(before, values, permanent, after, owner, held);
    }
    assert forall owner :: Survives(after, owner) ==> HeldResolves(after, owner);
    hide Collected;
    hide SomeReferenceIsStale;
    hide HeldResolves;
    hide Holds;
    forall id: Handle | Lookup(after.objects, id).Some?
      ensures ObjectResolves(after, Lookup(after.objects, id).value)
    {
      ObjectFieldsResolve(after, id);
    }
    forall id: Handle | Lookup(after.functions, id).Some?
      ensures FunctionResolves(after, Lookup(after.functions, id).value)
    {
      FunctionFieldsResolve(after, id);
    }
    forall id: Handle | Lookup(after.environments, id).Some?
      ensures EnvironmentResolves(after, Lookup(after.environments, id).value)
    {
      EnvironmentFieldsResolve(after, id);
    }
  }

  /** An exact collection: what survives is what the roots retained, nothing dangles and nothing is left over. */
  lemma CollectionRetains(before: HeapState, values: seq<RawValue>, permanent: seq<Handle>, after: HeapState)
    requires Collected(before, RootNodes(values, permanent), after)
    requires !SomeReferenceIsStale(before, RootNodes(values, permanent))
    ensures forall n :: Survives(after, n) <==> HoldsHandle(n) && Retained(before, values, permanent, n)
    ensures NothingDangles(after) && NothingIsLeftOver(after, values, permanent)
  {
    SurvivorsResolve(before, values, permanent, after);
    hide Collected;
    hide SomeReferenceIsStale;
    hide Retained;
    hide NothingDangles;
    forall n
      ensures Survives(after, n) <==> HoldsHandle(n) && Retained(before, values, permanent, n)
    {
      SurvivorsAreRetained(before, values, permanent, after, n);
    }
    forall n | Survives(after, n) && !IsRoot(values, permanent, n)
      ensures exists owner :: Survives(after, owner) && Holds(after, owner, n)
    {
      OwnerSurvives(before, values, permanent, after, n);
    }
  }

  // ---- the heap -----------------------------------------------------------------------------

  const MAX_COLLECTIONS: nat := 0xFFFF_FFFF_FFFF_FFFF

  const USIZE_MAX: nat := 0xFFFF_FFFF_FFFF_FFFF

  datatype ReclaimedCounts = ReclaimedCounts(
    strings: nat, symbols: nat, objects: nat, functions: nat, environments: nat)

  /** By how many live records each arena has shrunk. */
  predicate Counts(before: HeapState, after: HeapState, counts: ReclaimedCounts) {
    && counts.strings == before.strings.live - after.strings.live
    && counts.symbols == before.symbols.live - after.symbols.live
    && counts.objects == before.objects.live - after.objects.live
    && counts.functions == before.functions.live - after.functions.live
    && counts.environments == before.environments.live - after.environments.live
  }

  function Saturated(a: nat, b: nat): nat {
    if a + b > USIZE_MAX then USIZE_MAX else a + b
  }

  function Added(a: ReclaimedCounts, b: ReclaimedCounts): ReclaimedCounts {
    ReclaimedCounts(Saturated(a.strings, b.strings), Saturated(a.symbols, b.symbols), Saturated(a.objects, b.objects),
                    Saturated(a.functions, b.functions), Saturated(a.environments, b.environments))
  }

  /** Marks make no difference to the number of live records. */
  lemma MarksDoNotCount(before: HeapState, now: HeapState, after: HeapState, counts: ReclaimedCounts)
    requires UnmarkedHeap(now) == UnmarkedHeap(before) && Counts(now, after, counts)
    ensures Counts(before, after, counts)
  {
    assert UnmarkedHeap(now).strings.live == UnmarkedHeap(before).strings.live;
  }

  class Heap {
    const strings: Arena<StringRecord>
    const symbols: Arena<SymbolRecord>
    const objects: Arena<ObjectRecord>
    const functions: Arena<FunctionRecord>
    const environments: Arena<EnvironmentRecord>
    var collections: nat
    var totalReclaimed: ReclaimedCounts

    ghost predicate WellFormed()
      reads strings, symbols, objects, functions, environments
    {
      && strings as object != symbols && strings as object != objects && strings as object != functions
          && strings as object != environments
      && symbols as object != objects && symbols as object != functions && symbols as object != environments
      && objects as object != functions && objects as object != environments && functions as object != environments
      && ValidHeap(State())
    }

    ghost function State(): HeapState
      reads strings, symbols, objects, functions, environments
    {
      HeapState(strings.State(), symbols.State(), objects.State(), functions.State(), environments.State())
    }

    constructor ()
      ensures WellFormed() && collections == 0 && totalReclaimed == ReclaimedCounts(0, 0, 0, 0, 0)
      ensures fresh(strings) && fresh(symbols) && fresh(objects) && fresh(functions) && fresh(environments)
      ensures State() == HeapState(Empty(), Empty(), Empty(), Empty(), Empty())
    {
      hide Valid;
      hide Empty;
      strings := new Arena();
      symbols := new Arena();
      objects := new Arena();
      functions := new Arena();
      environments := new Arena();
      collections, totalReclaimed := 0, ReclaimedCounts(0, 0, 0, 0, 0);
      new;
      assert State() == HeapState(Empty(), Empty(), Empty(), Empty(), Empty());
      assert WellFormed();
    }

    method ClearMarks()
      requires WellFormed()
      modifies strings, symbols, objects, functions, environments
      ensures WellFormed() && State() == UnmarkedHeap(old(State()))
    {
      strings.ClearMarks();
      symbols.ClearMarks();
      objects.ClearMarks();
      functions.ClearMarks();
      environments.ClearMarks();
    }

    /** Marks the record behind a node; Ok tells whether it still has to be traced. */
    method Mark(n: TraceNode) returns (r: Result<bool, AllocationKind>)
      requires WellFormed()
      modifies strings, symbols, objects, functions, environments
      ensures WellFormed()
      ensures r == if NodeResolves(old(State()), n) then Ok(!Done(old(State()), n)) else Err(KindOf(n))
      ensures State() == if r.Ok? then MarkNode(old(State()), n) else old(State())
    {
      hide Valid;
      var marked: Result<bool, ()>;
      match n {
        case EnvironmentNode(id) => marked := environments.Mark(id);
        case ValueNode(StringValue(id)) => marked := strings.Mark(id);
        case ValueNode(SymbolValue(id)) => marked := symbols.Mark(id);
        case ValueNode(ObjectValue(id)) => marked := objects.Mark(id);
        case ValueNode(FunctionValue(id)) => marked := functions.Mark(id);
        case ValueNode(_) => marked := Ok(false);
      }
      return if marked.Ok? then Ok(marked.value) else Err(KindOf(n));
    }

    /** Lists the references of the record behind a node. */
    method PushChildren(n: TraceNode, worklist: seq<TraceNode>) returns (next: seq<TraceNode>)
      requires NodeResolves(State(), n)
      ensures Elements(next) == Elements(worklist) + Children(State(), n)
    {
      next := worklist;
      match n
      case EnvironmentNode(id) =>
        var record := environments.Get(id);
        next := PushEnvironment(record.value, worklist);
      case ValueNode(ObjectValue(id)) =>
        var record := objects.Get(id);
        next := PushObject(record.value, worklist);
      case ValueNode(FunctionValue(id)) =>
        var record := functions.Get(id);
        next := PushFunction(record.value, worklist);
      case ValueNode(_) =>
    }

    /** Marks everything reachable, or stops at the first stale reference. */
    method Trace(roots: seq<TraceNode>, ghost start: HeapState) returns (r: Result<(), AllocationKind>)
      requires WellFormed() && State() == UnmarkedHeap(start)
      modifies strings, symbols, objects, functions, environments
      ensures WellFormed() && UnmarkedHeap(State()) == UnmarkedHeap(start)
      ensures r.Ok? ==> Tracing(start, Elements(roots), State(), {})
      ensures r.Err? ==> SomeReferenceIsStale(start, Elements(roots))
    {
      hide UnmarkedHeap;
      hide Children;
      hide NodeResolves;
      hide Done;
      hide MarkNode;
      hide ValidHeap;
      hide Pending;
      var worklist := roots;
      TracingStarts(start, Elements(roots));
      while |worklist| > 0
        invariant WellFormed()
        invariant Tracing(start, Elements(roots), State(), Elements(worklist))
        decreases Pending(State()), |worklist|
      {
        var node := worklist[|worklist| - 1];
        var rest := worklist[..|worklist| - 1];
        ghost var now := State();
        assert worklist == rest + [node];
        ElementsAppend(rest, node);
        SameUnmarkedSameView(now, start, node);
        var marked := Mark(node);
        if marked.Err? {
          return Err(marked.error);
        }
        if marked.value {
          TracingMarks(start, Elements(roots), now, Elements(worklist), Elements(rest), node);
          MarkingMakesProgress(now, node);
          SameUnmarkedSameView(State(), now, node);
          worklist := PushChildren(node, rest);
        } else {
          TracingSkips(start, Elements(roots), now, Elements(worklist), Elements(rest), node);
          AlreadyMarked(now, node);
          worklist := rest;
        }
      }
      assert Elements(worklist) == {};
      return Ok(());
    }

    method Sweep() returns (counts: ReclaimedCounts)
      requires WellFormed()
      modifies strings, symbols, objects, functions, environments
      ensures WellFormed() && State() == SweptHeap(old(State())) && Counts(old(State()), State(), counts)
    {
      hide Valid;
      hide Swept;
      var a := strings.Sweep();
      var b := symbols.Sweep();
      var c := objects.Sweep();
      var d := functions.Sweep();
      var e := environments.Sweep();
      counts := ReclaimedCounts(a, b, c, d, e);
    }

    /**
     A collection: succeeds exactly when no reachable reference is stale, and then keeps exactly the reachable
     records.
     */
    method Collect(values: seq<RawValue>, permanent: seq<Handle>) returns (r: Result<ReclaimedCounts, AllocationKind>)
      requires WellFormed()
      modifies this, strings, symbols, objects, functions, environments
      ensures WellFormed()
      ensures r.Ok? <==> !SomeReferenceIsStale(old(State()), RootNodes(values, permanent))
      ensures r.Ok? ==> Collected(old(State()), RootNodes(values, permanent), State()) && NoMarks(State())
      ensures r.Ok? ==>
        && NothingDangles(State()) && NothingIsLeftOver(State(), values, permanent)
        && forall n :: Survives(State(), n) <==> HoldsHandle(n) && Retained(old(State()), values, permanent, n)
      ensures r.Ok? ==>
        collections == if old(collections) < MAX_COLLECTIONS then old(collections) + 1 else old(collections)
      ensures r.Ok? ==> Counts(old(State()), State(), r.value) && totalReclaimed == Added(old(totalReclaimed), r.value)
      ensures r.Err? ==> State() == UnmarkedHeap(old(State()))
      ensures r.Err? ==> collections == old(collections) && totalReclaimed == old(totalReclaimed)
    {
      hide UnmarkedHeap;
      hide SweptHeap;
      hide ValidHeap;
      hide Tracing;
      hide Collected;
      hide NoMarks;
      hide SomeReferenceIsStale;
      hide NothingDangles;
      hide NothingIsLeftOver;
      hide Survives;
      hide Retained;
      ghost var before := State();
      ClearMarks();
      var roots := RootList(values, permanent);
      var traced := Trace(roots, before);
      if traced.Err? {
        ClearMarks();
        return Err(traced.error);
      }
      SweepCollects(before, Elements(roots), State());
      ghost var traced' := State();
      var counts := Sweep();
      MarksDoNotCount(before, traced', State(), counts);
      CollectionRetains(before, values, permanent, State());
      hide Counts;
      totalReclaimed := Added(totalReclaimed, counts);
      collections := if collections < MAX_COLLECTIONS then collections + 1 else collections;
      return Ok(counts);
    }
  }

  lemma AlreadyMarked(h: HeapState, n: TraceNode)
    requires Done(h, n)
    ensures MarkNode(h, n) == h
  {
  }

  function RootNodes(values: seq<RawValue>, permanent: seq<Handle>): set<TraceNode> {
    (set v | v in values :: ValueNode(v)) + (set id | id in permanent :: EnvironmentNode(id))
  }

  method RootList(values: seq<RawValue>, permanent: seq<Handle>) returns (roots: seq<TraceNode>)
    ensures Elements(roots) == RootNodes(values, permanent)
  {
    roots := seq(|values|, i requires 0 <= i < |values| => ValueNode(values[i]))
           + seq(|permanent|, i requires 0 <= i < |permanent| => EnvironmentNode(permanent[i]));
    forall n
      ensures n in roots <==> n in RootNodes(values, permanent)
    {
      if n in RootNodes(values, permanent) {
        if n.ValueNode? && n.value in values {
          var i :| 0 <= i < |values| && values[i] == n.value;
          assert roots[i] == n;
        } else {
          var i :| 0 <= i < |permanent| && permanent[i] == n.id;
          assert roots[|values| + i] == n;
        }
      }
    }
  }
}
