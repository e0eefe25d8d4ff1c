/**
 What refers to what on a script heap, read off the fields of the records: which values a record holds, which
 handles of a record resolve, and what is held, directly or through others, by the roots.
 */
module HeapReferences {
  import opened Outcomes
  import opened Arena
  import opened HeapRecords

  // ---- resolving ------------------------------------------------------------------------------

  /** The handle of a value, if it has one, is that of a live record of its kind. */
  predicate ValueResolves(h: HeapState, v: RawValue) {
    && (v.StringValue? ==> Resolves(h.strings, v.id))
    && (v.SymbolValue? ==> Resolves(h.symbols, v.id))
    && (v.ObjectValue? ==> Resolves(h.objects, v.id))
    && (v.FunctionValue? ==> Resolves(h.functions, v.id))
  }

  predicate DescriptorResolves(h: HeapState, d: PropertyDescriptor) {
    && (d.kind.Data? ==> ValueResolves(h, d.kind.value))
    && (d.kind.Accessor? && d.kind.getter.Some? ==> ValueResolves(h, d.kind.getter.value))
    && (d.kind.Accessor? && d.kind.setter.Some? ==> ValueResolves(h, d.kind.setter.value))
  }

  /** Prototype, symbol keys, property values, getters and setters. */
  predicate DataResolves(h: HeapState, data: ObjectData) {
    && (data.prototype.Some? ==> ValueResolves(h, data.prototype.value))
    && (forall k :: k in data.properties.insertionOrder && k.SymbolKey? ==> Resolves(h.symbols, k.symbol))
    && (forall k :: k in data.properties.entries ==> DescriptorResolves(h, data.properties.entries[k]))
  }

  predicate ObjectResolves(h: HeapState, record: ObjectRecord) {
    && DataResolves(h, record.data)
    && (record.kind.ArrayObject? ==>
          forall i :: i in record.kind.elements ==> DescriptorResolves(h, record.kind.elements[i]))
  }

  predicate FunctionResolves(h: HeapState, record: FunctionRecord) {
    && DataResolves(h, record.data)
    && (record.callable.Script? ==> Resolves(h.environments, record.callable.closure))
  }

  predicate EnvironmentResolves(h: HeapState, record: EnvironmentRecord) {
    && (record.outer.Some? ==> Resolves(h.environments, record.outer.value))
    && (forall name :: name in record.bindings && record.bindings[name].state.Initialized? ==>
          ValueResolves(h, record.bindings[name].state.value))
  }

  /** No live record holds a handle of a record that is gone. */
  ghost predicate NothingDangles(h: HeapState) {
    && (forall id: Handle :: Lookup(h.objects, id).Some? ==> ObjectResolves(h, Lookup(h.objects, id).value))
    && (forall id: Handle :: Lookup(h.functions, id).Some? ==> FunctionResolves(h, Lookup(h.functions, id).value))
    && (forall id: Handle ::
          Lookup(h.environments, id).Some? ==> EnvironmentResolves(h, Lookup(h.environments, id).value))
  }

  // ---- holding -----------------------------------------------------------------------------------

  predicate DescriptorHolds(d: PropertyDescriptor, v: RawValue) {
    if d.kind.Data? then d.kind.value == v else d.kind.getter == Some(v) || d.kind.setter == Some(v)
  }

  ghost predicate DataHolds(data: ObjectData, v: RawValue) {
    || data.prototype == Some(v)
    || (v.SymbolValue? && SymbolKey(v.id) in data.properties.insertionOrder)
    || (exists k :: k in data.properties.entries && DescriptorHolds(data.properties.entries[k], v))
  }

  /** The live record behind `owner` has `held` in one of its fields. */
  ghost predicate Holds(h: HeapState, owner: TraceNode, held: TraceNode) {
    match owner
    case ValueNode(ObjectValue(id)) =>
      var record := Lookup(h.objects, id);
      && record.Some? && held.ValueNode?
      && (|| DataHolds(record.value.data, held.value)
          || (record.value.kind.ArrayObject? && exists i ::
                i in record.value.kind.elements && DescriptorHolds(record.value.kind.elements[i], held.value)))
    case ValueNode(FunctionValue(id)) =>
      var record := Lookup(h.functions, id);
      && record.Some?
      && if held.ValueNode? then DataHolds(record.value.data, held.value)
         else record.value.callable == Script(held.id)
    case EnvironmentNode(id) =>
      var record := Lookup(h.environments, id);
      && record.Some?
      && if held.EnvironmentNode? then record.value.outer == Some(held.id)
         else exists name ::
                name in record.value.bindings && record.value.bindings[name].state == Initialized(held.value)
    case ValueNode(_) => false
  }

  predicate IsRoot(values: seq<RawValue>, permanent: seq<Handle>, n: TraceNode) {
    if n.ValueNode? then n.value in values else n.id in permanent
  }

  /** A chain of records from a root, each holding the next. */
  ghost predicate Chain(h: HeapState, values: seq<RawValue>, permanent: seq<Handle>, chain: seq<TraceNode>) {
    && |chain| > 0
    && IsRoot(values, permanent, chain[0])
    && forall i :: 0 <= i < |chain| - 1 ==> Holds(h, chain[i], chain[i + 1])
  }

  ghost predicate EndsAt(h: HeapState, values: seq<RawValue>, permanent: seq<Handle>, chain: seq<TraceNode>,
                         n: TraceNode)
  {
    Chain(h, values, permanent, chain) && chain[|chain| - 1] == n
  }

  /** The roots hold the node, directly or through other records. */
  ghost predicate Retained(h: HeapState, values: seq<RawValue>, permanent: seq<Handle>, n: TraceNode) {
    exists chain: seq<TraceNode> :: EndsAt(h, values, permanent, chain, n)
  }

  /** The handle of a node is that of a live record; nodes without a handle name no record. */
  predicate Survives(h: HeapState, n: TraceNode) {
    match n
    case EnvironmentNode(id) => Lookup(h.environments, id).Some?
    case ValueNode(StringValue(id)) => Lookup(h.strings, id).Some?
    case ValueNode(SymbolValue(id)) => Lookup(h.symbols, id).Some?
    case ValueNode(ObjectValue(id)) => Lookup(h.objects, id).Some?
    case ValueNode(FunctionValue(id)) => Lookup(h.functions, id).Some?
    case ValueNode(_) => false
  }

  /** Whatever is alive after a collection is a root or is held by something alive. */
  ghost predicate NothingIsLeftOver(h: HeapState, values: seq<RawValue>, permanent: seq<Handle>) {
    forall n :: Survives(h, n) ==>
      IsRoot(values, permanent, n) || exists owner :: Survives(h, owner) && Holds(h, owner, n)
  }
}
