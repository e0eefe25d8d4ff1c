/** The records that the script heap's five arenas hold, and the references each record carries. */
module HeapRecords {
  import opened Outcomes
  import opened Arena

  datatype StringRecord = StringRecord(contents: string)

  datatype SymbolRecord = SymbolRecord(description: Option<string>)

  /** A number as far as the object model tells numbers apart: a uint32, or something that is none. */
  datatype NumberValue = Whole(n: nat) | NegativeZero | NotANumber | OtherNumber(bits: nat)

  datatype RawValue =
    | Undefined
    | Null
    | Boolean(b: bool)
    | Number(number: NumberValue)
    | StringValue(id: Handle)
    | SymbolValue(id: Handle)
    | ObjectValue(id: Handle)
    | FunctionValue(id: Handle)

  datatype PropertyKey = StringKey(name: string) | SymbolKey(symbol: Handle)

  datatype PropertyKind =
    | Data(value: RawValue, writable: bool)
    | Accessor(getter: Option<RawValue>, setter: Option<RawValue>)

  datatype PropertyDescriptor = PropertyDescriptor(kind: PropertyKind, enumerable: bool, configurable: bool)

  datatype OrderedProperties = OrderedProperties(
    entries: map<PropertyKey, PropertyDescriptor>, insertionOrder: seq<PropertyKey>)

  datatype ObjectData = ObjectData(prototype: Option<RawValue>, extensible: bool, properties: OrderedProperties)

  datatype ObjectKind =
    | Ordinary
    | ArrayObject(length: nat, lengthWritable: bool, elements: map<nat, PropertyDescriptor>)

  datatype ObjectRecord = ObjectRecord(data: ObjectData, kind: ObjectKind)

  datatype Callable = Script(closure: Handle) | Host

  datatype FunctionRecord = FunctionRecord(callable: Callable, data: ObjectData, constructible: bool)

  datatype BindingState = Uninitialized | Initialized(value: RawValue)

  datatype BindingKind = LexicalKind | VariableKind | HostKind

  datatype Binding = Binding(kind: BindingKind, mutable: bool, state: BindingState)

  datatype EnvironmentRecord = EnvironmentRecord(outer: Option<Handle>, bindings: map<string, Binding>)

  datatype HeapState = HeapState(
    strings: ArenaState<StringRecord>,
    symbols: ArenaState<SymbolRecord>,
    objects: ArenaState<ObjectRecord>,
    functions: ArenaState<FunctionRecord>,
    environments: ArenaState<EnvironmentRecord>)

  /** What the tracing worklist holds: a value or an environment. */
  datatype TraceNode = ValueNode(value: RawValue) | EnvironmentNode(id: Handle)

  function Elements(nodes: seq<TraceNode>): set<TraceNode> {
    set n | n in nodes
  }

  function OptionalNodes(value: Option<RawValue>): set<TraceNode> {
    if value.Some? then {ValueNode(value.value)} else {}
  }

  function DescriptorNodes(d: PropertyDescriptor): set<TraceNode> {
    match d.kind
    case Data(value, _) => {ValueNode(value)}
    case Accessor(getter, setter) => OptionalNodes(getter) + OptionalNodes(setter)
  }

  function PropertyNodes<K>(properties: map<K, PropertyDescriptor>): set<TraceNode> {
    set k, n | k in properties && n in DescriptorNodes(properties[k]) :: n
  }

  function SymbolNodes(keys: seq<PropertyKey>): set<TraceNode> {
    set k | k in keys && k.SymbolKey? :: ValueNode(SymbolValue(k.symbol))
  }

  function DataNodes(data: ObjectData): set<TraceNode> {
    OptionalNodes(data.prototype) + SymbolNodes(data.properties.insertionOrder) + PropertyNodes(data.properties.entries)
  }

  function BindingNodes(bindings: map<string, Binding>): set<TraceNode> {
    set k | k in bindings && bindings[k].state.Initialized? :: ValueNode(bindings[k].state.value)
  }

  /** The references of an object: prototype, symbol keys, property values, accessors and array elements. */
  function ObjectNodes(record: ObjectRecord): set<TraceNode> {
    DataNodes(record.data) + if record.kind.ArrayObject? then PropertyNodes(record.kind.elements) else {}
  }

  /** A function's references: those of an object, and a script function's closure. */
  function FunctionNodes(record: FunctionRecord): set<TraceNode> {
    DataNodes(record.data) + if record.callable.Script? then {EnvironmentNode(record.callable.closure)} else {}
  }

  /** An environment's references: its outer environment and its initialized bindings. */
  function EnvironmentNodes(record: EnvironmentRecord): set<TraceNode> {
    BindingNodes(record.bindings) + if record.outer.Some? then {EnvironmentNode(record.outer.value)} else {}
  }

  lemma ElementsAppend(nodes: seq<TraceNode>, n: TraceNode)
    ensures Elements(nodes + [n]) == Elements(nodes) + {n}
  {
  }

  lemma SymbolsAppend(keys: seq<PropertyKey>, key: PropertyKey)
    ensures SymbolNodes(keys + [key])
         == SymbolNodes(keys) + if key.SymbolKey? then {ValueNode(SymbolValue(key.symbol))} else {}
  {
    var longer := keys + [key];
    assert forall k :: k in longer <==> k in keys || k == key;
  }

  // ---- the loops that push a record's references, hash maps in any order ------------------

  method PushDescriptor(d: PropertyDescriptor, worklist: seq<TraceNode>) returns (next: seq<TraceNode>)
    ensures Elements(next) == Elements(worklist) + DescriptorNodes(d)
  {
    match d.kind
    case Data(value, _) => next := worklist + [ValueNode(value)];
    case Accessor(getter, setter) =>
      next := worklist;
      if getter.Some? { next := next + [ValueNode(getter.value)]; }
      if setter.Some? { next := next + [ValueNode(setter.value)]; }
  }

  method PushDescriptors<K(==)>(properties: map<K, PropertyDescriptor>, worklist: seq<TraceNode>)
    returns (next: seq<TraceNode>)
    ensures Elements(next) == Elements(worklist) + PropertyNodes(properties)
  {
    var keys := properties.Keys;
    ghost var done: set<K> := {};
    next := worklist;
    while keys != {}
      invariant keys + done == properties.Keys
      invariant Elements(next)
           == Elements(worklist) + (set k, n | k in done && n in DescriptorNodes(properties[k]) :: n)
      decreases keys
    {
      var k :| k in keys;
      next := PushDescriptor(properties[k], next);
      keys := keys - {k};
      done := done + {k};
    }
  }

  method PushSymbols(keys: seq<PropertyKey>, worklist: seq<TraceNode>) returns (next: seq<TraceNode>)
    ensures Elements(next) == Elements(worklist) + SymbolNodes(keys)
  {
    next := worklist;
    for i := 0 to |keys|
      invariant Elements(next) == Elements(worklist) + SymbolNodes(keys[..i])
    {
      assert keys[..i + 1] == keys[..i] + [keys[i]];
      SymbolsAppend(keys[..i], keys[i]);
      if keys[i].SymbolKey? {
        ElementsAppend(next, ValueNode(SymbolValue(keys[i].symbol)));
        next := next + [ValueNode(SymbolValue(keys[i].symbol))];
      }
    }
    assert keys[..|keys|] == keys;
  }

  method PushData(data: ObjectData, worklist: seq<TraceNode>) returns (next: seq<TraceNode>)
    ensures Elements(next) == Elements(worklist) + DataNodes(data)
  {
    next := worklist;
    if data.prototype.Some? { next := next + [ValueNode(data.prototype.value)]; }
    assert Elements(next) == Elements(worklist) + OptionalNodes(data.prototype);
    next := PushSymbols(data.properties.insertionOrder, next);
    next := PushDescriptors(data.properties.entries, next);
  }

  method PushObject(record: ObjectRecord, worklist: seq<TraceNode>) returns (next: seq<TraceNode>)
    ensures Elements(next) == Elements(worklist) + ObjectNodes(record)
  {
    next := PushData(record.data, worklist);
    if record.kind.ArrayObject? {
      next := PushDescriptors(record.kind.elements, next);
    }
  }

  method PushFunction(record: FunctionRecord, worklist: seq<TraceNode>) returns (next: seq<TraceNode>)
    ensures Elements(next) == Elements(worklist) + FunctionNodes(record)
  {
    next := PushData(record.data, worklist);
    if record.callable.Script? {
      ElementsAppend(next, EnvironmentNode(record.callable.closure));
      next := next + [EnvironmentNode(record.callable.closure)];
    }
  }

  method PushEnvironment(record: EnvironmentRecord, worklist: seq<TraceNode>) returns (next: seq<TraceNode>)
    ensures Elements(next) == Elements(worklist) + EnvironmentNodes(record)
  {
    next := worklist;
    if record.outer.Some? {
      ElementsAppend(next, EnvironmentNode(record.outer.value));
      next := next + [EnvironmentNode(record.outer.value)];
    }
    ghost var base := Elements(next);
    var keys := record.bindings.Keys;
    ghost var done: set<string> := {};
    while keys != {}
      invariant keys + done == record.bindings.Keys
      invariant Elements(next) == base + (set k | k in done
          && record.bindings[k].state.Initialized? :: ValueNode(record.bindings[k].state.value))
      decreases keys
    {
      var k :| k in keys;
      if record.bindings[k].state.Initialized? {
        ElementsAppend(next, ValueNode(record.bindings[k].state.value));
        next := next + [ValueNode(record.bindings[k].state.value)];
      }
      keys := keys - {k};
      done := done + {k};
    }
  }
}
