/** Objects of a realm under any sequence of definitions, assignments, deletions and prototype changes. */
module Realm {
  import opened Outcomes
  import opened HeapRecords
  import opened ObjectModel
  import opened Prototypes

  /** Every object is well formed and every prototype chain ends. */
  ghost predicate ValidRealm(h: Objects) {
    Acyclic(h) && forall x :: x in h ==> WellFormed(h[x])
  }

  lemma RealmIsAcyclic(h: Objects)
    requires ValidRealm(h)
    ensures Acyclic(h)
  {
  }

  // ---- assignment ---------------------------------------------------------------------------

  datatype Assigned =
    | Stored(objects: Objects, accepted: bool)
    | CallsSetter(setter: RawValue)
    | LookupFailed(error: ChainError)
    | DefineFailed(reason: DefineError)

  function AssignedValue(value: RawValue): DescriptorUpdate {
    DescriptorUpdate(DataUpdate(Some(value), None), None, None)
  }

  function NewProperty(value: RawValue): DescriptorUpdate {
    DescriptorUpdate(DataUpdate(Some(value), Some(true)), Some(true), Some(true))
  }

  predicate ReadOnly(d: PropertyDescriptor) {
    d.kind.Data? && !d.kind.writable
  }

  /** What assignment does once lookup along the chain is done. */
  function AssignFound(c: Context, h: Objects, target: RawValue, key: PropertyKey, value: RawValue,
                       inherited: Option<PropertyDescriptor>): Assigned
    requires target in h
  {
    if inherited.Some? && inherited.value.kind.Accessor? then
      if inherited.value.kind.setter.None? then Stored(h, false) else CallsSetter(inherited.value.kind.setter.value)
    else if inherited.Some? && ReadOnly(inherited.value) then Stored(h, false)
    else
      var own := Own(h[target], key);
      if own.Some? && (own.value.kind.Accessor? || ReadOnly(own.value)) then Stored(h, false)
      else
        match DefineOwn(c, h[target], key, if own.Some? then AssignedValue(value) else NewProperty(value))
        case Err(e) => DefineFailed(e)
        case Ok(done) => Stored(h[target := done.record], done.accepted)
  }

  function Assign(c: Context, h: Objects, target: RawValue, key: PropertyKey, value: RawValue): Assigned {
    match Find(h, target, key, MAX_PROTOTYPE_CHAIN)
    case Err(e) => LookupFailed(e)
    case Ok(inherited) =>
      if target in h then AssignFound(c, h, target, key, value, inherited) else LookupFailed(StaleHandle)
  }

  // ---- operations -----------------------------------------------------------------------------

  datatype Operation =
    | Define(target: RawValue, key: PropertyKey, update: DescriptorUpdate)
    | DeleteKey(target: RawValue, key: PropertyKey)
    | AssignKey(target: RawValue, key: PropertyKey, value: RawValue)
    | PreventExtensions(target: RawValue)
    | ChangePrototype(target: RawValue, prototype: Option<RawValue>)
    | Allocate(target: RawValue, record: ObjectRecord)

  /** What may be allocated: a well-formed record under a reference the realm does not know, below one it does. */
  ghost predicate Allocatable(h: Objects, target: RawValue, record: ObjectRecord) {
    target !in h && WellFormed(record) && (record.data.prototype.Some? ==> record.data.prototype.value in h)
  }

  function Inextensible(o: ObjectRecord): ObjectRecord {
    o.(data := o.data.(extensible := false))
  }

  /**
   The objects after an operation. One that fails, refuses or only calls a setter changes nothing itself; what the
   setter does is further operations.
   */
  ghost function Step(c: Context, h: Objects, op: Operation): Objects {
    match op
    case Define(target, key, update) =>
      if target !in h then h
      else (match DefineOwn(c, h[target], key, update) case Err(_) => h case Ok(done) => h[target := done.record])
    case DeleteKey(target, key) => if target !in h then h else h[target := Delete(h[target], key).record]
    case AssignKey(target, key, value) =>
      (match Assign(c, h, target, key, value) case Stored(after, _) => after case _ => h)
    case PreventExtensions(target) => if target !in h then h else h[target := Inextensible(h[target])]
    case ChangePrototype(target, prototype) =>
      (match SetPrototype(h, target, prototype) case Err(_) => h case Ok(done) => done.objects)
    case Allocate(target, record) => if Allocatable(h, target, record) then h[target := record] else h
  }

  ghost function Run(c: Context, h: Objects, ops: seq<Operation>): Objects
    decreases |ops|
  {
    if ops == [] then h else Run(c, Step(c, h, ops[0]), ops[1..])
  }

  // ---- every step keeps the realm valid ----------------------------------------------------------

  /** Every object is still there, and nothing about it that may not change has changed. */
  ghost predicate RealmRespects(c: Context, before: Objects, after: Objects) {
    forall x :: x in before ==> x in after && Respects(c, before[x], after[x])
  }

  /** A record that keeps its promises keeps those of the whole realm; a record for a new object has none to keep. */
  lemma OneRecordChanges(c: Context, h: Objects, target: RawValue, o: ObjectRecord)
    requires WellFormed(o) && (forall x :: x in h ==> WellFormed(h[x]))
    requires target in h ==> Respects(c, h[target], o)
    ensures var after := h[target := o];
            RealmRespects(c, h, after) && forall x :: x in after ==> WellFormed(after[x])
  {
    hide WellFormed;
    hide Respects;
    var after := h[target := o];
    forall x | x in h
      ensures Respects(c, h[x], after[x])
    {
      RespectsItself(c, h[x]);
    }
    assert RealmRespects(c, h, after);
    assert forall x :: x in after ==> WellFormed(after[x]);
  }

  /** What holds of an update to one object's record that keeps its prototype. */
  lemma UpdateKeepsRealm(c: Context, h: Objects, target: RawValue, o: ObjectRecord)
    requires ValidRealm(h) && target in h && o.data.prototype == h[target].data.prototype
    requires WellFormed(o) && Respects(c, h[target], o)
    ensures ValidRealm(h[target := o]) && RealmRespects(c, h, h[target := o])
  {
    hide WellFormed;
    hide Respects;
    OneRecordChanges(c, h, target, o);
    hide RealmRespects;
    var rank :| Ranked(h, rank);
    var after := h[target := o];
    assert forall x :: Proto(after, x) == Proto(h, x);
    assert Ranked(after, rank);
    assert ValidRealm(after);
  }

  lemma DefineKeepsRealm(c: Context, h: Objects, target: RawValue, key: PropertyKey, update: DescriptorUpdate)
    requires ValidRealm(h) && target in h && DefineOwn(c, h[target], key, update).Ok?
    ensures var o := DefineOwn(c, h[target], key, update).value.record;
            ValidRealm(h[target := o]) && RealmRespects(c, h, h[target := o])
  {
    var o := DefineOwn(c, h[target], key, update).value.record;
    DefineKeepsShape(c, h[target], key, update);
    DefineRespects(c, h[target], key, update);
    DefineKeepsPrototype(c, h[target], key, update);
    hide DefineOwn;
    UpdateKeepsRealm(c, h, target, o);
  }

  lemma DefineKeepsPrototype(c: Context, o: ObjectRecord, key: PropertyKey, update: DescriptorUpdate)
    requires DefineOwn(c, o, key, update).Ok?
    ensures DefineOwn(c, o, key, update).value.record.data.prototype == o.data.prototype
  {
  }

  lemma InextensibleRespects(c: Context, o: ObjectRecord)
    ensures Respects(c, o, Inextensible(o)) && (WellFormed(o) ==> WellFormed(Inextensible(o)))
  {
    assert forall key: PropertyKey :: Own(Inextensible(o), key) == Own(o, key);
  }

  lemma NoChange(c: Context, h: Objects)
    ensures RealmRespects(c, h, h)
  {
    hide Respects;
    forall x | x in h
      ensures Respects(c, h[x], h[x])
    {
      RespectsItself(c, h[x]);
    }
  }

  lemma AllocationKeepsRealm(c: Context, h: Objects, target: RawValue, record: ObjectRecord)
    requires ValidRealm(h) && Allocatable(h, target, record)
    ensures ValidRealm(h[target := record]) && RealmRespects(c, h, h[target := record])
  {
    hide WellFormed;
    hide Respects;
    OneRecordChanges(c, h, target, record);
    hide RealmRespects;
    var rank :| Ranked(h, rank);
    var after, parent := h[target := record], record.data.prototype;
    var ranks := rank[target := if parent.Some? then rank[parent.value] + 1 else 0];
    assert Ranked(after, ranks);
    assert ValidRealm(after);
  }

  // ---- what the engine allocates is well formed ------------------------------------------------

  function NewData(prototype: Option<RawValue>, properties: OrderedProperties): ObjectData {
    ObjectData(prototype, true, properties)
  }

  /** An object with given properties; an array with given elements below its length. */
  lemma AllocatedRecordsAreWellFormed(prototype: Option<RawValue>, properties: OrderedProperties, length: nat,
                                      elements: map<nat, PropertyDescriptor>)
    ensures Ordered(properties) && |properties.entries| <= MAX_OWN_PROPERTY_KEYS ==>
              WellFormed(ObjectRecord(NewData(prototype, properties), Ordinary))
    ensures
      length <= U32_MAX && |elements| + 1 <= MAX_OWN_PROPERTY_KEYS && (forall i :: i in elements ==> i < length) ==>
        var data := NewData(prototype, OrderedProperties(map[], []));
        WellFormed(ObjectRecord(data, ArrayObject(length, true, elements)))
  {
  }

  lemma NewPrototypeRespects(c: Context, o: ObjectRecord, prototype: Option<RawValue>)
    requires o.data.extensible && WellFormed(o)
    ensures var after := o.(data := o.data.(prototype := prototype)); Respects(c, o, after) && WellFormed(after)
  {
    var after := o.(data := o.data.(prototype := prototype));
    assert forall key: PropertyKey :: Own(after, key) == Own(o, key);
  }

  lemma ReparentingRespects(c: Context, h: Objects, target: RawValue, prototype: Option<RawValue>)
    requires ValidRealm(h) && SetPrototype(h, target, prototype).Ok?
    ensures var after := SetPrototype(h, target, prototype).value.objects;
            ValidRealm(after) && RealmRespects(c, h, after)
  {
    hide WellFormed;
    hide Respects;
    hide Acyclic;
    SetPrototypeKeepsAcyclic(h, target, prototype);
    NoChange(c, h);
    if h[target].data.extensible {
      NewPrototypeRespects(c, h[target], prototype);
      OneRecordChanges(c, h, target, h[target].(data := h[target].data.(prototype := prototype)));
    }
    hide RealmRespects;
    assert ValidRealm(SetPrototype(h, target, prototype).value.objects);
  }

  lemma StepKeepsRealm(c: Context, h: Objects, op: Operation)
    requires ValidRealm(h)
    ensures ValidRealm(Step(c, h, op)) && RealmRespects(c, h, Step(c, h, op))
  {
    NoChange(c, h);
    hide ValidRealm;
    hide RealmRespects;
    hide DefineOwn;
    hide Find;
    match op {
      case Define(target, key, update) =>
        if target in h && DefineOwn(c, h[target], key, update).Ok? {
          DefineKeepsRealm(c, h, target, key, update);
        }
      case DeleteKey(target, key) =>
        if target in h {
          DeletionKeepsRealm(c, h, target, key);
        }
      case AssignKey(target, key, value) =>
        AssignmentKeepsRealm(c, h, target, key, value);
      case PreventExtensions(target) =>
        if target in h {
          PreventingKeepsRealm(c, h, target);
        }
      case ChangePrototype(target, prototype) =>
        if SetPrototype(h, target, prototype).Ok? {
          ReparentingRespects(c, h, target, prototype);
        }
      case Allocate(target, record) =>
        if Allocatable(h, target, record) {
          AllocationKeepsRealm(c, h, target, record);
        }
    }
  }

  lemma DeletionKeepsRealm(c: Context, h: Objects, target: RawValue, key: PropertyKey)
    requires ValidRealm(h) && target in h
    ensures var after := h[target := Delete(h[target], key).record]; ValidRealm(after) && RealmRespects(c, h, after)
  {
    DeleteKeepsShape(h[target], key);
    DeleteRespects(c, h[target], key);
    UpdateKeepsRealm(c, h, target, Delete(h[target], key).record);
  }

  lemma PreventingKeepsRealm(c: Context, h: Objects, target: RawValue)
    requires ValidRealm(h) && target in h
    ensures var after := h[target := Inextensible(h[target])]; ValidRealm(after) && RealmRespects(c, h, after)
  {
    InextensibleRespects(c, h[target]);
    UpdateKeepsRealm(c, h, target, Inextensible(h[target]));
  }

  lemma AssignmentKeepsRealm(c: Context, h: Objects, target: RawValue, key: PropertyKey, value: RawValue)
    requires ValidRealm(h)
    ensures var r := Assign(c, h, target, key, value);
            r.Stored? ==> ValidRealm(r.objects) && RealmRespects(c, h, r.objects)
  {
    hide Find;
    hide ValidRealm;
    hide RealmRespects;
    hide AssignFound;
    if target in h && Find(h, target, key, MAX_PROTOTYPE_CHAIN).Ok? {
      FoundAssignmentKeepsRealm(c, h, target, key, value, Find(h, target, key, MAX_PROTOTYPE_CHAIN).value);
    }
  }

  lemma FoundAssignmentKeepsRealm(c: Context, h: Objects, target: RawValue, key: PropertyKey, value: RawValue,
                                  inherited: Option<PropertyDescriptor>)
    requires ValidRealm(h) && target in h
    ensures var r := AssignFound(c, h, target, key, value, inherited);
            r.Stored? ==> ValidRealm(r.objects) && RealmRespects(c, h, r.objects)
  {
    hide ValidRealm;
    hide RealmRespects;
    hide DefineOwn;
    hide Own;
    NoChange(c, h);
    var update := if Own(h[target], key).Some? then AssignedValue(value) else NewProperty(value);
    if DefineOwn(c, h[target], key, update).Ok? {
      DefineKeepsRealm(c, h, target, key, update);
    }
  }

  // ---- over whole runs -----------------------------------------------------------------------------------

  lemma RealmRespectsTransitively(c: Context, a: Objects, b: Objects, d: Objects)
    requires RealmRespects(c, a, b) && RealmRespects(c, b, d)
    ensures RealmRespects(c, a, d)
  {
    forall x | x in a
      ensures x in d && Respects(c, a[x], d[x])
    {
      RespectsTransitively(c, a[x], b[x], d[x]);
    }
  }

  /**
   Whatever operations follow each other: every object stays well formed, no prototype cycle appears, and the promises
   about non-configurable properties, read-only values and non-extensible objects hold from then on.
   */
  lemma {:induction false} RunsKeepPromises(c: Context, h: Objects, ops: seq<Operation>)
    requires ValidRealm(h)
    ensures ValidRealm(Run(c, h, ops)) && RealmRespects(c, h, Run(c, h, ops))
    decreases |ops|
  {
    if ops == [] {
      NoChange(c, h);
    } else {
      StepKeepsRealm(c, h, ops[0]);
      var next := Step(c, h, ops[0]);
      hide Step;
      RunsKeepPromises(c, next, ops[1..]);
      RealmRespectsTransitively(c, h, next, Run(c, next, ops[1..]));
    }
  }

  /** A frozen object: not extensible, every property non-configurable, every data property read-only. */
  ghost predicate Frozen(o: ObjectRecord) {
    && !o.data.extensible
    && (forall key: PropertyKey :: Own(o, key).Some? ==>
          !Own(o, key).value.configurable && (Own(o, key).value.kind.Data? ==> ReadOnly(Own(o, key).value)))
  }

  /** The same descriptor up to strings of equal contents. */
  predicate SameDescriptor(c: Context, a: PropertyDescriptor, b: PropertyDescriptor) {
    && a.enumerable == b.enumerable && a.configurable == b.configurable
    && match (a.kind, b.kind) {
         case (Data(v, w), Data(v', w')) => SameValue(c, v, v') && w == w'
         case (Accessor(g, s), Accessor(g', s')) => SameOptional(c, g, g') && SameOptional(c, s, s')
         case _ => false
       }
  }

  /** A frozen object has the same keys, the same descriptors and the same prototype after any run. */
  lemma FrozenObjectsStayTheSame(c: Context, h: Objects, ops: seq<Operation>, x: RawValue, key: PropertyKey)
    requires ValidRealm(h) && x in h && Frozen(h[x])
    ensures var after := Run(c, h, ops);
            && x in after && Proto(after, x) == Proto(h, x) && !after[x].data.extensible
            && Own(after[x], key).Some? == Own(h[x], key).Some?
            && (Own(h[x], key).Some? ==> SameDescriptor(c, Own(h[x], key).value, Own(after[x], key).value))
  {
    RunsKeepPromises(c, h, ops);
    var after := Run(c, h, ops);
    assert Respects(c, h[x], after[x]);
    assert KeyStays(c, h[x], after[x], key);
  }

  /** An array whose length is read-only keeps it through any run, and never holds an element past it. */
  lemma FixedLengthsStay(c: Context, h: Objects, ops: seq<Operation>, x: RawValue)
    requires ValidRealm(h) && x in h && IsArray(h[x])
    ensures var after := Run(c, h, ops);
            && x in after && IsArray(after[x])
            && (!h[x].kind.lengthWritable ==> after[x].kind.length == h[x].kind.length && !after[x].kind.lengthWritable)
            && (forall i :: i in after[x].kind.elements ==> i < after[x].kind.length <= U32_MAX)
  {
    RunsKeepPromises(c, h, ops);
    var after := Run(c, h, ops);
    assert Respects(c, h[x], after[x]) && WellFormed(after[x]);
    hide Run;
    if !h[x].kind.lengthWritable {
      FixedLengthStays(c, h[x], after[x]);
    }
  }

  // ---- assignment reads back ---------------------------------------------------------------------------------

  /** An accepted definition of anything but an array's length is the object's own property afterwards. */
  lemma DefinedIsOwn(c: Context, o: ObjectRecord, key: PropertyKey, update: DescriptorUpdate)
    requires DefineOwn(c, o, key, update).Ok?
    requires DefineOwn(c, o, key, update).value.accepted && !(IsArray(o) && key == LENGTH)
    ensures var next := ValidateUpdate(c, Own(o, key), o.data.extensible, update);
            next.Some? && Own(DefineOwn(c, o, key, update).value.record, key) == next
  {
  }

  /** An accepted assignment is what a lookup then finds, on the object itself; no other object changes. */
  lemma AssignedIsFound(c: Context, h: Objects, target: RawValue, key: PropertyKey, value: RawValue)
    requires Assign(c, h, target, key, value).Stored? && Assign(c, h, target, key, value).accepted
    requires target in h && !(IsArray(h[target]) && key == LENGTH)
    ensures var after := Assign(c, h, target, key, value).objects;
            && target in after
            && Find(after, target, key, MAX_PROTOTYPE_CHAIN) == Ok(Some(
                 if Own(h[target], key).Some? then Own(h[target], key).value.(kind := Data(value, true))
                 else PropertyDescriptor(Data(value, true), true, true)))
            && after.Keys == h.Keys
            && forall x :: x in h && x != target ==> after[x] == h[x]
  {
    var own := Own(h[target], key);
    var update := if own.Some? then AssignedValue(value) else NewProperty(value);
    DefinedIsOwn(c, h[target], key, update);
  }

  // ---- the objects in place -------------------------------------------------------------------------------------

  /** The realm's objects, changed in place. */
  class ObjectHeap {
    const context: Context
    var objects: Objects

    constructor (context: Context)
      ensures objects == map[] && this.context == context && ValidRealm(objects)
    {
      this.context := context;
      objects := map[];
      new;
      var rank: map<RawValue, nat> := map[];
      assert Ranked(objects, rank);
    }

    method DefineArrayLength(target: RawValue, update: DescriptorUpdate) returns (r: Result<bool, DefineError>)
      requires ValidRealm(objects) && target in objects && IsArray(objects[target])
      modifies this
      ensures r.Err? ==> DefineLength(context, old(objects[target]), update) == Err(r.error) && objects == old(objects)
      ensures r.Ok? ==> var done := DefineLength(context, old(objects[target]), update);
                        && done.Ok? && r.value == done.value.accepted
                        && objects == old(objects)[target := done.value.record]
    {
      hide ValidateUpdate;
      hide Truncated;
      var o := objects[target];
      var hasValue := update.kind.DataUpdate? && update.kind.value.Some?;
      var exact := update;
      if hasValue {
        var requested := context.lengthOf(update.kind.value.value);
        if requested.None? || requested.value > U32_MAX {
          return Err(InvalidArrayLength);
        }
        exact := update.(kind := update.kind.(value := Some(Number(Whole(requested.value)))));
      }
      var next := ValidateUpdate(context, Some(LengthDescriptor(o.kind.length, o.kind.lengthWritable)), true, exact);
      assert objects[target := o] == objects;
      if next.None? || !next.value.kind.Data? || !IsWhole(next.value.kind.value) {
        assert DefineLength(context, o, update) == Ok(Defined(o, false));
        return Ok(false);
      }
      var length, writable := next.value.kind.value.number.n, next.value.kind.writable;
      if length >= o.kind.length {
        objects := objects[target := o.(kind := o.kind.(length := length, lengthWritable := writable))];
        return Ok(true);
      }
      var elements, end := TruncateElements(o.kind.elements, length, o.kind.length);
      objects := objects[target := o.(kind := ArrayObject(end, writable, elements))];
      r := Ok(end == length);
    }

    method DefineOwnProperty(target: RawValue, key: PropertyKey, update: DescriptorUpdate)
      returns (r: Result<bool, DefineError>)
      requires ValidRealm(objects)
      modifies this
      ensures ValidRealm(objects) && RealmRespects(context, old(objects), objects)
      ensures objects == Step(context, old(objects), Define(target, key, update))
      ensures target !in old(objects) ==> r == Err(InvalidHandle)
      ensures target in old(objects) ==>
                match DefineOwn(context, old(objects)[target], key, update)
                case Err(e) => r == Err(e)
                case Ok(done) => r == Ok(done.accepted)
    {
      StepKeepsRealm(context, objects, Define(target, key, update));
      hide ValidRealm;
      hide RealmRespects;
      hide DefineLength;
      hide DefineIndex;
      hide DefineNamed;
      if target !in objects {
        return Err(InvalidHandle);
      }
      var o := objects[target];
      if IsArray(o) && key == LENGTH {
        r := DefineArrayLength(target, update);
      } else {
        match DefineOwn(context, o, key, update) {
          case Err(e) => r := Err(e);
          case Ok(done) =>
            objects := objects[target := done.record];
            r := Ok(done.accepted);
        }
      }
    }

    method DeleteProperty(target: RawValue, key: PropertyKey) returns (r: Result<bool, DefineError>)
      requires ValidRealm(objects)
      modifies this
      ensures ValidRealm(objects) && RealmRespects(context, old(objects), objects)
      ensures objects == Step(context, old(objects), DeleteKey(target, key))
      ensures r == if target in objects then Ok(Own(objects[target], key).None?) else Err(InvalidHandle)
    {
      StepKeepsRealm(context, objects, DeleteKey(target, key));
      if target !in objects {
        return Err(InvalidHandle);
      }
      DeleteRemoves(objects[target], key);
      hide ValidRealm;
      hide RealmRespects;
      hide Own;
      var done := Delete(objects[target], key);
      hide Delete;
      objects := objects[target := done.record];
      r := Ok(done.accepted);
    }

    /** Stores the value, or says which setter the caller has to invoke. */
    method SetProperty(target: RawValue, key: PropertyKey, value: RawValue) returns (r: Assigned)
      requires ValidRealm(objects)
      modifies this
      ensures ValidRealm(objects) && RealmRespects(context, old(objects), objects)
      ensures r == Assign(context, old(objects), target, key, value)
      ensures objects == if r.Stored? then r.objects else old(objects)
    {
      StepKeepsRealm(context, objects, AssignKey(target, key, value));
      var found := FindProperty(objects, target, key);
      hide ValidRealm;
      hide RealmRespects;
      hide AssignFound;
      if found.Err? {
        return LookupFailed(found.error);
      }
      if target !in objects {
        return LookupFailed(StaleHandle);
      }
      r := AssignFound(context, objects, target, key, value, found.value);
      if r.Stored? {
        objects := r.objects;
      }
    }

    method ChangePrototypeOf(target: RawValue, prototype: Option<RawValue>) returns (r: Result<bool, ChainError>)
      requires ValidRealm(objects)
      modifies this
      ensures ValidRealm(objects) && RealmRespects(context, old(objects), objects)
      ensures match SetPrototype(old(objects), target, prototype)
              case Err(e) => r == Err(e) && objects == old(objects)
              case Ok(done) => r == Ok(done.accepted) && objects == done.objects
    {
      hide Walk;
      hide ValidRealm;
      hide RealmRespects;
      NoChange(context, objects);
      if SetPrototype(objects, target, prototype).Ok? {
        ReparentingRespects(context, objects, target, prototype);
      }
      if target !in objects {
        return Err(StaleHandle);
      }
      var data := objects[target].data;
      if data.prototype == prototype {
        return Ok(true);
      }
      if !data.extensible {
        return Ok(false);
      }
      RealmIsAcyclic(objects);
      r := WalkPrototypes(objects, prototype, target);
      if r == Ok(true) {
        objects := Reparented(objects, target, prototype);
      }
    }

    method PreventExtensionsOf(target: RawValue) returns (r: Result<bool, DefineError>)
      requires ValidRealm(objects)
      modifies this
      ensures ValidRealm(objects) && RealmRespects(context, old(objects), objects)
      ensures target !in old(objects) ==> r == Err(InvalidHandle) && objects == old(objects)
      ensures target in old(objects) ==>
        r == Ok(true) && objects == old(objects)[target := Inextensible(old(objects)[target])]
    {
      hide ValidRealm;
      hide RealmRespects;
      if target !in objects {
        NoChange(context, objects);
        return Err(InvalidHandle);
      }
      PreventingKeepsRealm(context, objects, target);
      objects := objects[target := Inextensible(objects[target])];
      r := Ok(true);
    }
  }
}
