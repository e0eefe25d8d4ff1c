/**
 What each operation on an object does, property by property: the descriptor that a partial update leads to, which
 keys it leaves alone and in which order they stand, and where an assignment goes.
 */
module ObjectEffects {
  import opened Outcomes
  import opened HeapRecords
  import opened ObjectModel
  import opened Prototypes
  import opened Realm

  // ---- partial updates ---------------------------------------------------------------------------------------

  /** A field that is given, or else stays, or else takes its default. */
  function Field<T>(given: Option<T>, was: Option<T>, default: T): T {
    match (given, was)
    case (Some(v), _) => v
    case (None, Some(v)) => v
    case (None, None) => default
  }

  function GivenValue(update: DescriptorUpdate): Option<RawValue> {
    if update.kind.DataUpdate? then update.kind.value else None
  }

  function GivenWritable(update: DescriptorUpdate): Option<bool> {
    if update.kind.DataUpdate? then update.kind.writable else None
  }

  function GivenAccessor(update: AccessorUpdate): Option<Option<RawValue>> {
    match update
    case Absent => None
    case Present(value) => Some(value)
  }

  function GivenGetter(update: DescriptorUpdate): Option<Option<RawValue>> {
    if update.kind.AccessorsUpdate? then GivenAccessor(update.kind.getter) else None
  }

  function GivenSetter(update: DescriptorUpdate): Option<Option<RawValue>> {
    if update.kind.AccessorsUpdate? then GivenAccessor(update.kind.setter) else None
  }

  predicate WasData(current: Option<PropertyDescriptor>) {
    current.Some? && current.value.kind.Data?
  }

  predicate WasAccessor(current: Option<PropertyDescriptor>) {
    current.Some? && current.value.kind.Accessor?
  }

  /**
   The fields that the update gives are the descriptor's, fields of the same kind that it leaves out stay, and the
   others have the defaults of table 3 of ECMA-262.
   */
  predicate Merges(current: Option<PropertyDescriptor>, update: DescriptorUpdate, next: PropertyDescriptor) {
    && next.enumerable
       == Field(update.enumerable, if current.Some? then Some(current.value.enumerable) else None, false)
    && next.configurable
       == Field(update.configurable, if current.Some? then Some(current.value.configurable) else None, false)
    && (next.kind.Accessor? <==> update.kind.AccessorsUpdate? || (update.kind.GenericUpdate? && WasAccessor(current)))
    && match next.kind
       case Data(value, writable) =>
         var was := if WasData(current) then Some(current.value.kind) else None;
         && value == Field(GivenValue(update), if was.Some? then Some(was.value.value) else None, Undefined)
         && writable == Field(GivenWritable(update), if was.Some? then Some(was.value.writable) else None, false)
       case Accessor(getter, setter) =>
         var was := if WasAccessor(current) then Some(current.value.kind) else None;
         && getter == Field(GivenGetter(update), if was.Some? then Some(was.value.getter) else None, None)
         && setter == Field(GivenSetter(update), if was.Some? then Some(was.value.setter) else None, None)
  }

  /** An update that is not refused merges with what was there. */
  lemma UpdatesMerge(c: Context, current: Option<PropertyDescriptor>, extensible: bool, update: DescriptorUpdate)
    ensures var next := ValidateUpdate(c, current, extensible, update);
            next.Some? ==> Merges(current, update, next.value)
  {
  }

  // ---- what a definition leaves alone ------------------------------------------------------------------------

  lemma OtherIndex(key: PropertyKey, other: PropertyKey)
    requires key != other && CanonicalIndex(key).Some?
    ensures CanonicalIndex(other) != CanonicalIndex(key)
  {
    if CanonicalIndex(other) == CanonicalIndex(key) {
      CanonicalKeysAreDistinct(key, other);
    }
  }

  /** The length an array has after one of its indices is defined. */
  function LengthAfter(o: ObjectRecord, key: PropertyKey): nat
    requires IsArray(o)
  {
    if CanonicalIndex(key).Some? && CanonicalIndex(key).value >= o.kind.length then CanonicalIndex(key).value + 1
    else o.kind.length
  }

  /**
   Defining a property that is not an array's length leaves the prototype, extensibility and every other property
   as they were, but for the length of an array that gets an index past its end.
   */
  lemma DefineLeavesOthers(c: Context, o: ObjectRecord, key: PropertyKey, update: DescriptorUpdate, other: PropertyKey)
    requires DefineOwn(c, o, key, update).Ok? && other != key && !(IsArray(o) && key == LENGTH)
    ensures var done := DefineOwn(c, o, key, update).value;
            && done.record.data.prototype == o.data.prototype && done.record.data.extensible == o.data.extensible
            && IsArray(done.record) == IsArray(o)
            && (!done.accepted ==> done.record == o)
            && (!(IsArray(o) && other == LENGTH) ==> Own(done.record, other) == Own(o, other))
            && (done.accepted && IsArray(o) ==>
                  done.record.kind.length == LengthAfter(o, key)
                  && done.record.kind.lengthWritable == o.kind.lengthWritable)
  {
    hide ValidateUpdate;
    if CanonicalIndex(key).Some? {
      OtherIndex(key, other);
    }
    hide CanonicalIndex;
  }

  /** A new key comes last; the order of the others never changes. */
  lemma DefineKeepsOrder(c: Context, o: ObjectRecord, key: PropertyKey, update: DescriptorUpdate)
    requires DefineOwn(c, o, key, update).Ok?
    ensures var before, after := o.data.properties, DefineOwn(c, o, key, update).value.record.data.properties;
            || after.insertionOrder == before.insertionOrder
            || (key !in before.entries && key in after.entries
                && after.insertionOrder == before.insertionOrder + [key])
  {
    hide ValidateUpdate;
    hide CanonicalIndex;
  }

  /** When a definition is accepted and when it fails. */
  lemma DefineDecides(c: Context, o: ObjectRecord, key: PropertyKey, update: DescriptorUpdate)
    requires !(IsArray(o) && key == LENGTH)
    ensures var r := DefineOwn(c, o, key, update);
            var past := IsArray(o) && CanonicalIndex(key).Some? && CanonicalIndex(key).value >= o.kind.length;
            var allowed := ValidateUpdate(c, Own(o, key), o.data.extensible, update).Some?
                           && !(past && !o.kind.lengthWritable);
            var full := Own(o, key).None? && OwnCount(o) + 1 > MAX_OWN_PROPERTY_KEYS;
            && (r.Err? <==> allowed && full)
            && (r.Ok? ==> r.value.accepted == allowed)
  {
    hide ValidateUpdate;
    hide CanonicalIndex;
  }

  lemma {:induction false} DroppedAt(keys: seq<PropertyKey>, key: PropertyKey) returns (k: nat)
    requires key in keys
    ensures k < |keys| && keys[k] == key && DropKey(keys, key) == keys[..k] + keys[k + 1..]
  {
    if keys[0] == key {
      k := 0;
    } else {
      var i := DroppedAt(keys[1..], key);
      k := i + 1;
      assert keys[..k] == [keys[0]] + keys[1..][..i] && keys[k + 1..] == keys[1..][i + 1..];
    }
  }

  /** Deleting takes one key out of the order and leaves the rest of the object alone. */
  lemma DeleteLeavesOthers(o: ObjectRecord, key: PropertyKey)
    requires WellFormed(o)
    ensures var after := Delete(o, key).record;
            && after.data.prototype == o.data.prototype && after.data.extensible == o.data.extensible
            && (after.data.properties.insertionOrder == o.data.properties.insertionOrder
                || exists k :: 0 <= k < |o.data.properties.insertionOrder|
                     && o.data.properties.insertionOrder[k] == key
                     && after.data.properties.insertionOrder
                        == o.data.properties.insertionOrder[..k] + o.data.properties.insertionOrder[k + 1..])
            && IsArray(after) == IsArray(o)
            && (IsArray(o) ==> after.kind.length == o.kind.length && after.kind.lengthWritable == o.kind.lengthWritable)
  {
    hide CanonicalIndex;
    if key in o.data.properties.insertionOrder {
      var k := DroppedAt(o.data.properties.insertionOrder, key);
    }
  }

  /** An object that takes no more keys is otherwise what it was. */
  lemma InextensibleKeepsTheRest(o: ObjectRecord, key: PropertyKey)
    ensures var after := Inextensible(o);
            && !after.data.extensible && after.data.prototype == o.data.prototype && after.kind == o.kind
            && after.data.properties == o.data.properties && Own(after, key) == Own(o, key)
  {
  }

  // ---- prototypes --------------------------------------------------------------------------------------------

  /** A refused change leaves every object alone; an accepted one changes one prototype and nothing else. */
  lemma PrototypeChangesAlone(h: Objects, target: RawValue, prototype: Option<RawValue>)
    requires target in h && SetPrototype(h, target, prototype).Ok?
    ensures var done := SetPrototype(h, target, prototype).value;
            && done.objects.Keys == h.Keys
            && (forall x :: x in h && x != target ==> done.objects[x] == h[x])
            && Proto(done.objects, target) == (if done.accepted then prototype else Proto(h, target))
            && done.objects[target].kind == h[target].kind
            && done.objects[target].data.properties == h[target].data.properties
            && done.objects[target].data.extensible == h[target].data.extensible
            && (Proto(h, target) == prototype ==> done.accepted)
            && (Proto(h, target) != prototype && !h[target].data.extensible ==> !done.accepted)
            && (prototype.None? && h[target].data.extensible ==> done.accepted)
  {
  }

  // ---- assignment --------------------------------------------------------------------------------------------

  /** Whether the nearest property, or its absence, lets a value be stored on the object itself. */
  predicate LetsStore(found: Option<PropertyDescriptor>) {
    found.None? || (found.value.kind.Data? && found.value.kind.writable)
  }

  predicate HasSetter(found: Option<PropertyDescriptor>) {
    found.Some? && found.value.kind.Accessor? && found.value.kind.setter.Some?
  }

  /** Whether an object takes a new property under the key. */
  predicate TakesNew(o: ObjectRecord, key: PropertyKey) {
    && o.data.extensible
    && !(IsArray(o) && CanonicalIndex(key).Some? && CanonicalIndex(key).value >= o.kind.length
         && !o.kind.lengthWritable)
  }

  lemma StoringDecides(c: Context, o: ObjectRecord, key: PropertyKey, value: RawValue)
    requires !(IsArray(o) && key == LENGTH) && WellFormed(o)
    requires Own(o, key).Some? ==> LetsStore(Own(o, key))
    ensures var r := DefineOwn(c, o, key, if Own(o, key).Some? then AssignedValue(value) else NewProperty(value));
            && (r.Err? <==> Own(o, key).None? && TakesNew(o, key) && OwnCount(o) + 1 > MAX_OWN_PROPERTY_KEYS)
            && (r.Ok? ==> r.value.accepted == (Own(o, key).Some? || TakesNew(o, key)))
  {
    DefineDecides(c, o, key, if Own(o, key).Some? then AssignedValue(value) else NewProperty(value));
    hide CanonicalIndex;
    hide DefineOwn;
    hide OwnCount;
  }

  lemma StoringFails(c: Context, o: ObjectRecord, key: PropertyKey, value: RawValue)
    requires !(IsArray(o) && key == LENGTH)
    ensures var r := DefineOwn(c, o, key, if Own(o, key).Some? then AssignedValue(value) else NewProperty(value));
            && (r.Err? ==> r.error == PropertyLimit)
            && (r.Ok? && !r.value.accepted ==> r.value.record == o)
  {
    hide ValidateUpdate;
    hide CanonicalIndex;
  }

  /** Where an assignment goes, given the nearest property. */
  predicate Goes(h: Objects, target: RawValue, key: PropertyKey, found: Option<PropertyDescriptor>, r: Assigned)
    requires target in h
  {
    var o := h[target];
    if HasSetter(found) then r == CallsSetter(found.value.kind.setter.value)
    else if !LetsStore(found) then r == Stored(h, false)
    else if Own(o, key).None? && TakesNew(o, key) && OwnCount(o) + 1 > MAX_OWN_PROPERTY_KEYS
    then r == DefineFailed(PropertyLimit)
    else if Own(o, key).Some? || TakesNew(o, key) then r.Stored? && r.accepted
    else r == Stored(h, false)
  }

  lemma FoundGoes(c: Context, h: Objects, target: RawValue, key: PropertyKey, value: RawValue,
                  found: Option<PropertyDescriptor>)
    requires target in h && WellFormed(h[target]) && !(IsArray(h[target]) && key == LENGTH)
    requires Own(h[target], key).Some? ==> found == Own(h[target], key)
    ensures Goes(h, target, key, found, AssignFound(c, h, target, key, value, found))
  {
    hide Own;
    hide DefineOwn;
    hide TakesNew;
    hide OwnCount;
    hide WellFormed;
    var o := h[target];
    if LetsStore(found) {
      StoringDecides(c, o, key, value);
      StoringFails(c, o, key, value);
    }
    assert h[target := o] == h;
    assert Goes(h, target, key, found, AssignFound(c, h, target, key, value, found));
  }

  lemma OwnIsNearest(h: Objects, target: RawValue, key: PropertyKey)
    requires target in h && Own(h[target], key).Some?
    ensures Find(h, target, key, MAX_PROTOTYPE_CHAIN) == Ok(Own(h[target], key))
  {
  }

  /**
   An assignment calls the setter of the nearest property, is refused by a nearest property that is read-only or
   has no setter, and otherwise stores on the object itself: over its own property, or as a new one if it takes any.
   */
  lemma AssignmentGoes(c: Context, h: Objects, target: RawValue, key: PropertyKey, value: RawValue)
    requires ValidRealm(h) && target in h && !(IsArray(h[target]) && key == LENGTH)
    ensures var r := Assign(c, h, target, key, value);
            match Find(h, target, key, MAX_PROTOTYPE_CHAIN)
            case Err(e) => r == LookupFailed(e)
            case Ok(found) => Goes(h, target, key, found, r)
  {
    hide Find;
    hide Own;
    hide Goes;
    hide AssignFound;
    if Own(h[target], key).Some? {
      OwnIsNearest(h, target, key);
    }
    if Find(h, target, key, MAX_PROTOTYPE_CHAIN).Ok? {
      FoundGoes(c, h, target, key, value, Find(h, target, key, MAX_PROTOTYPE_CHAIN).value);
    }
  }
}
