/**
 Own properties of script objects: descriptor validation (section 10.1.6.3 of
 ECMA-262), array index and length exotics (sections 10.4.2.1 and 10.4.2.4),
 and the invariants of the essential internal methods (section 6.1.7.3).
 */
module ObjectModel {
  import opened Outcomes
  import opened Ascii
  import opened Arena
  import opened HeapRecords

  const U32_MAX: nat := 0xFFFF_FFFF
  const MAX_OWN_PROPERTY_KEYS: nat := 1_000_000

  /** What the object model asks of the rest of the heap: string contents, and a value as an exact uint32. */
  datatype Context = Context(contents: Handle -> string, lengthOf: RawValue -> Option<nat>)

  /** String values with equal contents are the same value, whatever their handles. */
  predicate SameValue(c: Context, a: RawValue, b: RawValue) {
    if a.StringValue? && b.StringValue? then c.contents(a.id) == c.contents(b.id) else a == b
  }

  predicate SameOptional(c: Context, a: Option<RawValue>, b: Option<RawValue>) {
    a.Some? == b.Some? && (a.Some? ==> SameValue(c, a.value, b.value))
  }

  // ---- descriptor updates --------------------------------------------------------------

  datatype AccessorUpdate = Absent | Present(value: Option<RawValue>)

  datatype UpdateKind =
    | GenericUpdate
    | DataUpdate(value: Option<RawValue>, writable: Option<bool>)
    | AccessorsUpdate(getter: AccessorUpdate, setter: AccessorUpdate)

  datatype DescriptorUpdate = DescriptorUpdate(kind: UpdateKind, enumerable: Option<bool>, configurable: Option<bool>)

  function GetOr<T>(update: Option<T>, current: T): T {
    if update.Some? then update.value else current
  }

  function AccessorOr(update: AccessorUpdate, current: Option<RawValue>): Option<RawValue> {
    if update.Present? then update.value else current
  }

  /** The kind an update is applied to: switching between data and accessor starts from defaults. */
  function Normalized(kind: PropertyKind, update: UpdateKind): PropertyKind {
    if kind.Data? && update.AccessorsUpdate? then Accessor(None, None)
    else if kind.Accessor? && update.DataUpdate? then Data(Undefined, false)
    else kind
  }

  function ApplyFields(d: PropertyDescriptor, update: DescriptorUpdate): PropertyDescriptor
    requires Normalized(d.kind, update.kind) == d.kind
  {
    var kind := match update.kind
      case GenericUpdate => d.kind
      case DataUpdate(value, writable) =>
        if d.kind.Data? then Data(GetOr(value, d.kind.value), GetOr(writable, d.kind.writable)) else d.kind
      case AccessorsUpdate(getter, setter) =>
        if d.kind.Accessor? then Accessor(AccessorOr(getter, d.kind.getter), AccessorOr(setter, d.kind.setter))
        else d.kind;
    PropertyDescriptor(kind, GetOr(update.enumerable, d.enumerable), GetOr(update.configurable, d.configurable))
  }

  /** What a non-configurable property does not let an update do. */
  predicate Rejected(c: Context, current: PropertyDescriptor, update: DescriptorUpdate) {
    !current.configurable && (
      || update.configurable == Some(true)
      || (update.enumerable.Some? && update.enumerable.value != current.enumerable)
      || (current.kind.Data? && update.kind.AccessorsUpdate?)
      || (current.kind.Accessor? && update.kind.DataUpdate?)
      || (current.kind.Data? && update.kind.DataUpdate? && !current.kind.writable &&
            (update.kind.writable == Some(true) ||
             (update.kind.value.Some? && !SameValue(c, current.kind.value, update.kind.value.value))))
      || (current.kind.Accessor? && update.kind.AccessorsUpdate? &&
            ((update.kind.getter.Present? && !SameOptional(c, current.kind.getter, update.kind.getter.value)) ||
             (update.kind.setter.Present? && !SameOptional(c, current.kind.setter, update.kind.setter.value)))))
  }

  /** The descriptor an update leads to, or none if it is refused. */
  function ValidateUpdate(c: Context, current: Option<PropertyDescriptor>, extensible: bool,
                          update: DescriptorUpdate): Option<PropertyDescriptor> {
    if current.None? then
      if !extensible then None
      else
        var blank := PropertyDescriptor(if update.kind.AccessorsUpdate? then Accessor(None, None)
            else Data(Undefined, false), false, false);
        Some(ApplyFields(blank, update))
    else if Rejected(c, current.value, update) then None
    else Some(ApplyFields(current.value.(kind := Normalized(current.value.kind, update.kind)), update))
  }

  // ---- what may never change about a property ---------------------------------------------

  /** A property that can no longer be reconfigured, and how a later descriptor of it must agree. */
  predicate StillTheSame(c: Context, d: PropertyDescriptor, later: PropertyDescriptor) {
    !d.configurable ==>
      && !later.configurable
      && later.enumerable == d.enumerable
      && later.kind.Data? == d.kind.Data?
      && (d.kind.Accessor? ==>
            SameOptional(c, d.kind.getter, later.kind.getter) && SameOptional(c, d.kind.setter, later.kind.setter))
      && (d.kind.Data? && !d.kind.writable ==> !later.kind.writable && SameValue(c, d.kind.value, later.kind.value))
  }

  lemma UpdatesRespectFinality(c: Context, current: PropertyDescriptor, extensible: bool, update: DescriptorUpdate)
    ensures var next := ValidateUpdate(c, Some(current), extensible, update);
            next.Some? ==> StillTheSame(c, current, next.value)
  {
  }

  /** What an update makes of a property if nothing stops it. */
  function Updated(d: PropertyDescriptor, update: DescriptorUpdate): PropertyDescriptor {
    ApplyFields(d.(kind := Normalized(d.kind, update.kind)), update)
  }

  /** An update is refused exactly when it would break what is final, or add a key to an object that takes none. */
  lemma RefusalIsExact(c: Context, current: Option<PropertyDescriptor>, extensible: bool, update: DescriptorUpdate)
    ensures var next := ValidateUpdate(c, current, extensible, update);
            if current.None? then next.Some? == extensible
            else next == if StillTheSame(c, current.value,
                Updated(current.value, update)) then Some(Updated(current.value, update)) else None
  {
  }

  /** An update with every field of a descriptor, accepted, leads to that descriptor. */
  lemma FullUpdateIsDefinition(c: Context, current: Option<PropertyDescriptor>, extensible: bool, d: PropertyDescriptor)
    ensures var kind := (match d.kind
                         case Data(value, writable) => DataUpdate(Some(value), Some(writable))
                         case Accessor(getter, setter) => AccessorsUpdate(Present(getter), Present(setter)));
            var full := DescriptorUpdate(kind, Some(d.enumerable), Some(d.configurable));
            var next := ValidateUpdate(c, current, extensible, full);
            next.Some? ==> next.value == d
  {
  }

  // ---- array index keys ------------------------------------------------------------------------

  function Digit(ch: char): nat
    requires IsDigit(ch)
  {
    ch as int - '0' as int
  }

  function Decimal(s: string): Option<nat> {
    if s == [] then Some(0)
    else if !IsDigit(s[|s| - 1]) then None
    else
      var prefix := Decimal(s[..|s| - 1]);
      if prefix.None? then None else Some(prefix.value * 10 + Digit(s[|s| - 1]))
  }

  /** A canonical decimal below 2^32 - 1. */
  function CanonicalIndex(key: PropertyKey): (r: Option<nat>)
    ensures r.Some? ==> r.value < U32_MAX
  {
    if key.SymbolKey? || key.name == [] || (|key.name| > 1 && key.name[0] == '0') then None
    else
      var value := Decimal(key.name);
      if value.Some? && value.value < U32_MAX then value else None
  }

  /** Different canonical keys are different indices, so elements can be kept by index. */
  lemma {:induction false} DecimalIsInjective(a: string, b: string)
    requires a != [] && b != [] && Decimal(a).Some? && Decimal(a) == Decimal(b)
    requires (|a| > 1 ==> a[0] != '0') && (|b| > 1 ==> b[0] != '0')
    ensures a == b
    decreases |a|
  {
    var x, y := a[..|a| - 1], b[..|b| - 1];
    assert a == x + [a[|a| - 1]] && b == y + [b[|b| - 1]];
    assert a[|a| - 1] == b[|b| - 1];
    if x == [] || y == [] {
      assert (x != [] ==> x[0] == a[0]) && (y != [] ==> y[0] == b[0]);
      if x != [] { LeadingDigitCounts(x); }
      if y != [] { LeadingDigitCounts(y); }
    } else {
      assert x[0] == a[0] && y[0] == b[0];
      DecimalIsInjective(x, y);
    }
  }

  lemma {:induction false} LeadingDigitCounts(s: string)
    requires s != [] && Decimal(s).Some? && s[0] != '0'
    ensures Decimal(s).value > 0
  {
    if |s| == 1 {
      assert s[..0] == [] && Decimal(s[..0]) == Some(0);
    } else {
      assert s[..|s| - 1][0] == s[0];
      LeadingDigitCounts(s[..|s| - 1]);
    }
  }

  function DigitOf(n: nat): char
    requires n < 10
  {
    '0' + n as char
  }

  /** A number in decimal, without leading zeros. */
  function Numeral(n: nat): string {
    if n < 10 then [DigitOf(n)] else Numeral(n / 10) + [DigitOf(n % 10)]
  }

  lemma {:induction false} NumeralReads(n: nat)
    ensures Numeral(n) != [] && Decimal(Numeral(n)) == Some(n) && (|Numeral(n)| > 1 ==> Numeral(n)[0] != '0')
  {
    if n < 10 {
      assert [DigitOf(n)][..0] == [];
      assert Decimal([]) == Some(0);
    } else {
      NumeralReads(n / 10);
      var s := Numeral(n);
      assert s[..|s| - 1] == Numeral(n / 10) && s[0] == Numeral(n / 10)[0];
    }
  }

  /** The array index keys are exactly the numerals below 2^32 - 1, and stand for their numbers. */
  lemma IndexKeysAreNumerals(key: PropertyKey, n: nat)
    ensures CanonicalIndex(key) == Some(n) <==> n < U32_MAX && key == StringKey(Numeral(n))
  {
    NumeralReads(n);
    if CanonicalIndex(key) == Some(n) {
      DecimalIsInjective(key.name, Numeral(n));
    }
  }

  lemma CanonicalKeysAreDistinct(a: PropertyKey, b: PropertyKey)
    requires CanonicalIndex(a).Some? && CanonicalIndex(a) == CanonicalIndex(b)
    ensures a == b
  {
    DecimalIsInjective(a.name, b.name);
  }

  // ---- own properties of one object ---------------------------------------------------------------

  const LENGTH: PropertyKey := StringKey("length")

  function LengthDescriptor(length: nat, writable: bool): PropertyDescriptor {
    PropertyDescriptor(Data(Number(Whole(length)), writable), false, false)
  }

  predicate IsArray(o: ObjectRecord) { o.kind.ArrayObject? }

  function Own(o: ObjectRecord, key: PropertyKey): Option<PropertyDescriptor> {
    if IsArray(o) && key == LENGTH then Some(LengthDescriptor(o.kind.length, o.kind.lengthWritable))
    else if IsArray(o) && CanonicalIndex(key).Some? then
      var i := CanonicalIndex(key).value;
      if i in o.kind.elements then Some(o.kind.elements[i]) else None
    else if key in o.data.properties.entries then Some(o.data.properties.entries[key]) else None
  }

  function OwnCount(o: ObjectRecord): nat {
    |o.data.properties.entries| + if IsArray(o) then |o.kind.elements| + 1 else 0
  }

  /** The insertion order lists exactly the keys, once each. */
  ghost predicate Ordered(p: OrderedProperties) {
    && (forall k :: k in p.insertionOrder <==> k in p.entries)
    && (forall i, j :: 0 <= i < j < |p.insertionOrder| ==> p.insertionOrder[i] != p.insertionOrder[j])
  }

  function Insert(p: OrderedProperties, key: PropertyKey, d: PropertyDescriptor): OrderedProperties {
    OrderedProperties(p.entries[key := d], if key in p.entries then p.insertionOrder else p.insertionOrder + [key])
  }

  function DropKey(keys: seq<PropertyKey>, key: PropertyKey): (rest: seq<PropertyKey>)
    ensures forall k :: k in rest ==> k in keys
  {
    if keys == [] then [] else if keys[0] == key then keys[1..] else [keys[0]] + DropKey(keys[1..], key)
  }

  function Remove(p: OrderedProperties, key: PropertyKey): OrderedProperties {
    if key in p.entries then OrderedProperties(p.entries - {key}, DropKey(p.insertionOrder, key)) else p
  }

  lemma InsertKeepsOrder(p: OrderedProperties, key: PropertyKey, d: PropertyDescriptor)
    requires Ordered(p)
    ensures Ordered(Insert(p, key, d))
  {
    var keys := Insert(p, key, d).insertionOrder;
    forall k
      ensures k in keys <==> k in Insert(p, key, d).entries
    {
      assert k in p.insertionOrder <==> k in p.entries;
    }
  }

  lemma UpdatedSize<K, V>(m: map<K, V>, k: K, v: V)
    ensures |m[k := v]| == |m| + if k in m then 0 else 1
  {
    var after := m[k := v];
    if k in m {
      assert after.Keys == m.Keys;
    } else {
      assert after.Keys == m.Keys + {k};
    }
    assert |after.Keys| == |after| && |m.Keys| == |m|;
  }

  lemma {:induction false} DropKeyDrops(keys: seq<PropertyKey>, key: PropertyKey)
    requires forall i, j :: 0 <= i < j < |keys| ==> keys[i] != keys[j]
    ensures forall k :: k in DropKey(keys, key) <==> k in keys && k != key
    ensures forall i, j :: 0 <= i < j < |DropKey(keys, key)| ==> DropKey(keys, key)[i] != DropKey(keys, key)[j]
  {
    if keys != [] {
      var tail := keys[1..];
      assert forall i :: 0 <= i < |tail| ==> tail[i] == keys[i + 1];
      assert keys[0] !in tail;
      DropKeyDrops(tail, key);
    }
  }

  lemma RemoveKeepsOrder(p: OrderedProperties, key: PropertyKey)
    requires Ordered(p)
    ensures Ordered(Remove(p, key)) && |Remove(p, key).entries| <= |p.entries|
  {
    DropKeyDrops(p.insertionOrder, key);
    var next := Remove(p, key);
    assert key in p.entries ==> next.entries.Keys == p.entries.Keys - {key};
    assert |next.entries.Keys| == |next.entries| && |p.entries.Keys| == |p.entries|;
  }

  /** Every element lies below the length, the length is a uint32, and the key count is bounded. */
  ghost predicate WellFormed(o: ObjectRecord) {
    && Ordered(o.data.properties)
    && OwnCount(o) <= MAX_OWN_PROPERTY_KEYS
    && (IsArray(o) ==> o.kind.length <= U32_MAX && forall i :: i in o.kind.elements ==> i < o.kind.length)
  }

  // ---- defining, one object ---------------------------------------------------------------------------

  datatype DefineError = InvalidHandle | InvalidArrayLength | PropertyLimit

  datatype Defined = Defined(record: ObjectRecord, accepted: bool)

  function DefineNamed(c: Context, o: ObjectRecord, key: PropertyKey, update: DescriptorUpdate)
    : Result<Defined, DefineError>
  {
    var current := if key in o.data.properties.entries then Some(o.data.properties.entries[key]) else None;
    var next := ValidateUpdate(c, current, o.data.extensible, update);
    if next.None? then Ok(Defined(o, false))
    else if current.None? && OwnCount(o) + 1 > MAX_OWN_PROPERTY_KEYS then Err(PropertyLimit)
    else Ok(Defined(o.(data := o.data.(properties := Insert(o.data.properties, key, next.value))), true))
  }

  function DefineIndex(c: Context, o: ObjectRecord, index: nat, update: DescriptorUpdate): Result<Defined, DefineError>
    requires IsArray(o)
  {
    var list := o.kind;
    var current := if index in list.elements then Some(list.elements[index]) else None;
    if index >= list.length && !list.lengthWritable then Ok(Defined(o, false))
    else
      var next := ValidateUpdate(c, current, o.data.extensible, update);
      if next.None? then Ok(Defined(o, false))
      else if current.None? && OwnCount(o) + 1 > MAX_OWN_PROPERTY_KEYS then Err(PropertyLimit)
      else Ok(Defined(o.(kind := list.(elements := list.elements[index := next.value],
                                       length := if index >= list.length then index + 1 else list.length)), true))
  }

  /** The elements from `low` up to below `high`, walked downwards until one cannot be deleted. */
  function Truncated(elements: map<nat, PropertyDescriptor>, low: nat, high: nat): (map<nat, PropertyDescriptor>, nat)
    decreases high
  {
    if high <= low then (elements, low)
    else if high - 1 in elements && !elements[high - 1].configurable then (elements, high)
    else Truncated(elements - {high - 1}, low, high - 1)
  }

  predicate IsWhole(v: RawValue) { v.Number? && v.number.Whole? }

  function DefineLength(c: Context, o: ObjectRecord, update: DescriptorUpdate): Result<Defined, DefineError>
    requires IsArray(o)
  {
    var hasValue := update.kind.DataUpdate? && update.kind.value.Some?;
    var requested := if hasValue then c.lengthOf(update.kind.value.value) else None;
    if hasValue && (requested.None? || requested.value > U32_MAX) then Err(InvalidArrayLength)
    else
      var exact :=
        if hasValue then update.(kind := update.kind.(value := Some(Number(Whole(requested.value))))) else update;
      var list := o.kind;
      var next := ValidateUpdate(c, Some(LengthDescriptor(list.length, list.lengthWritable)), true, exact);
      if next.None? || !next.value.kind.Data? || !IsWhole(next.value.kind.value) then Ok(Defined(o, false))
      else
        var length := next.value.kind.value.number.n;
        var writable := next.value.kind.writable;
        if length >= list.length then Ok(Defined(o.(kind := list.(length := length, lengthWritable := writable)), true))
        else
          var (elements, end) := Truncated(list.elements, length, list.length);
          Ok(Defined(o.(kind := ArrayObject(end, writable, elements)), end == length))
  }

  function DefineOwn(c: Context, o: ObjectRecord, key: PropertyKey, update: DescriptorUpdate)
    : Result<Defined, DefineError>
  {
    if IsArray(o) && key == LENGTH then DefineLength(c, o, update)
    else if IsArray(o) && CanonicalIndex(key).Some? then DefineIndex(c, o, CanonicalIndex(key).value, update)
    else DefineNamed(c, o, key, update)
  }

  /** Deletes an own property unless it is non-configurable. */
  function Delete(o: ObjectRecord, key: PropertyKey): Defined {
    var current := Own(o, key);
    if current.None? then Defined(o, true)
    else if !current.value.configurable then Defined(o, false)
    else if IsArray(o) && CanonicalIndex(key).Some? then
      Defined(o.(kind := o.kind.(elements := o.kind.elements - {CanonicalIndex(key).value})), true)
    else Defined(o.(data := o.data.(properties := Remove(o.data.properties, key))), true)
  }

  // ---- truncation ----------------------------------------------------------------------------------------

  /** Truncation ends just past the highest element that cannot be deleted, and removes exactly what lies above. */
  ghost predicate CutAt(elements: map<nat, PropertyDescriptor>, low: nat, high: nat,
                        rest: map<nat, PropertyDescriptor>, end: nat) {
    && low <= end <= high
    && (forall i :: i in rest <==> i in elements && !(end <= i < high))
    && (forall i :: i in rest ==> rest[i] == elements[i])
    && (forall i :: i in elements && end <= i < high ==> elements[i].configurable)
    && (end > low ==> end - 1 in rest && !rest[end - 1].configurable)
  }

  lemma {:induction false} TruncationStopsAtTheHighestFixed(elements: map<nat, PropertyDescriptor>, low: nat, high: nat)
    requires low <= high
    ensures CutAt(elements, low, high, Truncated(elements, low, high).0, Truncated(elements, low, high).1)
    decreases high
  {
    if low < high && !(high - 1 in elements && !elements[high - 1].configurable) {
      TruncationStopsAtTheHighestFixed(elements - {high - 1}, low, high - 1);
      var (rest, end) := Truncated(elements - {high - 1}, low, high - 1);
      forall i: nat
        ensures i in rest <==> i in elements && !(end <= i < high)
        ensures i in rest ==> rest[i] == elements[i]
        ensures i in elements && end <= i < high ==> elements[i].configurable
      {
        assert i in elements - {high - 1} <==> i in elements && i != high - 1;
      }
    }
  }

  /** The engine's loop over the indices in descending order. */
  method TruncateElements(elements: map<nat, PropertyDescriptor>, low: nat, high: nat)
    returns (rest: map<nat, PropertyDescriptor>, end: nat)
    requires low <= high
    ensures (rest, end) == Truncated(elements, low, high)
  {
    rest, end := elements, high;
    while low < end
      invariant low <= end <= high
      invariant Truncated(elements, low, high) == Truncated(rest, low, end)
    {
      if end - 1 in rest && !rest[end - 1].configurable {
        return;
      }
      rest := rest - {end - 1};
      end := end - 1;
    }
  }

  lemma TruncationShrinks(elements: map<nat, PropertyDescriptor>, low: nat, high: nat)
    requires low <= high
    ensures |Truncated(elements, low, high).0| <= |elements|
  {
    TruncationStopsAtTheHighestFixed(elements, low, high);
    var rest := Truncated(elements, low, high).0;
    SmallerMap(rest, elements);
  }

  lemma SmallerMap<K, V>(a: map<K, V>, b: map<K, V>)
    requires forall k :: k in a ==> k in b
    ensures |a| <= |b|
  {
    assert a.Keys <= b.Keys;
    SubsetSize(a.Keys, b.Keys);
    assert |a.Keys| == |a| && |b.Keys| == |b|;
  }

  lemma SubsetSize<K>(a: set<K>, b: set<K>)
    requires a <= b
    ensures |a| <= |b|
  {
    assert b == a + (b - a);
  }

  // ---- every operation keeps the object well formed ---------------------------------------------------------

  lemma DefineIndexKeepsShape(c: Context, o: ObjectRecord, index: nat, update: DescriptorUpdate)
    requires WellFormed(o) && IsArray(o) && index < U32_MAX && DefineIndex(c, o, index, update).Ok?
    ensures WellFormed(DefineIndex(c, o, index, update).value.record)
  {
    hide ValidateUpdate;
    var next := DefineIndex(c, o, index, update).value.record;
    if index in next.kind.elements {
      UpdatedSize(o.kind.elements, index, next.kind.elements[index]);
    }
  }

  lemma DefineLengthKeepsShape(c: Context, o: ObjectRecord, update: DescriptorUpdate)
    requires WellFormed(o) && IsArray(o) && DefineLength(c, o, update).Ok?
    ensures WellFormed(DefineLength(c, o, update).value.record)
  {
    var hasValue := update.kind.DataUpdate? && update.kind.value.Some?;
    var requested := if hasValue then c.lengthOf(update.kind.value.value) else None;
    if requested.Some? && requested.value <= o.kind.length {
      var length := requested.value;
      TruncationStopsAtTheHighestFixed(o.kind.elements, length, o.kind.length);
      TruncationShrinks(o.kind.elements, length, o.kind.length);
    }
  }

  lemma DefineKeepsShape(c: Context, o: ObjectRecord, key: PropertyKey, update: DescriptorUpdate)
    requires WellFormed(o) && DefineOwn(c, o, key, update).Ok?
    ensures WellFormed(DefineOwn(c, o, key, update).value.record)
  {
    if IsArray(o) && key == LENGTH {
      DefineLengthKeepsShape(c, o, update);
    } else if IsArray(o) && CanonicalIndex(key).Some? {
      DefineIndexKeepsShape(c, o, CanonicalIndex(key).value, update);
    } else {
      hide ValidateUpdate;
      forall d: PropertyDescriptor
        ensures Ordered(Insert(o.data.properties, key, d)) &&
                |Insert(o.data.properties, key, d).entries| == |o.data.properties.entries|
                    + if key in o.data.properties.entries then 0 else 1
      {
        InsertKeepsOrder(o.data.properties, key, d);
        UpdatedSize(o.data.properties.entries, key, d);
      }
    }
  }

  lemma DeleteKeepsShape(o: ObjectRecord, key: PropertyKey)
    requires WellFormed(o)
    ensures WellFormed(Delete(o, key).record)
  {
    RemoveKeepsOrder(o.data.properties, key);
    if IsArray(o) && CanonicalIndex(key).Some? {
      SmallerMap(o.kind.elements - {CanonicalIndex(key).value}, o.kind.elements);
    }
  }

  // ---- what may never change about an object --------------------------------------------------------------------

  ghost predicate KeyStays(c: Context, before: ObjectRecord, after: ObjectRecord, key: PropertyKey) {
    && (Own(before, key).Some? && !Own(before, key).value.configurable ==>
          Own(after, key).Some? && StillTheSame(c, Own(before, key).value, Own(after, key).value))
    && (!before.data.extensible && Own(before, key).None? ==> Own(after, key).None?)
  }

  /**
   A non-configurable property stays, stays non-configurable and keeps enumerability, kind and accessors, and
   its value once it is not writable; an object that is not extensible gains no key, keeps its prototype and
   stays so.
   */
  ghost predicate Respects(c: Context, before: ObjectRecord, after: ObjectRecord) {
    && (forall key: PropertyKey :: KeyStays(c, before, after, key))
    && (!before.data.extensible ==> !after.data.extensible && after.data.prototype == before.data.prototype)
    && IsArray(before) == IsArray(after)
  }

  lemma RespectsItself(c: Context, o: ObjectRecord)
    ensures Respects(c, o, o)
  {
  }

  lemma RespectsTransitively(c: Context, a: ObjectRecord, b: ObjectRecord, d: ObjectRecord)
    requires Respects(c, a, b) && Respects(c, b, d)
    ensures Respects(c, a, d)
  {
    hide Own;
    forall key: PropertyKey
      ensures KeyStays(c, a, d, key)
    {
      assert KeyStays(c, a, b, key) && KeyStays(c, b, d, key);
    }
  }

  lemma DefineNamedRespects(c: Context, o: ObjectRecord, key: PropertyKey, update: DescriptorUpdate, other: PropertyKey)
    requires !(IsArray(o) && (key == LENGTH || CanonicalIndex(key).Some?)) && DefineNamed(c, o, key, update).Ok?
    ensures KeyStays(c, o, DefineNamed(c, o, key, update).value.record, other)
  {
    hide CanonicalIndex;
    if Own(o, key).Some? {
      UpdatesRespectFinality(c, Own(o, key).value, o.data.extensible, update);
    }
  }

  lemma DefineIndexRespects(c: Context, o: ObjectRecord, key: PropertyKey, update: DescriptorUpdate, other: PropertyKey)
    requires WellFormed(o) && IsArray(o) && key != LENGTH && CanonicalIndex(key).Some?
    requires DefineIndex(c, o, CanonicalIndex(key).value, update).Ok?
    ensures KeyStays(c, o, DefineIndex(c, o, CanonicalIndex(key).value, update).value.record, other)
  {
    var after := DefineIndex(c, o, CanonicalIndex(key).value, update).value.record;
    hide CanonicalIndex;
    if CanonicalIndex(other) == CanonicalIndex(key) {
      if Own(o, key).Some? {
        UpdatesRespectFinality(c, Own(o, key).value, o.data.extensible, update);
      }
      assert KeyStays(c, o, after, other);
    } else {
      hide ValidateUpdate;
      assert KeyStays(c, o, after, other);
    }
  }

  /** Elements only go, and those that cannot be deleted stay as they are. */
  predicate FixedElementsStay(before: map<nat, PropertyDescriptor>, after: map<nat, PropertyDescriptor>) {
    && (forall i :: i in after ==> i in before && after[i] == before[i])
    && (forall i :: i in before && !before[i].configurable ==> i in after)
  }

  lemma DefineLengthKeepsFixed(c: Context, o: ObjectRecord, update: DescriptorUpdate)
    requires WellFormed(o) && IsArray(o) && DefineLength(c, o, update).Ok?
    ensures var after := DefineLength(c, o, update).value.record;
            && after.data == o.data && IsArray(after) && FixedElementsStay(o.kind.elements, after.kind.elements)
            && (!o.kind.lengthWritable ==> after.kind.length == o.kind.length && !after.kind.lengthWritable)
  {
    var hasValue := update.kind.DataUpdate? && update.kind.value.Some?;
    var length := if hasValue then c.lengthOf(update.kind.value.value).value else o.kind.length;
    if length <= o.kind.length {
      TruncationStopsAtTheHighestFixed(o.kind.elements, length, o.kind.length);
    }
    hide Truncated;
    var after := DefineLength(c, o, update).value.record;
    assert after.data == o.data && IsArray(after);
    assert FixedElementsStay(o.kind.elements, after.kind.elements);
  }

  lemma DefineLengthRespects(c: Context, o: ObjectRecord, update: DescriptorUpdate, other: PropertyKey)
    requires WellFormed(o) && IsArray(o) && DefineLength(c, o, update).Ok?
    ensures KeyStays(c, o, DefineLength(c, o, update).value.record, other)
  {
    DefineLengthKeepsFixed(c, o, update);
    hide DefineLength;
    hide CanonicalIndex;
    assert KeyStays(c, o, DefineLength(c, o, update).value.record, other);
  }

  lemma DefineRespects(c: Context, o: ObjectRecord, key: PropertyKey, update: DescriptorUpdate)
    requires WellFormed(o) && DefineOwn(c, o, key, update).Ok?
    ensures Respects(c, o, DefineOwn(c, o, key, update).value.record)
  {
    var after := DefineOwn(c, o, key, update).value.record;
    forall other: PropertyKey
      ensures KeyStays(c, o, after, other)
    {
      if IsArray(o) && key == LENGTH {
        DefineLengthRespects(c, o, update, other);
      } else if IsArray(o) && CanonicalIndex(key).Some? {
        DefineIndexRespects(c, o, key, update, other);
      } else {
        DefineNamedRespects(c, o, key, update, other);
      }
    }
  }

  lemma DeleteKeepsOthers(c: Context, o: ObjectRecord, key: PropertyKey, other: PropertyKey)
    requires key != other
    ensures Own(Delete(o, key).record, other) == Own(o, other)
  {
    if CanonicalIndex(key).Some? && CanonicalIndex(other) == CanonicalIndex(key) {
      CanonicalKeysAreDistinct(key, other);
    }
  }

  lemma DeleteRespects(c: Context, o: ObjectRecord, key: PropertyKey)
    ensures Respects(c, o, Delete(o, key).record)
  {
    forall other: PropertyKey
      ensures KeyStays(c, o, Delete(o, key).record, other)
    {
      if other != key {
        DeleteKeepsOthers(c, o, key, other);
        hide Delete;
        hide Own;
      } else {
      }
    }
  }

  /** A key deletes or stays: what is gone after an accepted deletion, and nothing otherwise. */
  lemma DeleteRemoves(o: ObjectRecord, key: PropertyKey)
    ensures var done := Delete(o, key);
            && done.accepted == (Own(o, key).None? || Own(o, key).value.configurable)
            && (done.accepted ==> Own(done.record, key).None?)
            && (!done.accepted ==> done.record == o)
  {
  }

  // ---- setting the length -----------------------------------------------------------------------

  /** What giving an array the length `n` leaves: all of it, or as much as the elements that cannot be deleted allow. */
  lemma LengthAssignment(c: Context, o: ObjectRecord, value: RawValue, n: nat)
    requires WellFormed(o) && IsArray(o) && o.kind.lengthWritable && c.lengthOf(value) == Some(n) && n <= U32_MAX
    ensures var r := DefineLength(c, o, DescriptorUpdate(DataUpdate(Some(value), None), None, None));
            && r.Ok? && IsArray(r.value.record) && r.value.record.data == o.data && r.value.record.kind.lengthWritable
            && (n >= o.kind.length ==> r.value.accepted && r.value.record.kind == o.kind.(length := n))
            && (n < o.kind.length ==>
                  var after := r.value.record.kind;
                  && CutAt(o.kind.elements, n, o.kind.length, after.elements, after.length)
                  && r.value.accepted == (after.length == n)
                  && (r.value.accepted <==>
                        forall i :: i in o.kind.elements && i >= n ==> o.kind.elements[i].configurable))
  {
    if n < o.kind.length {
      TruncationStopsAtTheHighestFixed(o.kind.elements, n, o.kind.length);
      var (rest, end) := Truncated(o.kind.elements, n, o.kind.length);
      assert end > n ==> end - 1 in o.kind.elements;
    }
  }

  /** The length of an array whose length is not writable never changes. */
  lemma FixedLengthStays(c: Context, before: ObjectRecord, after: ObjectRecord)
    requires Respects(c, before, after) && IsArray(before) && !before.kind.lengthWritable
    ensures after.kind.length == before.kind.length && !after.kind.lengthWritable
  {
    assert KeyStays(c, before, after, LENGTH);
  }
}
