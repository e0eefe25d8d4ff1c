/**
 A generational arena with an intrusive free list. A handle goes through three
 stages (not yet issued, live, spent) and never backwards.
 */
module Arena {
  import opened Outcomes

  const MAX_GENERATION: nat := 0xFFFF_FFFF

  datatype Handle = Handle(index: nat, generation: nat)

  datatype SlotState<+T> = Occupied(value: T, marked: bool) | Tombstone(next: Option<nat>) | Retired

  datatype Slot<+T> = Slot(generation: nat, state: SlotState<T>)

  datatype ArenaState<+T> = ArenaState(slots: seq<Slot<T>>, freeHead: Option<nat>, live: int, free: int, retired: int)

  function Empty<T>(): ArenaState<T> {
    ArenaState([], None, 0, 0, 0)
  }

  predicate Resolves<T>(a: ArenaState<T>, h: Handle) {
    h.index < |a.slots| && a.slots[h.index].generation == h.generation && a.slots[h.index].state.Occupied?
  }

  function Lookup<T>(a: ArenaState<T>, h: Handle): Option<T> {
    if Resolves(a, h) then Some(a.slots[h.index].state.value) else None
  }

  predicate Marked<T>(a: ArenaState<T>, h: Handle) {
    Resolves(a, h) && a.slots[h.index].state.marked
  }

  // ---- the operations on states ---------------------------------------------------

  /** The free list starts at a tombstone; the engine treats anything else as unreachable. */
  predicate HeadIsTombstone<T>(a: ArenaState<T>) {
    a.freeHead.Some? ==> a.freeHead.value < |a.slots| && a.slots[a.freeHead.value].state.Tombstone?
  }

  function Inserted<T>(a: ArenaState<T>, value: T): (ArenaState<T>, Handle)
    requires HeadIsTombstone(a)
  {
    if a.freeHead.Some? then
      var index := a.freeHead.value;
      var slot := a.slots[index];
      (ArenaState(a.slots[index := Slot(slot.generation, Occupied(value, false))], slot.state.next, a.live + 1,
          a.free - 1, a.retired),
       Handle(index, slot.generation))
    else
      (a.(slots := a.slots + [Slot(0, Occupied(value, false))], live := a.live + 1), Handle(|a.slots|, 0))
  }

  function WithMark<T>(a: ArenaState<T>, h: Handle): ArenaState<T> {
    if Resolves(a, h) then a.(slots := a.slots[h.index := Slot(h.generation,
        Occupied(a.slots[h.index].state.value, true))]) else a
  }

  function Written<T>(a: ArenaState<T>, h: Handle, value: T): ArenaState<T> {
    if Resolves(a, h) then a.(slots := a.slots[h.index := Slot(h.generation,
        Occupied(value, a.slots[h.index].state.marked))]) else a
  }

  function UnmarkedSlot<T>(slot: Slot<T>): Slot<T> {
    if slot.state.Occupied? then Slot(slot.generation, Occupied(slot.state.value, false)) else slot
  }

  function Unmarked<T>(a: ArenaState<T>): ArenaState<T> {
    a.(slots := seq(|a.slots|, i requires 0 <= i < |a.slots| => UnmarkedSlot(a.slots[i])))
  }

  /** Sweeping one slot: unmark a survivor, or recycle it (or retire it when its generations are used up). */
  function SweptSlot<T>(a: ArenaState<T>, k: nat): ArenaState<T>
    requires k < |a.slots|
  {
    var slot := a.slots[k];
    if !slot.state.Occupied? then a
    else if slot.state.marked then a.(slots := a.slots[k := UnmarkedSlot(slot)])
    else if slot.generation < MAX_GENERATION then
      ArenaState(a.slots[k := Slot(slot.generation + 1, Tombstone(a.freeHead))], Some(k), a.live - 1, a.free + 1,
                 a.retired)
    else
      ArenaState(a.slots[k := Slot(slot.generation, Retired)], a.freeHead, a.live - 1, a.free, a.retired + 1)
  }

  function SweptTo<T>(a: ArenaState<T>, k: nat): (swept: ArenaState<T>)
    requires k <= |a.slots|
    ensures |swept.slots| == |a.slots|
  {
    if k == 0 then a else SweptSlot(SweptTo(a, k - 1), k - 1)
  }

  function Swept<T>(a: ArenaState<T>): ArenaState<T> {
    SweptTo(a, |a.slots|)
  }

  // ---- the representation invariant --------------------------------------------------

  function IsLive<T>(slot: Slot<T>): nat { if slot.state.Occupied? then 1 else 0 }
  function IsRetired<T>(slot: Slot<T>): nat { if slot.state.Retired? then 1 else 0 }
  function IsFree<T>(slot: Slot<T>): nat { if slot.state.Tombstone? then 1 else 0 }

  function Count<T>(slots: seq<Slot<T>>, what: Slot<T> -> nat): nat {
    if slots == [] then 0 else Count(slots[..|slots| - 1], what) + what(slots[|slots| - 1])
  }

  /** The chain of indices that the tombstones link from the head to the end. */
  ghost predicate Linked<T>(slots: seq<Slot<T>>, head: Option<nat>, chain: seq<nat>)
    decreases |chain|
  {
    if chain == [] then head.None?
    else head == Some(chain[0]) && chain[0] < |slots| && slots[chain[0]].state.Tombstone?
         && Linked(slots, slots[chain[0]].state.next, chain[1..])
  }

  ghost predicate NoDuplicates(chain: seq<nat>) {
    forall i, j :: 0 <= i < j < |chain| ==> chain[i] != chain[j]
  }

  /** The free list is acyclic and lists exactly the tombstones, and the counters are right. */
  ghost predicate FreeList<T>(a: ArenaState<T>, chain: seq<nat>) {
    && Linked(a.slots, a.freeHead, chain)
    && NoDuplicates(chain)
    && (forall i :: 0 <= i < |a.slots| && a.slots[i].state.Tombstone? ==> i in chain)
    && a.free == |chain|
  }

  ghost predicate Valid<T>(a: ArenaState<T>) {
    && (exists chain: seq<nat> :: FreeList(a, chain))
    && a.live == Count(a.slots, IsLive)
    && a.free == Count(a.slots, IsFree)
    && a.retired == Count(a.slots, IsRetired)
    && (forall i :: 0 <= i < |a.slots| ==> a.slots[i].generation <= MAX_GENERATION)
  }

  lemma {:induction false} LinkedInRange<T>(slots: seq<Slot<T>>, head: Option<nat>, chain: seq<nat>)
    requires Linked(slots, head, chain)
    ensures forall i :: 0 <= i < |chain| ==> chain[i] < |slots| && slots[chain[i]].state.Tombstone?
    decreases |chain|
  {
    if chain != [] {
      LinkedInRange(slots, slots[chain[0]].state.next, chain[1..]);
      assert forall i :: 0 < i < |chain| ==> chain[i] == chain[1..][i - 1];
    }
  }

  /** A chain survives any change to slots it does not visit. */
  lemma {:induction false} LinkedElsewhere<T>(slots: seq<Slot<T>>, next: seq<Slot<T>>, head: Option<nat>,
                                              chain: seq<nat>)
    requires Linked(slots, head, chain) && |slots| <= |next|
    requires forall i :: 0 <= i < |chain| && chain[i] < |slots| ==> slots[chain[i]] == next[chain[i]]
    ensures Linked(next, head, chain)
    decreases |chain|
  {
    if chain != [] {
      assert slots[chain[0]] == next[chain[0]];
      assert forall i :: 0 <= i < |chain[1..]| ==> chain[1..][i] == chain[i + 1];
      LinkedElsewhere(slots, next, slots[chain[0]].state.next, chain[1..]);
    }
  }

  lemma ValidHead<T>(a: ArenaState<T>)
    requires Valid(a)
    ensures HeadIsTombstone(a)
  {
    var chain: seq<nat> :| FreeList(a, chain);
  }

  lemma {:induction false} CountUpdate<T>(slots: seq<Slot<T>>, k: nat, slot: Slot<T>, what: Slot<T> -> nat)
    requires k < |slots|
    ensures Count(slots[k := slot], what) == Count(slots, what) - what(slots[k]) + what(slot)
    ensures Count(slots, what) >= what(slots[k])
  {
    var last := |slots| - 1;
    if k < last {
      CountUpdate(slots[..last], k, slot, what);
      assert slots[k := slot][..last] == slots[..last][k := slot];
    } else {
      assert slots[k := slot][..last] == slots[..last];
    }
  }

  lemma CountAppend<T>(slots: seq<Slot<T>>, slot: Slot<T>, what: Slot<T> -> nat)
    ensures Count(slots + [slot], what) == Count(slots, what) + what(slot)
  {
    assert (slots + [slot])[..|slots|] == slots;
  }

  lemma {:induction false} CountSame<T>(a: seq<Slot<T>>, b: seq<Slot<T>>, what: Slot<T> -> nat)
    requires |a| == |b| && forall i :: 0 <= i < |a| ==> what(a[i]) == what(b[i])
    ensures Count(a, what) == Count(b, what)
  {
    if a != [] {
      CountSame(a[..|a| - 1], b[..|b| - 1], what);
      assert what(a[|a| - 1]) == what(b[|b| - 1]);
    }
  }

  /** live + free + retired equals the slot count in every valid state. */
  lemma CountersAddUp<T>(a: ArenaState<T>)
    requires Valid(a)
    ensures a.live + a.free + a.retired == |a.slots|
  {
    SlotsAddUp(a.slots);
  }

  lemma {:induction false} SlotsAddUp<T>(slots: seq<Slot<T>>)
    ensures Count(slots, IsLive) + Count(slots, IsFree) + Count(slots, IsRetired) == |slots|
  {
    if slots != [] {
      SlotsAddUp(slots[..|slots| - 1]);
    }
  }

  lemma EmptyIsValid<T>()
    ensures Valid(Empty<T>())
  {
    assert FreeList(Empty<T>(), []);
  }

  /** Taking the first tombstone leaves the rest of the free list. */
  lemma ReuseKeepsFreeList<T>(a: ArenaState<T>, value: T, chain: seq<nat>)
    requires FreeList(a, chain) && HeadIsTombstone(a) && a.freeHead.Some?
    ensures chain != [] && FreeList(Inserted(a, value).0, chain[1..])
  {
    var next := Inserted(a, value).0;
    assert forall i :: 0 < i < |chain| ==> chain[i] == chain[1..][i - 1];
    LinkedElsewhere(a.slots, next.slots, next.freeHead, chain[1..]);
  }

  lemma GrowthKeepsFreeList<T>(a: ArenaState<T>, value: T, chain: seq<nat>)
    requires FreeList(a, chain) && HeadIsTombstone(a) && a.freeHead.None?
    ensures FreeList(Inserted(a, value).0, chain)
  {
    LinkedElsewhere(a.slots, Inserted(a, value).0.slots, a.freeHead, chain);
  }

  lemma ReuseKeepsValid<T>(a: ArenaState<T>, value: T)
    requires Valid(a) && a.freeHead.Some? && HeadIsTombstone(a)
    ensures Valid(Inserted(a, value).0)
  {
    var (next, h) := Inserted(a, value);
    var chain: seq<nat> :| FreeList(a, chain);
    ReuseKeepsFreeList(a, value, chain);
    hide FreeList;
    var slot := next.slots[h.index];
    CountUpdate(a.slots, h.index, slot, IsLive);
    CountUpdate(a.slots, h.index, slot, IsFree);
    CountUpdate(a.slots, h.index, slot, IsRetired);
    hide Count;
    assert Valid(next);
  }

  lemma GrowthKeepsValid<T>(a: ArenaState<T>, value: T)
    requires Valid(a) && a.freeHead.None? && HeadIsTombstone(a)
    ensures Valid(Inserted(a, value).0)
  {
    var chain: seq<nat> :| FreeList(a, chain);
    GrowthKeepsFreeList(a, value, chain);
    hide FreeList;
    var slot := Slot(0, Occupied(value, false));
    CountAppend(a.slots, slot, IsLive);
    CountAppend(a.slots, slot, IsFree);
    CountAppend(a.slots, slot, IsRetired);
    hide Count;
    assert Valid(Inserted(a, value).0);
  }

  lemma InsertKeepsValid<T>(a: ArenaState<T>, value: T)
    requires Valid(a)
    ensures HeadIsTombstone(a) && Valid(Inserted(a, value).0)
  {
    ValidHead(a);
    if a.freeHead.Some? {
      ReuseKeepsValid(a, value);
    } else {
      GrowthKeepsValid(a, value);
    }
  }

  /** Changing the contents of one occupied slot keeps everything. */
  lemma OccupiedUpdateKeepsValid<T>(a: ArenaState<T>, k: nat, slot: Slot<T>)
    requires Valid(a) && k < |a.slots| && a.slots[k].state.Occupied?
    requires slot.state.Occupied? && slot.generation == a.slots[k].generation
    ensures Valid(a.(slots := a.slots[k := slot]))
  {
    var next := a.(slots := a.slots[k := slot]);
    var chain: seq<nat> :| FreeList(a, chain);
    CountUpdate(a.slots, k, slot, IsLive);
    CountUpdate(a.slots, k, slot, IsFree);
    CountUpdate(a.slots, k, slot, IsRetired);
    LinkedInRange(a.slots, a.freeHead, chain);
    LinkedElsewhere(a.slots, next.slots, a.freeHead, chain);
    assert FreeList(next, chain);
  }

  lemma UnmarkKeepsValid<T>(a: ArenaState<T>)
    requires Valid(a)
    ensures Valid(Unmarked(a))
  {
    var next := Unmarked(a);
    var chain: seq<nat> :| FreeList(a, chain);
    CountSame(a.slots, next.slots, IsLive);
    CountSame(a.slots, next.slots, IsFree);
    CountSame(a.slots, next.slots, IsRetired);
    LinkedInRange(a.slots, a.freeHead, chain);
    LinkedElsewhere(a.slots, next.slots, a.freeHead, chain);
    assert FreeList(next, chain);
  }

  lemma CountReclaimed<T>(a: ArenaState<T>, k: nat, slot: Slot<T>)
    requires k < |a.slots| && a.slots[k].state.Occupied?
    ensures Count(a.slots, IsLive) > 0
    ensures Count(a.slots[k := slot], IsLive) == Count(a.slots, IsLive) - 1 + IsLive(slot)
    ensures Count(a.slots[k := slot], IsFree) == Count(a.slots, IsFree) + IsFree(slot)
    ensures Count(a.slots[k := slot], IsRetired) == Count(a.slots, IsRetired) + IsRetired(slot)
  {
    CountUpdate(a.slots, k, slot, IsLive);
    CountUpdate(a.slots, k, slot, IsFree);
    CountUpdate(a.slots, k, slot, IsRetired);
  }

  /** A recycled slot joins the free list at its head; a retired one leaves the list alone. */
  lemma ReclaimKeepsFreeList<T>(a: ArenaState<T>, k: nat, chain: seq<nat>) returns (longer: seq<nat>)
    requires FreeList(a, chain) && k < |a.slots| && a.slots[k].state.Occupied? && !a.slots[k].state.marked
    ensures FreeList(SweptSlot(a, k), longer)
  {
    var next := SweptSlot(a, k);
    LinkedInRange(a.slots, a.freeHead, chain);
    LinkedElsewhere(a.slots, next.slots, a.freeHead, chain);
    if a.slots[k].generation < MAX_GENERATION {
      longer := [k] + chain;
      assert longer[1..] == chain;
    } else {
      longer := chain;
    }
  }

  lemma SweepKeepsValid<T>(a: ArenaState<T>, k: nat)
    requires Valid(a) && k < |a.slots|
    ensures Valid(SweptSlot(a, k))
  {
    var slot := a.slots[k];
    if slot.state.Occupied? && slot.state.marked {
      OccupiedUpdateKeepsValid(a, k, UnmarkedSlot(slot));
      CountReclaimed(a, k, slot);
    } else if slot.state.Occupied? {
      CountReclaimed(a, k, slot);
      var next := SweptSlot(a, k);
      CountReclaimed(a, k, next.slots[k]);
      var chain: seq<nat> :| FreeList(a, chain);
      var longer := ReclaimKeepsFreeList(a, k, chain);
    }
  }

  lemma {:induction false} SweepingKeepsValid<T>(a: ArenaState<T>, k: nat)
    requires Valid(a) && k <= |a.slots|
    ensures Valid(SweptTo(a, k))
  {
    if k > 0 {
      hide SweptSlot;
      hide Valid;
      SweepingKeepsValid(a, k - 1);
      SweepKeepsValid(SweptTo(a, k - 1), k - 1);
    }
  }

  // ---- what sweeping does ----------------------------------------------------------------

  /** What sweeping slot k does to a handle. */
  lemma SweepingASlot<T>(a: ArenaState<T>, k: nat, h: Handle)
    requires k < |a.slots|
    ensures Lookup(SweptSlot(a, k), h) == (if h.index == k && !Marked(a, h) then None else Lookup(a, h))
    ensures Marked(SweptSlot(a, k), h) == (Marked(a, h) && h.index != k)
  {
  }

  lemma {:induction false} SweepUpTo<T>(a: ArenaState<T>, k: nat, h: Handle)
    requires k <= |a.slots|
    ensures Lookup(SweptTo(a, k), h) == (if h.index < k && !Marked(a, h) then None else Lookup(a, h))
    ensures Marked(SweptTo(a, k), h) == (Marked(a, h) && h.index >= k)
  {
    if k > 0 {
      hide SweptSlot;
      SweepUpTo(a, k - 1, h);
      SweepingASlot(SweptTo(a, k - 1), k - 1, h);
    }
  }

  /** Sweeping leaves exactly the marked records, unmarked and otherwise unchanged. */
  lemma SweepKeepsTheMarked<T>(a: ArenaState<T>, h: Handle)
    ensures Lookup(Swept(a), h) == (if Marked(a, h) then Lookup(a, h) else None)
    ensures !Marked(Swept(a), h)
  {
    SweepUpTo(a, |a.slots|, h);
  }

  // ---- the life of a handle -----------------------------------------------------------------

  datatype Stage = Unissued | Live | Spent

  /** Where a handle is in its life: an arena slot's generation separates past handles from future ones. */
  function StageOf<T>(a: ArenaState<T>, h: Handle): Stage {
    if Resolves(a, h) then Live
    else if h.index < |a.slots| && (h.generation < a.slots[h.index].generation ||
            (h.generation == a.slots[h.index].generation && a.slots[h.index].state.Retired?)) then Spent
    else Unissued
  }

  predicate NotBackwards(before: Stage, after: Stage) {
    before == after || before.Unissued? || after.Spent?
  }

  datatype Op<+T> = Insert(value: T) | Write(h: Handle, value: T) | Mark(h: Handle) | ClearMarks | Sweep

  function Apply<T>(a: ArenaState<T>, op: Op<T>): (next: ArenaState<T>)
    requires Valid(a)
    ensures Valid(next)
  {
    match op
    case Insert(value) => InsertKeepsValid(a, value); Inserted(a, value).0
    case Write(h, value) =>
      if Resolves(a, h) then
        OccupiedUpdateKeepsValid(a, h.index, Slot(h.generation, Occupied(value, a.slots[h.index].state.marked)));
        Written(a, h, value)
      else a
    case Mark(h) =>
      if Resolves(a, h) then
        OccupiedUpdateKeepsValid(a, h.index, Slot(h.generation, Occupied(a.slots[h.index].state.value, true)));
        WithMark(a, h)
      else a
    case ClearMarks => UnmarkKeepsValid(a); Unmarked(a)
    case Sweep => SweepingKeepsValid(a, |a.slots|); Swept(a)
  }

  function Run<T>(a: ArenaState<T>, ops: seq<Op<T>>): (last: ArenaState<T>)
    requires Valid(a)
    ensures Valid(last)
    decreases |ops|
  {
    if ops == [] then a else Run(Apply(a, ops[0]), ops[1..])
  }

  /** The handles a run issues, in order. */
  function Issued<T>(a: ArenaState<T>, ops: seq<Op<T>>): seq<Handle>
    requires Valid(a)
    decreases |ops|
  {
    if ops == [] then []
    else
      ValidHead(a);
      (if ops[0].Insert? then [Inserted(a, ops[0].value).1] else []) + Issued(Apply(a, ops[0]), ops[1..])
  }

  lemma InsertIssuesOneHandle<T>(a: ArenaState<T>, value: T, h: Handle)
    requires HeadIsTombstone(a)
    ensures var (next, issued) := Inserted(a, value);
            && StageOf(a, issued) == Unissued
            && Lookup(next, issued) == Some(value)
            && (h != issued ==> StageOf(next, h) == StageOf(a, h) && Lookup(next, h) == Lookup(a, h))
  {
  }

  lemma SweepingASlotSpends<T>(a: ArenaState<T>, k: nat, h: Handle)
    requires k < |a.slots|
    ensures NotBackwards(StageOf(a, h), StageOf(SweptSlot(a, k), h))
  {
  }

  lemma {:induction false} SweepSpends<T>(a: ArenaState<T>, k: nat, h: Handle)
    requires k <= |a.slots|
    ensures NotBackwards(StageOf(a, h), StageOf(SweptTo(a, k), h))
  {
    if k > 0 {
      hide StageOf;
      hide SweptSlot;
      SweepSpends(a, k - 1, h);
      SweepingASlotSpends(SweptTo(a, k - 1), k - 1, h);
    }
  }

  lemma StepGoesForward<T>(a: ArenaState<T>, op: Op<T>, h: Handle)
    requires Valid(a)
    ensures NotBackwards(StageOf(a, h), StageOf(Apply(a, op), h))
  {
    match op
    case Insert(value) => ValidHead(a); InsertIssuesOneHandle(a, value, h);
    case Write(_, _) =>
    case Mark(_) =>
    case ClearMarks =>
    case Sweep => SweepSpends(a, |a.slots|, h);
  }

  /** Over any run no handle moves back: a spent (reclaimed) handle never resolves again. */
  lemma {:induction false} RunGoesForward<T>(a: ArenaState<T>, ops: seq<Op<T>>, h: Handle)
    requires Valid(a)
    ensures NotBackwards(StageOf(a, h), StageOf(Run(a, ops), h))
    decreases |ops|
  {
    if ops != [] {
      StepGoesForward(a, ops[0], h);
      RunGoesForward(Apply(a, ops[0]), ops[1..], h);
    }
  }

  predicate AllUnissued<T>(a: ArenaState<T>, handles: seq<Handle>) {
    forall i :: 0 <= i < |handles| ==> StageOf(a, handles[i]) == Unissued
  }

  predicate Distinct(handles: seq<Handle>) {
    forall i, j :: 0 <= i < j < |handles| ==> handles[i] != handles[j]
  }

  /** Over any run no handle is issued twice, and none that was issued before the run. */
  lemma {:induction false} NoHandleIsIssuedTwice<T>(a: ArenaState<T>, ops: seq<Op<T>>)
    requires Valid(a)
    ensures AllUnissued(a, Issued(a, ops)) && Distinct(Issued(a, ops))
    decreases |ops|
  {
    if ops != [] {
      var next := Apply(a, ops[0]);
      var rest := Issued(next, ops[1..]);
      NoHandleIsIssuedTwice(next, ops[1..]);
      forall i | 0 <= i < |rest|
        ensures StageOf(a, rest[i]) == Unissued
      {
        StepGoesForward(a, ops[0], rest[i]);
      }
      if ops[0].Insert? {
        ValidHead(a);
        var h := Inserted(a, ops[0].value).1;
        InsertIssuesOneHandle(a, ops[0].value, h);
        assert StageOf(next, h) == Live;
        assert Issued(a, ops) == [h] + rest;
      } else {
        assert Issued(a, ops) == rest;
      }
    }
  }

  // ---- the arena itself ------------------------------------------------------------------------

  class Arena<T> {
    var slots: seq<Slot<T>>
    var freeHead: Option<nat>
    var live: int
    var free: int
    var retired: int

    ghost function State(): ArenaState<T>
      reads this
    {
      ArenaState(slots, freeHead, live, free, retired)
    }

    constructor ()
      ensures State() == Empty() && Valid(State())
    {
      slots, freeHead, live, free, retired := [], None, 0, 0, 0;
      new;
      EmptyIsValid<T>();
    }

    method Insert(value: T) returns (h: Handle)
      requires Valid(State())
      modifies this
      ensures old(HeadIsTombstone(State())) && Valid(State()) && (State(), h) == Inserted(old(State()), value)
    {
      InsertKeepsValid(State(), value);
      if freeHead.Some? {
        var index := freeHead.value;
        var slot := slots[index];
        freeHead := slot.state.next;
        slots := slots[index := Slot(slot.generation, Occupied(value, false))];
        live := live + 1;
        free := free - 1;
        return Handle(index, slot.generation);
      }
      h := Handle(|slots|, 0);
      slots := slots + [Slot(0, Occupied(value, false))];
      live := live + 1;
    }

    method Get(h: Handle) returns (found: Option<T>)
      ensures found == Lookup(State(), h)
    {
      if h.index >= |slots| || slots[h.index].generation != h.generation {
        return None;
      }
      match slots[h.index].state
      case Occupied(value, _) => return Some(value);
      case Tombstone(_) => return None;
      case Retired => return None;
    }

    /** Ok tells whether the record was unmarked; Err means the handle is stale. */
    method Mark(h: Handle) returns (r: Result<bool, ()>)
      requires Valid(State())
      modifies this
      ensures Valid(State()) && State() == WithMark(old(State()), h)
      ensures r == if Resolves(old(State()), h) then Ok(!Marked(old(State()), h)) else Err(())
    {
      if h.index >= |slots| || slots[h.index].generation != h.generation || !slots[h.index].state.Occupied? {
        return Err(());
      }
      var state := slots[h.index].state;
      var marked := Slot(h.generation, Occupied(state.value, true));
      OccupiedUpdateKeepsValid(State(), h.index, marked);
      slots := slots[h.index := marked];
      return Ok(!state.marked);
    }

    method ClearMarks()
      requires Valid(State())
      modifies this
      ensures Valid(State()) && State() == Unmarked(old(State()))
    {
      UnmarkKeepsValid(State());
      for i := 0 to |slots|
        invariant |slots| == |old(slots)|
        invariant State() == old(State()).(slots := slots)
        invariant forall k :: 0 <= k < i ==> slots[k] == UnmarkedSlot(old(slots)[k])
        invariant forall k :: i <= k < |slots| ==> slots[k] == old(slots)[k]
      {
        if slots[i].state.Occupied? {
          slots := slots[i := Slot(slots[i].generation, Occupied(slots[i].state.value, false))];
        }
      }
      assert slots == Unmarked(old(State())).slots;
    }

    /** One slot of the sweep, and whether its record was reclaimed. */
    method SweepSlot(k: nat) returns (reclaimed: nat)
      requires k < |slots|
      modifies this
      ensures State() == SweptSlot(old(State()), k)
      ensures reclaimed == old(live) - live
    {
      reclaimed := 0;
      var slot := slots[k];
      if slot.state.Occupied? && slot.state.marked {
        slots := slots[k := Slot(slot.generation, Occupied(slot.state.value, false))];
      } else if slot.state.Occupied? {
        if slot.generation < MAX_GENERATION {
          slots := slots[k := Slot(slot.generation + 1, Tombstone(freeHead))];
          freeHead := Some(k);
          free := free + 1;
        } else {
          slots := slots[k := Slot(slot.generation, Retired)];
          retired := retired + 1;
        }
        live := live - 1;
        reclaimed := 1;
      }
    }

    method Sweep() returns (reclaimed: nat)
      requires Valid(State())
      modifies this
      ensures Valid(State()) && State() == Swept(old(State()))
      ensures reclaimed == old(live) - live
    {
      ghost var before := State();
      SweepingKeepsValid(before, |slots|);
      hide Valid;
      reclaimed := 0;
      for k := 0 to |slots|
        invariant |slots| == |before.slots|
        invariant State() == SweptTo(before, k)
        invariant reclaimed == before.live - live
      {
        hide SweptSlot;
        var one := SweepSlot(k);
        reclaimed := reclaimed + one;
      }
    }
  }
}
