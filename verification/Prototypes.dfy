/** Prototype chains: lookup along a chain, and the cycle check that keeps the chains finite. */
module Prototypes {
  import opened Outcomes
  import opened HeapRecords
  import opened ObjectModel

  const MAX_PROTOTYPE_CHAIN: nat := 1024

  /** Every object and function of the realm, by reference. */
  type Objects = map<RawValue, ObjectRecord>

  function Proto(h: Objects, x: RawValue): Option<RawValue> {
    if x in h then h[x].data.prototype else None
  }

  /** A prototype is an object of the realm and ranks below what inherits from it. */
  ghost predicate Ranked(h: Objects, rank: map<RawValue, nat>) {
    && (forall x :: x in h ==> x in rank)
    && (forall x :: x in h && Proto(h, x).Some? ==> Proto(h, x).value in h && rank[Proto(h, x).value] < rank[x])
  }

  /** No chain of prototypes meets itself, and no chain leaves the realm. */
  ghost predicate Acyclic(h: Objects) {
    exists rank :: Ranked(h, rank)
  }

  // ---- lookup ----------------------------------------------------------------------------

  datatype ChainError = StaleHandle | ChainTooLong

  /** The first own descriptor among the first `steps` objects of a chain. */
  function Find(h: Objects, x: RawValue, key: PropertyKey, steps: nat): Result<Option<PropertyDescriptor>, ChainError>
    decreases steps
  {
    if steps == 0 then Err(ChainTooLong)
    else if x !in h then Err(StaleHandle)
    else if Own(h[x], key).Some? then Ok(Own(h[x], key))
    else if Proto(h, x).None? then Ok(None)
    else Find(h, Proto(h, x).value, key, steps - 1)
  }

  /** The object `n` prototypes up from `x`. */
  function Nth(h: Objects, x: RawValue, n: nat): (r: Option<RawValue>)
    ensures r.Some? ==> r.value in h
    decreases n
  {
    if x !in h then None
    else if n == 0 then Some(x)
    else if Proto(h, x).None? then None
    else Nth(h, Proto(h, x).value, n - 1)
  }

  ghost predicate Lacks(h: Objects, x: RawValue, key: PropertyKey, n: nat) {
    Nth(h, x, n).Some? ==> Own(h[Nth(h, x, n).value], key).None?
  }

  ghost predicate LacksBelow(h: Objects, x: RawValue, key: PropertyKey, n: nat) {
    forall m: nat :: m < n ==> Lacks(h, x, key, m)
  }

  /** The nearest object of the chain that has the key, and how far up it is. */
  ghost predicate Nearest(h: Objects, x: RawValue, key: PropertyKey, n: nat, d: PropertyDescriptor) {
    Nth(h, x, n).Some? && Own(h[Nth(h, x, n).value], key) == Some(d) && LacksBelow(h, x, key, n)
  }

  ghost predicate FoundWithin(h: Objects, x: RawValue, key: PropertyKey, steps: nat, d: PropertyDescriptor) {
    exists n: nat :: n < steps && Nearest(h, x, key, n, d)
  }

  lemma LacksFurther(h: Objects, x: RawValue, key: PropertyKey, n: nat)
    requires x in h && Proto(h, x).Some? && Own(h[x], key).None? && LacksBelow(h, Proto(h, x).value, key, n)
    ensures LacksBelow(h, x, key, n + 1)
  {
    forall m: nat | m < n + 1
      ensures Lacks(h, x, key, m)
    {
      if m > 0 {
        assert Lacks(h, Proto(h, x).value, key, m - 1);
      }
    }
  }

  /**
   A lookup gives the property of the nearest object that has it, no property if the whole chain has none, and fails
   only when the chain is longer than the bound and has the key in none of its first objects.
   */
  lemma {:induction false} FindIsNearest(h: Objects, x: RawValue, key: PropertyKey, steps: nat)
    requires Acyclic(h) && x in h
    ensures match Find(h, x, key, steps)
            case Ok(Some(d)) => FoundWithin(h, x, key, steps, d)
            case Ok(None) => LacksBelow(h, x, key, steps) && Nth(h, x, steps).None?
            case Err(e) => e == ChainTooLong && LacksBelow(h, x, key, steps) && Nth(h, x, steps).Some?
    decreases steps
  {
    if steps > 0 {
      if Own(h[x], key).Some? {
        var d, n: nat := Own(h[x], key).value, 0;
        assert Nearest(h, x, key, n, d);
        assert FoundWithin(h, x, key, steps, d);
      } else if Proto(h, x).Some? {
        var rank :| Ranked(h, rank);
        var up := Proto(h, x).value;
        FindIsNearest(h, up, key, steps - 1);
        match Find(h, up, key, steps - 1) {
          case Ok(Some(d)) =>
            var n: nat :| n < steps - 1 && Nearest(h, up, key, n, d);
            LacksFurther(h, x, key, n);
            assert Nearest(h, x, key, n + 1, d);
            assert FoundWithin(h, x, key, steps, d);
          case _ =>
            LacksFurther(h, x, key, steps - 1);
        }
      } else {
        assert forall m: nat :: m < steps ==> Lacks(h, x, key, m);
      }
    }
  }

  /** The engine's walk with its visited set, which in an acyclic realm never fires. */
  method FindProperty(h: Objects, start: RawValue, key: PropertyKey)
    returns (r: Result<Option<PropertyDescriptor>, ChainError>)
    requires Acyclic(h)
    ensures r == Find(h, start, key, MAX_PROTOTYPE_CHAIN)
  {
    ghost var rank :| Ranked(h, rank);
    var x, visited, left: nat := start, {}, MAX_PROTOTYPE_CHAIN;
    while left > 0
      invariant left <= MAX_PROTOTYPE_CHAIN
      invariant Find(h, start, key, MAX_PROTOTYPE_CHAIN) == Find(h, x, key, left)
      invariant forall v :: v in visited ==> x in h && v in h && rank[x] < rank[v]
    {
      if x in visited {
        assert false;
        return Err(ChainTooLong);
      }
      visited := visited + {x};
      if x !in h {
        return Err(StaleHandle);
      }
      if Own(h[x], key).Some? {
        return Ok(Own(h[x], key));
      }
      if Proto(h, x).None? {
        return Ok(None);
      }
      x := Proto(h, x).value;
      left := left - 1;
    }
    r := Err(ChainTooLong);
  }

  // ---- changing a prototype -----------------------------------------------------------------

  /** Whether the chain from `candidate` ends, without meeting `target`, before the steps run out. */
  function Walk(h: Objects, candidate: Option<RawValue>, target: RawValue, steps: nat): Result<bool, ChainError>
    decreases steps
  {
    if steps == 0 then Ok(false)
    else if candidate.None? then Ok(true)
    else if candidate.value == target then Ok(false)
    else if candidate.value !in h then Err(StaleHandle)
    else Walk(h, Proto(h, candidate.value), target, steps - 1)
  }

  datatype ChangedPrototype = ChangedPrototype(objects: Objects, accepted: bool)

  function SetPrototype(h: Objects, target: RawValue, prototype: Option<RawValue>)
    : Result<ChangedPrototype, ChainError>
  {
    if target !in h then Err(StaleHandle)
    else if h[target].data.prototype == prototype then Ok(ChangedPrototype(h, true))
    else if !h[target].data.extensible then Ok(ChangedPrototype(h, false))
    else match Walk(h, prototype, target, MAX_PROTOTYPE_CHAIN)
      case Err(e) => Err(e)
      case Ok(ends) => Ok(ChangedPrototype(if ends then Reparented(h, target, prototype) else h, ends))
  }

  function Reparented(h: Objects, target: RawValue, prototype: Option<RawValue>): Objects
    requires target in h
  {
    h[target := h[target].(data := h[target].data.(prototype := prototype))]
  }

  /** Whether `x` is `target` or has it on its chain. */
  ghost predicate Inherits(h: Objects, rank: map<RawValue, nat>, x: RawValue, target: RawValue)
    requires Ranked(h, rank) && x in h
    decreases rank[x]
  {
    x == target || (Proto(h, x).Some? && Inherits(h, rank, Proto(h, x).value, target))
  }

  /** The walk ends well exactly when it does not meet the target and the chain is short enough. */
  lemma {:induction false} WalkIsExact(h: Objects, rank: map<RawValue, nat>, x: RawValue, target: RawValue, steps: nat)
    requires Ranked(h, rank) && x in h && steps > 0
    ensures Walk(h, Some(x), target, steps) == Ok(!Inherits(h, rank, x, target) && Nth(h, x, steps - 1).None?)
    decreases steps
  {
    if x != target && Proto(h, x).Some? && steps > 1 {
      WalkIsExact(h, rank, Proto(h, x).value, target, steps - 1);
    }
  }

  /** An extensible object takes a prototype exactly when that closes no cycle and the chain stays within the bound. */
  lemma AcceptanceIsExact(h: Objects, rank: map<RawValue, nat>, target: RawValue, prototype: RawValue)
    requires Ranked(h, rank) && target in h && prototype in h && h[target].data.extensible
    requires h[target].data.prototype != Some(prototype)
    ensures var r := SetPrototype(h, target, Some(prototype));
            && r.Ok?
            && (r.value.accepted <==>
                  !Inherits(h, rank, prototype, target) && Nth(h, prototype, MAX_PROTOTYPE_CHAIN - 1).None?)
  {
    WalkIsExact(h, rank, prototype, target, MAX_PROTOTYPE_CHAIN);
  }

  /** The ranks after `target` is put below `prototype`: everything that inherits from it moves up together. */
  ghost function Lifted(h: Objects, rank: map<RawValue, nat>, target: RawValue, height: nat): map<RawValue, nat>
    requires Ranked(h, rank)
  {
    map x | x in h :: if Inherits(h, rank, x, target) then rank[x] + height else rank[x]
  }

  lemma ReparentingKeepsRanks(h: Objects, rank: map<RawValue, nat>, target: RawValue, prototype: RawValue)
    requires Ranked(h, rank) && target in h && prototype in h && !Inherits(h, rank, prototype, target)
    ensures Ranked(Reparented(h, target, Some(prototype)), Lifted(h, rank, target, rank[prototype] + 1))
  {
    var after, lifted := Reparented(h, target, Some(prototype)), Lifted(h, rank, target, rank[prototype] + 1);
    forall x | x in after && Proto(after, x).Some?
      ensures Proto(after, x).value in after && lifted[Proto(after, x).value] < lifted[x]
    {
      if x == target {
        assert Inherits(h, rank, target, target);
      } else {
        assert Proto(after, x) == Proto(h, x);
      }
    }
  }

  /** Changing a prototype never closes a cycle. */
  lemma SetPrototypeKeepsAcyclic(h: Objects, target: RawValue, prototype: Option<RawValue>)
    requires Acyclic(h) && SetPrototype(h, target, prototype).Ok?
    ensures Acyclic(SetPrototype(h, target, prototype).value.objects)
  {
    var rank :| Ranked(h, rank);
    var after := SetPrototype(h, target, prototype).value.objects;
    if after != h {
      if prototype.None? {
        assert forall x :: x in after && x != target ==> Proto(after, x) == Proto(h, x);
        assert Ranked(after, rank);
      } else {
        WalkIsExact(h, rank, prototype.value, target, MAX_PROTOTYPE_CHAIN);
        ReparentingKeepsRanks(h, rank, target, prototype.value);
      }
    }
  }

  /** The engine's walk over the candidate's chain, again with a visited set. */
  method WalkPrototypes(h: Objects, prototype: Option<RawValue>, target: RawValue) returns (r: Result<bool, ChainError>)
    requires Acyclic(h)
    ensures r == Walk(h, prototype, target, MAX_PROTOTYPE_CHAIN)
  {
    ghost var rank :| Ranked(h, rank);
    var candidate, visited, left: nat := prototype, {}, MAX_PROTOTYPE_CHAIN;
    while left > 0
      invariant left <= MAX_PROTOTYPE_CHAIN
      invariant Walk(h, prototype, target, MAX_PROTOTYPE_CHAIN) == Walk(h, candidate, target, left)
      invariant candidate.Some? ==>
        forall v :: v in visited ==> candidate.value in h && v in h && rank[candidate.value] < rank[v]
    {
      if candidate.None? {
        return Ok(true);
      }
      var x := candidate.value;
      if x == target || x in visited {
        return Ok(false);
      }
      visited := visited + {x};
      if x !in h {
        return Err(StaleHandle);
      }
      candidate := Proto(h, x);
      left := left - 1;
    }
    r := Ok(false);
  }
}
