/**
 The planner's in-place resolution of one line: loops over a slice of the item
 array, charging a work budget before each loop, proved equal to FlexResolve.
 */
module FlexResolver {
  import opened Outcomes
  import opened FlexItems
  import opened FlexResolve

  class FlexWorkBudget {
    const limit: nat
    var used: nat

    constructor (limit: nat)
      ensures this.limit == limit && used == 0
    {
      this.limit := limit;
      used := 0;
    }

    /** Charges a complete loop before the loop changes anything. */
    method Charge(amount: nat) returns (r: Result<(), FlexError>)
      modifies this
      ensures r.Ok? <==> old(used) + amount <= limit
      ensures r.Ok? ==> used == old(used) + amount
      ensures r.Err? ==> r.error == WorkLimitExceeded(limit) && used == old(used)
    {
      if used + amount > limit {
        return Err(WorkLimitExceeded(limit));
      }
      used := used + amount;
      return Ok(());
    }
  }

  /** Work that is always enough to resolve a line of n items. */
  function WorkBound(n: nat): nat {
    7 * (n * n) + 10 * n
  }

  predicate Failed<T>(r: Result<T, FlexError>) {
    r.Err? && r.error == ArithmeticOverflow
  }

  /** The budget stopped the work, and it could only do so because it cannot cover `needed`. */
  predicate OutOfWork<T>(r: Result<T, FlexError>, needed: nat, budget: FlexWorkBudget) {
    r.Err? && r.error == WorkLimitExceeded(budget.limit) && budget.limit < needed
  }

  function TurnWork(line: Line, items: seq<WorkingItem>): nat {
    if AllFrozen(items) || Rigid(line, items) then 5 * |items| else 7 * |items|
  }

  method SumItemSizes(items: array<WorkingItem>, gap: int, size: WorkingItem -> int) returns (r: Result<int, FlexError>)
    ensures r.Ok? ==> r.value == Occupied(items[..], gap, size)
    ensures r.Err? ==> Failed(r)
  {
    ghost var slice := items[..];
    var sum := gap;
    for i := 0 to items.Length
      invariant sum == Occupied(slice[..i], gap, size)
    {
      SumStep(slice, i, size);
      SumStep(slice, i, Outer);
      sum :- CheckedAdd(sum, size(items[i]));
      sum :- CheckedAdd(sum, items[i].main.outer);
    }
    assert slice[..items.Length] == slice;
    return Ok(sum);
  }

  method RemainingFreeSpace(items: array<WorkingItem>, available: int, gap: int) returns (r: Result<int, FlexError>)
    ensures r.Ok? ==> r.value == FreeSpace(items[..], available, gap)
    ensures r.Err? ==> Failed(r)
  {
    var used :- SumItemSizes(items, gap, Tentative);
    return CheckedSub(available, used);
  }

  /** Sums factors (weighted == false) or weights over the unfrozen items. */
  method SumUnfrozen(items: array<WorkingItem>, growing: bool, weighted: bool) returns (r: Result<int, FlexError>)
    ensures r.Ok? ==> r.value == Sum(items[..], if weighted then WeightOf(growing) else FactorOf(growing))
    ensures r.Err? ==> Failed(r)
  {
    ghost var measure := if weighted then WeightOf(growing) else FactorOf(growing);
    ghost var slice := items[..];
    var sum := 0;
    for i := 0 to items.Length
      invariant sum == Sum(slice[..i], measure)
    {
      SumStep(slice, i, measure);
      if !items[i].frozen {
        var term := Factor(items[i].main, growing);
        if weighted {
          var weight :- CheckedWeight(items[i], growing);
          sum :- CheckedAdd(sum, weight);
        } else {
          sum :- CheckedAdd(sum, term);
        }
      }
    }
    assert slice[..items.Length] == slice;
    return Ok(sum);
  }

  function CheckedWeight(item: WorkingItem, growing: bool): (r: Result<int, FlexError>)
    ensures r.Ok? ==> r.value == FlexWeight(item, growing)
    ensures r.Err? ==> r.error == ArithmeticOverflow
  {
    if growing then Ok(Factor(item.main, growing)) else CheckedMul(Factor(item.main, growing), item.main.base)
  }

  /** The cumulative weight, the cumulative share and the target after one more unfrozen item. */
  function NextShare(item: WorkingItem, growing: bool, free: int, weight: int, share: int, weights: int)
    : (r: Result<(int, int, int), FlexError>)
    requires weights != 0
    ensures r.Ok? ==>
      && r.value.0 == weight + FlexWeight(item, growing)
      && r.value.1 == TruncDiv(free * r.value.0, weights)
      && r.value.2 == item.main.base + r.value.1 - share
    ensures r.Err? ==> r.error == ArithmeticOverflow
  {
    var own :- CheckedWeight(item, growing);
    var nextWeight :- CheckedAdd(weight, own);
    var product :- CheckedMul(free, nextWeight);
    var nextShare := TruncDiv(product, weights);
    var difference :- CheckedSub(nextShare, share);
    var target :- CheckedAdd(item.main.base, difference);
    Ok((nextWeight, nextShare, target))
  }

  method AnyUnfrozen(items: array<WorkingItem>) returns (any: bool)
    ensures any == !AllFrozen(items[..])
  {
    for i := 0 to items.Length
      invariant forall k :: 0 <= k < i ==> items[k].frozen
    {
      if !items[i].frozen {
        assert !items[..][i].frozen;
        return true;
      }
    }
    return false;
  }

  /** Resets every item and freezes the inflexible ones at their hypothetical size. */
  method Start(items: array<WorkingItem>, growing: bool)
    modifies items
    ensures items[..] == StartedAll(old(items[..]), growing)
  {
    ghost var slice := items[..];
    for i := 0 to items.Length
      invariant forall k :: i <= k < items.Length ==> items[k] == old(items[k])
      invariant forall k :: 0 <= k < i ==>
        items[k] == old(items[k]).(target := old(items[k]).main.base, frozen := false)
    {
      items[i] := items[i].(target := items[i].main.base, frozen := false);
    }
    for i := 0 to items.Length
      invariant forall k :: 0 <= k < i ==> items[k] == Started(slice[k], growing)
      invariant forall k :: i <= k < items.Length ==>
                  items[k] == old(items[k]).(target := old(items[k]).main.base, frozen := false)
    {
      if Inflexible(items[i], growing) {
        items[i] := items[i].(target := items[i].hypothetical, frozen := true);
      }
    }
  }

  method FreezeAtHypothetical(items: array<WorkingItem>)
    modifies items
    ensures items[..] == AllAtHypothetical(old(items[..]))
  {
    for i := 0 to items.Length
      invariant forall k :: i <= k < items.Length ==> items[k] == old(items[k])
      invariant forall k :: 0 <= k < i ==> items[k] == AtHypothetical(old(items[k]))
    {
      if !items[i].frozen {
        items[i] := items[i].(target := items[i].hypothetical, frozen := true);
      }
    }
  }

  lemma NothingSharedYet(items: seq<WorkingItem>, growing: bool, free: int)
    requires Sum(items, WeightOf(growing)) != 0
    ensures Sum(items[..0], WeightOf(growing)) == 0 == CumulativeShare(items, growing, free, 0)
  {
    assert free * 0 == 0;
  }

  /** How the running weight of ShareOut moves over item i. */
  lemma WeightStep(items: seq<WorkingItem>, growing: bool, i: nat)
    requires i < |items|
    ensures Sum(items[..i + 1], WeightOf(growing))
         == Sum(items[..i], WeightOf(growing)) + if items[i].frozen then 0 else FlexWeight(items[i], growing)
  {
    SumStep(items, i, WeightOf(growing));
  }

  /** Cumulative division hands the remainder out deterministically and loses nothing. */
  method ShareOut(items: array<WorkingItem>, growing: bool, free: int, weights: int) returns (r: Result<(), FlexError>)
    requires weights == Sum(items[..], WeightOf(growing)) != 0
    modifies items
    ensures r.Ok? ==> items[..] == Distributed(old(items[..]), growing, free)
    ensures r.Err? ==> Failed(r)
  {
    ghost var slice := items[..];
    ghost var goal := Distributed(slice, growing, free);
    NothingSharedYet(slice, growing, free);
    hide TruncDiv;
    hide Sum;
    var cumulativeWeight, cumulativeShare := 0, 0;
    for i := 0 to items.Length
      invariant cumulativeWeight == Sum(slice[..i], WeightOf(growing))
      invariant cumulativeShare == CumulativeShare(slice, growing, free, i)
      invariant forall k :: i <= k < items.Length ==> items[k] == old(items[k])
      invariant forall k :: 0 <= k < i ==> items[k] == goal[k]
    {
      WeightStep(slice, growing, i);
      assert goal[i] == Shared(slice, growing, free, i);
      if !items[i].frozen {
        var next :- NextShare(items[i], growing, free, cumulativeWeight, cumulativeShare, weights);
        cumulativeWeight, cumulativeShare := next.0, next.1;
        items[i] := items[i].(target := next.2);
      }
    }
    return Ok(());
  }

  function Clamped(item: WorkingItem): WorkingItem {
    if item.frozen then item else item.(target := Clamp(item.main, item.target))
  }

  /** Clamps the unfrozen targets, recording each violation and their total. */
  method ClampTargets(items: array<WorkingItem>) returns (r: Result<(int, seq<int>), FlexError>)
    modifies items
    ensures r.Ok? ==>
      && r.value.0 == Sum(old(items[..]), Violation)
      && |r.value.1| == items.Length
      && (forall k :: 0 <= k < items.Length ==> r.value.1[k] == Violation(old(items[k])))
      && (forall k :: 0 <= k < items.Length ==> items[k] == Clamped(old(items[k])))
    ensures r.Err? ==> Failed(r)
  {
    ghost var slice := items[..];
    var total, violations := 0, [];
    for i := 0 to items.Length
      invariant |violations| == i
      invariant total == Sum(slice[..i], Violation)
      invariant forall k :: i <= k < items.Length ==> items[k] == old(items[k])
      invariant forall k :: 0 <= k < i ==> violations[k] == Violation(old(items[k]))
      invariant forall k :: 0 <= k < i ==> items[k] == Clamped(old(items[k]))
    {
      SumStep(slice, i, Violation);
      if items[i].frozen {
        violations := violations + [0];
      } else {
        var unclamped := items[i].target;
        items[i] := items[i].(target := Clamp(items[i].main, unclamped));
        var violation :- CheckedSub(items[i].target, unclamped);
        total :- CheckedAdd(total, violation);
        violations := violations + [violation];
      }
    }
    assert slice[..items.Length] == slice;
    return Ok((total, violations));
  }

  /** One clamp-and-freeze step of a pass. */
  method Settle(items: array<WorkingItem>, budget: FlexWorkBudget) returns (r: Result<(), FlexError>)
    modifies items, budget
    ensures r.Ok? ==> items[..] == Settled(old(items[..])) && budget.used == old(budget.used) + 2 * items.Length
    ensures r.Err? ==> Failed(r) || OutOfWork(r, old(budget.used) + 2 * items.Length, budget)
  {
    ghost var slice := items[..];
    var _ :- budget.Charge(items.Length);
    var clamped :- ClampTargets(items);
    var (total, violations) := clamped;
    ghost var middle := items[..];
    var _ :- budget.Charge(items.Length);
    for i := 0 to items.Length
      modifies items
      invariant |middle| == items.Length
      invariant forall k :: i <= k < items.Length ==> items[k] == middle[k]
      invariant forall k :: 0 <= k < i ==> items[k] == SettledItem(slice[k], total)
    {
      if !items[i].frozen {
        var violation := violations[i];
        var freeze := total == 0 || (total > 0 && violation > 0) || (total < 0 && violation < 0);
        if freeze {
          items[i] := items[i].(frozen := true);
        }
      }
    }
    assert forall k :: 0 <= k < items.Length ==> items[..][k] == Settled(slice)[k];
    return Ok(());
  }

  /** The space to share, with the fractional-factor rule applied. */
  method FreeToShare(items: array<WorkingItem>, line: Line, factors: int) returns (r: Result<int, FlexError>)
    requires factors == Sum(items[..], FactorOf(line.growing))
    ensures r.Ok? ==> r.value == SpaceToShare(line, items[..])
    ensures r.Err? ==> Failed(r)
  {
    var free :- RemainingFreeSpace(items, line.available, line.gap);
    if factors < FACTOR_ONE {
      var product :- CheckedMul(line.initialFree, factors);
      var scaled := TruncDiv(product, FACTOR_ONE);
      if Abs(scaled) < Abs(free) {
        free := scaled;
      }
    }
    return Ok(free);
  }

  /** Charges and computes what a pass needs to know: whether it can run, the space and the weights. */
  method Measure(items: array<WorkingItem>, line: Line, budget: FlexWorkBudget)
    returns (r: Result<(bool, int, int), FlexError>)
    modifies budget
    ensures r.Ok? ==>
      var (flexes, free, weights) := r.value;
      && flexes == !Rigid(line, items[..])
      && budget.used <= old(budget.used) + 3 * items.Length
      && (flexes ==> free == SpaceToShare(line, items[..]) && weights == Sum(items[..], WeightOf(line.growing)) != 0
                     && budget.used == old(budget.used) + 3 * items.Length)
    ensures r.Err? ==> Failed(r) || OutOfWork(r, old(budget.used) + 3 * items.Length, budget)
  {
    var n := items.Length;
    var _ :- budget.Charge(n);
    var factors :- SumUnfrozen(items, line.growing, false);
    if factors == 0 {
      return Ok((false, 0, 0));
    }
    var _ :- budget.Charge(n);
    var free :- FreeToShare(items, line, factors);
    var _ :- budget.Charge(n);
    var weights :- SumUnfrozen(items, line.growing, true);
    return Ok((weights != 0, free, weights));
  }

  /** One turn of the freezing loop: a full pass (true), or the turn that ends the loop (false). */
  method Turn(items: array<WorkingItem>, line: Line, budget: FlexWorkBudget) returns (r: Result<bool, FlexError>)
    modifies items, budget
    ensures r.Ok? && r.value ==>
      && !AllFrozen(old(items[..])) && !Rigid(line, old(items[..]))
      && items[..] == Pass(line, old(items[..]))
      && budget.used == old(budget.used) + 7 * items.Length
    ensures r.Ok? && !r.value ==>
      && (AllFrozen(old(items[..])) || Rigid(line, old(items[..])))
      && items[..] == Resolve(line, old(items[..]))
      && budget.used <= old(budget.used) + 5 * items.Length
    ensures r.Err? ==> Failed(r) || OutOfWork(r, old(budget.used) + TurnWork(line, old(items[..])), budget)
  {
    var n := items.Length;
    var _ :- budget.Charge(n);
    var unfrozen := AnyUnfrozen(items);
    if !unfrozen {
      return Ok(false);
    }
    var measured :- Measure(items, line, budget);
    var (flexes, free, weights) := measured;
    var _ :- budget.Charge(n);
    if !flexes {
      FreezeAtHypothetical(items);
      return Ok(false);
    }
    var _ :- ShareOut(items, line.growing, free, weights);
    var _ :- Settle(items, budget);
    return Ok(true);
  }

  /** The freezing loop; the engine's guard would reject more than one pass beyond the number of items. */
  method FreezeLoop(items: array<WorkingItem>, line: Line, budget: FlexWorkBudget)
    returns (r: Result<nat, FlexError>)
    modifies items, budget
    ensures r.Ok? ==>
      && items[..] == Resolve(line, old(items[..]))
      && r.value == Passes(line, old(items[..])) <= items.Length
      && budget.used <= old(budget.used) + 7 * (items.Length * items.Length) + 5 * items.Length
    ensures r.Err? ==>
      Failed(r) || OutOfWork(r, old(budget.used) + 7 * (items.Length * items.Length) + 5 * items.Length, budget)
  {
    var n := items.Length;
    ghost var start := budget.used;
    ghost var slice := items[..];
    var passes := 0;
    PassesBounded(line, slice);
    while true
      invariant Resolve(line, items[..]) == Resolve(line, slice)
      invariant passes + Passes(line, items[..]) == Passes(line, slice) <= n
      invariant budget.used == start + 7 * (n * passes)
      decreases Passes(line, items[..])
    {
      BoundStep(n, passes, Passes(line, items[..]));
      var again :- Turn(items, line, budget);
      if !again {
        return Ok(passes);
      }
      assert n * (passes + 1) == n * passes + n;
      passes := passes + 1;
    }
  }

  /** Resolves one line in place; the value is the line's main size. */
  method ResolveFlexibleLengths(items: array<WorkingItem>, gap: int, mainSize: Option<int>, budget: FlexWorkBudget)
    returns (r: Result<int, FlexError>)
    modifies items, budget
    ensures r.Ok? ==>
      && items[..] == ResolveLine(old(items[..]), gap, mainSize)
      && r.value == (if mainSize.Some? then mainSize.value else Occupied(items[..], gap, Target))
      && budget.used <= old(budget.used) + WorkBound(items.Length)
    ensures r.Err? ==> Failed(r) || OutOfWork(r, old(budget.used) + WorkBound(items.Length), budget)
  {
    hide Resolve;
    hide StartedAll;
    hide Sum;
    var n := items.Length;
    ghost var slice := items[..];
    var _ :- budget.Charge(n);
    var hypothetical :- SumItemSizes(items, gap, Hypothetical);
    var available := if mainSize.Some? then mainSize.value else hypothetical;
    var growing := hypothetical < available;
    var _ :- budget.Charge(n);
    var _ :- budget.Charge(n);
    Start(items, growing);
    var _ :- budget.Charge(n);
    var initialFree :- RemainingFreeSpace(items, available, gap);
    var line := Line(growing, available, gap, initialFree);
    assert line == LineOf(slice, gap, mainSize);

    var _ :- FreezeLoop(items, line, budget);
    var _ :- budget.Charge(n);
    var used :- SumItemSizes(items, gap, Target);
    return Ok(if mainSize.Some? then mainSize.value else used);
  }

  lemma BoundStep(n: nat, passes: nat, left: nat)
    requires passes + left <= n
    ensures n * passes + n * left <= n * n
    ensures left > 0 ==> n * passes + n <= n * n
  {
    assert n * passes + n * left == n * (passes + left);
    MulOrder(n, passes + left, n);
    if left > 0 {
      MulOrder(n, 1, left);
    }
  }
}
