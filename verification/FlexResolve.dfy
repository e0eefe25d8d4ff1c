/**
 Section 9.7 of CSS Flexible Box Layout Level 1 over integer app units: the
 freezing loop as a function of the items of one line, and what it guarantees.
 */
module FlexResolve {
  import opened Outcomes
  import opened FlexItems

  /** What stays fixed while one line is resolved. */
  datatype Line = Line(growing: bool, available: int, gap: int, initialFree: int)

  function FreeSpace(items: seq<WorkingItem>, available: int, gap: int): int {
    available - Occupied(items, gap, Tentative)
  }

  /** The space one pass hands out: all that is left, or less when the factors sum to less than one. */
  function SpaceToShare(line: Line, items: seq<WorkingItem>): int {
    var free := FreeSpace(items, line.available, line.gap);
    var factors := Sum(items, FactorOf(line.growing));
    var scaled := TruncDiv(line.initialFree * factors, FACTOR_ONE);
    if factors < FACTOR_ONE && Abs(scaled) < Abs(free) then scaled else free
  }

  /** The rounded share of the first k items together. */
  function CumulativeShare(items: seq<WorkingItem>, growing: bool, free: int, k: nat): int
    requires k <= |items| && Sum(items, WeightOf(growing)) != 0
  {
    TruncDiv(free * Sum(items[..k], WeightOf(growing)), Sum(items, WeightOf(growing)))
  }

  /** Item i's share: the difference of two rounded cumulative shares. */
  function Share(items: seq<WorkingItem>, growing: bool, free: int, i: nat): int
    requires i < |items| && Sum(items, WeightOf(growing)) != 0
  {
    CumulativeShare(items, growing, free, i + 1) - CumulativeShare(items, growing, free, i)
  }

  function Shared(items: seq<WorkingItem>, growing: bool, free: int, i: nat): WorkingItem
    requires i < |items| && Sum(items, WeightOf(growing)) != 0
  {
    if items[i].frozen then items[i] else items[i].(target := items[i].main.base + Share(items, growing, free, i))
  }

  function Distributed(items: seq<WorkingItem>, growing: bool, free: int): (shared: seq<WorkingItem>)
    requires Sum(items, WeightOf(growing)) != 0
    ensures |shared| == |items|
  {
    seq(|items|, i requires 0 <= i < |items| => Shared(items, growing, free, i))
  }

  /** An unfrozen item is clamped, and frozen when its violation has the sign of the total violation. */
  function SettledItem(item: WorkingItem, total: int): WorkingItem {
    if item.frozen then item
    else
      var freeze := total == 0 || (total > 0 && Violation(item) > 0) || (total < 0 && Violation(item) < 0);
      item.(target := Clamp(item.main, item.target), frozen := freeze)
  }

  function Settled(items: seq<WorkingItem>): (settled: seq<WorkingItem>)
    ensures |settled| == |items|
  {
    seq(|items|, i requires 0 <= i < |items| => SettledItem(items[i], Sum(items, Violation)))
  }

  function Pass(line: Line, items: seq<WorkingItem>): (next: seq<WorkingItem>)
    requires Sum(items, WeightOf(line.growing)) != 0
    ensures |next| == |items|
  {
    Settled(Distributed(items, line.growing, SpaceToShare(line, items)))
  }

  function AtHypothetical(item: WorkingItem): WorkingItem {
    if item.frozen then item else item.(target := item.hypothetical, frozen := true)
  }

  function AllAtHypothetical(items: seq<WorkingItem>): (next: seq<WorkingItem>)
    ensures |next| == |items|
  {
    seq(|items|, i requires 0 <= i < |items| => AtHypothetical(items[i]))
  }

  predicate AllFrozen(items: seq<WorkingItem>) {
    forall i :: 0 <= i < |items| ==> items[i].frozen
  }

  /** No item can flex: the weights (or factors) of the unfrozen items sum to zero. */
  predicate Rigid(line: Line, items: seq<WorkingItem>) {
    Sum(items, FactorOf(line.growing)) == 0 || Sum(items, WeightOf(line.growing)) == 0
  }

  /** The freezing loop, from the state it has reached to the end. */
  function Resolve(line: Line, items: seq<WorkingItem>): (resolved: seq<WorkingItem>)
    ensures |resolved| == |items|
    decreases Sum(items, Unfrozen)
  {
    if AllFrozen(items) then items
    else if Rigid(line, items) then AllAtHypothetical(items)
    else
      PassFreezesAnItem(line, items);
      Resolve(line, Pass(line, items))
  }

  /** The number of full passes the loop runs. */
  function Passes(line: Line, items: seq<WorkingItem>): nat
    decreases Sum(items, Unfrozen)
  {
    if AllFrozen(items) || Rigid(line, items) then 0
    else
      PassFreezesAnItem(line, items);
      1 + Passes(line, Pass(line, items))
  }

  function Inflexible(item: WorkingItem, growing: bool): bool {
    || Factor(item.main, growing) == 0
    || (growing && item.main.base > item.hypothetical)
    || (!growing && item.main.base < item.hypothetical)
  }

  function Started(item: WorkingItem, growing: bool): WorkingItem {
    if Inflexible(item, growing) then item.(target := item.hypothetical, frozen := true)
    else item.(target := item.main.base, frozen := false)
  }

  function StartedAll(items: seq<WorkingItem>, growing: bool): (started: seq<WorkingItem>)
    ensures |started| == |items|
  {
    seq(|items|, i requires 0 <= i < |items| => Started(items[i], growing))
  }

  /** The space the line has: the container's main size, or its own hypothetical extent. */
  function AvailableSpace(items: seq<WorkingItem>, gap: int, mainSize: Option<int>): int {
    if mainSize.Some? then mainSize.value else Occupied(items, gap, Hypothetical)
  }

  function Grows(items: seq<WorkingItem>, gap: int, mainSize: Option<int>): bool {
    Occupied(items, gap, Hypothetical) < AvailableSpace(items, gap, mainSize)
  }

  function LineOf(items: seq<WorkingItem>, gap: int, mainSize: Option<int>): Line {
    var growing := Grows(items, gap, mainSize);
    var available := AvailableSpace(items, gap, mainSize);
    Line(growing, available, gap, FreeSpace(StartedAll(items, growing), available, gap))
  }

  /** The whole resolution of one line. */
  function ResolveLine(items: seq<WorkingItem>, gap: int, mainSize: Option<int>): (resolved: seq<WorkingItem>)
    ensures |resolved| == |items|
  {
    var line := LineOf(items, gap, mainSize);
    Resolve(line, StartedAll(items, line.growing))
  }

  /** Items as the planner makes them: the hypothetical size is the clamped base size. */
  predicate Prepared(items: seq<WorkingItem>) {
    forall i :: 0 <= i < |items| ==> items[i].hypothetical == Clamp(items[i].main, items[i].main.base)
  }

  predicate SameItems(a: seq<WorkingItem>, b: seq<WorkingItem>) {
    |a| == |b| && forall i :: 0 <= i < |a| ==> a[i].main == b[i].main && a[i].hypothetical == b[i].hypothetical
  }

  lemma SameItemsKeepOuter(a: seq<WorkingItem>, b: seq<WorkingItem>)
    requires SameItems(a, b)
    ensures Sum(a, Outer) == Sum(b, Outer)
  {
    SumsAgree(a, Outer, b, Outer);
  }

  // ---- termination ---------------------------------------------------------------

  /** Clamping and freezing: with the total violation at zero all freeze, otherwise a violator does. */
  lemma SettlingFreezesAnItem(shared: seq<WorkingItem>)
    requires !AllFrozen(shared)
    ensures 0 <= Sum(Settled(shared), Unfrozen) < Sum(shared, Unfrozen)
  {
    var next := Settled(shared);
    var total := Sum(shared, Violation);
    var at: nat;
    if total == 0 {
      at :| at < |shared| && !shared[at].frozen;
    } else if total > 0 {
      at := PositiveTerm(shared, Violation);
    } else {
      at := NegativeTerm(shared, Violation);
    }
    SumStrict(next, Unfrozen, shared, Unfrozen, at);
    SumNonNegative(next, Unfrozen);
  }

  lemma DistributingKeeps(items: seq<WorkingItem>, growing: bool, free: int)
    requires Sum(items, WeightOf(growing)) != 0
    ensures SameItems(Distributed(items, growing, free), items)
    ensures forall i :: 0 <= i < |items| ==> Distributed(items, growing, free)[i].frozen == items[i].frozen
    ensures Sum(Distributed(items, growing, free), Unfrozen) == Sum(items, Unfrozen)
  {
    SumsAgree(Distributed(items, growing, free), Unfrozen, items, Unfrozen);
  }

  /** Every pass freezes at least one item, so the loop runs at most once per item. */
  lemma PassFreezesAnItem(line: Line, items: seq<WorkingItem>)
    requires !AllFrozen(items) && Sum(items, WeightOf(line.growing)) != 0
    ensures 0 <= Sum(Pass(line, items), Unfrozen) < Sum(items, Unfrozen)
    ensures SameItems(Pass(line, items), items)
  {
    hide SpaceToShare;
    hide Share;
    var free := SpaceToShare(line, items);
    var shared := Distributed(items, line.growing, free);
    DistributingKeeps(items, line.growing, free);
    hide Distributed;
    var at :| 0 <= at < |items| && !items[at].frozen;
    assert !shared[at].frozen;
    SettlingFreezesAnItem(shared);
  }

  lemma PositiveTerm(items: seq<WorkingItem>, f: WorkingItem -> int) returns (at: nat)
    requires Sum(items, f) > 0
    ensures at < |items| && f(items[at]) > 0
  {
    var k := |items| - 1;
    if f(items[k]) > 0 { at := k; } else { at := PositiveTerm(items[..k], f); }
  }

  lemma NegativeTerm(items: seq<WorkingItem>, f: WorkingItem -> int) returns (at: nat)
    requires Sum(items, f) < 0
    ensures at < |items| && f(items[at]) < 0
  {
    var k := |items| - 1;
    if f(items[k]) < 0 { at := k; } else { at := NegativeTerm(items[..k], f); }
  }

  /** The iteration guard of the loop never fires: full passes never outnumber the items. */
  lemma {:induction false} PassesBounded(line: Line, items: seq<WorkingItem>)
    ensures Passes(line, items) <= Sum(items, Unfrozen) <= |items|
    decreases Sum(items, Unfrozen)
  {
    UnfrozenAtMost(items);
    SumNonNegative(items, Unfrozen);
    if !AllFrozen(items) && !Rigid(line, items) {
      PassFreezesAnItem(line, items);
      PassesBounded(line, Pass(line, items));
    }
  }

  lemma {:induction false} UnfrozenAtMost(items: seq<WorkingItem>)
    ensures Sum(items, Unfrozen) <= |items|
  {
    if items != [] {
      UnfrozenAtMost(items[..|items| - 1]);
    }
  }

  // ---- exact distribution ---------------------------------------------------------

  /** Rounding loses nothing: the shares of a pass add up to exactly the space handed out. */
  lemma SharesAddUp(items: seq<WorkingItem>, growing: bool, free: int)
    requires Sum(items, WeightOf(growing)) > 0
    ensures Sum(Distributed(items, growing, free), Target) == Sum(items, Tentative) + free
  {
    SharesAddUpTo(items, growing, free, |items|);
    TruncDivExact(free, Sum(items, WeightOf(growing)));
    assert items[..|items|] == items;
    assert Distributed(items, growing, free)[..|items|] == Distributed(items, growing, free);
  }

  lemma {:induction false} SharesAddUpTo(items: seq<WorkingItem>, growing: bool, free: int, k: nat)
    requires k <= |items| && Sum(items, WeightOf(growing)) > 0
    ensures Sum(Distributed(items, growing, free)[..k], Target)
         == Sum(items[..k], Tentative) + CumulativeShare(items, growing, free, k)
  {
    if k > 0 {
      SharesAddUpTo(items, growing, free, k - 1);
      SumStep(items, k - 1, Tentative);
      SumStep(items, k - 1, WeightOf(growing));
      SumStep(Distributed(items, growing, free), k - 1, Target);
    }
  }

  /** With non-negative weights every share has the sign of the space handed out. */
  lemma SharesHaveOneSign(items: seq<WorkingItem>, growing: bool, free: int, i: nat)
    requires i < |items|
    requires forall j :: 0 <= j < |items| ==> WeightOf(growing)(items[j]) >= 0
    requires Sum(items, WeightOf(growing)) > 0
    ensures 0 <= free ==> Share(items, growing, free, i) >= 0
    ensures free <= 0 ==> Share(items, growing, free, i) <= 0
  {
    SumStep(items, i, WeightOf(growing));
    SumNonNegative(items[..i], WeightOf(growing));
    TruncDivMonotone(free, Sum(items[..i], WeightOf(growing)), Sum(items[..i + 1], WeightOf(growing)),
        Sum(items, WeightOf(growing)));
  }

  /** Clamping moves the sum of the targets by exactly the total violation. */
  lemma {:induction false} ClampingAddsViolation(shared: seq<WorkingItem>, total: int)
    ensures Sum(seq(|shared|, i requires 0 <= i < |shared| => SettledItem(shared[i], total)), Target)
         == Sum(shared, Target) + Sum(shared, Violation)
  {
    if shared != [] {
      var k := |shared| - 1;
      ClampingAddsViolation(shared[..k], total);
      var settled := seq(|shared|, i requires 0 <= i < |shared| => SettledItem(shared[i], total));
      assert settled[..k] == seq(k, i requires 0 <= i < k => SettledItem(shared[..k][i], total));
    }
  }

  lemma PassTargets(line: Line, items: seq<WorkingItem>)
    requires Sum(items, WeightOf(line.growing)) > 0
    ensures Sum(Pass(line, items), Target) == Sum(items, Tentative) + SpaceToShare(line, items)
            + Sum(Distributed(items, line.growing, SpaceToShare(line, items)), Violation)
  {
    var shared := Distributed(items, line.growing, SpaceToShare(line, items));
    SharesAddUp(items, line.growing, SpaceToShare(line, items));
    ClampingAddsViolation(shared, Sum(shared, Violation));
    assert Pass(line, items)
         == seq(|shared|, i requires 0 <= i < |shared| => SettledItem(shared[i], Sum(shared, Violation)));
  }

  // ---- growing lines --------------------------------------------------------------

  /** What holds of a growing line before every pass. */
  predicate GrowState(line: Line, items: seq<WorkingItem>) {
    && line.growing
    && 0 <= line.initialFree
    && Prepared(items)
    && (forall i :: 0 <= i < |items| && !items[i].frozen ==>
          items[i].main.base <= items[i].hypothetical && items[i].main.grow > 0)
    && (forall i :: 0 <= i < |items| && items[i].frozen ==> items[i].hypothetical <= items[i].target)
    && Occupied(items, line.gap, Committed) <= line.available
  }

  lemma GrowFlexes(line: Line, items: seq<WorkingItem>)
    requires GrowState(line, items) && !AllFrozen(items)
    ensures !Rigid(line, items)
    ensures Sum(items, WeightOf(true)) == Sum(items, FactorOf(true)) > 0
    ensures 0 <= SpaceToShare(line, items) <= FreeSpace(items, line.available, line.gap)
  {
    SumsAgree(items, WeightOf(true), items, FactorOf(true));
    var at :| 0 <= at < |items| && !items[at].frozen;
    SumAtLeast(items, FactorOf(true), at);
    SumMonotone(items, Tentative, items, Committed);
    TruncDivMonotone(line.initialFree, 0, Sum(items, FactorOf(true)), FACTOR_ONE);
  }

  /** One pass of a growing line raises unfrozen items from their base, and clamps up only to the hypothetical size. */
  lemma GrowShares(line: Line, items: seq<WorkingItem>, i: nat)
    requires GrowState(line, items) && i < |items| && !items[i].frozen
    requires Sum(items, WeightOf(true)) > 0 && 0 <= SpaceToShare(line, items)
    ensures var shared := Distributed(items, true, SpaceToShare(line, items))[i];
            var clamped := Clamp(shared.main, shared.target);
            && items[i].hypothetical <= clamped
            && (shared.target < clamped ==> clamped == items[i].hypothetical)
  {
    var shared := Distributed(items, true, SpaceToShare(line, items))[i];
    SharesHaveOneSign(items, true, SpaceToShare(line, items), i);
    ClampMonotone(items[i].main, items[i].main.base, shared.target);
    if shared.target < Clamp(shared.main, shared.target) {
      RaisedClampIsConstantBelow(items[i].main, items[i].main.base, shared.target);
    }
  }

  lemma GrowPass(line: Line, items: seq<WorkingItem>)
    requires GrowState(line, items) && !AllFrozen(items)
    ensures Sum(items, WeightOf(true)) > 0 && GrowState(line, Pass(line, items))
  {
    GrowFlexes(line, items);
    var free := SpaceToShare(line, items);
    var shared := Distributed(items, true, free);
    var next := Pass(line, items);
    forall i | 0 <= i < |items| && !items[i].frozen
      ensures items[i].hypothetical <= next[i].target
      ensures shared[i].target < next[i].target ==> next[i].target == items[i].hypothetical
    {
      GrowShares(line, items, i);
    }
    SameItemsKeepOuter(next, items);
    if Sum(shared, Violation) > 0 {
      SumsAgree(next, Committed, items, Committed);
    } else {
      PassTargets(line, items);
      SumMonotone(next, Committed, next, Target);
    }
  }

  /** A growing line ends with every item at least at its hypothetical size and the line no longer than its space. */
  lemma {:induction false} GrowResolves(line: Line, items: seq<WorkingItem>)
    requires GrowState(line, items)
    ensures AllFrozen(Resolve(line, items)) && SameItems(Resolve(line, items), items)
    ensures GrowState(line, Resolve(line, items))
    decreases Sum(items, Unfrozen)
  {
    if !AllFrozen(items) {
      GrowFlexes(line, items);
      PassFreezesAnItem(line, items);
      GrowPass(line, items);
      GrowResolves(line, Pass(line, items));
    }
  }

  /** An item that can absorb any surplus: no maximum, and a base size that clamping leaves alone. */
  predicate Elastic(item: WorkingItem) {
    item.main.max.None? && item.main.min <= item.main.base && 0 <= item.main.base && item.main.grow > 0
  }

  function ElasticFactor(item: WorkingItem): int {
    if Elastic(item) then item.main.grow else 0
  }

  /** Elastic items stay unfrozen until the line is exactly filled. */
  predicate Filling(line: Line, items: seq<WorkingItem>) {
    || (AllFrozen(items) && Occupied(items, line.gap, Target) == line.available)
    || forall i :: 0 <= i < |items| && Elastic(items[i]) ==> !items[i].frozen
  }

  /** A share of a surplus never makes an elastic item violate its limits. */
  lemma ElasticSharesFit(items: seq<WorkingItem>, free: int)
    requires Sum(items, WeightOf(true)) > 0 && 0 <= free
    ensures forall i :: 0 <= i < |items| && Elastic(items[i]) ==> Violation(Distributed(items, true, free)[i]) == 0
  {
    hide Share;
    forall i | 0 <= i < |items| && Elastic(items[i])
      ensures Violation(Distributed(items, true, free)[i]) == 0
    {
      SharesHaveOneSign(items, true, free, i);
    }
  }

  lemma FillingPass(line: Line, items: seq<WorkingItem>)
    requires GrowState(line, items) && !AllFrozen(items) && Filling(line, items)
    requires Sum(items, ElasticFactor) >= FACTOR_ONE
    ensures Sum(items, WeightOf(true)) > 0 && Filling(line, Pass(line, items))
  {
    GrowFlexes(line, items);
    SumMonotone(items, ElasticFactor, items, FactorOf(true));
    hide Share;
    hide TruncDiv;
    var free := SpaceToShare(line, items);
    PassTargets(line, items);
    PassFreezesAnItem(line, items);
    SameItemsKeepOuter(Pass(line, items), items);
    ElasticSharesFit(items, free);
  }

  /** Elastic items whose factors sum to at least one make a growing line exactly fill its space. */
  lemma {:induction false} GrowFills(line: Line, items: seq<WorkingItem>)
    requires GrowState(line, items) && Filling(line, items)
    requires Sum(items, ElasticFactor) >= FACTOR_ONE
    ensures Occupied(Resolve(line, items), line.gap, Target) == line.available
    decreases Sum(items, Unfrozen)
  {
    if AllFrozen(items) {
      var at := PositiveTerm(items, ElasticFactor);
    } else {
      GrowFlexes(line, items);
      FillingPass(line, items);
      PassFreezesAnItem(line, items);
      GrowPass(line, items);
      SumsAgree(items, ElasticFactor, Pass(line, items), ElasticFactor);
      GrowFills(line, Pass(line, items));
    }
  }

  // ---- shrinking lines -------------------------------------------------------------

  /** What holds of a shrinking line before every pass. */
  predicate ShrinkState(line: Line, items: seq<WorkingItem>) {
    && !line.growing
    && line.initialFree <= 0
    && Prepared(items)
    && (forall i :: 0 <= i < |items| && !items[i].frozen ==>
          items[i].hypothetical <= items[i].main.base && items[i].main.base >= 0)
    && (forall i :: 0 <= i < |items| && items[i].frozen ==> items[i].target <= items[i].hypothetical)
    && line.available <= Occupied(items, line.gap, Committed)
  }

  lemma ShrinkFlexes(line: Line, items: seq<WorkingItem>)
    requires ShrinkState(line, items) && !Rigid(line, items)
    ensures Sum(items, WeightOf(false)) > 0
    ensures forall i :: 0 <= i < |items| ==> WeightOf(false)(items[i]) >= 0
    ensures FreeSpace(items, line.available, line.gap) <= SpaceToShare(line, items) <= 0
  {
    forall i | 0 <= i < |items|
      ensures WeightOf(false)(items[i]) >= 0
    {
      if !items[i].frozen { MulOrder(items[i].main.shrink, 0, items[i].main.base); }
    }
    SumNonNegative(items, WeightOf(false));
    SumNonNegative(items, FactorOf(false));
    SumMonotone(items, Committed, items, Tentative);
    TruncDivMonotone(line.initialFree, 0, Sum(items, FactorOf(false)), FACTOR_ONE);
  }

  /**
   One pass of a shrinking line lowers unfrozen items from their base, and clamps down only to the hypothetical
   size.
   */
  lemma ShrinkShares(line: Line, items: seq<WorkingItem>, i: nat)
    requires ShrinkState(line, items) && i < |items| && !items[i].frozen
    requires forall j :: 0 <= j < |items| ==> WeightOf(false)(items[j]) >= 0
    requires Sum(items, WeightOf(false)) > 0 && SpaceToShare(line, items) <= 0
    ensures var shared := Distributed(items, false, SpaceToShare(line, items))[i];
            var clamped := Clamp(shared.main, shared.target);
            && clamped <= items[i].hypothetical
            && (clamped < shared.target ==> clamped == items[i].hypothetical)
  {
    var shared := Distributed(items, false, SpaceToShare(line, items))[i];
    SharesHaveOneSign(items, false, SpaceToShare(line, items), i);
    ClampMonotone(items[i].main, shared.target, items[i].main.base);
    if Clamp(shared.main, shared.target) < shared.target {
      LoweredClampIsConstantAbove(items[i].main, shared.target, items[i].main.base);
    }
  }

  lemma ShrinkPass(line: Line, items: seq<WorkingItem>)
    requires ShrinkState(line, items) && !AllFrozen(items) && !Rigid(line, items)
    ensures ShrinkState(line, Pass(line, items))
  {
    ShrinkFlexes(line, items);
    var free := SpaceToShare(line, items);
    var shared := Distributed(items, false, free);
    var next := Pass(line, items);
    forall i | 0 <= i < |items| && !items[i].frozen
      ensures next[i].target <= items[i].hypothetical
      ensures next[i].target < shared[i].target ==> next[i].target == items[i].hypothetical
    {
      ShrinkShares(line, items, i);
    }
    SameItemsKeepOuter(next, items);
    if Sum(shared, Violation) < 0 {
      SumsAgree(next, Committed, items, Committed);
    } else {
      PassTargets(line, items);
      SumMonotone(next, Target, next, Committed);
    }
  }

  /** A shrinking line ends with every item at most at its hypothetical size and the line no shorter than its space. */
  lemma {:induction false} ShrinkResolves(line: Line, items: seq<WorkingItem>)
    requires ShrinkState(line, items)
    ensures AllFrozen(Resolve(line, items)) && SameItems(Resolve(line, items), items)
    ensures ShrinkState(line, Resolve(line, items))
    decreases Sum(items, Unfrozen)
  {
    if AllFrozen(items) {
    } else if Rigid(line, items) {
      var next := AllAtHypothetical(items);
      SumsAgree(next, Committed, items, Committed);
      SameItemsKeepOuter(next, items);
    } else {
      PassFreezesAnItem(line, items);
      ShrinkPass(line, items);
      ShrinkResolves(line, Pass(line, items));
    }
  }

  // ---- whole-line theorems ------------------------------------------------------------

  lemma StartedKeeps(items: seq<WorkingItem>, growing: bool)
    requires Prepared(items)
    ensures SameItems(StartedAll(items, growing), items) && Prepared(StartedAll(items, growing))
    ensures Sum(StartedAll(items, growing), Committed) == Sum(items, Hypothetical)
    ensures Sum(StartedAll(items, growing), Outer) == Sum(items, Outer)
  {
    SumsAgree(StartedAll(items, growing), Committed, items, Hypothetical);
    SameItemsKeepOuter(StartedAll(items, growing), items);
  }

  lemma GrowStarts(items: seq<WorkingItem>, gap: int, mainSize: Option<int>)
    requires Prepared(items) && Grows(items, gap, mainSize)
    ensures GrowState(LineOf(items, gap, mainSize), StartedAll(items, true))
  {
    var started := StartedAll(items, true);
    StartedKeeps(items, true);
    SumMonotone(started, Tentative, started, Committed);
  }

  /**
   A line with room to spare: every item ends at or above its hypothetical size, and the
   line never exceeds the space available. Holds for every item, signs included.
   */
  lemma GrowingLine(items: seq<WorkingItem>, gap: int, mainSize: Option<int>)
    requires Prepared(items) && Grows(items, gap, mainSize)
    ensures var resolved := ResolveLine(items, gap, mainSize);
            && SameItems(resolved, items) && AllFrozen(resolved)
            && (forall i :: 0 <= i < |items| ==> items[i].hypothetical <= resolved[i].target)
            && Occupied(resolved, gap, Target) <= AvailableSpace(items, gap, mainSize)
  {
    var line := LineOf(items, gap, mainSize);
    var started := StartedAll(items, true);
    GrowStarts(items, gap, mainSize);
    GrowResolves(line, started);
    var resolved := Resolve(line, started);
    hide Resolve;
    SumsAgree(resolved, Target, resolved, Committed);
  }

  /** Elastic items with factors summing to one or more: the growing line is filled to the app unit. */
  lemma ElasticLineIsFilled(items: seq<WorkingItem>, gap: int, mainSize: Option<int>)
    requires Prepared(items) && Grows(items, gap, mainSize)
    requires Sum(items, ElasticFactor) >= FACTOR_ONE
    ensures Occupied(ResolveLine(items, gap, mainSize), gap, Target) == AvailableSpace(items, gap, mainSize)
  {
    var line := LineOf(items, gap, mainSize);
    var started := StartedAll(items, true);
    GrowStarts(items, gap, mainSize);
    SumsAgree(items, ElasticFactor, started, ElasticFactor);
    GrowFills(line, started);
  }

  /** No item that can shrink starts below zero, so no weight is negative. */
  predicate NonNegativeWeights(items: seq<WorkingItem>) {
    forall i :: 0 <= i < |items| && items[i].main.shrink > 0 && items[i].hypothetical <= items[i].main.base ==>
        items[i].main.base >= 0
  }

  predicate NonNegativeTargets(items: seq<WorkingItem>) {
    forall i :: 0 <= i < |items| ==> 0 <= items[i].target
  }

  // ---- lines that can be published ----------------------------------------------------

  /** Every frozen item has the sign of its hypothetical size. */
  predicate SignsSettled(items: seq<WorkingItem>) {
    && Prepared(items)
    && forall i :: 0 <= i < |items| && items[i].frozen ==> (items[i].target < 0 <==> items[i].hypothetical < 0)
  }

  lemma PassKeepsSigns(line: Line, items: seq<WorkingItem>)
    requires SignsSettled(items) && Sum(items, WeightOf(line.growing)) != 0
    ensures SignsSettled(Pass(line, items))
  {
    hide SpaceToShare;
    hide Share;
    hide Sum;
    var shared := Distributed(items, line.growing, SpaceToShare(line, items));
    forall i | 0 <= i < |items| && !items[i].frozen
      ensures Clamp(items[i].main, shared[i].target) < 0 <==> items[i].hypothetical < 0
    {
      NegativeClampIsConstant(items[i].main, shared[i].target, items[i].main.base);
    }
  }

  lemma {:induction false} ResolveSettles(line: Line, items: seq<WorkingItem>)
    requires SignsSettled(items)
    ensures SameItems(Resolve(line, items), items) && AllFrozen(Resolve(line, items))
    ensures SignsSettled(Resolve(line, items))
    decreases Sum(items, Unfrozen)
  {
    if !AllFrozen(items) && !Rigid(line, items) {
      PassFreezesAnItem(line, items);
      PassKeepsSigns(line, items);
      ResolveSettles(line, Pass(line, items));
    }
  }

  /** Resolution changes no item's sign: a target is negative exactly where the hypothetical size is. */
  lemma TargetsKeepTheirSign(items: seq<WorkingItem>, gap: int, mainSize: Option<int>)
    requires Prepared(items)
    ensures var resolved := ResolveLine(items, gap, mainSize);
            && SameItems(resolved, items) && AllFrozen(resolved)
            && forall i :: 0 <= i < |items| ==> (resolved[i].target < 0 <==> items[i].hypothetical < 0)
  {
    var line := LineOf(items, gap, mainSize);
    ResolveSettles(line, StartedAll(items, line.growing));
  }

  lemma ShrinkStarts(items: seq<WorkingItem>, gap: int, mainSize: Option<int>)
    requires Prepared(items) && !Grows(items, gap, mainSize) && NonNegativeWeights(items)
    ensures ShrinkState(LineOf(items, gap, mainSize), StartedAll(items, false))
  {
    var started := StartedAll(items, false);
    StartedKeeps(items, false);
    SumMonotone(started, Committed, started, Tentative);
  }

  /** Sizes that can be published leave no room for a negative weight. */
  lemma PublishableWeights(items: seq<WorkingItem>, gap: int, mainSize: Option<int>)
    requires Prepared(items) && NonNegativeTargets(ResolveLine(items, gap, mainSize))
    ensures NonNegativeWeights(items)
  {
    hide ResolveLine;
    TargetsKeepTheirSign(items, gap, mainSize);
  }

  /**
   A line without room to spare: when no size ends below zero (and so can be published), or no weight
   is negative, no item ends above its hypothetical size and the line never falls below its space.
   */
  lemma ShrinkingLine(items: seq<WorkingItem>, gap: int, mainSize: Option<int>)
    requires Prepared(items) && !Grows(items, gap, mainSize)
    ensures var resolved := ResolveLine(items, gap, mainSize);
            && SameItems(resolved, items) && AllFrozen(resolved)
            && (NonNegativeTargets(resolved) || NonNegativeWeights(items) ==>
                  && (forall i :: 0 <= i < |items| ==> resolved[i].target <= items[i].hypothetical)
                  && AvailableSpace(items, gap, mainSize) <= Occupied(resolved, gap, Target))
  {
    TargetsKeepTheirSign(items, gap, mainSize);
    var resolved := ResolveLine(items, gap, mainSize);
    if NonNegativeTargets(resolved) {
      PublishableWeights(items, gap, mainSize);
    }
    if NonNegativeWeights(items) {
      var line := LineOf(items, gap, mainSize);
      var started := StartedAll(items, false);
      ShrinkStarts(items, gap, mainSize);
      ShrinkResolves(line, started);
      hide Resolve;
      hide StartedAll;
      SumsAgree(resolved, Target, resolved, Committed);
    }
  }

  /** A resolved line flexed one way only, from the hypothetical sizes toward its space and never past it. */
  predicate KeepsBounds(items: seq<WorkingItem>, gap: int, mainSize: Option<int>) {
    var resolved := ResolveLine(items, gap, mainSize);
    if Grows(items, gap, mainSize) then
      && (forall i :: 0 <= i < |items| ==> items[i].hypothetical <= resolved[i].target)
      && Occupied(resolved, gap, Target) <= AvailableSpace(items, gap, mainSize)
    else
      && (forall i :: 0 <= i < |items| ==> resolved[i].target <= items[i].hypothetical)
      && AvailableSpace(items, gap, mainSize) <= Occupied(resolved, gap, Target)
  }

  /** A line whose sizes can be published, none of them below zero, keeps its bounds whatever its inputs. */
  lemma PublishableLineKeepsBounds(items: seq<WorkingItem>, gap: int, mainSize: Option<int>)
    requires Prepared(items) && NonNegativeTargets(ResolveLine(items, gap, mainSize))
    ensures KeepsBounds(items, gap, mainSize)
  {
    if Grows(items, gap, mainSize) {
      GrowingLine(items, gap, mainSize);
    } else {
      ShrinkingLine(items, gap, mainSize);
    }
  }

  /** Without a negative maximum every line can be published. */
  lemma PlainLimitsArePublishable(items: seq<WorkingItem>, gap: int, mainSize: Option<int>)
    requires Prepared(items)
    requires forall i :: 0 <= i < |items| && items[i].main.max.Some? ==> 0 <= items[i].main.max.value
    ensures NonNegativeWeights(items) && NonNegativeTargets(ResolveLine(items, gap, mainSize))
    ensures KeepsBounds(items, gap, mainSize)
  {
    TargetsKeepTheirSign(items, gap, mainSize);
    PublishableLineKeepsBounds(items, gap, mainSize);
  }
}
