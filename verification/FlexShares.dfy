/**
 How a line's space is divided: in proportion to the items' own factors and base sizes, to within one app unit,
 and which items have a part in it.
 */
module FlexShares {
  import opened Outcomes
  import opened FlexItems
  import opened FlexResolve

  /** What space is divided by: the grow factor, or the shrink factor scaled by the base size. */
  function Claim(main: MainInput, growing: bool): int {
    if growing then main.grow else main.shrink * main.base
  }

  /** The claims of the unfrozen items together. */
  function Claims(items: seq<WorkingItem>, growing: bool): int {
    if items == [] then 0
    else
      var last := items[|items| - 1];
      Claims(items[..|items| - 1], growing) + if last.frozen then 0 else Claim(last.main, growing)
  }

  /** The item moved from its base size by its claim's part of `free`, to within one app unit. */
  predicate Proportional(main: MainInput, growing: bool, target: int, free: int, total: int) {
    Abs((target - main.base) * total - free * Claim(main, growing)) < total
  }

  predicate NonNegativeClaims(items: seq<WorkingItem>, growing: bool) {
    forall i :: 0 <= i < |items| && !items[i].frozen ==> 0 <= Claim(items[i].main, growing)
  }

  // ---- one pass ---------------------------------------------------------------------------

  lemma {:induction false} ClaimsAreWeights(items: seq<WorkingItem>, growing: bool)
    ensures Claims(items, growing) == Sum(items, WeightOf(growing))
  {
    if items != [] {
      ClaimsAreWeights(items[..|items| - 1], growing);
    }
  }

  /** Truncation leaves a remainder smaller than the divisor, with the sign of the dividend. */
  lemma TruncRemainder(a: int, d: int) returns (r: int)
    requires 0 < d
    ensures a == TruncDiv(a, d) * d + r
    ensures 0 <= a ==> 0 <= r < d
    ensures a <= 0 ==> -d < r <= 0
  {
    if 0 <= a {
      r := a % d;
    } else {
      r := -((-a) % d);
      assert -a == ((-a) / d) * d + (-a) % d;
      assert -(((-a) / d) * d) == (-((-a) / d)) * d;
    }
  }

  lemma DifferenceOfShares(free: int, before: int, claim: int, total: int)
    requires 0 <= before && 0 <= claim && 0 < total
    ensures var share := TruncDiv(free * (before + claim), total) - TruncDiv(free * before, total);
            Abs(share * total - free * claim) < total
  {
    var a, b := free * before, free * (before + claim);
    assert b == a + free * claim;
    var r := TruncRemainder(a, total);
    var q := TruncRemainder(b, total);
    SameSign(free, before, before + claim);
    var qa, qb := TruncDiv(a, total), TruncDiv(b, total);
    assert (qb - qa) * total == qb * total - qa * total;
  }

  lemma SameSign(free: int, x: int, y: int)
    requires 0 <= x && 0 <= y
    ensures 0 <= free ==> 0 <= free * x && 0 <= free * y
    ensures free <= 0 ==> free * x <= 0 && free * y <= 0
  {
  }

  /** Every pass hands each unfrozen item its part of the space, by claims taken from the item alone. */
  lemma PassIsProportional(items: seq<WorkingItem>, growing: bool, free: int, i: nat)
    requires i < |items| && !items[i].frozen && NonNegativeClaims(items, growing) && Claims(items, growing) > 0
    ensures Sum(items, WeightOf(growing)) != 0
    ensures Proportional(items[i].main, growing, Distributed(items, growing, free)[i].target, free,
                         Claims(items, growing))
  {
    var total := Claims(items, growing);
    ClaimsAreWeights(items, growing);
    ClaimsAreWeights(items[..i], growing);
    ClaimsAreWeights(items[..i + 1], growing);
    SumStep(items, i, WeightOf(growing));
    SumNonNegative(items[..i], WeightOf(growing));
    var before, claim := Claims(items[..i], growing), Claim(items[i].main, growing);
    DifferenceOfShares(free, before, claim, total);
    hide TruncDiv;
    hide Sum;
    hide Claims;
    assert Distributed(items, growing, free)[i].target - items[i].main.base
        == TruncDiv(free * (before + claim), total) - TruncDiv(free * before, total);
  }

  // ---- every pass of a line -------------------------------------------------------------------

  /** The state that the first k full passes reach. */
  function After(line: Line, items: seq<WorkingItem>, k: nat): (state: seq<WorkingItem>)
    requires k <= Passes(line, items)
    ensures |state| == |items|
    decreases k
  {
    if k == 0 then items else After(line, Pass(line, items), k - 1)
  }

  /**
   Item i ends as pass k leaves it: at its hypothetical size when nothing can flex any more, and otherwise at its
   part t of the space that pass shares, clamped to its limits.
   */
  predicate EndsInPass(line: Line, items: seq<WorkingItem>, i: nat, k: nat, t: int)
    requires i < |items| && k <= Passes(line, items)
  {
    var state := After(line, items, k);
    var end := Resolve(line, items)[i];
    && !state[i].frozen
    && if k == Passes(line, items) then Rigid(line, state) && end.target == items[i].hypothetical
       else
         && Claims(state, line.growing) > 0
         && Proportional(items[i].main, line.growing, t, SpaceToShare(line, state), Claims(state, line.growing))
         && end.target == Clamp(items[i].main, t)
  }

  lemma {:induction false} FrozenStays(line: Line, items: seq<WorkingItem>, i: nat)
    requires i < |items| && items[i].frozen
    ensures Resolve(line, items)[i] == items[i]
    decreases Sum(items, Unfrozen)
  {
    if !AllFrozen(items) && !Rigid(line, items) {
      hide SpaceToShare;
      hide Share;
      PassFreezesAnItem(line, items);
      FrozenStays(line, Pass(line, items), i);
    }
  }

  lemma ClaimsArePositive(line: Line, items: seq<WorkingItem>)
    requires NonNegativeClaims(items, line.growing) && !Rigid(line, items)
    ensures Claims(items, line.growing) > 0
  {
    ClaimsAreWeights(items, line.growing);
    SumNonNegative(items, WeightOf(line.growing));
  }

  lemma PassKeepsClaims(line: Line, items: seq<WorkingItem>)
    requires NonNegativeClaims(items, line.growing) && !AllFrozen(items) && Sum(items, WeightOf(line.growing)) != 0
    ensures NonNegativeClaims(Pass(line, items), line.growing) && SameItems(Pass(line, items), items)
    ensures forall i :: 0 <= i < |items| && items[i].frozen ==> Pass(line, items)[i].frozen
  {
    hide SpaceToShare;
    hide Share;
    PassFreezesAnItem(line, items);
  }

  lemma EndsNow(line: Line, items: seq<WorkingItem>, i: nat) returns (t: int)
    requires i < |items| && !items[i].frozen && NonNegativeClaims(items, line.growing) && !Rigid(line, items)
    requires Pass(line, items)[i].frozen
    ensures EndsInPass(line, items, i, 0, t)
  {
    ClaimsArePositive(line, items);
    PassIsProportional(items, line.growing, SpaceToShare(line, items), i);
    PassFreezesAnItem(line, items);
    FrozenStays(line, Pass(line, items), i);
    t := Distributed(items, line.growing, SpaceToShare(line, items))[i].target;
    assert Pass(line, items)[i].target == Clamp(items[i].main, t);
    assert After(line, items, 0) == items && Passes(line, items) > 0;
  }

  lemma OnePassMore(line: Line, items: seq<WorkingItem>, k: nat)
    requires !AllFrozen(items) && !Rigid(line, items)
    ensures Passes(line, items) == 1 + Passes(line, Pass(line, items))
    ensures Resolve(line, items) == Resolve(line, Pass(line, items))
    ensures k <= Passes(line, Pass(line, items)) ==>
      After(line, items, k + 1) == After(line, Pass(line, items), k)
  {
    hide Pass;
  }

  lemma EndsLater(line: Line, items: seq<WorkingItem>, i: nat, k: nat, t: int)
    requires i < |items| && !AllFrozen(items) && !Rigid(line, items)
    requires k <= Passes(line, Pass(line, items)) && EndsInPass(line, Pass(line, items), i, k, t)
    ensures k + 1 <= Passes(line, items) && EndsInPass(line, items, i, k + 1, t)
  {
    hide Pass;
    hide Passes;
    hide Resolve;
    hide After;
    hide SpaceToShare;
    hide Proportional;
    hide Claims;
    hide Clamp;
    PassFreezesAnItem(line, items);
    OnePassMore(line, items, k);
    hide Rigid;
    hide AllFrozen;
    assert EndsInPass(line, items, i, k + 1, t);
  }

  lemma EndsRigid(line: Line, items: seq<WorkingItem>, i: nat)
    requires i < |items| && !items[i].frozen && Rigid(line, items)
    ensures EndsInPass(line, items, i, 0, 0)
  {
    assert Passes(line, items) == 0 && Resolve(line, items) == AllAtHypothetical(items);
  }

  lemma {:induction false} EveryItemEnds(line: Line, items: seq<WorkingItem>, i: nat) returns (k: nat, t: int)
    requires i < |items| && !items[i].frozen && NonNegativeClaims(items, line.growing)
    ensures k <= Passes(line, items) && EndsInPass(line, items, i, k, t)
    decreases Sum(items, Unfrozen)
  {
    hide EndsInPass;
    hide Pass;
    hide Passes;
    k, t := 0, 0;
    if Rigid(line, items) {
      EndsRigid(line, items, i);
    } else {
      PassFreezesAnItem(line, items);
      PassKeepsClaims(line, items);
      if Pass(line, items)[i].frozen {
        t := EndsNow(line, items, i);
      } else {
        k, t := EveryItemEnds(line, Pass(line, items), i);
        EndsLater(line, items, i, k, t);
        k := k + 1;
      }
    }
    assert k <= Passes(line, items) && EndsInPass(line, items, i, k, t);
  }

  // ---- whole lines ------------------------------------------------------------------------------

  /** The item takes part in the division: it has a factor, and its limits do not push it the wrong way at once. */
  predicate CanFlex(item: WorkingItem, growing: bool) {
    if growing then item.main.grow > 0 && item.main.base <= item.hypothetical
    else item.main.shrink > 0 && item.hypothetical <= item.main.base
  }

  lemma StartFreezesTheRest(items: seq<WorkingItem>, growing: bool)
    ensures forall i :: 0 <= i < |items| ==> StartedAll(items, growing)[i].frozen == !CanFlex(items[i], growing)
    ensures NonNegativeWeights(items) ==> NonNegativeClaims(StartedAll(items, growing), growing)
  {
    var started := StartedAll(items, growing);
    forall i | NonNegativeWeights(items) && 0 <= i < |items| && !started[i].frozen
      ensures 0 <= Claim(started[i].main, growing)
    {
      if !growing {
        MulOrder(items[i].main.shrink, 0, items[i].main.base);
      }
    }
  }

  /** Items that cannot flex end at their hypothetical size, and every other one with the part of some pass. */
  ghost predicate DividesFairly(items: seq<WorkingItem>, gap: int, mainSize: Option<int>) {
    var line := LineOf(items, gap, mainSize);
    var started := StartedAll(items, line.growing);
    forall i :: 0 <= i < |items| ==>
      if CanFlex(items[i], line.growing)
      then exists k: nat, t: int :: k <= Passes(line, started) && EndsInPass(line, started, i, k, t)
      else ResolveLine(items, gap, mainSize)[i].target == items[i].hypothetical
  }

  /** Every line whose sizes can be published, or without a negative weight, is divided by its items' claims. */
  lemma LinesAreDividedFairly(items: seq<WorkingItem>, gap: int, mainSize: Option<int>)
    requires Prepared(items)
    requires NonNegativeWeights(items) || NonNegativeTargets(ResolveLine(items, gap, mainSize))
    ensures DividesFairly(items, gap, mainSize)
  {
    if NonNegativeTargets(ResolveLine(items, gap, mainSize)) {
      PublishableWeights(items, gap, mainSize);
    }
    var line := LineOf(items, gap, mainSize);
    var started := StartedAll(items, line.growing);
    StartFreezesTheRest(items, line.growing);
    forall i | 0 <= i < |items|
      ensures if CanFlex(items[i], line.growing)
              then exists k: nat, t: int :: k <= Passes(line, started) && EndsInPass(line, started, i, k, t)
              else ResolveLine(items, gap, mainSize)[i].target == items[i].hypothetical
    {
      if CanFlex(items[i], line.growing) {
        var k, t := EveryItemEnds(line, started, i);
      } else {
        FrozenStays(line, started, i);
      }
    }
  }

  // ---- lines on which no limit bites ---------------------------------------------------------------

  /** What an item takes before any space is shared. */
  function StartSize(growing: bool): WorkingItem -> int {
    (item: WorkingItem) => if CanFlex(item, growing) then item.main.base else item.hypothetical
  }

  function StartFactor(growing: bool): WorkingItem -> int {
    (item: WorkingItem) =>
      if !CanFlex(item, growing) then 0 else if growing then item.main.grow else item.main.shrink
  }

  function StartClaim(growing: bool): WorkingItem -> int {
    (item: WorkingItem) => if CanFlex(item, growing) then Claim(item.main, growing) else 0
  }

  /** The space to divide: what the items leave, or that fraction of it which their factors sum to. */
  function Offer(items: seq<WorkingItem>, gap: int, mainSize: Option<int>): int {
    var growing := Grows(items, gap, mainSize);
    var free := AvailableSpace(items, gap, mainSize) - Occupied(items, gap, StartSize(growing));
    var factors := Sum(items, StartFactor(growing));
    if factors < FACTOR_ONE then TruncDiv(free * factors, FACTOR_ONE) else free
  }

  predicate Within(main: MainInput, size: int) {
    0 <= size && main.min <= size && (main.max.Some? ==> size <= main.max.value)
  }

  /** No limit of the item is met by its part of the space, whichever way that part is rounded. */
  ghost predicate Roomy(main: MainInput, growing: bool, free: int, total: int) {
    forall t: int :: Proportional(main, growing, t, free, total) ==> Within(main, t)
  }

  lemma QuotientIsSmaller(a: nat, f: nat, d: nat)
    requires f < d && 0 < a
    ensures a * f / d < a
  {
    assert a * f < a * d by { assert a * d - a * f == a * (d - f); MulAtLeast(d - f, a); }
    var q := a * f / d;
    assert a * f == q * d + a * f % d;
    if a <= q {
      MulOrder(d, a, q);
      assert false;
    }
  }

  /** A factor sum below one never takes all there is. */
  lemma FractionIsSmaller(free: int, factors: int)
    requires 0 <= factors < FACTOR_ONE
    ensures free != 0 ==> Abs(TruncDiv(free * factors, FACTOR_ONE)) < Abs(free)
    ensures free == 0 ==> TruncDiv(free * factors, FACTOR_ONE) == 0
  {
    if free > 0 {
      QuotientIsSmaller(free, factors, FACTOR_ONE);
    } else if free < 0 {
      QuotientIsSmaller(-free, factors, FACTOR_ONE);
      assert -(free * factors) == (-free) * factors;
    }
  }

  /** The sums that a line starts with, in terms of the items as the planner made them. */
  lemma StartedSums(items: seq<WorkingItem>, growing: bool)
    ensures var started := StartedAll(items, growing);
            && Claims(started, growing) == Sum(items, StartClaim(growing))
            && Sum(started, FactorOf(growing)) == Sum(items, StartFactor(growing))
            && Sum(started, Tentative) == Sum(items, StartSize(growing))
            && Sum(started, Outer) == Sum(items, Outer)
  {
    var started := StartedAll(items, growing);
    StartFreezesTheRest(items, growing);
    ClaimsAreWeights(started, growing);
    SumsAgree(started, WeightOf(growing), items, StartClaim(growing));
    SumsAgree(started, FactorOf(growing), items, StartFactor(growing));
    SumsAgree(started, Tentative, items, StartSize(growing));
    SumsAgree(started, Outer, items, Outer);
  }

  lemma OfferIsShared(items: seq<WorkingItem>, gap: int, mainSize: Option<int>)
    ensures var line := LineOf(items, gap, mainSize);
            SpaceToShare(line, StartedAll(items, line.growing)) == Offer(items, gap, mainSize)
  {
    var line := LineOf(items, gap, mainSize);
    StartedSums(items, line.growing);
    SumNonNegative(items, StartFactor(line.growing));
    var factors := Sum(items, StartFactor(line.growing));
    if factors < FACTOR_ONE {
      FractionIsSmaller(line.initialFree, factors);
    }
  }

  /** A pass in which no limit is met freezes every item where its part puts it. */
  lemma QuietPassEnds(line: Line, items: seq<WorkingItem>)
    requires !AllFrozen(items) && !Rigid(line, items)
    requires forall i :: 0 <= i < |items| ==>
      Violation(Distributed(items, line.growing, SpaceToShare(line, items))[i]) == 0
    ensures Resolve(line, items) == Pass(line, items)
    ensures forall i :: 0 <= i < |items| ==>
      Pass(line, items)[i].target == Distributed(items, line.growing, SpaceToShare(line, items))[i].target
  {
    hide SpaceToShare;
    hide Share;
    var shared := Distributed(items, line.growing, SpaceToShare(line, items));
    SumsAgree(shared, Violation, shared, (item: WorkingItem) => 0);
    NothingSumsToNothing(shared);
    assert Sum(shared, Violation) == 0;
    assert AllFrozen(Pass(line, items));
    PassFreezesAnItem(line, items);
  }

  lemma {:induction false} NothingSumsToNothing(items: seq<WorkingItem>)
    ensures Sum(items, (item: WorkingItem) => 0) == 0
  {
    if items != [] {
      NothingSumsToNothing(items[..|items| - 1]);
    }
  }

  lemma RoomySharesFit(line: Line, items: seq<WorkingItem>)
    requires NonNegativeClaims(items, line.growing) && !Rigid(line, items)
    requires forall i :: 0 <= i < |items| && !items[i].frozen ==>
      Roomy(items[i].main, line.growing, SpaceToShare(line, items), Claims(items, line.growing))
    ensures forall i :: 0 <= i < |items| ==>
      Violation(Distributed(items, line.growing, SpaceToShare(line, items))[i]) == 0
  {
    ClaimsArePositive(line, items);
    hide SpaceToShare;
    hide Rigid;
    var free := SpaceToShare(line, items);
    var shared := Distributed(items, line.growing, free);
    forall i | 0 <= i < |items|
      ensures Violation(shared[i]) == 0
    {
      if !items[i].frozen {
        PassIsProportional(items, line.growing, free, i);
        assert Roomy(items[i].main, line.growing, free, Claims(items, line.growing));
        assert Within(items[i].main, shared[i].target);
      }
    }
  }

  lemma RoomyEnds(line: Line, items: seq<WorkingItem>, i: nat)
    requires NonNegativeClaims(items, line.growing) && !Rigid(line, items) && i < |items| && !items[i].frozen
    requires forall j :: 0 <= j < |items| && !items[j].frozen ==>
      Roomy(items[j].main, line.growing, SpaceToShare(line, items), Claims(items, line.growing))
    ensures Proportional(items[i].main, line.growing, Resolve(line, items)[i].target, SpaceToShare(line, items),
                         Claims(items, line.growing))
  {
    ClaimsArePositive(line, items);
    RoomySharesFit(line, items);
    QuietPassEnds(line, items);
    PassIsProportional(items, line.growing, SpaceToShare(line, items), i);
  }

  /**
   On a line whose limits leave room for the parts, every item that can flex ends at its claim's part of the offer,
   to within one app unit, and every other item at its hypothetical size.
   */
  lemma UnclampedLine(items: seq<WorkingItem>, gap: int, mainSize: Option<int>, i: nat)
    requires NonNegativeWeights(items) && i < |items|
    requires var growing := Grows(items, gap, mainSize);
             forall j :: 0 <= j < |items| && CanFlex(items[j], growing) ==>
               Roomy(items[j].main, growing, Offer(items, gap, mainSize), Sum(items, StartClaim(growing)))
    ensures var growing := Grows(items, gap, mainSize);
            var total := Sum(items, StartClaim(growing));
            var end := ResolveLine(items, gap, mainSize)[i].target;
            if CanFlex(items[i], growing) && total > 0
            then Proportional(items[i].main, growing, end, Offer(items, gap, mainSize), total)
            else end == items[i].hypothetical
  {
    var line := LineOf(items, gap, mainSize);
    var started := StartedAll(items, line.growing);
    StartFreezesTheRest(items, line.growing);
    StartedSums(items, line.growing);
    OfferIsShared(items, gap, mainSize);
    hide SpaceToShare;
    hide Offer;
    hide StartedAll;
    hide Claims;
    hide Sum;
    if !CanFlex(items[i], line.growing) {
      StartsAtHypothetical(items, line.growing, i);
      FrozenStays(line, started, i);
    } else if Rigid(line, started) {
      StartsAtHypothetical(items, line.growing, i);
      RigidEnds(line, started, i);
    } else {
      hide Roomy;
      ClaimsArePositive(line, started);
      StartsAtHypothetical(items, line.growing, i);
      forall j | 0 <= j < |started| && !started[j].frozen
        ensures Roomy(started[j].main, line.growing, SpaceToShare(line, started), Claims(started, line.growing))
      {
        StartsAtHypothetical(items, line.growing, j);
      }
      RoomyEnds(line, started, i);
    }
  }

  lemma StartsAtHypothetical(items: seq<WorkingItem>, growing: bool, i: nat)
    requires i < |items|
    ensures var started := StartedAll(items, growing)[i];
            && started.main == items[i].main && started.hypothetical == items[i].hypothetical
            && (started.frozen <==> !CanFlex(items[i], growing))
            && (started.frozen ==> started.target == items[i].hypothetical)
  {
  }

  lemma RigidEnds(line: Line, items: seq<WorkingItem>, i: nat)
    requires Rigid(line, items) && i < |items| && !items[i].frozen && Factor(items[i].main, line.growing) > 0
    ensures Resolve(line, items)[i].target == items[i].hypothetical && Claims(items, line.growing) == 0
  {
    ClaimsAreWeights(items, line.growing);
    SumAtLeast(items, FactorOf(line.growing), i);
  }
}
