/**
 The values the flexible-length planner works on: app-unit sizes as integers,
 checked 128-bit arithmetic, and sums of one size over a run of items.
 */
module FlexItems {
  import opened Outcomes
  import opened Numbers

  datatype FlexError = WorkLimitExceeded(limit: nat) | LineLimitExceeded(limit: nat) | ArithmeticOverflow

  const I128_MAX: int := 0x7FFF_FFFF_FFFF_FFFF_FFFF_FFFF_FFFF_FFFF
  const I128_MIN: int := -I128_MAX - 1

  /** One CSS flex factor in millionths. */
  const FACTOR_ONE: int := 1_000_000

  function Checked(value: int): Result<int, FlexError> {
    if I128_MIN <= value <= I128_MAX then Ok(value) else Err(ArithmeticOverflow)
  }

  function CheckedAdd(left: int, right: int): Result<int, FlexError> {
    Checked(left + right)
  }

  function CheckedSub(left: int, right: int): Result<int, FlexError> {
    Checked(left - right)
  }

  function CheckedMul(left: int, right: int): Result<int, FlexError> {
    Checked(left * right)
  }

  function Abs(a: int): nat {
    if a < 0 then -a else a
  }

  /** Integer division that rounds toward zero, as the planner's 128-bit division does. */
  function TruncDiv(a: int, b: int): int
    requires b != 0
  {
    var magnitude := Abs(a) / Abs(b);
    if (a < 0) != (b < 0) then -magnitude else magnitude
  }

  /** The main-axis part of a flex item. */
  datatype MainInput = MainInput(
    sourceIndex: nat, order: int, base: int, min: int, max: Option<int>, grow: nat, shrink: nat, outer: int)

  /** A flex item while its main size is being resolved. */
  datatype WorkingItem = WorkingItem(main: MainInput, hypothetical: int, target: int, frozen: bool)

  /** A size never below zero, capped by the maximum, with the minimum winning over the maximum. */
  function ClampMain(value: int, min: int, max: Option<int>): int {
    var used := Max(value, 0);
    var capped := if max.Some? then Min(used, max.value) else used;
    Max(capped, min)
  }

  function Clamp(main: MainInput, value: int): int {
    ClampMain(value, main.min, main.max)
  }

  function Factor(main: MainInput, growing: bool): nat {
    if growing then main.grow else main.shrink
  }

  // ---- measures that the planner adds up over a line -------------------------

  function Outer(item: WorkingItem): int {
    item.main.outer
  }

  function Target(item: WorkingItem): int {
    item.target
  }

  function Hypothetical(item: WorkingItem): int {
    item.hypothetical
  }

  /** What an item takes while unfrozen items still sit at their base size. */
  function Tentative(item: WorkingItem): int {
    if item.frozen then item.target else item.main.base
  }

  /** What an item takes if every unfrozen item ended at its hypothetical size. */
  function Committed(item: WorkingItem): int {
    if item.frozen then item.target else item.hypothetical
  }

  function Unfrozen(item: WorkingItem): int {
    if item.frozen then 0 else 1
  }

  /** How far clamping moves an unfrozen item. */
  function Violation(item: WorkingItem): int {
    if item.frozen then 0 else Clamp(item.main, item.target) - item.target
  }

  function FactorOf(growing: bool): WorkingItem -> int {
    (item: WorkingItem) => if item.frozen then 0 else Factor(item.main, growing)
  }

  function FlexWeight(item: WorkingItem, growing: bool): int {
    if growing then Factor(item.main, growing) else Factor(item.main, growing) * item.main.base
  }

  function WeightOf(growing: bool): WorkingItem -> int {
    (item: WorkingItem) => if item.frozen then 0 else FlexWeight(item, growing)
  }

  function Sum(items: seq<WorkingItem>, size: WorkingItem -> int): int {
    if items == [] then 0 else Sum(items[..|items| - 1], size) + size(items[|items| - 1])
  }

  /** Gaps, outer edges and the chosen size of every item of a line. */
  function Occupied(items: seq<WorkingItem>, gap: int, size: WorkingItem -> int): int {
    gap + Sum(items, size) + Sum(items, Outer)
  }

  // ---- facts about the values ---------------------------------------------------

  lemma SumStep(items: seq<WorkingItem>, k: nat, size: WorkingItem -> int)
    requires k < |items|
    ensures Sum(items[..k + 1], size) == Sum(items[..k], size) + size(items[k])
  {
    assert items[..k + 1][..k] == items[..k];
  }

  /** A measure that is pointwise no larger has a sum that is no larger. */
  lemma {:induction false} SumMonotone(a: seq<WorkingItem>, f: WorkingItem -> int, b: seq<WorkingItem>,
                                       g: WorkingItem -> int)
    requires |a| == |b|
    requires forall i :: 0 <= i < |a| ==> f(a[i]) <= g(b[i])
    ensures Sum(a, f) <= Sum(b, g)
  {
    if a != [] {
      var k := |a| - 1;
      SumMonotone(a[..k], f, b[..k], g);
      assert f(a[k]) <= g(b[k]);
    }
  }

  lemma SumsAgree(a: seq<WorkingItem>, f: WorkingItem -> int, b: seq<WorkingItem>, g: WorkingItem -> int)
    requires |a| == |b|
    requires forall i :: 0 <= i < |a| ==> f(a[i]) == g(b[i])
    ensures Sum(a, f) == Sum(b, g)
  {
    SumMonotone(a, f, b, g);
    SumMonotone(b, g, a, f);
  }

  /** Pointwise no larger and somewhere smaller: the sum is smaller. */
  lemma {:induction false} SumStrict(a: seq<WorkingItem>, f: WorkingItem -> int, b: seq<WorkingItem>,
                                     g: WorkingItem -> int, at: nat)
    requires |a| == |b| && at < |a|
    requires forall i :: 0 <= i < |a| ==> f(a[i]) <= g(b[i])
    requires f(a[at]) < g(b[at])
    ensures Sum(a, f) < Sum(b, g)
  {
    var k := |a| - 1;
    assert f(a[k]) <= g(b[k]);
    if at < k {
      SumStrict(a[..k], f, b[..k], g, at);
    } else {
      SumMonotone(a[..k], f, b[..k], g);
    }
  }

  lemma {:induction false} SumAtLeast(items: seq<WorkingItem>, f: WorkingItem -> int, at: nat)
    requires at < |items|
    requires forall i :: 0 <= i < |items| ==> f(items[i]) >= 0
    ensures Sum(items, f) >= f(items[at])
  {
    var k := |items| - 1;
    assert f(items[k]) >= 0;
    if at < k {
      SumAtLeast(items[..k], f, at);
    } else {
      SumNonNegative(items[..k], f);
    }
  }

  lemma {:induction false} SumNonNegative(items: seq<WorkingItem>, f: WorkingItem -> int)
    requires forall i :: 0 <= i < |items| ==> f(items[i]) >= 0
    ensures Sum(items, f) >= 0
  {
    if items != [] {
      SumNonNegative(items[..|items| - 1], f);
      assert f(items[|items| - 1]) >= 0;
    }
  }

  lemma ClampMonotone(main: MainInput, a: int, b: int)
    requires a <= b
    ensures Clamp(main, a) <= Clamp(main, b)
  {
  }

  /** A clamp that raises a value did so because of the minimum or zero, so a smaller value is raised as far. */
  lemma RaisedClampIsConstantBelow(main: MainInput, a: int, b: int)
    requires a <= b < Clamp(main, b)
    ensures Clamp(main, a) == Clamp(main, b)
  {
  }

  /** A clamp that lowers a value did so because of the maximum, so a larger value is lowered as far. */
  lemma LoweredClampIsConstantAbove(main: MainInput, a: int, b: int)
    requires Clamp(main, a) < a <= b
    ensures Clamp(main, a) == Clamp(main, b)
  {
  }

  /** A clamp below zero comes from the limits alone, whatever the value. */
  lemma NegativeClampIsConstant(main: MainInput, a: int, b: int)
    ensures Clamp(main, a) < 0 <==> Clamp(main, b) < 0
  {
  }

  lemma DivMonotone(a: int, b: int, d: int)
    requires a <= b && 0 < d
    ensures a / d <= b / d
  {
    var qa, qb := a / d, b / d;
    assert a == qa * d + a % d && b == qb * d + b % d;
    if qa > qb {
      MulAtLeast(qa - qb, d);
      assert false;
    }
  }

  lemma MulAtLeast(k: int, d: int)
    requires 1 <= k && 0 <= d
    ensures k * d >= d
  {
  }

  lemma TruncDivExact(k: int, d: int)
    requires 0 < d
    ensures TruncDiv(k * d, d) == k
  {
    if k >= 0 {
      DivExact(k, d);
    } else {
      assert k * d < 0 by { assert (-k) * d >= d by { MulAtLeast(-k, d); } }
      assert -(k * d) == (-k) * d;
      DivExact(-k, d);
    }
  }

  lemma DivExact(k: int, d: int)
    requires 0 <= k && 0 < d
    ensures 0 <= k * d && k * d / d == k
  {
    assert k * d == (k * d / d) * d + (k * d) % d;
    var q := k * d / d;
    assert (k - q) * d == (k * d) % d;
    if k - q >= 1 { MulAtLeast(k - q, d); }
    if q - k >= 1 { MulAtLeast(q - k, d); }
  }

  /** A share of a surplus grows with the weight counted so far, and a share of a deficit shrinks. */
  lemma TruncDivMonotone(free: int, w: int, v: int, d: int)
    requires 0 <= w <= v && 0 < d
    ensures 0 <= free ==> TruncDiv(free * w, d) <= TruncDiv(free * v, d)
    ensures free <= 0 ==> TruncDiv(free * v, d) <= TruncDiv(free * w, d)
  {
    if 0 <= free {
      assert 0 <= free * w <= free * v by { MulOrder(free, w, v); }
      DivMonotone(free * w, free * v, d);
    } else {
      assert 0 <= (-free) * w <= (-free) * v by { MulOrder(-free, w, v); }
      assert -(free * w) == (-free) * w && -(free * v) == (-free) * v;
      DivMonotone((-free) * w, (-free) * v, d);
      if free * w == 0 { assert TruncDiv(free * w, d) == 0; }
    }
  }

  lemma MulOrder(f: int, w: int, v: int)
    requires 0 <= f && 0 <= w <= v
    ensures 0 <= f * w <= f * v
  {
    assert f * v - f * w == f * (v - w);
  }
}
