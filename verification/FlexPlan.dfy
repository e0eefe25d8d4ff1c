/**
 The whole planner: sort, break into lines, resolve each line, size and place
 the lines on the cross axis, and publish one placement per item.
 */
module FlexPlan {
  import opened Outcomes
  import opened Numbers
  import opened FlexItems
  import opened FlexResolve
  import opened FlexResolver
  import opened FlexLines
  import opened FlexShares

  datatype Align = AlignStretch | AlignStart | AlignEnd | AlignCenter

  datatype CrossInput = CrossInput(base: int, min: int, max: Option<int>, outer: int, auto: bool, align: Align)

  datatype FlexItemInput = FlexItemInput(main: MainInput, cross: CrossInput)

  datatype MainConstraints = MainConstraints(mainSize: Option<int>, wraps: bool, gap: int, justify: Justify)

  datatype CrossConstraints = CrossConstraints(crossSize: Option<int>, gap: int)

  datatype MainPlacement = MainPlacement(sourceIndex: nat, target: int, offset: int)

  datatype Placement = Placement(main: MainPlacement, targetCross: int, crossOffset: int)

  datatype Plan = Plan(placements: seq<Placement>, mainExtent: int, crossExtent: int)

  // ---- order-modified document order ---------------------------------------------

  function Key(main: MainInput): (int, int) {
    (main.order, main.sourceIndex)
  }

  predicate AtMost(a: (int, int), b: (int, int)) {
    a.0 < b.0 || (a.0 == b.0 && a.1 <= b.1)
  }

  function InputKey(input: FlexItemInput): (int, int) {
    Key(input.main)
  }

  function Insert<T>(x: T, sorted: seq<T>, key: T -> (int, int)): seq<T> {
    if sorted == [] || AtMost(key(x), key(sorted[0])) then [x] + sorted else [sorted[0]] + Insert(x, sorted[1..], key)
  }

  function SortBy<T>(items: seq<T>, key: T -> (int, int)): seq<T> {
    if items == [] then [] else Insert(items[0], SortBy(items[1..], key), key)
  }

  function Sort(inputs: seq<FlexItemInput>): seq<FlexItemInput> {
    SortBy(inputs, InputKey)
  }

  function SortMains(mains: seq<MainInput>): seq<MainInput> {
    SortBy(mains, Key)
  }

  lemma {:induction false} SortKeepsCount(inputs: seq<FlexItemInput>)
    ensures |Sort(inputs)| == |inputs|
  {
    if inputs != [] {
      SortKeepsCount(inputs[1..]);
      InsertAddsOne(inputs[0], Sort(inputs[1..]));
    }
  }

  lemma {:induction false} InsertAddsOne(x: FlexItemInput, sorted: seq<FlexItemInput>)
    ensures |Insert(x, sorted, InputKey)| == |sorted| + 1
  {
    if sorted == [] || AtMost(InputKey(x), InputKey(sorted[0])) {
    } else {
      InsertAddsOne(x, sorted[1..]);
    }
  }

  predicate Ordered(inputs: seq<FlexItemInput>) {
    forall i, j :: 0 <= i < j < |inputs| ==> AtMost(InputKey(inputs[i]), InputKey(inputs[j]))
  }

  predicate DistinctSources(inputs: seq<FlexItemInput>) {
    forall i, j :: 0 <= i < j < |inputs| ==> inputs[i].main.sourceIndex != inputs[j].main.sourceIndex
  }

  predicate Leads(first: FlexItemInput, rest: seq<FlexItemInput>) {
    forall j :: 0 <= j < |rest| ==> AtMost(InputKey(first), InputKey(rest[j]))
  }

  lemma OrderedCons(first: FlexItemInput, rest: seq<FlexItemInput>)
    ensures Ordered([first] + rest) <==> Ordered(rest) && Leads(first, rest)
  {
    var all := [first] + rest;
    forall i, j | Ordered(all) && 0 <= i < j < |rest|
      ensures AtMost(InputKey(rest[i]), InputKey(rest[j]))
    {
      assert rest[i] == all[i + 1] && rest[j] == all[j + 1];
    }
    forall j | Ordered(all) && 0 <= j < |rest|
      ensures AtMost(InputKey(first), InputKey(rest[j]))
    {
      assert first == all[0] && rest[j] == all[j + 1];
    }
  }

  /** What leads a sequence and the new item leads the sequence with the item inserted. */
  lemma {:induction false} InsertLed(first: FlexItemInput, x: FlexItemInput, sorted: seq<FlexItemInput>)
    requires Leads(first, sorted) && AtMost(InputKey(first), InputKey(x))
    ensures Leads(first, Insert(x, sorted, InputKey))
  {
    if sorted == [] || AtMost(InputKey(x), InputKey(sorted[0])) {
    } else {
      InsertLed(first, x, sorted[1..]);
    }
  }

  lemma {:induction false} InsertOrders(x: FlexItemInput, sorted: seq<FlexItemInput>)
    requires Ordered(sorted)
    ensures Ordered(Insert(x, sorted, InputKey))
    ensures multiset(Insert(x, sorted, InputKey)) == multiset(sorted) + multiset{x}
  {
    if sorted == [] {
      OrderedCons(x, sorted);
    } else {
      assert sorted == [sorted[0]] + sorted[1..];
      OrderedCons(sorted[0], sorted[1..]);
      if AtMost(InputKey(x), InputKey(sorted[0])) {
        OrderedCons(x, sorted);
      } else {
        InsertOrders(x, sorted[1..]);
        InsertLed(sorted[0], x, sorted[1..]);
        OrderedCons(sorted[0], Insert(x, sorted[1..], InputKey));
      }
    }
  }

  lemma {:induction false} SortOrders(inputs: seq<FlexItemInput>)
    ensures Ordered(Sort(inputs)) && multiset(Sort(inputs)) == multiset(inputs)
  {
    if inputs != [] {
      SortOrders(inputs[1..]);
      InsertOrders(inputs[0], Sort(inputs[1..]));
      assert inputs == [inputs[0]] + inputs[1..];
    }
  }

  lemma HeadsAgree(a: seq<FlexItemInput>, b: seq<FlexItemInput>)
    requires Ordered(a) && Ordered(b) && multiset(a) == multiset(b) && DistinctSources(a)
    requires a != [] && b != []
    ensures a[0] == b[0]
  {
    assert a[0] in multiset(a) && b[0] in multiset(b);
    var i :| 0 <= i < |b| && b[i] == a[0];
    var j :| 0 <= j < |a| && a[j] == b[0];
    assert AtMost(InputKey(a[0]), InputKey(a[j])) && AtMost(InputKey(b[0]), InputKey(b[i]));
  }

  lemma TailsAgree(a: seq<FlexItemInput>, b: seq<FlexItemInput>)
    requires a != [] && b != [] && a[0] == b[0] && multiset(a) == multiset(b)
    ensures multiset(a[1..]) == multiset(b[1..])
  {
    assert a == [a[0]] + a[1..] && b == [b[0]] + b[1..];
    assert multiset(a[1..]) == multiset(a) - multiset{a[0]};
    assert multiset(b[1..]) == multiset(b) - multiset{b[0]};
  }

  lemma OrderedTail(a: seq<FlexItemInput>)
    requires a != []
    ensures Ordered(a) ==> Ordered(a[1..])
    ensures DistinctSources(a) ==> DistinctSources(a[1..])
  {
  }

  /** With distinct source indices an unstable sort has only one possible outcome. */
  lemma {:induction false} OrderIsUnique(a: seq<FlexItemInput>, b: seq<FlexItemInput>)
    requires Ordered(a) && Ordered(b) && multiset(a) == multiset(b) && DistinctSources(a)
    ensures a == b
    decreases |a|
  {
    assert |a| == |multiset(a)| && |b| == |multiset(b)|;
    if a != [] {
      HeadsAgree(a, b);
      TailsAgree(a, b);
      OrderedTail(a);
      OrderedTail(b);
      hide Ordered;
      hide DistinctSources;
      OrderIsUnique(a[1..], b[1..]);
      assert a == [a[0]] + a[1..] && b == [b[0]] + b[1..];
    }
  }

  function Mains(inputs: seq<FlexItemInput>): (mains: seq<MainInput>)
    ensures |mains| == |inputs|
  {
    seq(|inputs|, i requires 0 <= i < |inputs| => inputs[i].main)
  }

  lemma {:induction false} InsertProjects(x: FlexItemInput, sorted: seq<FlexItemInput>)
    ensures Mains(Insert(x, sorted, InputKey)) == Insert(x.main, Mains(sorted), Key)
  {
    if sorted == [] || AtMost(InputKey(x), InputKey(sorted[0])) {
    } else {
      InsertProjects(x, sorted[1..]);
      assert Mains(sorted)[1..] == Mains(sorted[1..]);
      assert Mains(Insert(x, sorted, InputKey)) == [sorted[0].main] + Mains(Insert(x, sorted[1..], InputKey));
    }
  }

  lemma {:induction false} SortProjects(inputs: seq<FlexItemInput>)
    ensures Mains(Sort(inputs)) == SortMains(Mains(inputs))
  {
    if inputs != [] {
      SortProjects(inputs[1..]);
      assert Mains(inputs)[1..] == Mains(inputs[1..]);
      InsertProjects(inputs[0], Sort(inputs[1..]));
    }
  }

  // ---- the main axis as a function of main-axis inputs only -------------------------

  function Prepare(main: MainInput): WorkingItem {
    WorkingItem(main, Clamp(main, main.base), main.base, false)
  }

  function PrepareAll(mains: seq<MainInput>): (items: seq<WorkingItem>)
    ensures |items| == |mains| && Prepared(items)
  {
    seq(|mains|, i requires 0 <= i < |mains| => Prepare(mains[i]))
  }

  function WrapLimit(c: MainConstraints): Option<int> {
    if c.wraps then c.mainSize else None
  }

  function Resolved(line: seq<WorkingItem>, c: MainConstraints): (resolved: seq<WorkingItem>)
    ensures |resolved| == |line|
  {
    ResolveLine(line, GapTotal(|line|, c.gap), c.mainSize)
  }

  function LineMain(resolved: seq<WorkingItem>, c: MainConstraints): int {
    if c.mainSize.Some? then c.mainSize.value else Occupied(resolved, GapTotal(|resolved|, c.gap), Target)
  }

  function Packing(resolved: seq<WorkingItem>, c: MainConstraints): (int, int) {
    var used := Occupied(resolved, GapTotal(|resolved|, c.gap), Target);
    JustifyOffsets(c.justify, LineMain(resolved, c) - used, |resolved|)
  }

  /** The outer main offset of item i of a resolved line. */
  function MainOffset(resolved: seq<WorkingItem>, c: MainConstraints, i: nat): int
    requires i <= |resolved|
  {
    var (initial, between) := Packing(resolved, c);
    initial + Sum(resolved[..i], Target) + Sum(resolved[..i], Outer) + i * (c.gap + between)
  }

  function PlaceMain(resolved: seq<WorkingItem>, c: MainConstraints): (placed: seq<MainPlacement>)
    ensures |placed| == |resolved|
  {
    seq(|resolved|, i requires 0 <= i < |resolved| =>
      MainPlacement(resolved[i].main.sourceIndex, resolved[i].target, MainOffset(resolved, c, i)))
  }

  predicate SpansIn(spans: seq<Span>, count: nat) {
    forall i :: 0 <= i < |spans| ==> spans[i].start <= spans[i].end <= count
  }

  function PlaceLines(items: seq<WorkingItem>, spans: seq<Span>, c: MainConstraints): seq<MainPlacement>
    requires SpansIn(spans, |items|)
  {
    if spans == [] then []
    else
      var last := spans[|spans| - 1];
      PlaceLines(items, spans[..|spans| - 1], c) + PlaceMain(Resolved(items[last.start..last.end], c), c)
  }

  function Spans(items: seq<WorkingItem>, c: MainConstraints): (spans: seq<Span>)
    ensures SpansIn(spans, |items|)
  {
    if items == [] then LineBreaks(items, WrapLimit(c), c.gap)
    else
      BreaksAreGreedy(items, WrapLimit(c), c.gap, 0, 1);
      LineBreaks(items, WrapLimit(c), c.gap)
  }

  /** Every main-axis result of the planner, from main-axis inputs alone. */
  function MainPlan(mains: seq<MainInput>, c: MainConstraints): seq<MainPlacement> {
    var items := PrepareAll(SortMains(mains));
    PlaceLines(items, Spans(items, c), c)
  }

  /** The last item's end, before any further gap, in terms of the space the line uses. */
  lemma LastEnd(resolved: seq<WorkingItem>, c: MainConstraints)
    requires resolved != []
    ensures var (initial, between) := Packing(resolved, c);
            MainOffset(resolved, c, |resolved|) - c.gap - between
            == initial + Occupied(resolved, GapTotal(|resolved|, c.gap), Target) + (|resolved| - 1) * between
  {
    hide JustifyOffsets;
    var n := |resolved|;
    var (initial, between) := Packing(resolved, c);
    assert resolved[..n] == resolved;
    assert n * (c.gap + between) == (n - 1) * c.gap + c.gap + (n - 1) * between + between;
  }

  /** On a line whose items leave room, packed items never overlap and stay inside the line. */
  lemma LineStaysInside(line: seq<WorkingItem>, c: MainConstraints, i: nat)
    requires Prepared(line) && i < |line| && Grows(line, GapTotal(|line|, c.gap), c.mainSize)
    ensures var resolved := Resolved(line, c);
            && 0 <= MainOffset(resolved, c, 0)
            && (MainOffset(resolved, c, i) + resolved[i].target + resolved[i].main.outer + c.gap
                <= MainOffset(resolved, c, i + 1))
            && MainOffset(resolved, c, |line|) - c.gap - Packing(resolved, c).1 <= LineMain(resolved, c)
  {
    hide JustifyOffsets;
    hide ResolveLine;
    hide Sum;
    var resolved := Resolved(line, c);
    GrowingLine(line, GapTotal(|line|, c.gap), c.mainSize);
    JustifyStaysInside(c.justify, LineMain(resolved, c) - Occupied(resolved, GapTotal(|line|, c.gap), Target), |line|);
    OffsetStep(resolved, c, i);
    LastEnd(resolved, c);
    StartsAtInitial(resolved, c);
  }

  lemma StartsAtInitial(resolved: seq<WorkingItem>, c: MainConstraints)
    ensures MainOffset(resolved, c, 0) == Packing(resolved, c).0
  {
    assert resolved[..0] == [];
  }

  function Sources(placed: seq<MainPlacement>): seq<nat> {
    seq(|placed|, i requires 0 <= i < |placed| => placed[i].sourceIndex)
  }

  function ItemSources(items: seq<WorkingItem>): seq<nat> {
    seq(|items|, i requires 0 <= i < |items| => items[i].main.sourceIndex)
  }

  /** Resolution keeps every item where it is, so placements follow the items. */
  lemma ResolvedKeepsItems(line: seq<WorkingItem>, c: MainConstraints)
    requires Prepared(line)
    ensures Sources(PlaceMain(Resolved(line, c), c)) == ItemSources(line)
  {
    hide ResolveLine;
    TargetsKeepTheirSign(line, GapTotal(|line|, c.gap), c.mainSize);
  }

  lemma SourcesOfTwo(a: seq<MainPlacement>, b: seq<MainPlacement>)
    ensures Sources(a + b) == Sources(a) + Sources(b)
  {
  }

  lemma ItemSourcesOfTwo(a: seq<WorkingItem>, b: seq<WorkingItem>)
    ensures ItemSources(a + b) == ItemSources(a) + ItemSources(b)
  {
  }

  lemma {:induction false} LinesCoverItems(items: seq<WorkingItem>, spans: seq<Span>, c: MainConstraints, k: nat)
    requires Partition(|items|, 0, spans) && k <= |spans| && Prepared(items)
    ensures Sources(PlaceLines(items, spans[..k], c)) == ItemSources(items[..if k == 0 then 0 else spans[k - 1].end])
  {
    if k > 0 {
      LinesCoverItems(items, spans, c, k - 1);
      var last := spans[k - 1];
      var line := items[last.start..last.end];
      assert spans[..k][..k - 1] == spans[..k - 1];
      ResolvedKeepsItems(line, c);
      hide Sources;
      hide ItemSources;
      hide Resolved;
      hide PlaceMain;
      SourcesOfTwo(PlaceLines(items, spans[..k - 1], c), PlaceMain(Resolved(line, c), c));
      ItemSourcesOfTwo(items[..last.start], line);
      assert items[..last.end] == items[..last.start] + line;
    }
  }

  /** Placements are the items in order-modified document order: every item once, none invented. */
  lemma PlanPlacesEveryItem(mains: seq<MainInput>, c: MainConstraints)
    ensures Sources(MainPlan(mains, c)) == ItemSources(PrepareAll(SortMains(mains)))
  {
    var items := PrepareAll(SortMains(mains));
    var spans := Spans(items, c);
    if items == [] {
      assert spans == [Span(0, 0)] && spans[..0] == [];
      assert PlaceLines(items, spans, c) == PlaceLines(items, spans[..0], c) + PlaceMain(Resolved(items[0..0], c), c);
    } else {
      BreaksAreGreedy(items, WrapLimit(c), c.gap, 0, 1);
      LinesCoverItems(items, spans, c, |spans|);
      assert spans[..|spans|] == spans && items[..|items|] == items;
    }
  }

  // ---- the cross axis ------------------------------------------------------------------

  function CrossSize(cross: CrossInput): int {
    ClampMain(cross.base, cross.min, cross.max) + cross.outer
  }

  /** A line is as tall as its tallest item, and never negative. */
  function NaturalCross(crosses: seq<CrossInput>): int {
    if crosses == [] then 0 else Max(NaturalCross(crosses[..|crosses| - 1]), CrossSize(crosses[|crosses| - 1]))
  }

  lemma {:induction false} NaturalCrossIsTallest(crosses: seq<CrossInput>)
    ensures NaturalCross(crosses) >= 0
    ensures forall i :: 0 <= i < |crosses| ==> CrossSize(crosses[i]) <= NaturalCross(crosses)
    ensures NaturalCross(crosses) != 0 ==>
      exists i :: 0 <= i < |crosses| && CrossSize(crosses[i]) == NaturalCross(crosses)
  {
    if crosses != [] {
      var init := crosses[..|crosses| - 1];
      NaturalCrossIsTallest(init);
      forall i | 0 <= i < |crosses|
        ensures CrossSize(crosses[i]) <= NaturalCross(crosses)
      {
        if i < |init| { assert crosses[i] == init[i]; }
      }
      if NaturalCross(crosses) != 0 {
        if NaturalCross(crosses) == CrossSize(crosses[|crosses| - 1]) {
        } else {
          var i :| 0 <= i < |init| && CrossSize(init[i]) == NaturalCross(init);
          assert crosses[i] == init[i];
        }
      }
    }
  }

  function NaturalSizes(crosses: seq<CrossInput>, spans: seq<Span>): (sizes: seq<int>)
    requires SpansIn(spans, |crosses|)
    ensures |sizes| == |spans|
  {
    seq(|spans|, i requires 0 <= i < |spans| => NaturalCross(crosses[spans[i].start..spans[i].end]))
  }

  /** The cross sizes of the lines once the container's cross size is taken into account. */
  function LineSizes(crosses: seq<CrossInput>, spans: seq<Span>, c: CrossConstraints): (sizes: seq<int>)
    requires SpansIn(spans, |crosses|)
    ensures |sizes| == |spans|
  {
    var natural := NaturalSizes(crosses, spans);
    if c.crossSize.None? then natural
    else if |spans| == 1 then [c.crossSize.value]
    else
      var extent := Total(natural) + GapTotal(|natural|, c.gap);
      if extent < c.crossSize.value then Stretched(natural, c.crossSize.value - extent) else natural
  }

  /** A definite cross size that exceeds the lines is used up exactly. */
  lemma DefiniteCrossSizeIsUsedUp(crosses: seq<CrossInput>, spans: seq<Span>, c: CrossConstraints)
    requires SpansIn(spans, |crosses|) && |spans| > 0 && c.crossSize.Some?
    requires Total(NaturalSizes(crosses, spans)) + GapTotal(|spans|, c.gap) < c.crossSize.value
    ensures Total(LineSizes(crosses, spans, c)) + GapTotal(|spans|, c.gap) == c.crossSize.value
    ensures |spans| > 1 ==>
      forall i :: 0 <= i < |spans| ==> NaturalSizes(crosses, spans)[i] <= LineSizes(crosses, spans, c)[i]
  {
    var natural := NaturalSizes(crosses, spans);
    if |spans| == 1 {
      assert Total([c.crossSize.value]) == Total([]) + c.crossSize.value;
    } else {
      var extra := c.crossSize.value - (Total(natural) + GapTotal(|natural|, c.gap));
      SurplusAddsUp(natural, extra);
    }
  }

  lemma SurplusAddsUp(natural: seq<int>, extra: int)
    requires |natural| > 0 && extra >= 0
    ensures Total(Stretched(natural, extra)) == Total(natural) + extra
    ensures |Stretched(natural, extra)| == |natural|
    ensures forall i :: 0 <= i < |natural| ==> natural[i] <= Stretched(natural, extra)[i]
  {
    SurplusIsExact(natural, extra);
    hide Surplus;
    hide Total;
    forall i | 0 <= i < |natural|
      ensures natural[i] <= Stretched(natural, extra)[i]
    {
      SurplusIsFair(extra, |natural|, i);
    }
  }

  function TargetCross(cross: CrossInput, lineSize: int): int {
    var unclamped := if cross.align == AlignStretch && cross.auto then Max(lineSize - cross.outer, 0) else cross.base;
    ClampMain(unclamped, cross.min, cross.max)
  }

  function CrossPacking(cross: CrossInput, lineSize: int): int {
    var free := lineSize - TargetCross(cross, lineSize) - cross.outer;
    match cross.align
    case AlignStretch => 0
    case AlignStart => 0
    case AlignEnd => free
    case AlignCenter => TruncDiv(free, 2)
  }

  function CheckedAu(value: int): (r: Result<int, FlexError>)
    ensures r.Ok? ==> 0 <= r.value == value
    ensures r.Err? ==> r.error == ArithmeticOverflow
  {
    if 0 <= value <= 0x7FFF_FFFF then Ok(value) else Err(ArithmeticOverflow)
  }

  function CheckedSignedAu(value: int): (r: Result<int, FlexError>)
    ensures r.Ok? ==> r.value == value
    ensures r.Err? ==> r.error == ArithmeticOverflow
  {
    if -0x8000_0000 <= value <= 0x7FFF_FFFF then Ok(value) else Err(ArithmeticOverflow)
  }

  function CheckedCross(cross: CrossInput, lineSize: int, lineOffset: int): (r: Result<(int, int), FlexError>)
    ensures r.Ok? ==> r.value == (TargetCross(cross, lineSize), lineOffset + CrossPacking(cross, lineSize))
    ensures r.Err? ==> r.error == ArithmeticOverflow
  {
    var _ :- if cross.align == AlignStretch && cross.auto then CheckedSub(lineSize, cross.outer) else Ok(0);
    var target := TargetCross(cross, lineSize);
    var rest :- CheckedSub(lineSize, target);
    var _ :- CheckedSub(rest, cross.outer);
    var offset :- CheckedAdd(lineOffset, CrossPacking(cross, lineSize));
    var targetAu :- CheckedAu(target);
    var offsetAu :- CheckedSignedAu(offset);
    Ok((targetAu, offsetAu))
  }

  function NextOffset(offset: int, item: WorkingItem, gap: int, between: int, more: bool): (r: Result<int, FlexError>)
    ensures r.Ok? ==> r.value == offset + item.target + item.main.outer + if more then gap + between else 0
    ensures r.Err? ==> r.error == ArithmeticOverflow
  {
    var size :- CheckedAdd(item.target, item.main.outer);
    var end :- CheckedAdd(offset, size);
    if !more then Ok(end)
    else
      var withGap :- CheckedAdd(end, gap);
      CheckedAdd(withGap, between)
  }

  lemma OffsetStep(items: seq<WorkingItem>, c: MainConstraints, i: nat)
    requires i < |items|
    ensures MainOffset(items, c, i + 1) == MainOffset(items, c, i) + items[i].target + items[i].main.outer + c.gap
        + Packing(items, c).1
  {
    SumStep(items, i, Target);
    SumStep(items, i, Outer);
    var (_, between) := Packing(items, c);
    assert (i + 1) * (c.gap + between) == i * (c.gap + between) + c.gap + between;
  }

  // ---- the planner -------------------------------------------------------------------------

  function LineOffset(sizes: seq<int>, gap: int, i: nat): int
    requires i <= |sizes|
  {
    Total(sizes[..i]) + i * gap
  }

  function PlaceFullLine(placed: seq<MainPlacement>, crosses: seq<CrossInput>, lineCross: int,
                         lineOffset: int): (full: seq<Placement>)
    requires |placed| == |crosses|
    ensures |full| == |placed|
  {
    seq(|placed|, i requires 0 <= i < |placed| =>
      Placement(placed[i], TargetCross(crosses[i], lineCross), lineOffset + CrossPacking(crosses[i], lineCross)))
  }

  /** Every placement of the plan, line by line. */
  function PlaceFull(items: seq<WorkingItem>, crosses: seq<CrossInput>, spans: seq<Span>, c: MainConstraints,
                     sizes: seq<int>, gap: int)
    : seq<Placement>
    requires SpansIn(spans, |items|) && |crosses| == |items| && |spans| <= |sizes|
  {
    if spans == [] then []
    else
      var k := |spans| - 1;
      var span := spans[k];
      PlaceFull(items, crosses, spans[..k], c, sizes, gap) +
      PlaceFullLine(PlaceMain(Resolved(items[span.start..span.end], c), c), crosses[span.start..span.end], sizes[k],
          LineOffset(sizes, gap, k))
  }

  function Crosses(inputs: seq<FlexItemInput>): (crosses: seq<CrossInput>)
    ensures |crosses| == |inputs|
  {
    seq(|inputs|, i requires 0 <= i < |inputs| => inputs[i].cross)
  }

  function FullPlan(inputs: seq<FlexItemInput>, c: MainConstraints, cross: CrossConstraints): seq<Placement> {
    var sorted := Sort(inputs);
    var items := PrepareAll(Mains(sorted));
    var spans := Spans(items, c);
    PlaceFull(items, Crosses(sorted), spans, c, LineSizes(Crosses(sorted), spans, cross), cross.gap)
  }

  function MainPart(placements: seq<Placement>): (mains: seq<MainPlacement>)
    ensures |mains| == |placements|
  {
    seq(|placements|, i requires 0 <= i < |placements| => placements[i].main)
  }

  lemma {:induction false} MainPartOfLines(items: seq<WorkingItem>, crosses: seq<CrossInput>, spans: seq<Span>,
                                           c: MainConstraints, sizes: seq<int>, gap: int)
    requires SpansIn(spans, |items|) && |crosses| == |items| && |spans| <= |sizes|
    ensures MainPart(PlaceFull(items, crosses, spans, c, sizes, gap)) == PlaceLines(items, spans, c)
  {
    if spans != [] {
      hide Resolved;
      hide PlaceMain;
      var k := |spans| - 1;
      var span := spans[k];
      MainPartOfLines(items, crosses, spans[..k], c, sizes, gap);
      var placed := PlaceMain(Resolved(items[span.start..span.end], c), c);
      var full := PlaceFullLine(placed, crosses[span.start..span.end], sizes[k], LineOffset(sizes, gap, k));
      assert MainPart(full) == placed;
      var before := PlaceFull(items, crosses, spans[..k], c, sizes, gap);
      assert MainPart(before + full) == MainPart(before) + MainPart(full);
    }
  }

  /** Replanning with other cross sizes repeats every line break, main size and main offset. */
  lemma ReplanningKeepsMainAxis(a: seq<FlexItemInput>, b: seq<FlexItemInput>, c: MainConstraints,
                                ca: CrossConstraints, cb: CrossConstraints)
    requires Mains(a) == Mains(b)
    ensures MainPart(FullPlan(a, c, ca)) == MainPart(FullPlan(b, c, cb)) == MainPlan(Mains(a), c)
  {
    MainPartOfPlan(a, c, ca);
    MainPartOfPlan(b, c, cb);
  }

  lemma MainPartOfPlan(inputs: seq<FlexItemInput>, c: MainConstraints, cross: CrossConstraints)
    ensures MainPart(FullPlan(inputs, c, cross)) == MainPlan(Mains(inputs), c)
  {
    SortProjects(inputs);
    var sorted := Sort(inputs);
    var items := PrepareAll(Mains(sorted));
    MainPartOfLines(items, Crosses(sorted), Spans(items, c), c, LineSizes(Crosses(sorted), Spans(items, c), cross),
                    cross.gap);
  }

  /** The first offset and the extra gap of one resolved line. */
  method PackLine(line: seq<WorkingItem>, c: MainConstraints, lineMain: int) returns (r: Result<(int, int), FlexError>)
    requires lineMain == LineMain(line, c)
    ensures r.Ok? ==> r.value == Packing(line, c)
    ensures r.Err? ==> Failed(r)
  {
    hide JustifyOffsets;
    var count := |line|;
    var gaps :- CheckedMul(if count == 0 then 0 else count - 1, c.gap);
    var items := new WorkingItem[count](k requires 0 <= k < count => line[k]);
    assert items[..] == line;
    var used :- SumItemSizes(items, gaps, Target);
    var free :- CheckedSub(lineMain, used);
    return Ok(JustifyOffsets(c.justify, free, count));
  }

  /** The placements of one resolved line. */
  method PlaceLine(line: seq<WorkingItem>, crosses: seq<CrossInput>, c: MainConstraints, lineMain: int,
                   lineCross: int, lineOffset: int)
    returns (r: Result<seq<Placement>, FlexError>)
    requires |crosses| == |line| && lineMain == LineMain(line, c)
    ensures r.Ok? ==> r.value == PlaceFullLine(PlaceMain(line, c), crosses, lineCross, lineOffset)
    ensures r.Ok? ==> NonNegativeTargets(line)
    ensures r.Err? ==> Failed(r)
  {
    var count := |line|;
    var packing :- PackLine(line, c, lineMain);
    var (initial, between) := packing;
    ghost var goal := PlaceFullLine(PlaceMain(line, c), crosses, lineCross, lineOffset);
    StartsAtInitial(line, c);
    var offset := initial;
    var placed := [];
    for i := 0 to count
      invariant |placed| == i
      invariant i < count || i == 0 ==> offset == MainOffset(line, c, i)
      invariant forall k :: 0 <= k < i ==> placed[k] == goal[k]
      invariant forall k :: 0 <= k < i ==> 0 <= line[k].target
    {
      hide MainOffset;
      hide Packing;
      hide TargetCross;
      hide CrossPacking;
      OffsetStep(line, c, i);
      var cross :- CheckedCross(crosses[i], lineCross, lineOffset);
      var target :- CheckedAu(line[i].target);
      var start :- CheckedSignedAu(offset);
      placed := placed + [Placement(MainPlacement(line[i].main.sourceIndex, target, start), cross.0, cross.1)];
      offset :- NextOffset(offset, line[i], c.gap, between, i + 1 < count);
    }
    return Ok(placed);
  }

  function BitLength(n: nat): nat {
    if n == 0 then 0 else 1 + BitLength(n / 2)
  }

  function SortWork(count: nat): nat {
    if count < 2 then count else count * (BitLength(count - 1) + 1)
  }

  method NaturalCrossSizes(crosses: seq<CrossInput>, spans: seq<Span>) returns (r: Result<array<int>, FlexError>)
    requires SpansIn(spans, |crosses|)
    ensures r.Ok? ==> fresh(r.value) && r.value[..] == NaturalSizes(crosses, spans)
    ensures r.Err? ==> Failed(r)
  {
    var sizes := new int[|spans|];
    for i := 0 to |spans|
      invariant forall k :: 0 <= k < i ==> sizes[k] == NaturalCross(crosses[spans[k].start..spans[k].end])
    {
      var line := crosses[spans[i].start..spans[i].end];
      var largest := 0;
      for k := 0 to |line|
        invariant largest == NaturalCross(line[..k])
      {
        assert line[..k + 1][..k] == line[..k];
        var size :- CheckedAdd(ClampMain(line[k].base, line[k].min, line[k].max), line[k].outer);
        largest := Max(largest, size);
      }
      assert line[..|line|] == line;
      sizes[i] := largest;
    }
    return Ok(sizes);
  }

  /** Work that is always enough to fit the lines to a definite cross size. */
  function CrossWork(c: CrossConstraints, lines: nat): nat {
    if c.crossSize.Some? then 2 * lines else 0
  }

  /** Cross sizes of all lines, in place in a fresh array. */
  method ResolveCrossSizes(crosses: seq<CrossInput>, spans: seq<Span>, c: CrossConstraints, budget: FlexWorkBudget)
    returns (r: Result<seq<int>, FlexError>)
    requires SpansIn(spans, |crosses|) && |spans| > 0
    modifies budget
    ensures r.Ok? ==> r.value == LineSizes(crosses, spans, c)
    ensures r.Ok? ==> budget.used <= old(budget.used) + |crosses| + CrossWork(c, |spans|)
    ensures r.Err? ==> Failed(r) || OutOfWork(r, old(budget.used) + |crosses| + CrossWork(c, |spans|), budget)
  {
    var _ :- budget.Charge(|crosses|);
    var sizes :- NaturalCrossSizes(crosses, spans);
    if c.crossSize.Some? {
      if |spans| == 1 {
        var _ :- budget.Charge(1);
        sizes[0] := c.crossSize.value;
        assert sizes[..] == [c.crossSize.value];
      } else {
        var _ :- StretchLines(sizes, c.crossSize.value, c.gap, budget);
      }
    }
    return Ok(sizes[..]);
  }

  /** The resolved lines, in line order. */
  function ResolvedLines(items: seq<WorkingItem>, spans: seq<Span>, c: MainConstraints): (lines: seq<seq<WorkingItem>>)
    requires SpansIn(spans, |items|)
    ensures |lines| == |spans|
  {
    seq(|spans|, i requires 0 <= i < |spans| => Resolved(items[spans[i].start..spans[i].end], c))
  }

  function Length(span: Span): nat {
    if span.start <= span.end then span.end - span.start else 0
  }

  /** Work that is always enough to resolve the lines one by one. */
  function LineWork(spans: seq<Span>): nat {
    if spans == [] then 0 else LineWork(spans[..|spans| - 1]) + WorkBound(Length(spans[|spans| - 1]))
  }

  lemma {:induction false} LineWorkSoFar(spans: seq<Span>, k: nat)
    requires k < |spans|
    ensures LineWork(spans[..k + 1]) == LineWork(spans[..k]) + WorkBound(Length(spans[k])) <= LineWork(spans)
    decreases |spans| - k
  {
    assert spans[..k + 1][..k] == spans[..k];
    if k + 1 == |spans| {
      assert spans[..k + 1] == spans;
    } else {
      LineWorkSoFar(spans, k + 1);
    }
  }

  lemma WorkAdds(a: nat, b: nat)
    ensures WorkBound(a) + WorkBound(b) <= WorkBound(a + b)
  {
    assert (a + b) * (a + b) == a * a + b * b + 2 * (a * b);
  }

  /** Resolving the lines one by one costs no more than one line with all the items would. */
  lemma {:induction false} LinesShareWork(count: nat, spans: seq<Span>, k: nat)
    requires Partition(count, 0, spans) && 0 < k <= |spans|
    ensures LineWork(spans[..k]) <= WorkBound(spans[k - 1].end) && k <= spans[k - 1].end
  {
    var last := spans[k - 1];
    assert spans[..k][..k - 1] == spans[..k - 1];
    if k == 1 {
      assert spans[..0] == [];
    } else {
      LinesShareWork(count, spans, k - 1);
      WorkAdds(last.start, last.end - last.start);
    }
  }

  lemma SpansShareWork(items: seq<WorkingItem>, c: MainConstraints)
    ensures var spans := Spans(items, c);
            LineWork(spans) <= WorkBound(|items|) && 0 < |spans| <= Max(|items|, 1)
  {
    var spans := Spans(items, c);
    if items == [] {
      assert spans[..0] == [];
    } else {
      BreaksAreGreedy(items, WrapLimit(c), c.gap, 0, 1);
      LinesShareWork(|items|, spans, |spans|);
      assert spans[..|spans|] == spans;
    }
  }

  /** The main sizes of the lines. */
  function LineMains(items: seq<WorkingItem>, spans: seq<Span>, c: MainConstraints): (mains: seq<int>)
    requires SpansIn(spans, |items|)
    ensures |mains| == |spans|
  {
    seq(|spans|, i requires 0 <= i < |spans| => LineMain(ResolvedLines(items, spans, c)[i], c))
  }

  lemma LineAt(items: seq<WorkingItem>, spans: seq<Span>, c: MainConstraints, i: nat)
    requires SpansIn(spans, |items|) && i < |spans|
    ensures ResolvedLines(items, spans, c)[i] == Resolved(items[spans[i].start..spans[i].end], c)
    ensures LineMains(items, spans, c)[i] == LineMain(ResolvedLines(items, spans, c)[i], c)
  {
  }

  /** Resolves one line in place in a slice of its own. */
  method ResolveOne(items: seq<WorkingItem>, c: MainConstraints, budget: FlexWorkBudget)
    returns (r: Result<(seq<WorkingItem>, int), FlexError>)
    modifies budget
    ensures r.Ok? ==> r.value.0 == Resolved(items, c) && r.value.1 == LineMain(r.value.0, c)
    ensures r.Ok? ==> budget.used <= old(budget.used) + WorkBound(|items|)
    ensures r.Err? ==> Failed(r) || OutOfWork(r, old(budget.used) + WorkBound(|items|), budget)
  {
    hide ResolveLine;
    hide WorkBound;
    var count := |items|;
    var line := new WorkingItem[count](k requires 0 <= k < count => items[k]);
    assert line[..] == items;
    var gaps :- CheckedMul(if count == 0 then 0 else count - 1, c.gap);
    var lineMain :- ResolveFlexibleLengths(line, gaps, c.mainSize, budget);
    return Ok((line[..], lineMain));
  }

  /** Resolves every line; the second value holds the lines' main sizes. */
  method ResolveLines(items: seq<WorkingItem>, spans: seq<Span>, c: MainConstraints, budget: FlexWorkBudget)
    returns (r: Result<(seq<seq<WorkingItem>>, seq<int>), FlexError>)
    requires SpansIn(spans, |items|)
    modifies budget
    ensures r.Ok? ==> r.value.0 == ResolvedLines(items, spans, c) && r.value.1 == LineMains(items, spans, c)
    ensures r.Ok? ==> budget.used <= old(budget.used) + LineWork(spans)
    ensures r.Err? ==> Failed(r) || OutOfWork(r, old(budget.used) + LineWork(spans), budget)
  {
    hide ResolvedLines;
    hide LineMains;
    hide Resolved;
    hide LineMain;
    hide WorkBound;
    ghost var goal, goalMains := ResolvedLines(items, spans, c), LineMains(items, spans, c);
    var lines, mains := [], [];
    assert spans[..0] == [] && spans[..|spans|] == spans;
    for i := 0 to |spans|
      invariant lines == goal[..i] && mains == goalMains[..i]
      invariant budget.used <= old(budget.used) + LineWork(spans[..i])
    {
      LineAt(items, spans, c, i);
      LineWorkSoFar(spans, i);
      hide LineWork;
      var line :- ResolveOne(items[spans[i].start..spans[i].end], c, budget);
      lines := lines + [line.0];
      mains := mains + [line.1];
    }
    return Ok((lines, mains));
  }

  /** The cross offset of every line. */
  method CrossOffsets(sizes: seq<int>, gap: int) returns (r: Result<seq<int>, FlexError>)
    ensures r.Ok? ==> |r.value| == |sizes| && forall i :: 0 <= i < |sizes| ==> r.value[i] == LineOffset(sizes, gap, i)
    ensures r.Err? ==> Failed(r)
  {
    var offsets, offset := [], 0;
    for i := 0 to |sizes|
      invariant |offsets| == i
      invariant i < |sizes| || i == 0 ==> offset == LineOffset(sizes, gap, i)
      invariant forall k :: 0 <= k < i ==> offsets[k] == LineOffset(sizes, gap, k)
    {
      offsets := offsets + [offset];
      TotalStep(sizes, i);
      assert (i + 1) * gap == i * gap + gap;
      offset :- CheckedAdd(offset, sizes[i]);
      if i + 1 < |sizes| {
        offset :- CheckedAdd(offset, gap);
      }
    }
    return Ok(offsets);
  }

  lemma PlaceFullStep(items: seq<WorkingItem>, crosses: seq<CrossInput>, spans: seq<Span>, c: MainConstraints,
                      sizes: seq<int>, gap: int, i: nat)
    requires SpansIn(spans, |items|) && |crosses| == |items| && |spans| == |sizes| && i < |spans|
    ensures PlaceFull(items, crosses, spans[..i + 1], c, sizes, gap)
         == PlaceFull(items, crosses, spans[..i], c, sizes, gap)
            + PlaceFullLine(PlaceMain(ResolvedLines(items, spans, c)[i], c), crosses[spans[i].start..spans[i].end],
                sizes[i], LineOffset(sizes, gap, i))
  {
    hide Resolved;
    hide PlaceMain;
    hide PlaceFullLine;
    hide LineOffset;
    assert spans[..i + 1][..i] == spans[..i];
  }

  /** Places the resolved lines one after another. */
  method PlaceAll(items: seq<WorkingItem>, crosses: seq<CrossInput>, spans: seq<Span>, c: MainConstraints,
                  lines: seq<seq<WorkingItem>>, mains: seq<int>, sizes: seq<int>, offsets: seq<int>, ghost gap: int)
    returns (r: Result<seq<Placement>, FlexError>)
    requires SpansIn(spans, |items|) && |crosses| == |items| && |mains| == |sizes| == |offsets| == |spans|
    requires lines == ResolvedLines(items, spans, c) && mains == LineMains(items, spans, c)
    requires forall i :: 0 <= i < |spans| ==> offsets[i] == LineOffset(sizes, gap, i)
    ensures r.Ok? ==> r.value == PlaceFull(items, crosses, spans, c, sizes, gap)
    ensures r.Ok? ==> forall i :: 0 <= i < |spans| ==> NonNegativeTargets(lines[i])
    ensures r.Err? ==> Failed(r)
  {
    hide ResolvedLines;
    hide LineMains;
    hide NonNegativeTargets;
    hide Resolved;
    hide LineMain;
    hide PlaceMain;
    hide PlaceFullLine;
    hide LineOffset;
    var placements: seq<Placement> := [];
    assert spans[..0] == [] && spans[..|spans|] == spans;
    for i := 0 to |spans|
      invariant placements == PlaceFull(items, crosses, spans[..i], c, sizes, gap)
      invariant forall k :: 0 <= k < i ==> NonNegativeTargets(lines[k])
    {
      hide PlaceFull;
      LineAt(items, spans, c, i);
      PlaceFullStep(items, crosses, spans, c, sizes, gap, i);
      var placed :- PlaceLine(lines[i], crosses[spans[i].start..spans[i].end], c, mains[i], sizes[i], offsets[i]);
      placements := placements + placed;
    }
    return Ok(placements);
  }

  /** The items and lines that the planner works on. */
  function PlannedItems(inputs: seq<FlexItemInput>): seq<WorkingItem> {
    PrepareAll(Mains(Sort(inputs)))
  }

  /** The longest line. */
  function MainExtent(inputs: seq<FlexItemInput>, c: MainConstraints): int {
    var items := PlannedItems(inputs);
    LinesExist(items, c);
    Largest(LineMains(items, Spans(items, c), c))
  }

  /** The container's own cross size, or the lines with the gaps between them. */
  function CrossExtent(inputs: seq<FlexItemInput>, c: MainConstraints, cross: CrossConstraints): int {
    var sorted := Sort(inputs);
    var spans := Spans(PrepareAll(Mains(sorted)), c);
    if cross.crossSize.Some? then cross.crossSize.value
    else Total(LineSizes(Crosses(sorted), spans, cross)) + GapTotal(|spans|, cross.gap)
  }

  /** A definite main size is the main extent. */
  lemma DefiniteMainExtent(inputs: seq<FlexItemInput>, c: MainConstraints)
    requires c.mainSize.Some?
    ensures MainExtent(inputs, c) == c.mainSize.value
  {
    var items := PlannedItems(inputs);
    LinesExist(items, c);
    var mains := LineMains(items, Spans(items, c), c);
    assert forall i :: 0 <= i < |mains| ==> mains[i] == c.mainSize.value;
  }

  // ---- what every published plan keeps ---------------------------------------------------

  ghost predicate LinesKeepBounds(items: seq<WorkingItem>, spans: seq<Span>, c: MainConstraints)
    requires SpansIn(spans, |items|)
  {
    forall i :: 0 <= i < |spans| ==>
      var line := items[spans[i].start..spans[i].end];
      && KeepsBounds(line, GapTotal(|line|, c.gap), c.mainSize)
      && DividesFairly(line, GapTotal(|line|, c.gap), c.mainSize)
  }

  /** Item k of a partition lies on one of its lines. */
  lemma LineHolding(count: nat, spans: seq<Span>, k: nat, from: nat) returns (at: nat)
    requires Partition(count, 0, spans) && k < count && from < |spans| && spans[from].start <= k
    ensures at < |spans| && spans[at].start <= k < spans[at].end
    decreases |spans| - from
  {
    at := from;
    if spans[from].end <= k {
      at := LineHolding(count, spans, k, from + 1);
    }
  }

  lemma PublishedLine(items: seq<WorkingItem>, spans: seq<Span>, c: MainConstraints, i: nat)
    requires Prepared(items) && SpansIn(spans, |items|) && i < |spans|
    requires NonNegativeTargets(ResolvedLines(items, spans, c)[i])
    ensures var line := items[spans[i].start..spans[i].end];
            && KeepsBounds(line, GapTotal(|line|, c.gap), c.mainSize)
            && DividesFairly(line, GapTotal(|line|, c.gap), c.mainSize)
            && forall k :: spans[i].start <= k < spans[i].end ==> 0 <= items[k].hypothetical
  {
    hide ResolveLine;
    hide KeepsBounds;
    hide DividesFairly;
    var line := items[spans[i].start..spans[i].end];
    assert Resolved(line, c) == ResolvedLines(items, spans, c)[i];
    PublishableLineKeepsBounds(line, GapTotal(|line|, c.gap), c.mainSize);
    LinesAreDividedFairly(line, GapTotal(|line|, c.gap), c.mainSize);
    TargetsKeepTheirSign(line, GapTotal(|line|, c.gap), c.mainSize);
    forall k | spans[i].start <= k < spans[i].end
      ensures 0 <= items[k].hypothetical
    {
      assert items[k] == line[k - spans[i].start];
    }
  }

  /** Lines that can be published keep their bounds, and no item of theirs was forced below zero. */
  lemma PublishedLinesKeepBounds(items: seq<WorkingItem>, c: MainConstraints)
    requires Prepared(items)
    requires var spans := Spans(items, c);
             forall i :: 0 <= i < |spans| ==> NonNegativeTargets(ResolvedLines(items, spans, c)[i])
    ensures LinesKeepBounds(items, Spans(items, c), c)
    ensures forall k :: 0 <= k < |items| ==> 0 <= items[k].hypothetical
  {
    hide KeepsBounds;
    hide DividesFairly;
    var spans := Spans(items, c);
    forall i | 0 <= i < |spans|
      ensures var line := items[spans[i].start..spans[i].end];
              && KeepsBounds(line, GapTotal(|line|, c.gap), c.mainSize)
              && DividesFairly(line, GapTotal(|line|, c.gap), c.mainSize)
    {
      PublishedLine(items, spans, c, i);
    }
    forall k | 0 <= k < |items|
      ensures 0 <= items[k].hypothetical
    {
      BreaksAreGreedy(items, WrapLimit(c), c.gap, 0, 1);
      var i := LineHolding(|items|, spans, k, 0);
      PublishedLine(items, spans, c, i);
    }
  }

  /** Work that is always enough to plan n items: the sort, the lines, and ten passes over items and lines. */
  function PlanWork(n: nat): nat {
    SortWork(n) + WorkBound(n) + 5 * n + 5 * Max(n, 1)
  }

  /** Sizes and places resolved lines on the cross axis, and publishes the plan. */
  method Publish(items: seq<WorkingItem>, crosses: seq<CrossInput>, spans: seq<Span>, c: MainConstraints,
                 cross: CrossConstraints, lines: seq<seq<WorkingItem>>, mains: seq<int>, budget: FlexWorkBudget)
    returns (r: Result<Plan, FlexError>)
    requires SpansIn(spans, |items|) && |crosses| == |items| && |spans| > 0
    requires lines == ResolvedLines(items, spans, c) && mains == LineMains(items, spans, c)
    modifies budget
    ensures r.Ok? ==>
      var sizes := LineSizes(crosses, spans, cross);
      && r.value.placements == PlaceFull(items, crosses, spans, c, sizes, cross.gap)
      && r.value.mainExtent == Largest(mains)
      && r.value.crossExtent == (if cross.crossSize.Some? then cross.crossSize.value
                                 else Total(sizes) + GapTotal(|spans|, cross.gap))
      && forall i :: 0 <= i < |spans| ==> NonNegativeTargets(lines[i])
    ensures r.Ok? ==> budget.used <= old(budget.used) + 3 * |items| + 4 * |spans|
    ensures r.Err? ==> Failed(r) || OutOfWork(r, old(budget.used) + 3 * |items| + 4 * |spans|, budget)
  {
    hide NaturalSizes;
    hide LineSizes;
    hide ResolvedLines;
    hide LineMains;
    hide PlaceFull;
    hide LineOffset;
    hide Largest;
    hide Total;
    hide GapTotal;
    hide NonNegativeTargets;
    var sizes :- ResolveCrossSizes(crosses, spans, cross, budget);
    var _ :- budget.Charge(|spans|);
    var offsets :- CrossOffsets(sizes, cross.gap);
    var _ :- budget.Charge(|items|);
    var _ :- budget.Charge(|items|);
    var placements :- PlaceAll(items, crosses, spans, c, lines, mains, sizes, offsets, cross.gap);
    var _ :- budget.Charge(|spans|);
    var mainExtent := Largest(mains);
    var crossExtent := if cross.crossSize.Some? then cross.crossSize.value else 0;
    if cross.crossSize.None? {
      var _ :- budget.Charge(|spans|);
      crossExtent :- ExtentWithGaps(sizes, cross.gap);
    }
    var mainAu :- CheckedAu(mainExtent);
    var crossAu :- CheckedAu(crossExtent);
    return Ok(Plan(placements, mainAu, crossAu));
  }

  /**
   The planner: on success it publishes exactly the plan, one placement per item, and its extents; every
   line then keeps its bounds, whatever the inputs were.
   */
  method PlanFlexLayout(inputs: seq<FlexItemInput>, c: MainConstraints, cross: CrossConstraints, maxLines: nat,
                        budget: FlexWorkBudget)
    returns (r: Result<Plan, FlexError>)
    modifies budget
    ensures r.Ok? ==> r.value.placements == FullPlan(inputs, c, cross)
    ensures r.Ok? ==>
      r.value.mainExtent == MainExtent(inputs, c) && r.value.crossExtent == CrossExtent(inputs, c, cross)
    ensures r.Ok? ==> LinesKeepBounds(PlannedItems(inputs), Spans(PlannedItems(inputs), c), c)
    ensures (exists k :: 0 <= k < |PlannedItems(inputs)| && PlannedItems(inputs)[k].hypothetical < 0) ==> r.Err?
    ensures r.Ok? ==> budget.used <= old(budget.used) + PlanWork(|inputs|)
    ensures r.Err? ==>
      || Failed(r) || OutOfWork(r, old(budget.used) + PlanWork(|inputs|), budget)
      || (r.error == LineLimitExceeded(maxLines) && |Spans(PlannedItems(inputs), c)| > maxLines)
  {
    hide ResolvedLines;
    hide LineSizes;
    hide LineBreaks;
    hide Sort;
    hide SortWork;
    hide WorkBound;
    hide LineWork;
    hide LinesKeepBounds;
    hide LineMains;
    hide PlaceFull;
    hide Largest;
    hide NonNegativeTargets;
    hide SpansIn;
    hide Prepared;
    var count := |inputs|;
    var _ :- budget.Charge(count);
    var _ :- budget.Charge(SortWork(count));
    var sorted := Sort(inputs);
    SortKeepsCount(inputs);
    var items := PrepareAll(Mains(sorted));
    var _ :- budget.Charge(count);
    var spans :- BuildLines(items, WrapLimit(c), c.gap, maxLines);
    SpansShareWork(items, c);
    var _ :- budget.Charge(|spans|);
    var resolved :- ResolveLines(items, spans, c, budget);
    var plan :- Publish(items, Crosses(sorted), spans, c, cross, resolved.0, resolved.1, budget);
    PublishedLinesKeepBounds(items, c);
    return Ok(plan);
  }

  function Largest(sizes: seq<int>): (largest: int)
    requires sizes != []
    ensures largest in sizes && forall i :: 0 <= i < |sizes| ==> sizes[i] <= largest
  {
    if |sizes| == 1 then sizes[0] else Max(Largest(sizes[..|sizes| - 1]), sizes[|sizes| - 1])
  }

  lemma LinesExist(items: seq<WorkingItem>, c: MainConstraints)
    ensures |Spans(items, c)| > 0
  {
    if items != [] {
      BreaksAreGreedy(items, WrapLimit(c), c.gap, 0, 1);
    }
  }
}
