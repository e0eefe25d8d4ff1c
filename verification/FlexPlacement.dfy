/**
 Where the plan puts each item: one after another along its line with the free space where the justification says,
 and on the cross axis at the side of its line that its alignment asks for.
 */
module FlexPlacement {
  import opened Outcomes
  import opened Numbers
  import opened FlexItems
  import opened FlexResolve
  import opened FlexLines
  import opened FlexPlan

  // ---- limits ------------------------------------------------------------------------------------------------

  /** Within the limits, the value nearest to what was asked for; of limits that cross, the minimum. */
  predicate Nearest(value: int, min: int, max: Option<int>, r: int) {
    var low := Max(min, 0);
    if max.None? || low <= max.value then
      && low <= r && (max.Some? ==> r <= max.value)
      && (low <= value && (max.Some? ==> value <= max.value) ==> r == value)
      && (value < low ==> r == low) && (max.Some? && value > max.value ==> r == max.value)
    else r == Max(min, max.value)
  }

  lemma ClampIsNearest(value: int, min: int, max: Option<int>)
    ensures Nearest(value, min, max, ClampMain(value, min, max))
  {
  }

  // ---- along a line ------------------------------------------------------------------------------------------

  /** Free space before, between and after `count` items, as a justification distributes it. */
  predicate Distributes(justify: Justify, count: nat, before: int, between: int, after: int) {
    var free := before + (count - 1) * between + after;
    match justify
    case Start => before == 0 && between == 0
    case End => after == 0 && between == 0
    case Center => between == 0 && -1 <= before - after <= 1
    case SpaceBetween =>
      if count > 1 && free > 0 then before == 0 && 0 <= after < count - 1 else before == between == 0
    case SpaceAround =>
      if free > 0 then 0 <= between - 2 * before <= 1 && 0 <= free - count * between < count
      else before == between == 0
    case SpaceEvenly =>
      if free > 0 then before == between && 0 <= free - (count + 1) * between < count + 1
      else before == between == 0
  }

  /** The outer size of a resolved item on the main axis. */
  function OuterMain(item: WorkingItem): int {
    item.target + item.main.outer
  }

  /**
   Items stand one after another at a gap and a share of the free space; what is left after the last makes up the
   line's size.
   */
  ghost predicate Packed(resolved: seq<WorkingItem>, placed: seq<MainPlacement>, c: MainConstraints, lineMain: int)
    requires |placed| == |resolved|
  {
    exists before: int, between: int, after: int ::
      Spaced(resolved, placed, c, lineMain, before, between, after)
  }

  predicate Spaced(resolved: seq<WorkingItem>, placed: seq<MainPlacement>, c: MainConstraints, lineMain: int,
                   before: int, between: int, after: int)
    requires |placed| == |resolved|
  {
    var n := |resolved|;
    && (forall i :: 0 <= i < n ==> placed[i].target == resolved[i].target)
    && (forall i :: 0 <= i < n ==> placed[i].sourceIndex == resolved[i].main.sourceIndex)
    && (n > 0 ==>
          && placed[0].offset == before
          && placed[n - 1].offset + OuterMain(resolved[n - 1]) + after == lineMain)
    && (forall i, j :: 0 <= i && j == i + 1 < n ==>
          placed[j].offset == placed[i].offset + OuterMain(resolved[i]) + c.gap + between)
    && (n > 0 ==> Distributes(c.justify, n, before, between, after))
  }

  lemma FreeIsDistributed(justify: Justify, free: int, count: nat)
    requires count > 0
    ensures var (before, between) := JustifyOffsets(justify, free, count);
            Distributes(justify, count, before, between, free - before - (count - 1) * between)
  {
    JustifyPlaces(justify, free, count);
    hide JustifyOffsets;
  }

  /** What is left of the line after its last item. */
  function SpaceAfter(resolved: seq<WorkingItem>, c: MainConstraints): int {
    var n, (before, between) := |resolved|, Packing(resolved, c);
    LineMain(resolved, c) - Occupied(resolved, GapTotal(n, c.gap), Target) - before - (n - 1) * between
  }

  lemma LastMeetsEnd(resolved: seq<WorkingItem>, c: MainConstraints)
    requires resolved != []
    ensures var n := |resolved|;
            MainOffset(resolved, c, n - 1) + OuterMain(resolved[n - 1]) + SpaceAfter(resolved, c)
            == LineMain(resolved, c)
  {
    LastEnd(resolved, c);
    OffsetStep(resolved, c, |resolved| - 1);
    hide MainOffset;
    hide Packing;
    hide Occupied;
  }

  lemma LineIsPacked(resolved: seq<WorkingItem>, c: MainConstraints)
    ensures Packed(resolved, PlaceMain(resolved, c), c, LineMain(resolved, c))
  {
    hide JustifyOffsets;
    hide MainOffset;
    hide Distributes;
    hide Occupied;
    var n, placed := |resolved|, PlaceMain(resolved, c);
    var (before, between) := Packing(resolved, c);
    var after := SpaceAfter(resolved, c);
    if n > 0 {
      var free := LineMain(resolved, c) - Occupied(resolved, GapTotal(n, c.gap), Target);
      FreeIsDistributed(c.justify, free, n);
      StartsAtInitial(resolved, c);
      LastMeetsEnd(resolved, c);
      assert Distributes(c.justify, n, before, between, after);
    }
    hide Packing;
    hide LineMain;
    hide SpaceAfter;
    forall i, j | 0 <= i && j == i + 1 < n
      ensures placed[j].offset == placed[i].offset + OuterMain(resolved[i]) + c.gap + between
    {
      OffsetStep(resolved, c, i);
    }
    assert Spaced(resolved, placed, c, LineMain(resolved, c), before, between, after);
  }

  // ---- across a line ---------------------------------------------------------------------------------------------

  /** An item's size and place across its line. */
  predicate Aligned(cross: CrossInput, lineSize: int, target: int, before: int) {
    var after := lineSize - before - target - cross.outer;
    && Nearest(if cross.align.AlignStretch? && cross.auto then lineSize - cross.outer else cross.base,
               cross.min, cross.max, target)
    && match cross.align
       case AlignStretch => before == 0
       case AlignStart => before == 0
       case AlignEnd => after == 0
       case AlignCenter => -1 <= before - after <= 1
  }

  lemma ItemsAreAligned(cross: CrossInput, lineSize: int)
    ensures Aligned(cross, lineSize, TargetCross(cross, lineSize), CrossPacking(cross, lineSize))
  {
  }

  /** An item that stretches and meets no limit fills its line. */
  lemma StretchedFills(cross: CrossInput, lineSize: int)
    requires cross.align.AlignStretch? && cross.auto && Max(cross.min, 0) <= lineSize - cross.outer
    requires cross.max.Some? ==> lineSize - cross.outer <= cross.max.value
    ensures TargetCross(cross, lineSize) + cross.outer == lineSize
  {
  }

  // ---- lines -------------------------------------------------------------------------------------------------

  /** As tall as the tallest item, and never negative. */
  ghost predicate IsTallest(crosses: seq<CrossInput>, size: int) {
    && size >= 0
    && (forall i :: 0 <= i < |crosses| ==> CrossSize(crosses[i]) <= size)
    && (size == 0 || exists i :: 0 <= i < |crosses| && CrossSize(crosses[i]) == size)
  }

  /** Lines are as tall as their tallest items, but for a single line of a definite size, or room to share. */
  lemma LinesAreTallest(crosses: seq<CrossInput>, spans: seq<Span>, c: CrossConstraints)
    requires SpansIn(spans, |crosses|)
    ensures var natural, sizes := NaturalSizes(crosses, spans), LineSizes(crosses, spans, c);
            && (forall i :: 0 <= i < |spans| ==> IsTallest(crosses[spans[i].start..spans[i].end], natural[i]))
            && (|spans| == 1 && c.crossSize.Some? ==> sizes == [c.crossSize.value])
            && (c.crossSize.None? ==> sizes == natural)
            && (|spans| != 1 && c.crossSize.Some? && c.crossSize.value <= Total(natural) + GapTotal(|spans|, c.gap) ==>
                  sizes == natural)
  {
    forall i | 0 <= i < |spans|
      ensures IsTallest(crosses[spans[i].start..spans[i].end], NaturalSizes(crosses, spans)[i])
    {
      NaturalCrossIsTallest(crosses[spans[i].start..spans[i].end]);
    }
  }

  /** Lines stand below one another at the cross gap. */
  lemma LinesStack(sizes: seq<int>, gap: int, k: nat)
    requires k < |sizes|
    ensures LineOffset(sizes, gap, 0) == 0
    ensures LineOffset(sizes, gap, k + 1) == LineOffset(sizes, gap, k) + sizes[k] + gap
  {
    TotalStep(sizes, k);
    assert (k + 1) * gap == k * gap + gap;
  }

  // ---- the plan ----------------------------------------------------------------------------------------------

  /** The placements of one line. */
  function LinePlacements(items: seq<WorkingItem>, crosses: seq<CrossInput>, span: Span, c: MainConstraints,
                          size: int, offset: int): (placements: seq<Placement>)
    requires span.start <= span.end <= |items| == |crosses|
    ensures |placements| == span.end - span.start
  {
    PlaceFullLine(PlaceMain(Resolved(items[span.start..span.end], c), c), crosses[span.start..span.end], size, offset)
  }

  lemma LastLine(items: seq<WorkingItem>, crosses: seq<CrossInput>, spans: seq<Span>, c: MainConstraints,
                 sizes: seq<int>, gap: int)
    requires SpansIn(spans, |items|) && |crosses| == |items| && 0 < |spans| <= |sizes|
    ensures var n := |spans| - 1;
            PlaceFull(items, crosses, spans, c, sizes, gap)
            == PlaceFull(items, crosses, spans[..n], c, sizes, gap)
               + LinePlacements(items, crosses, spans[n], c, sizes[n], LineOffset(sizes, gap, n))
  {
  }

  /** Spans that follow one another from the first item on. */
  predicate InTurn(spans: seq<Span>) {
    && spans != [] && spans[0].start == 0
    && forall i, j :: 0 <= i && j == i + 1 < |spans| ==> spans[i].end == spans[j].start
  }

  /** The plan is its lines' placements one after another. */
  lemma {:induction false} LinesInTurn(items: seq<WorkingItem>, crosses: seq<CrossInput>, spans: seq<Span>,
                                       c: MainConstraints, sizes: seq<int>, gap: int, k: nat)
    requires SpansIn(spans, |items|) && |crosses| == |items| && |spans| <= |sizes| && k < |spans| && InTurn(spans)
    ensures var all := PlaceFull(items, crosses, spans, c, sizes, gap);
            && spans[k].end <= |all| == spans[|spans| - 1].end
            && all[spans[k].start..spans[k].end]
               == LinePlacements(items, crosses, spans[k], c, sizes[k], LineOffset(sizes, gap, k))
  {
    hide PlaceFull;
    hide LineOffset;
    hide LinePlacements;
    var n := |spans| - 1;
    var init := spans[..n];
    var before := PlaceFull(items, crosses, init, c, sizes, gap);
    var last := LinePlacements(items, crosses, spans[n], c, sizes[n], LineOffset(sizes, gap, n));
    LastLine(items, crosses, spans, c, sizes, gap);
    if n > 0 {
      LinesInTurn(items, crosses, init, c, sizes, gap, if k < n then k else 0);
      assert spans[n - 1].end == spans[n].start;
    } else {
      NoLines(items, crosses, c, sizes, gap);
    }
    assert |before| == spans[n].start;
    if k < n {
      assert (before + last)[spans[k].start..spans[k].end] == before[spans[k].start..spans[k].end];
    } else {
      assert (before + last)[spans[k].start..spans[k].end] == last;
    }
  }

  lemma NoLines(items: seq<WorkingItem>, crosses: seq<CrossInput>, c: MainConstraints, sizes: seq<int>, gap: int)
    requires |crosses| == |items|
    ensures PlaceFull(items, crosses, [], c, sizes, gap) == []
  {
  }

  lemma PartitionIsInTurn(count: nat, spans: seq<Span>)
    requires Partition(count, 0, spans) && spans != []
    ensures InTurn(spans)
  {
  }

  /** One line of the plan: packed along the line, and aligned across it. */
  ghost predicate LinePlaced(resolved: seq<WorkingItem>, crosses: seq<CrossInput>, placements: seq<Placement>,
                             c: MainConstraints, size: int, offset: int) {
    && |placements| == |resolved| == |crosses|
    && Packed(resolved, MainPart(placements), c, LineMain(resolved, c))
    && forall i :: 0 <= i < |placements| ==>
         Aligned(crosses[i], size, placements[i].targetCross, placements[i].crossOffset - offset)
  }

  lemma PlacementsOfLine(items: seq<WorkingItem>, crosses: seq<CrossInput>, span: Span, c: MainConstraints, size: int,
                         offset: int)
    requires span.start <= span.end <= |items| == |crosses|
    ensures LinePlaced(Resolved(items[span.start..span.end], c), crosses[span.start..span.end],
                       LinePlacements(items, crosses, span, c, size, offset), c, size, offset)
  {
    hide Resolved;
    hide PlaceMain;
    hide Packed;
    hide TargetCross;
    hide CrossPacking;
    hide Aligned;
    hide LineMain;
    var resolved := Resolved(items[span.start..span.end], c);
    var placements := LinePlacements(items, crosses, span, c, size, offset);
    LineIsPacked(resolved, c);
    assert MainPart(placements) == PlaceMain(resolved, c);
    forall i | 0 <= i < |placements|
      ensures Aligned(crosses[span.start..span.end][i], size, placements[i].targetCross,
                      placements[i].crossOffset - offset)
    {
      ItemsAreAligned(crosses[span.start..span.end][i], size);
    }
  }

  /** Every line of the plan is packed by its justification and aligned at its own offset. */
  lemma PlanPlacesLines(inputs: seq<FlexItemInput>, c: MainConstraints, cross: CrossConstraints, k: nat)
    requires inputs != []
    requires k < |Spans(PlannedItems(inputs), c)|
    ensures var items, crosses := PlannedItems(inputs), Crosses(Sort(inputs));
            var spans := Spans(items, c);
            && |crosses| == |items| == |inputs| == |FullPlan(inputs, c, cross)|
            && spans[k].start <= spans[k].end <= |inputs|
            && LinePlaced(Resolved(items[spans[k].start..spans[k].end], c), crosses[spans[k].start..spans[k].end],
                          FullPlan(inputs, c, cross)[spans[k].start..spans[k].end], c,
                          LineSizes(crosses, spans, cross)[k],
                          LineOffset(LineSizes(crosses, spans, cross), cross.gap, k))
  {
    hide Sort;
    hide LineSizes;
    hide LinePlaced;
    hide PlaceFull;
    hide LinePlacements;
    hide LineOffset;
    SortKeepsCount(inputs);
    var items, crosses := PlannedItems(inputs), Crosses(Sort(inputs));
    var spans := Spans(items, c);
    BreaksAreGreedy(items, WrapLimit(c), c.gap, 0, 1);
    PartitionIsInTurn(|items|, spans);
    var sizes := LineSizes(crosses, spans, cross);
    LinesInTurn(items, crosses, spans, c, sizes, cross.gap, k);
    PlacementsOfLine(items, crosses, spans[k], c, sizes[k], LineOffset(sizes, cross.gap, k));
  }
}
