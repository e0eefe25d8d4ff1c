/**
 Line collection (section 9.3 of CSS Flexible Box Layout Level 1), cross-size
 distribution over lines, and main-axis packing.
 */
module FlexLines {
  import opened Outcomes
  import opened FlexItems
  import opened FlexResolver

  datatype Span = Span(start: nat, end: nat)

  datatype Justify = Start | End | Center | SpaceBetween | SpaceAround | SpaceEvenly

  function GapTotal(count: nat, gap: int): int {
    if count == 0 then 0 else (count - 1) * gap
  }

  /** The hypothetical outer extent of items[start..end] with the gaps between them. */
  function Extent(items: seq<WorkingItem>, start: nat, end: nat, gap: int): int
    requires start <= end <= |items|
  {
    Occupied(items[start..end], GapTotal(end - start, gap), Hypothetical)
  }

  lemma ExtentStep(items: seq<WorkingItem>, start: nat, index: nat, gap: int)
    requires start <= index < |items|
    ensures Extent(items, start, index + 1, gap)
         == (if index == start then 0 else Extent(items, start, index, gap) + gap) + items[index].hypothetical
             + items[index].main.outer
  {
    var line := items[start..index + 1];
    assert line[..|line| - 1] == items[start..index];
    assert line[|line| - 1] == items[index];
    assert index == start ==> items[start..index] == [];
    GapStep(index - start, gap);
    assert Sum(line, Hypothetical) == Sum(items[start..index], Hypothetical) + items[index].hypothetical;
    assert Sum(line, Outer) == Sum(items[start..index], Outer) + items[index].main.outer;
    assert Extent(items, start, index + 1, gap)
         == GapTotal(index - start + 1, gap) + Sum(line, Hypothetical) + Sum(line, Outer);
  }

  lemma GapStep(count: nat, gap: int)
    ensures GapTotal(count + 1, gap) == if count == 0 then 0 else GapTotal(count, gap) + gap
  {
  }

  // ---- greedy line breaking ----------------------------------------------------

  /** The lines from the current one (items[start..index] so far) on; no limit means no wrapping. */
  function Breaks(items: seq<WorkingItem>, limit: Option<int>, gap: int, start: nat, index: nat): seq<Span>
    requires start < index <= |items|
    decreases |items| - index
  {
    if index == |items| then [Span(start, index)]
    else if limit.Some? && Extent(items, start, index + 1, gap) > limit.value then
      [Span(start, index)] + Breaks(items, limit, gap, index, index + 1)
    else Breaks(items, limit, gap, start, index + 1)
  }

  function LineBreaks(items: seq<WorkingItem>, limit: Option<int>, gap: int): seq<Span> {
    if items == [] then [Span(0, 0)] else Breaks(items, limit, gap, 0, 1)
  }

  /** The spans cut items[start..] into consecutive non-empty lines. */
  predicate Partition(count: nat, start: nat, lines: seq<Span>) {
    && |lines| > 0
    && lines[0].start == start
    && lines[|lines| - 1].end == count
    && (forall i :: 0 <= i < |lines| ==> lines[i].start < lines[i].end <= count)
    && (forall i :: 0 < i < |lines| ==> lines[i].start == lines[i - 1].end)
  }

  /** A line took every item it had room for: all its prefixes of two or more items fit. */
  predicate Fits(items: seq<WorkingItem>, limit: Option<int>, gap: int, line: Span)
    requires line.start < line.end <= |items|
  {
    limit.Some? ==> forall k :: line.start + 2 <= k <= line.end ==> Extent(items, line.start, k, gap) <= limit.value
  }

  /** A line was ended only because the next item did not fit. */
  predicate Full(items: seq<WorkingItem>, limit: Option<int>, gap: int, line: Span)
    requires line.start < line.end < |items|
  {
    limit.Some? && Extent(items, line.start, line.end + 1, gap) > limit.value
  }

  predicate Greedy(items: seq<WorkingItem>, limit: Option<int>, gap: int, start: nat, lines: seq<Span>) {
    && Partition(|items|, start, lines)
    && (forall i :: 0 <= i < |lines| ==> Fits(items, limit, gap, lines[i]))
    && (forall i :: 0 <= i < |lines| - 1 ==> lines[i].end < |items| && Full(items, limit, gap, lines[i]))
  }

  /** Line breaking is greedy and maximal. */
  lemma {:induction false} BreaksAreGreedy(items: seq<WorkingItem>, limit: Option<int>, gap: int, start: nat,
                                           index: nat)
    requires start < index <= |items|
    requires Fits(items, limit, gap, Span(start, index))
    ensures Greedy(items, limit, gap, start, Breaks(items, limit, gap, start, index))
    decreases |items| - index
  {
    hide Extent;
    hide Sum;
    if index == |items| {
    } else if limit.Some? && Extent(items, start, index + 1, gap) > limit.value {
      var rest := Breaks(items, limit, gap, index, index + 1);
      BreaksAreGreedy(items, limit, gap, index, index + 1);
      GreedyCons(items, limit, gap, start, index, rest);
    } else {
      BreaksAreGreedy(items, limit, gap, start, index + 1);
    }
  }

  lemma GreedyCons(items: seq<WorkingItem>, limit: Option<int>, gap: int, start: nat, end: nat, rest: seq<Span>)
    requires start < end < |items|
    requires Fits(items, limit, gap, Span(start, end)) && Full(items, limit, gap, Span(start, end))
    requires Greedy(items, limit, gap, end, rest)
    ensures Greedy(items, limit, gap, start, [Span(start, end)] + rest)
  {
    hide Fits;
    hide Full;
    var lines := [Span(start, end)] + rest;
    assert forall i :: 0 < i < |lines| ==> lines[i] == rest[i - 1];
  }

  /** There is only one greedy, maximal partition, so being greedy says everything about the lines. */
  lemma {:induction false} GreedyIsUnique(items: seq<WorkingItem>, limit: Option<int>, gap: int, start: nat,
                                          a: seq<Span>, b: seq<Span>)
    requires Greedy(items, limit, gap, start, a) && Greedy(items, limit, gap, start, b)
    ensures a == b
    decreases |items| - start
  {
    FirstLineNotLonger(items, limit, gap, start, a, b);
    FirstLineNotLonger(items, limit, gap, start, b, a);
    assert a[0] == b[0];
    if |a| > 1 && |b| > 1 {
      GreedyTail(items, limit, gap, start, a);
      GreedyTail(items, limit, gap, start, b);
      GreedyIsUnique(items, limit, gap, a[0].end, a[1..], b[1..]);
      assert a == [a[0]] + a[1..] && b == [b[0]] + b[1..];
    }
  }

  lemma FirstLineNotLonger(items: seq<WorkingItem>, limit: Option<int>, gap: int, start: nat, a: seq<Span>,
                           b: seq<Span>)
    requires Greedy(items, limit, gap, start, a) && Greedy(items, limit, gap, start, b)
    ensures a[0].end <= b[0].end
  {
    if b[0].end < a[0].end {
      assert false;
    }
  }

  lemma GreedyTail(items: seq<WorkingItem>, limit: Option<int>, gap: int, start: nat, a: seq<Span>)
    requires Greedy(items, limit, gap, start, a) && |a| > 1
    ensures Greedy(items, limit, gap, a[0].end, a[1..])
  {
    var tail := a[1..];
    assert forall i :: 0 <= i < |tail| ==> tail[i] == a[i + 1];
  }

  lemma BreaksStep(items: seq<WorkingItem>, limit: Option<int>, gap: int, start: nat, index: nat)
    requires start <= index <= |items|
    ensures start < index == |items| ==> Breaks(items, limit, gap, start, index) == [Span(start, index)]
    ensures start < index < |items| ==>
      Breaks(items, limit, gap, start, index)
      == if limit.Some? && Extent(items, start, index + 1, gap) > limit.value
         then [Span(start, index)] + Breaks(items, limit, gap, index, index + 1)
         else Breaks(items, limit, gap, start, index + 1)
    ensures start < index <= |items| ==> Breaks(items, limit, gap, start, index) != []
    decreases |items| - index
  {
    if start < index < |items| {
      BreaksStep(items, limit, gap, start, index + 1);
    }
  }

  /** The engine's loop; `limit` is the main size when wrapping is on and the size is definite. */
  method BuildLines(items: seq<WorkingItem>, limit: Option<int>, gap: int,
                    maxLines: nat) returns (r: Result<seq<Span>, FlexError>)
    ensures r.Ok? ==> r.value == LineBreaks(items, limit, gap) && |r.value| <= maxLines
    ensures r.Err? ==>
      Failed(r) || (r.error == LineLimitExceeded(maxLines) && |LineBreaks(items, limit, gap)| > maxLines)
  {
    if items == [] {
      return if maxLines == 0 then Err(LineLimitExceeded(maxLines)) else Ok([Span(0, 0)]);
    }
    hide Extent;
    hide Breaks;
    assert LineBreaks(items, limit, gap) == Breaks(items, limit, gap, 0, 1);
    hide LineBreaks;
    var lines, start, occupied := [], 0, 0;
    for index := 0 to |items|
      invariant |lines| <= maxLines && start <= index
      invariant index == 0 ==> lines == []
      invariant index > 0 ==>
        start < index && lines + Breaks(items, limit, gap, start, index) == LineBreaks(items, limit, gap)
      invariant occupied == if index == start then 0 else Extent(items, start, index, gap)
    {
      ExtentStep(items, start, index, gap);
      ExtentStep(items, index, index, gap);
      BreaksStep(items, limit, gap, start, index);
      var outer :- CheckedAdd(items[index].hypothetical, items[index].main.outer);
      var withGap := outer;
      if index != start {
        withGap :- CheckedAdd(gap, outer);
      }
      var wraps := false;
      if limit.Some? && index > start {
        var next :- CheckedAdd(occupied, withGap);
        wraps := next > limit.value;
      }
      if wraps {
        if |lines| >= maxLines {
          return Err(LineLimitExceeded(maxLines));
        }
        ghost var rest := Breaks(items, limit, gap, index, index + 1);
        assert lines + ([Span(start, index)] + rest) == (lines + [Span(start, index)]) + rest;
        lines := lines + [Span(start, index)];
        start := index;
        occupied := outer;
      } else {
        occupied :- CheckedAdd(occupied, withGap);
      }
    }
    BreaksStep(items, limit, gap, start, |items|);
    if |lines| >= maxLines {
      return Err(LineLimitExceeded(maxLines));
    }
    return Ok(lines + [Span(start, |items|)]);
  }

  // ---- surplus cross space --------------------------------------------------------

  function Total(sizes: seq<int>): int {
    if sizes == [] then 0 else Total(sizes[..|sizes| - 1]) + sizes[|sizes| - 1]
  }

  lemma TotalStep(sizes: seq<int>, k: nat)
    requires k < |sizes|
    ensures Total(sizes[..k + 1]) == Total(sizes[..k]) + sizes[k]
  {
    assert sizes[..k + 1][..k] == sizes[..k];
  }

  /** What the first i of `count` lines get of a surplus. */
  function Handed(extra: nat, count: nat, i: nat): int
    requires 0 < count
  {
    extra * i / count
  }

  /** Line i's part of a surplus handed out over `count` lines by cumulative division. */
  function Surplus(extra: nat, count: nat, i: nat): int
    requires i < count
  {
    Handed(extra, count, i + 1) - Handed(extra, count, i)
  }

  function Stretched(sizes: seq<int>, extra: nat): seq<int> {
    seq(|sizes|, i requires 0 <= i < |sizes| => sizes[i] + Surplus(extra, |sizes|, i))
  }

  /** The surplus is handed out to the app unit. */
  lemma SurplusIsExact(sizes: seq<int>, extra: nat)
    requires |sizes| > 0
    ensures Total(Stretched(sizes, extra)) == Total(sizes) + extra
  {
    SurplusUpTo(sizes, extra, |sizes|);
    DivExact(extra, |sizes|);
    assert Stretched(sizes, extra)[..|sizes|] == Stretched(sizes, extra) && sizes[..|sizes|] == sizes;
  }

  lemma {:induction false} SurplusUpTo(sizes: seq<int>, extra: nat, k: nat)
    requires k <= |sizes| && |sizes| > 0
    ensures Total(Stretched(sizes, extra)[..k]) == Total(sizes[..k]) + Handed(extra, |sizes|, k)
  {
    if k > 0 {
      SurplusUpTo(sizes, extra, k - 1);
      TotalStep(Stretched(sizes, extra), k - 1);
      TotalStep(sizes, k - 1);
    } else {
      assert extra * k == 0;
    }
  }

  /** Every line gets the whole quotient, and at most one app unit more. */
  lemma SurplusIsFair(extra: nat, count: nat, i: nat)
    requires i < count
    ensures 0 <= extra / count <= Surplus(extra, count, i) <= extra / count + 1
  {
    var a := extra * i;
    assert extra * (i + 1) == a + extra;
    SplitDivision(a, extra, count);
  }

  lemma SplitDivision(a: nat, b: nat, d: nat)
    requires d > 0
    ensures a / d + b / d <= (a + b) / d <= a / d + b / d + 1
  {
    var p, q := a / d, b / d;
    QuotientWastes(a, d);
    QuotientWastes(b, d);
    assert (p + q) * d == d * p + d * q;
    QuotientBounds(a + b, d, p + q);
  }

  lemma QuotientBounds(a: nat, d: nat, q: nat)
    requires d > 0 && q * d <= a < q * d + 2 * d
    ensures q <= a / d <= q + 1
  {
    var p := a / d;
    assert a == p * d + a % d;
    if p < q {
      MulAtLeast(q - p, d);
      assert false;
    }
    if q + 1 < p {
      MulOrder(d, q + 2, p);
      assert false;
    }
  }

  /** Hands surplus cross space to several lines in place. */
  method StretchLines(sizes: array<int>, available: int, crossGap: int, budget: FlexWorkBudget)
    returns (r: Result<(), FlexError>)
    requires sizes.Length > 0
    modifies sizes, budget
    ensures r.Ok? ==>
      var natural := Total(old(sizes[..])) + GapTotal(sizes.Length, crossGap);
      if natural < available
      then sizes[..] == Stretched(old(sizes[..]), available - natural) && Total(sizes[..])
          + GapTotal(sizes.Length, crossGap) == available
      else sizes[..] == old(sizes[..])
    ensures r.Ok? ==> budget.used <= old(budget.used) + 2 * sizes.Length
    ensures r.Err? ==> Failed(r) || OutOfWork(r, old(budget.used) + 2 * sizes.Length, budget)
  {
    var count := sizes.Length;
    var before := sizes[..];
    var _ :- budget.Charge(count);
    var natural :- ExtentWithGaps(before, crossGap);
    if natural >= available {
      return Ok(());
    }
    var extra :- CheckedSub(available, natural);
    ghost var goal := Stretched(before, extra);
    var _ :- budget.Charge(count);
    var distributed := 0;
    assert Handed(extra, count, 0) == 0 by { assert extra * 0 == 0; }
    for index := 0 to count
      modifies sizes
      invariant distributed == Handed(extra, count, index)
      invariant forall k :: index <= k < count ==> sizes[k] == before[k]
      invariant forall k :: 0 <= k < index ==> sizes[k] == goal[k]
    {
      hide Handed;
      var next :- CheckedStretch(sizes[index], extra, index, count, distributed);
      sizes[index] := next.0;
      distributed := next.1;
    }
    assert sizes[..] == goal;
    SurplusIsExact(before, extra);
    return Ok(());
  }

  function CheckedStretch(size: int, extra: nat, index: nat, count: nat, distributed: int)
    : (r: Result<(int, int), FlexError>)
    requires index < count && distributed == Handed(extra, count, index)
    ensures r.Ok? ==> r.value == (size + Surplus(extra, count, index), Handed(extra, count, index + 1))
    ensures r.Err? ==> r.error == ArithmeticOverflow
  {
    var product :- CheckedMul(extra, index + 1);
    var cumulative := product / count;
    var share :- CheckedSub(cumulative, distributed);
    var next :- CheckedAdd(size, share);
    Ok((next, cumulative))
  }

  method ExtentWithGaps(sizes: seq<int>, gap: int) returns (r: Result<int, FlexError>)
    ensures r.Ok? ==> r.value == Total(sizes) + GapTotal(|sizes|, gap)
    ensures r.Err? ==> Failed(r)
  {
    var extent := 0;
    for k := 0 to |sizes|
      invariant extent == Total(sizes[..k])
    {
      TotalStep(sizes, k);
      extent :- CheckedAdd(extent, sizes[k]);
    }
    assert sizes[..|sizes|] == sizes;
    var gaps :- CheckedMul(if |sizes| == 0 then 0 else |sizes| - 1, gap);
    return CheckedAdd(extent, gaps);
  }

  // ---- main-axis packing ------------------------------------------------------------

  /** The offset of the first item and the extra gap between items. */
  function JustifyOffsets(justify: Justify, free: int, count: nat): (int, int) {
    if count == 0 then (0, 0)
    else
      match justify
      case Start => (0, 0)
      case End => (free, 0)
      case Center => (TruncDiv(free, 2), 0)
      case SpaceBetween => if count > 1 && free > 0 then (0, free / (count - 1)) else (0, 0)
      case SpaceAround => if free > 0 then (free / count / 2, free / count) else (0, 0)
      case SpaceEvenly => if free > 0 then (free / (count + 1), free / (count + 1)) else (0, 0)
  }

  /** With space to spare the packed items start at or after zero and end at or before the line's end. */
  lemma JustifyStaysInside(justify: Justify, free: nat, count: nat)
    requires count > 0
    ensures var (initial, between) := JustifyOffsets(justify, free, count);
            0 <= initial && 0 <= between && initial + (count - 1) * between <= free
  {
    match justify
    case Start =>
    case End =>
    case Center =>
    case SpaceBetween =>
      if count > 1 && free > 0 { QuotientFits(free, count - 1, count - 1); }
    case SpaceAround =>
      if free > 0 {
        QuotientFits(free, count, count);
        var between := free / count;
        assert count * between == (count - 1) * between + between;
      }
    case SpaceEvenly =>
      if free > 0 {
        QuotientFits(free, count + 1, count);
        var between := free / (count + 1);
        assert count * between == (count - 1) * between + between;
      }
  }

  /**
   Where the free space goes: all of it after the last item, all before the first, as much before as after to
   within one app unit, or in equal spaces that waste less than one app unit a space. Without space to spare the
   modes that spread it start at the line's start.
   */
  lemma JustifyPlaces(justify: Justify, free: int, count: nat)
    requires count > 0
    ensures var (before, between) := JustifyOffsets(justify, free, count);
            var after := free - before - (count - 1) * between;
            match justify
            case Start => before == 0 && between == 0 && after == free
            case End => before == free && between == 0 && after == 0
            case Center => between == 0 && -1 <= before - after <= 1
            case SpaceBetween =>
              if count > 1 && free > 0 then before == 0 && 0 <= after < count - 1 else before == between == 0
            case SpaceAround =>
              if free > 0 then 0 <= between - 2 * before <= 1 && 0 <= free - count * between < count
              else before == between == 0
            case SpaceEvenly =>
              if free > 0 then before == between && 0 <= free - (count + 1) * between < count + 1
              else before == between == 0
  {
    if justify.SpaceBetween? && count > 1 && free > 0 {
      QuotientWastes(free, count - 1);
    } else if justify.SpaceAround? && free > 0 {
      QuotientWastes(free, count);
    } else if justify.SpaceEvenly? && free > 0 {
      QuotientWastes(free, count + 1);
    }
  }

  lemma QuotientWastes(free: nat, slots: nat)
    requires 0 < slots
    ensures 0 <= free - slots * (free / slots) < slots
  {
    assert free == (free / slots) * slots + free % slots;
  }

  lemma QuotientFits(free: nat, slots: nat, uses: nat)
    requires 0 < slots && uses <= slots
    ensures 0 <= free / slots && uses * (free / slots) <= free
  {
    var q := free / slots;
    assert free == q * slots + free % slots;
    MulOrder(q, uses, slots);
  }
}
