/**
 Minimum sizes never exceed preferred ones in a tree of snug styles, those none of whose boxes has a negative
 outer size; every other style breaks the order on some line.
 */
module IntrinsicOrder {
  import opened Outcomes
  import opened Ascii
  import opened Numbers
  import opened IntrinsicSizes

  predicate Ordered(s: Sizes) {
    0 <= s.minimum <= s.preferred <= AU_MAX
  }

  function GivenOr(given: Option<int>, content: int): int {
    if given.Some? then given.value else content
  }

  /** The narrowest and the widest outer size a box of the style can come to, before the range of a size is checked. */
  function Reach(style: Style): Result<(int, int), SizeError> {
    var inner :- BorderAndPadding(style);
    var given :- Definite(style.width, style.borderBox, inner);
    var low :- Definite(style.minWidth, style.borderBox, inner);
    var high :- Definite(style.maxWidth, style.borderBox, inner);
    var around := MarginLeft(style) + MarginRight(style) + inner;
    Ok((around + Bounded(GivenOr(given, 0), low, high), around + Bounded(GivenOr(given, AU_MAX), low, high)))
  }

  /** No box of the style has a negative outer size: not even the narrowest one, or all are out of range. */
  predicate Snug(style: Style) {
    var reach := Reach(style);
    reach.Ok? ==> reach.value.0 >= 0 || reach.value.1 < AU_MIN
  }

  /** In particular a style without negative margins is snug. */
  lemma NonNegativeMarginsAreSnug(style: Style)
    requires MarginLeft(style) >= 0 && MarginRight(style) >= 0
    ensures Snug(style)
  {
  }

  ghost predicate AllSnug(w: Boxes) {
    forall i: nat :: i < |w.boxes| ==> Snug(w.boxes[i].style)
  }

  /** What has been seen of the line bounds the minimum by the preferred size so far. */
  predicate LineOrdered(s: LineState) {
    && 0 <= s.currentMinimum <= s.currentPreferred <= AU_MAX
    && 0 <= s.sizes.preferred <= AU_MAX
    && 0 <= s.sizes.minimum <= Max(s.sizes.preferred, s.currentPreferred)
  }

  ghost predicate GoodSizes(r: Result<Sizes, SizeError>) {
    if r.Ok? then Ordered(r.value) else r.error != OutOfOrder
  }

  ghost predicate GoodLine(r: Result<LineState, SizeError>) {
    if r.Ok? then LineOrdered(r.value) else r.error != OutOfOrder
  }

  // ---- a line ----------------------------------------------------------------------------

  lemma AddVisibleOrdered(w: Boxes, id: nat, s: LineState, sizes: Sizes, ancestors: seq<nat>, atomic: bool)
    requires LineOrdered(s) && 0 <= sizes.minimum <= sizes.preferred
    ensures GoodLine(AddVisible(w, id, s, sizes, ancestors, atomic))
  {
  }

  lemma AddRunOrdered(w: Boxes, id: nat, s: LineState, run: string, ancestors: seq<nat>)
    requires LineOrdered(s)
    ensures GoodLine(AddRun(w, id, s, run, ancestors))
  {
    if run != "" && MeasureRun(w, id, run).Ok? {
      var advance := MeasureRun(w, id, run).value;
      AddVisibleOrdered(w, id, s, Sizes(advance, advance), ancestors, false);
    }
  }

  lemma {:induction false} CollapsingOrdered(w: Boxes, id: nat, s: LineState, data: string, run: string, soft: bool,
                                             ancestors: seq<nat>)
    requires LineOrdered(s)
    ensures GoodLine(Collapsing(w, id, s, data, run, soft, ancestors))
    decreases |data|
  {
    AddRunOrdered(w, id, s, run, ancestors);
    hide AddRun;
    if data != "" {
      if !IsWhitespace(data[0]) {
        CollapsingOrdered(w, id, s, data[1..], run + [data[0]], soft, ancestors);
      } else if AddRun(w, id, s, run, ancestors).Ok? {
        CollapsingOrdered(w, id, WithSpace(AddRun(w, id, s, run, ancestors).value, soft), data[1..], "", soft,
                          ancestors);
      }
    }
  }

  lemma {:induction false} PreformattedOrdered(w: Boxes, id: nat, s: LineState, data: string, run: string,
                                               ancestors: seq<nat>)
    requires LineOrdered(s)
    ensures GoodLine(Preformatted(w, id, s, data, run, ancestors))
    decreases |data|
  {
    AddRunOrdered(w, id, s, run, ancestors);
    hide AddRun;
    if data != "" {
      if data[0] != '\n' {
        PreformattedOrdered(w, id, s, data[1..], run + [data[0]], ancestors);
      } else if AddRun(w, id, s, run, ancestors).Ok? {
        PreformattedOrdered(w, id, ForceBreak(AddRun(w, id, s, run, ancestors).value), data[1..], "", ancestors);
      }
    }
  }

  lemma LeafOrdered(w: Boxes, id: nat, s: LineState, ancestors: seq<nat>)
    requires LineOrdered(s) && id < |w.boxes|
    ensures GoodLine(MeasureLeaf(w, id, s, ancestors))
  {
    var box := w.boxes[id];
    if box.text.Some? {
      CollapsingOrdered(w, id, s, box.text.value, "", true, ancestors);
      CollapsingOrdered(w, id, s, box.text.value, "", false, ancestors);
      PreformattedOrdered(w, id, s, box.text.value, "", ancestors);
    }
  }

  // ---- the tree -----------------------------------------------------------------------------

  lemma BoundedMonotone(a: int, b: int, low: Option<int>, high: Option<int>)
    requires a <= b
    ensures Bounded(a, low, high) <= Bounded(b, low, high)
  {
  }

  /** The content is the given width if there is one, and any ordered content otherwise. */
  lemma AroundOrdered(style: Style, content: Sizes)
    requires Snug(style) && BorderAndPadding(style).Ok?
    requires var given := Definite(style.width, style.borderBox, BorderAndPadding(style).value);
             && given.Ok?
             && if given.value.Some? then content == Sizes(given.value.value, given.value.value) else Ordered(content)
    ensures GoodSizes(Around(style, BorderAndPadding(style).value, content))
  {
    var inner := BorderAndPadding(style).value;
    var low, high := Definite(style.minWidth, style.borderBox, inner), Definite(style.maxWidth, style.borderBox, inner);
    if low.Ok? && high.Ok? {
      var given := Definite(style.width, style.borderBox, inner).value;
      BoundedMonotone(GivenOr(given, 0), content.minimum, low.value, high.value);
      BoundedMonotone(content.minimum, content.preferred, low.value, high.value);
      BoundedMonotone(content.preferred, GivenOr(given, AU_MAX), low.value, high.value);
    }
  }

  lemma {:induction false} ContentOrdered(w: Boxes, id: nat, height: nat)
    requires Closed(w) && AllSnug(w) && id < |w.boxes|
    ensures GoodSizes(Content(w, id, height))
    decreases height, 4, 0
  {
    if height > 0 {
      ComputeOrdered(w, id, height);
    }
  }

  lemma {:induction false} ComputeOrdered(w: Boxes, id: nat, height: nat)
    requires Closed(w) && AllSnug(w) && id < |w.boxes| && height > 0
    ensures GoodSizes(Compute(w, id, height))
    decreases height, 3, 0
  {
    match w.boxes[id].kind {
      case Block => BlockOrdered(w, id, 0, Sizes(0, 0), height);
      case InlineBlock => BlockOrdered(w, id, 0, Sizes(0, 0), height);
      case Flex => FlexOrdered(w, id, 0, Sizes(0, 0), height);
      case _ => InlineOrdered(w, id, height);
    }
  }

  lemma {:induction false} BlockOrdered(w: Boxes, id: nat, i: nat, sizes: Sizes, height: nat)
    requires Closed(w) && AllSnug(w) && id < |w.boxes| && height > 0 && i <= |w.boxes[id].children| && Ordered(sizes)
    ensures GoodSizes(BlockContent(w, id, i, sizes, height))
    decreases height, 2, |w.boxes[id].children| - i
  {
    if i < |w.boxes[id].children| {
      var child := w.boxes[id].children[i];
      OuterOrdered(w, child, height - 1);
      if Outer(w, child, height - 1).Ok? {
        var outer := Outer(w, child, height - 1).value;
        BlockOrdered(w, id, i + 1, Widest(sizes, outer), height);
      }
    }
  }

  lemma FlexItemOrdered(style: Style, sizes: Sizes, item: Sizes, first: bool)
    requires Ordered(sizes) && Ordered(item)
    ensures GoodSizes(FlexItem(style, sizes, item, first))
  {
  }

  lemma {:induction false} FlexOrdered(w: Boxes, id: nat, i: nat, sizes: Sizes, height: nat)
    requires Closed(w) && AllSnug(w) && id < |w.boxes| && height > 0 && i <= |w.boxes[id].children| && Ordered(sizes)
    ensures GoodSizes(FlexContent(w, id, i, sizes, height))
    decreases height, 2, |w.boxes[id].children| - i
  {
    if i < |w.boxes[id].children| {
      var child := w.boxes[id].children[i];
      OuterOrdered(w, child, height - 1);
      if Outer(w, child, height - 1).Ok? {
        var item := FlexItem(w.boxes[id].style, sizes, Outer(w, child, height - 1).value, i == 0);
        FlexItemOrdered(w.boxes[id].style, sizes, Outer(w, child, height - 1).value, i == 0);
        if item.Ok? {
          FlexOrdered(w, id, i + 1, item.value, height);
        }
      }
    }
  }

  lemma {:induction false} OuterOrdered(w: Boxes, id: nat, height: nat)
    requires Closed(w) && AllSnug(w) && id < |w.boxes|
    ensures GoodSizes(Outer(w, id, height))
    decreases height, 5, 0
  {
    var style := w.boxes[id].style;
    ContentOrdered(w, id, height);
    if BorderAndPadding(style).Ok? {
      var definite := Definite(style.width, style.borderBox, BorderAndPadding(style).value);
      if definite.Ok? && definite.value.Some? {
        AroundOrdered(style, Sizes(definite.value.value, definite.value.value));
      } else if definite.Ok? && Content(w, id, height).Ok? {
        AroundOrdered(style, Content(w, id, height).value);
      }
    }
  }

  lemma {:induction false} InlineOrdered(w: Boxes, id: nat, height: nat)
    requires Closed(w) && AllSnug(w) && id < |w.boxes| && height > 0
    ensures GoodSizes(InlineContext(w, id, height))
    decreases height, 2, 0
  {
    LeafOrdered(w, id, EMPTY_LINE, []);
    ChildrenOrdered(w, id, 0, EMPTY_LINE, [id], height - 1);
  }

  lemma {:induction false} ChildrenOrdered(w: Boxes, id: nat, i: nat, s: LineState, ancestors: seq<nat>, height: nat)
    requires Closed(w) && AllSnug(w) && id < |w.boxes| && i <= |w.boxes[id].children| && LineOrdered(s)
    ensures GoodLine(MeasureChildren(w, id, i, s, ancestors, height))
    decreases height, 7, |w.boxes[id].children| - i
  {
    if i < |w.boxes[id].children| {
      var child := w.boxes[id].children[i];
      BoxOrdered(w, child, s, ancestors, height);
      if MeasureBox(w, child, s, ancestors, height).Ok? {
        ChildrenOrdered(w, id, i + 1, MeasureBox(w, child, s, ancestors, height).value, ancestors, height);
      }
    }
  }

  lemma {:induction false} BoxOrdered(w: Boxes, id: nat, s: LineState, ancestors: seq<nat>, height: nat)
    requires Closed(w) && AllSnug(w) && id < |w.boxes| && LineOrdered(s)
    ensures GoodLine(MeasureBox(w, id, s, ancestors, height))
    decreases height, 6, 0
  {
    if height > 0 {
      LeafOrdered(w, id, s, ancestors);
      ChildrenOrdered(w, id, 0, s, ancestors + [id], height - 1);
      OuterOrdered(w, id, height);
      if Outer(w, id, height).Ok? {
        AddVisibleOrdered(w, id, s, Outer(w, id, height).value, ancestors, true);
      }
    }
  }

  /** With snug styles the order checks never fire, at any level of any tree. */
  lemma OrderChecksNeverFire(w: Boxes, id: nat, height: nat)
    requires Closed(w) && AllSnug(w) && id < |w.boxes|
    ensures Content(w, id, height) != Err(OutOfOrder) && Outer(w, id, height) != Err(OutOfOrder)
    ensures Content(w, id, height).Ok? ==> Ordered(Content(w, id, height).value)
    ensures Outer(w, id, height).Ok? ==> Ordered(Outer(w, id, height).value)
  {
    ContentOrdered(w, id, height);
    OuterOrdered(w, id, height);
  }

  // ---- why styles must be snug ----------------------------------------------------------------

  function Plain(width: int): Style {
    Style(Some(Length(width, 0)), None, None, false, 0, 0, false, false, false, 0, 0, 0, 0, NormalSpace, true, true, 0)
  }

  /** A line with a box one wide and a box of the style around a block of the given width. */
  function Row(style: Style, width: nat): (row: Boxes)
    ensures |row.boxes| == 4 && Closed(row)
  {
    Boxes([Box(AnonymousBlock, Plain(0), [1, 2], true, None),
           Box(InlineBlock, Plain(1), [], true, None),
           Box(InlineBlock, style, [3], true, None),
           Box(Block, Plain(width), [], true, None)],
          (run, id) => 0)
  }

  lemma PlainOuter(w: Boxes, id: nat, width: nat, height: nat)
    requires Closed(w) && id < |w.boxes| && w.boxes[id].style == Plain(width) && width <= AU_MAX && height > 0
    ensures Outer(w, id, height) == Ok(Sizes(width, width))
  {
    var style := Plain(width);
    assert BorderAndPadding(style) == Ok(0);
    assert Definite(style.width, false, 0) == Ok(Some(width));
    assert Constrained(Sizes(width, width), style, 0) == Ok(Sizes(width, width));
  }

  /** The content of the styled box when no width is given: its block. */
  lemma StyledContent(style: Style, width: nat)
    requires width <= AU_MAX
    ensures Content(Row(style, width), 2, 2) == Ok(Sizes(width, width))
  {
    var w := Row(style, width);
    PlainOuter(w, 3, width, 1);
    hide Outer;
    assert BlockContent(w, 2, 1, Sizes(width, width), 2) == Ok(Sizes(width, width));
    assert BlockContent(w, 2, 0, Sizes(0, 0), 2) == Ok(Sizes(width, width));
  }

  /** The width to give the inner block so that a loose box comes to a negative size in range. */
  function Slack(style: Style): nat
    requires !Snug(style)
  {
    var around := MarginLeft(style) + MarginRight(style) + BorderAndPadding(style).value;
    if Reach(style).value.0 >= AU_MIN then 0 else Max(AU_MIN - around, 0)
  }

  predicate Loose(r: Result<Sizes, SizeError>) {
    r.Ok? && r.value.minimum == r.value.preferred < 0
  }

  lemma LooseOuter(style: Style)
    requires !Snug(style)
    ensures Slack(style) <= AU_MAX && Loose(Outer(Row(style, Slack(style)), 2, 2))
  {
    hide Definite;
    hide Bounded;
    hide Row;
    hide Outer;
    var inner := BorderAndPadding(style).value;
    var given := Definite(style.width, style.borderBox, inner).value;
    var low, high := Definite(style.minWidth, style.borderBox, inner).value,
        Definite(style.maxWidth, style.borderBox, inner).value;
    var around, width := MarginLeft(style) + MarginRight(style) + inner, Slack(style);
    DefiniteIsNatural(style.minWidth, style.borderBox, inner);
    LooseWidth(around, given, low, high);
    hide Snug;
    hide Slack;
    StyledContent(style, width);
    RowStyles(style, width);
    hide Content;
    var content := GivenOr(given, width);
    StyledOuter(Row(style, width), content);
    var outer := around + Bounded(content, low, high);
    assert Around(style, inner, Sizes(content, content)) == Ok(Sizes(outer, outer));
  }

  lemma DefiniteIsNatural(value: Option<Length>, borderBox: bool, inner: int)
    ensures var r := Definite(value, borderBox, inner); r.Ok? && r.value.Some? ==> r.value.value >= 0
  {
  }

  lemma StyledOuter(w: Boxes, content: int)
    requires Closed(w) && |w.boxes| > 2 && BorderAndPadding(w.boxes[2].style).Ok?
    requires var style := w.boxes[2].style;
             var given := Definite(style.width, style.borderBox, BorderAndPadding(style).value);
             && given.Ok?
             && if given.value.Some? then content == given.value.value
                else Content(w, 2, 2) == Ok(Sizes(content, content))
    ensures Outer(w, 2, 2)
         == Around(w.boxes[2].style, BorderAndPadding(w.boxes[2].style).value, Sizes(content, content))
  {
  }

  /** A width in reach of the bounds that brings the outer size into the range of sizes, below zero. */
  lemma LooseWidth(around: int, given: Option<int>, low: Option<int>, high: Option<int>)
    requires low.Some? ==> low.value >= 0
    requires around + Bounded(GivenOr(given, 0), low, high) < 0
    requires around + Bounded(GivenOr(given, AU_MAX), low, high) >= AU_MIN
    ensures var narrowest := around + Bounded(GivenOr(given, 0), low, high);
            var width := if narrowest >= AU_MIN then 0 else Max(AU_MIN - around, 0);
            width <= AU_MAX && AU_MIN <= around + Bounded(GivenOr(given, width), low, high) < 0
  {
  }

  /** One wide, then something of negative size: the line's minimum is one and its preferred size is not. */
  lemma LooseLine(w: Boxes, n: int)
    requires Closed(w) && |w.boxes| == 4 && w.boxes[0] == Box(AnonymousBlock, Plain(0), [1, 2], true, None)
    requires w.boxes[1].kind.InlineBlock? && w.boxes[1].supported
    requires w.boxes[2].kind.InlineBlock? && w.boxes[2].supported
    requires Outer(w, 1, 2) == Ok(Sizes(1, 1)) && Outer(w, 2, 2) == Ok(Sizes(n, n)) && AU_MIN <= n < 0
    ensures Content(w, 0, 3) == Err(OutOfOrder)
  {
    hide Outer;
    var first := LineState(Sizes(0, 0), 1, 1, true, NoSpace, Boundary(true, true, [0]));
    assert AddVisible(w, 1, EMPTY_LINE, Sizes(1, 1), [0], true) == Ok(first);
    assert CommonAncestor([0], [0]) == Some(0);
    assert TakesSoftBreak(w, first, [0], true);
    var second := LineState(Sizes(1, 0), n, 1 + n, true, NoSpace, Boundary(true, true, [0]));
    assert AddVisible(w, 2, first, Sizes(n, n), [0], true) == Ok(second);
    hide AddVisible;
    assert MeasureBox(w, 1, EMPTY_LINE, [0], 2) == Ok(first);
    assert MeasureBox(w, 2, first, [0], 2) == Ok(second);
    hide MeasureBox;
    assert MeasureChildren(w, 0, 2, second, [0], 2) == Ok(second);
    assert MeasureChildren(w, 0, 1, first, [0], 2) == Ok(second);
    assert MeasureChildren(w, 0, 0, EMPTY_LINE, [0], 2) == Ok(second);
  }

  lemma LooseStyleBreaksOrder(style: Style)
    requires !Snug(style)
    ensures Slack(style) <= AU_MAX && Content(Row(style, Slack(style)), 0, 3) == Err(OutOfOrder)
  {
    var w := Row(style, Slack(style));
    LooseOuter(style);
    PlainOuter(w, 1, 1, 2);
    LooseLine(w, Outer(w, 2, 2).value.minimum);
  }

  lemma PlainIsSnug(width: nat)
    ensures Snug(Plain(width))
  {
  }

  lemma RowStyles(style: Style, width: nat)
    ensures var boxes := Row(style, width).boxes;
            && boxes[0].style == Plain(0) && boxes[1].style == Plain(1)
            && boxes[2].style == style && boxes[3].style == Plain(width)
  {
  }

  lemma RowIsSnug(style: Style, width: nat)
    requires Snug(style)
    ensures AllSnug(Row(style, width))
  {
    hide Snug;
    hide Row;
    hide Closed;
    hide Plain;
    RowStyles(style, width);
    PlainIsSnug(0);
    PlainIsSnug(1);
    PlainIsSnug(width);
    forall i: nat | i < 4
      ensures Snug(Row(style, width).boxes[i].style)
    {
    }
  }

  /** A style is snug exactly when no line with a box of that style, however wide its content, breaks the order. */
  lemma SnugIsExact(style: Style)
    ensures Snug(style) <==>
      forall width: nat :: width <= AU_MAX ==> Content(Row(style, width), 0, 3) != Err(OutOfOrder)
  {
    hide Snug;
    hide Content;
    hide Row;
    if Snug(style) {
      forall width: nat | width <= AU_MAX
        ensures Content(Row(style, width), 0, 3) != Err(OutOfOrder)
      {
        RowIsSnug(style, width);
        OrderChecksNeverFire(Row(style, width), 0, 3);
      }
    } else {
      LooseStyleBreaksOrder(style);
    }
  }
}
