/** Intrinsic inline sizes of a box tree: the minimum and preferred widths, computed without a cache. */
module IntrinsicSizes {
  import opened Outcomes
  import opened Ascii
  import opened Numbers

  datatype Sizes = Sizes(minimum: int, preferred: int)

  /** The two checks that sizes are in order have an error of their own here. */
  datatype SizeError =
    | TooDeep | Unsupported | AutomaticMargin | MissingText | Overflow | OutOfOrder | WorkLimit | Reentered

  datatype Kind = Text | LineBreak | Inline | AnonymousBlock | Block | InlineBlock | Flex

  datatype WhiteSpace = NormalSpace | Nowrap | Pre

  /** A length with a percentage part. */
  datatype Length = Length(length: int, percentage: int)

  datatype Style = Style(
    width: Option<Length>, minWidth: Option<Length>, maxWidth: Option<Length>, borderBox: bool,
    marginLeft: int, marginRight: int, autoLeft: bool, autoRight: bool, autoVertical: bool,
    borderLeft: int, borderRight: int, paddingLeft: int, paddingRight: int,
    whiteSpace: WhiteSpace, row: bool, wraps: bool, mainGap: int)

  datatype Box = Box(kind: Kind, style: Style, children: seq<nat>, supported: bool, text: Option<string>)

  /** The boxes, and what the text measurer says of a run in a box's style. */
  datatype Boxes = Boxes(boxes: seq<Box>, measure: (string, nat) -> int)

  ghost predicate Closed(w: Boxes) {
    forall i: nat :: i < |w.boxes| ==> forall k :: 0 <= k < |w.boxes[i].children| ==> w.boxes[i].children[k] < |w.boxes|
  }

  // ---- arithmetic --------------------------------------------------------------------------

  const AU_MIN: int := -0x8000_0000
  const AU_MAX: int := 0x7FFF_FFFF

  function CheckedAu(n: int): Result<int, SizeError> {
    if AU_MIN <= n <= AU_MAX then Ok(n) else Err(Overflow)
  }

  /** A specified length as a content-box length; the box may include border and padding. */
  function ContentBox(specified: int, borderBox: bool, borderAndPadding: int): Result<int, SizeError> {
    if !borderBox then Ok(Max(specified, 0))
    else if specified - borderAndPadding <= 0 then Ok(0)
    else CheckedAu(specified - borderAndPadding)
  }

  /** A size without percentage; one with a percentage counts as unset. */
  function Definite(value: Option<Length>, borderBox: bool, borderAndPadding: int): Result<Option<int>, SizeError> {
    if value.None? || value.value.percentage != 0 then Ok(None)
    else
      var content :- ContentBox(Max(value.value.length, 0), borderBox, borderAndPadding);
      Ok(Some(content))
  }

  function Bounded(used: int, low: Option<int>, high: Option<int>): int {
    var capped := if high.Some? then Min(used, high.value) else used;
    if low.Some? then Max(capped, low.value) else capped
  }

  function Constrained(sizes: Sizes, style: Style, borderAndPadding: int): Result<Sizes, SizeError> {
    var low :- Definite(style.minWidth, style.borderBox, borderAndPadding);
    var high :- Definite(style.maxWidth, style.borderBox, borderAndPadding);
    Ok(Sizes(Bounded(sizes.minimum, low, high), Bounded(sizes.preferred, low, high)))
  }

  // ---- a line of inline content ---------------------------------------------------------------

  datatype PendingSpace = NoSpace | Unbreakable | SoftBreak

  datatype Boundary = Boundary(present: bool, atomic: bool, ancestors: seq<nat>)

  datatype LineState = LineState(sizes: Sizes, currentMinimum: int, currentPreferred: int, hasContent: bool,
      pending: PendingSpace, previous: Boundary)

  const NO_BOUNDARY := Boundary(false, false, [])
  const EMPTY_LINE := LineState(Sizes(0, 0), 0, 0, false, NoSpace, NO_BOUNDARY)

  function FinishSegment(s: LineState): LineState {
    s.(sizes := s.sizes.(minimum := Max(s.sizes.minimum, s.currentMinimum)), currentMinimum := 0)
  }

  function ForceBreak(s: LineState): LineState {
    var t := FinishSegment(s);
    LineState(t.sizes.(preferred := Max(t.sizes.preferred, t.currentPreferred)), t.currentMinimum, 0, false, NoSpace,
              NO_BOUNDARY)
  }

  /** The last ancestor that two contents have in common from the outside. */
  function CommonAncestor(a: seq<nat>, b: seq<nat>): Option<nat> {
    if a == [] || b == [] || a[0] != b[0] then None
    else
      var inner := CommonAncestor(a[1..], b[1..]);
      if inner.Some? then inner else Some(a[0])
  }

  predicate AtomicBoundary(w: Boxes, s: LineState, ancestors: seq<nat>, atomic: bool) {
    && s.previous.present && (s.previous.atomic || atomic)
    && var common := CommonAncestor(s.previous.ancestors, ancestors);
       common.Some? && common.value < |w.boxes| && w.boxes[common.value].style.whiteSpace.NormalSpace?
  }

  function MeasureRun(w: Boxes, id: nat, run: string): Result<int, SizeError> {
    if w.measure(run, id) < 0 then Err(Overflow) else Ok(w.measure(run, id))
  }

  function LeadingSpace(w: Boxes, id: nat, s: LineState): Result<int, SizeError> {
    if !s.pending.NoSpace? && s.hasContent then MeasureRun(w, id, " ") else Ok(0)
  }

  predicate TakesSoftBreak(w: Boxes, s: LineState, ancestors: seq<nat>, atomic: bool) {
    && (s.pending.SoftBreak? || (s.pending.NoSpace? && AtomicBoundary(w, s, ancestors, atomic)))
    && s.hasContent && s.currentMinimum >= 0
  }

  /** Visible content on the line: a text run or an atomic box, after whatever space waits. */
  function AddVisible(w: Boxes, id: nat, s: LineState, sizes: Sizes, ancestors: seq<nat>,
                      atomic: bool): Result<LineState, SizeError> {
    var space :- LeadingSpace(w, id, s);
    var soft := TakesSoftBreak(w, s, ancestors, atomic);
    var t := if soft then FinishSegment(s) else s;
    var padded :- if !soft && space > 0 then CheckedAu(t.currentMinimum + space) else Ok(t.currentMinimum);
    var spread :- if space > 0 then CheckedAu(t.currentPreferred + space) else Ok(t.currentPreferred);
    var minimum :- CheckedAu(padded + sizes.minimum);
    var preferred :- CheckedAu(spread + sizes.preferred);
    Ok(LineState(t.sizes, minimum, preferred, true, NoSpace, Boundary(true, atomic, ancestors)))
  }

  // ---- text -------------------------------------------------------------------------------------

  function WithSpace(s: LineState, soft: bool): LineState {
    s.(pending := if !s.hasContent then NoSpace else if soft || s.pending.SoftBreak? then SoftBreak else Unbreakable)
  }

  function AddRun(w: Boxes, id: nat, s: LineState, run: string, ancestors: seq<nat>): Result<LineState, SizeError> {
    if run == "" then Ok(s)
    else
      var advance :- MeasureRun(w, id, run);
      AddVisible(w, id, s, Sizes(advance, advance), ancestors, false)
  }

  /** Text whose white space collapses: `run` holds the characters since the last space. */
  function Collapsing(w: Boxes, id: nat, s: LineState, data: string, run: string, soft: bool,
                      ancestors: seq<nat>): (r: Result<LineState, SizeError>)
    ensures r.Err? ==> r.error == Overflow
    decreases |data|
  {
    if data == "" then AddRun(w, id, s, run, ancestors)
    else if IsWhitespace(data[0]) then
      var t :- AddRun(w, id, s, run, ancestors);
      Collapsing(w, id, WithSpace(t, soft), data[1..], "", soft, ancestors)
    else Collapsing(w, id, s, data[1..], run + [data[0]], soft, ancestors)
  }

  function Preformatted(w: Boxes, id: nat, s: LineState, data: string, run: string,
                        ancestors: seq<nat>): (r: Result<LineState, SizeError>)
    ensures r.Err? ==> r.error == Overflow
    decreases |data|
  {
    if data == "" then AddRun(w, id, s, run, ancestors)
    else if data[0] == '\n' then
      var t :- AddRun(w, id, s, run, ancestors);
      Preformatted(w, id, ForceBreak(t), data[1..], "", ancestors)
    else Preformatted(w, id, s, data[1..], run + [data[0]], ancestors)
  }

  function MeasureText(w: Boxes, id: nat, s: LineState, data: string, ancestors: seq<nat>): Result<LineState, SizeError>
    requires id < |w.boxes|
  {
    match w.boxes[id].style.whiteSpace
    case NormalSpace => Collapsing(w, id, s, data, "", true, ancestors)
    case Nowrap => Collapsing(w, id, s, data, "", false, ancestors)
    case Pre => Preformatted(w, id, s, data, "", ancestors)
  }

  predicate AnyAuto(style: Style) {
    style.autoLeft || style.autoRight || style.autoVertical
  }

  /** What every box on a line is checked for before it is measured. */
  function Admit(box: Box): Result<bool, SizeError> {
    if !box.supported then Err(Unsupported)
    else if !box.kind.InlineBlock? && AnyAuto(box.style) then Err(AutomaticMargin)
    else Ok(true)
  }

  /** Text and line breaks. */
  function MeasureLeaf(w: Boxes, id: nat, s: LineState, ancestors: seq<nat>): (r: Result<LineState, SizeError>)
    requires id < |w.boxes|
    ensures r.Err? ==> r.error in {Unsupported, AutomaticMargin, MissingText, Overflow}
  {
    var box := w.boxes[id];
    var _ :- Admit(box);
    if box.kind.LineBreak? then Ok(ForceBreak(s))
    else if box.text.None? then Err(MissingText)
    else MeasureText(w, id, s, box.text.value, ancestors)
  }

  // ---- the tree -------------------------------------------------------------------------------------

  /** Sizes of a box's content. `height` is how many levels of boxes may still be entered. */
  function Content(w: Boxes, id: nat, height: nat): Result<Sizes, SizeError>
    requires Closed(w) && id < |w.boxes|
    decreases height, 4, 0
  {
    if height == 0 then Err(TooDeep)
    else
      var sizes :- Compute(w, id, height);
      var clamped := Sizes(Max(sizes.minimum, 0), Max(sizes.preferred, 0));
      if clamped.minimum > clamped.preferred then Err(OutOfOrder) else Ok(clamped)
  }

  function Compute(w: Boxes, id: nat, height: nat): Result<Sizes, SizeError>
    requires Closed(w) && id < |w.boxes| && height > 0
    decreases height, 3, 0
  {
    var box := w.boxes[id];
    if !box.supported then Err(Unsupported)
    else
      match box.kind
      case Block => BlockContent(w, id, 0, Sizes(0, 0), height)
      case InlineBlock => BlockContent(w, id, 0, Sizes(0, 0), height)
      case Flex => FlexContent(w, id, 0, Sizes(0, 0), height)
      case _ => InlineContext(w, id, height)
  }

  predicate BlockLevel(kind: Kind) {
    kind.Block? || kind.Flex? || kind.AnonymousBlock?
  }

  function Widest(a: Sizes, b: Sizes): Sizes {
    Sizes(Max(a.minimum, b.minimum), Max(a.preferred, b.preferred))
  }

  /** The widest of the children from the `i`-th on. */
  function BlockContent(w: Boxes, id: nat, i: nat, sizes: Sizes, height: nat): Result<Sizes, SizeError>
    requires Closed(w) && id < |w.boxes| && height > 0 && i <= |w.boxes[id].children|
    decreases height, 2, |w.boxes[id].children| - i
  {
    if i == |w.boxes[id].children| then Ok(sizes)
    else
      var child := w.boxes[id].children[i];
      if !BlockLevel(w.boxes[child].kind) then Err(Unsupported)
      else
        var outer :- Outer(w, child, height - 1);
        BlockContent(w, id, i + 1, Widest(sizes, outer), height)
  }

  /** One more flex item; `first` when no item came before. */
  function FlexItem(style: Style, sizes: Sizes, item: Sizes, first: bool): Result<Sizes, SizeError> {
    if !style.row then Ok(Widest(sizes, item))
    else
      var gap := if first then 0 else Max(style.mainGap, 0);
      var spread :- CheckedAu(sizes.preferred + gap);
      var preferred :- CheckedAu(spread + item.preferred);
      if style.wraps then Ok(Sizes(Max(sizes.minimum, item.minimum), preferred))
      else
        var padded :- CheckedAu(sizes.minimum + gap);
        var minimum :- CheckedAu(padded + item.minimum);
        Ok(Sizes(minimum, preferred))
  }

  function FlexContent(w: Boxes, id: nat, i: nat, sizes: Sizes, height: nat): Result<Sizes, SizeError>
    requires Closed(w) && id < |w.boxes| && height > 0 && i <= |w.boxes[id].children|
    decreases height, 2, |w.boxes[id].children| - i
  {
    if i == |w.boxes[id].children| then Ok(sizes)
    else
      var child := w.boxes[id].children[i];
      if AnyAuto(w.boxes[child].style) then Err(AutomaticMargin)
      else if !BlockLevel(w.boxes[child].kind) then Err(Unsupported)
      else
        var outer :- Outer(w, child, height - 1);
        var next :- FlexItem(w.boxes[id].style, sizes, outer, i == 0);
        FlexContent(w, id, i + 1, next, height)
  }

  function MarginLeft(style: Style): int { if style.autoLeft then 0 else style.marginLeft }

  function MarginRight(style: Style): int { if style.autoRight then 0 else style.marginRight }

  function BorderAndPadding(style: Style): Result<int, SizeError> {
    if style.borderLeft < 0 || style.borderRight < 0 || style.paddingLeft < 0 || style.paddingRight < 0
    then Err(Overflow)
    else CheckedAu(style.borderLeft + style.borderRight + style.paddingLeft + style.paddingRight)
  }

  /** Content with its constraints, border, padding and margins. */
  function Around(style: Style, borderAndPadding: int, content: Sizes): Result<Sizes, SizeError> {
    var used :- Constrained(content, style, borderAndPadding);
    var minimum :- CheckedAu(MarginLeft(style) + borderAndPadding + used.minimum + MarginRight(style));
    var preferred :- CheckedAu(MarginLeft(style) + borderAndPadding + used.preferred + MarginRight(style));
    if minimum > preferred then Err(OutOfOrder) else Ok(Sizes(minimum, preferred))
  }

  function Outer(w: Boxes, id: nat, height: nat): Result<Sizes, SizeError>
    requires Closed(w) && id < |w.boxes|
    decreases height, 5, 0
  {
    if height == 0 then Err(TooDeep)
    else
      var style := w.boxes[id].style;
      var borderAndPadding :- BorderAndPadding(style);
      var definite :- Definite(style.width, style.borderBox, borderAndPadding);
      var content :- if definite.Some? then Ok(Sizes(definite.value, definite.value)) else Content(w, id, height);
      Around(style, borderAndPadding, content)
  }

  /** A line of its own for text, a break, or the children of an inline or anonymous box. */
  function InlineContext(w: Boxes, id: nat, height: nat): Result<Sizes, SizeError>
    requires Closed(w) && id < |w.boxes| && height > 0
    decreases height, 2, 0
  {
    var kind := w.boxes[id].kind;
    var s :- if kind.Text? || kind.LineBreak? then MeasureLeaf(w, id, EMPTY_LINE, [])
             else if kind.Inline? || kind.AnonymousBlock? then MeasureChildren(w, id, 0, EMPTY_LINE, [id], height - 1)
             else Err(Unsupported);
    var done := ForceBreak(s).sizes;
    if done.minimum > done.preferred then Err(OutOfOrder) else Ok(done)
  }

  function MeasureChildren(w: Boxes, id: nat, i: nat, s: LineState, ancestors: seq<nat>,
                           height: nat): Result<LineState, SizeError>
    requires Closed(w) && id < |w.boxes| && i <= |w.boxes[id].children|
    decreases height, 7, |w.boxes[id].children| - i
  {
    if i == |w.boxes[id].children| then Ok(s)
    else
      var t :- MeasureBox(w, w.boxes[id].children[i], s, ancestors, height);
      MeasureChildren(w, id, i + 1, t, ancestors, height)
  }

  function MeasureBox(w: Boxes, id: nat, s: LineState, ancestors: seq<nat>, height: nat): Result<LineState, SizeError>
    requires Closed(w) && id < |w.boxes|
    decreases height, 6, 0
  {
    if height == 0 then Err(TooDeep)
    else
      var kind := w.boxes[id].kind;
      if kind.Text? || kind.LineBreak? then MeasureLeaf(w, id, s, ancestors)
      else
        var _ :- Admit(w.boxes[id]);
        match kind
        case Inline => MeasureChildren(w, id, 0, s, ancestors + [id], height - 1)
        case InlineBlock =>
          var sizes :- Outer(w, id, height);
          AddVisible(w, id, s, sizes, ancestors, true)
        case _ => Err(Unsupported)
  }

  // ---- more height changes nothing ---------------------------------------------------------------------

  /** An answer, a size or an error, that does not come from the depth limit holds under any larger limit. */
  lemma {:induction false} ContentTaller(w: Boxes, id: nat, height: nat, more: nat)
    requires Closed(w) && id < |w.boxes| && height <= more && Content(w, id, height) != Err(TooDeep)
    ensures Content(w, id, more) == Content(w, id, height)
    decreases height, 4, 0
  {
    ComputeTaller(w, id, height, more);
  }

  lemma {:induction false} ComputeTaller(w: Boxes, id: nat, height: nat, more: nat)
    requires Closed(w) && id < |w.boxes| && 0 < height <= more && Compute(w, id, height) != Err(TooDeep)
    ensures Compute(w, id, more) == Compute(w, id, height)
    decreases height, 3, 0
  {
    if !w.boxes[id].supported {
      return;
    }
    match w.boxes[id].kind {
      case Block => BlockTaller(w, id, 0, Sizes(0, 0), height, more);
      case InlineBlock => BlockTaller(w, id, 0, Sizes(0, 0), height, more);
      case Flex => FlexTaller(w, id, 0, Sizes(0, 0), height, more);
      case Inline => ChildrenTaller(w, id, 0, EMPTY_LINE, [id], height - 1, more - 1);
      case AnonymousBlock => ChildrenTaller(w, id, 0, EMPTY_LINE, [id], height - 1, more - 1);
      case _ =>
    }
  }

  lemma {:induction false} BlockTaller(w: Boxes, id: nat, i: nat, sizes: Sizes, height: nat, more: nat)
    requires Closed(w) && id < |w.boxes| && 0 < height <= more && i <= |w.boxes[id].children|
    requires BlockContent(w, id, i, sizes, height) != Err(TooDeep)
    ensures BlockContent(w, id, i, sizes, more) == BlockContent(w, id, i, sizes, height)
    decreases height, 2, |w.boxes[id].children| - i
  {
    if i < |w.boxes[id].children| && BlockLevel(w.boxes[w.boxes[id].children[i]].kind) {
      var outer := Outer(w, w.boxes[id].children[i], height - 1);
      OuterTaller(w, w.boxes[id].children[i], height - 1, more - 1);
      hide Outer;
      if outer.Ok? {
        BlockTaller(w, id, i + 1, Widest(sizes, outer.value), height, more);
      }
    }
  }

  lemma {:induction false} FlexTaller(w: Boxes, id: nat, i: nat, sizes: Sizes, height: nat, more: nat)
    requires Closed(w) && id < |w.boxes| && 0 < height <= more && i <= |w.boxes[id].children|
    requires FlexContent(w, id, i, sizes, height) != Err(TooDeep)
    ensures FlexContent(w, id, i, sizes, more) == FlexContent(w, id, i, sizes, height)
    decreases height, 2, |w.boxes[id].children| - i
  {
    if i < |w.boxes[id].children| {
      var child := w.boxes[id].children[i];
      if !AnyAuto(w.boxes[child].style) && BlockLevel(w.boxes[child].kind) {
        var outer := Outer(w, child, height - 1);
        OuterTaller(w, child, height - 1, more - 1);
        hide Outer;
        hide FlexItem;
        if outer.Ok? {
          var next := FlexItem(w.boxes[id].style, sizes, outer.value, i == 0);
          if next.Ok? {
            FlexTaller(w, id, i + 1, next.value, height, more);
          }
        }
      }
    }
  }

  lemma {:induction false} OuterTaller(w: Boxes, id: nat, height: nat, more: nat)
    requires Closed(w) && id < |w.boxes| && height <= more && Outer(w, id, height) != Err(TooDeep)
    ensures Outer(w, id, more) == Outer(w, id, height)
    decreases height, 5, 0
  {
    if Content(w, id, height) != Err(TooDeep) {
      ContentTaller(w, id, height, more);
    }
  }

  lemma {:induction false} ChildrenTaller(w: Boxes, id: nat, i: nat, s: LineState, ancestors: seq<nat>, height: nat,
                                          more: nat)
    requires Closed(w) && id < |w.boxes| && height <= more && i <= |w.boxes[id].children|
    requires MeasureChildren(w, id, i, s, ancestors, height) != Err(TooDeep)
    ensures MeasureChildren(w, id, i, s, ancestors, more) == MeasureChildren(w, id, i, s, ancestors, height)
    decreases height, 7, |w.boxes[id].children| - i
  {
    if i < |w.boxes[id].children| {
      BoxTaller(w, w.boxes[id].children[i], s, ancestors, height, more);
      var t := MeasureBox(w, w.boxes[id].children[i], s, ancestors, height);
      hide MeasureBox;
      if t.Ok? {
        ChildrenTaller(w, id, i + 1, t.value, ancestors, height, more);
      }
    }
  }

  lemma {:induction false} BoxTaller(w: Boxes, id: nat, s: LineState, ancestors: seq<nat>, height: nat, more: nat)
    requires Closed(w) && id < |w.boxes| && height <= more && MeasureBox(w, id, s, ancestors, height) != Err(TooDeep)
    ensures MeasureBox(w, id, s, ancestors, more) == MeasureBox(w, id, s, ancestors, height)
    decreases height, 6, 0
  {
    if Admit(w.boxes[id]).Err? {
    } else if w.boxes[id].kind.Inline? {
      ChildrenTaller(w, id, 0, s, ancestors + [id], height - 1, more - 1);
    } else if w.boxes[id].kind.InlineBlock? {
      OuterTaller(w, id, height, more);
    }
  }

  /** However high the tree may be taken to be, a box has at most one size or other answer. */
  lemma SizesAreUnique(w: Boxes, id: nat, one: nat, other: nat)
    requires Closed(w) && id < |w.boxes| && Content(w, id, one) != Err(TooDeep) && Content(w, id, other) != Err(TooDeep)
    ensures Content(w, id, one) == Content(w, id, other)
  {
    if one <= other {
      ContentTaller(w, id, one, other);
    } else {
      ContentTaller(w, id, other, one);
    }
  }
}
