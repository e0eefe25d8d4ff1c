/** Intrinsic sizes with a cache of one entry a box and a work budget, against the uncached sizes. */
module IntrinsicCache {
  import opened Outcomes
  import opened Numbers
  import opened IntrinsicSizes

  datatype Entry = Vacant | Computing | Ready(sizes: Sizes)

  /** The uncached size of a box, whatever height it takes to find it. */
  ghost predicate HasSize(w: Boxes, id: nat, sizes: Sizes)
    requires Closed(w) && id < |w.boxes|
  {
    exists height: nat :: Content(w, id, height) == Ok(sizes)
  }

  /** Every finished entry is the box's uncached size. */
  ghost predicate Faithful(w: Boxes, cache: seq<Entry>)
    requires Closed(w)
  {
    && |cache| == |w.boxes|
    && forall i: nat :: i < |cache| && cache[i].Ready? ==> HasSize(w, i, cache[i].sizes)
  }

  /** The same boxes are being computed. */
  ghost predicate SameInProgress(before: seq<Entry>, after: seq<Entry>) {
    && |before| == |after|
    && forall i: nat :: i < |before| ==> (before[i].Computing? <==> after[i].Computing?)
  }

  /**
   An error is the budget's, or a box met inside itself, or the very error of the uncached walk, unless that
   walk ran into the depth limit where the cache had the answer.
   */
  predicate Justified<T, U>(r: Result<T, SizeError>, uncached: Result<U, SizeError>) {
    r.Err? && !r.error.WorkLimit? && !r.error.Reentered? ==>
      uncached.Err? && (uncached.error == r.error || uncached.error == TooDeep)
  }

  /** A walk over all children runs into the depth limit, or comes to the same as the walk over those that remain. */
  predicate Agrees<T(==)>(all: Result<T, SizeError>, rest: Result<T, SizeError>) {
    all == Err(TooDeep) || all == rest
  }

  lemma OuterUnique(w: Boxes, id: nat, one: nat, other: nat)
    requires Closed(w) && id < |w.boxes| && Outer(w, id, one) != Err(TooDeep) && Outer(w, id, other) != Err(TooDeep)
    ensures Outer(w, id, one) == Outer(w, id, other)
  {
    if one <= other {
      OuterTaller(w, id, one, other);
    } else {
      OuterTaller(w, id, other, one);
    }
  }

  lemma BoxUnique(w: Boxes, id: nat, s: LineState, ancestors: seq<nat>, one: nat, other: nat)
    requires Closed(w) && id < |w.boxes| && MeasureBox(w, id, s, ancestors, one) != Err(TooDeep)
    requires MeasureBox(w, id, s, ancestors, other) != Err(TooDeep)
    ensures MeasureBox(w, id, s, ancestors, one) == MeasureBox(w, id, s, ancestors, other)
  {
    if one <= other {
      BoxTaller(w, id, s, ancestors, one, other);
    } else {
      BoxTaller(w, id, s, ancestors, other, one);
    }
  }

  lemma ComputeUnique(w: Boxes, id: nat, one: nat, other: nat)
    requires Closed(w) && id < |w.boxes| && one > 0 && other > 0
    requires Compute(w, id, one) != Err(TooDeep) && Compute(w, id, other) != Err(TooDeep)
    ensures Compute(w, id, one) == Compute(w, id, other)
  {
    if one <= other {
      ComputeTaller(w, id, one, other);
    } else {
      ComputeTaller(w, id, other, one);
    }
  }

  lemma ChildrenUnique(w: Boxes, id: nat, s: LineState, ancestors: seq<nat>, one: nat, other: nat)
    requires Closed(w) && id < |w.boxes|
    requires MeasureChildren(w, id, 0, s, ancestors, one) != Err(TooDeep)
    requires MeasureChildren(w, id, 0, s, ancestors, other) != Err(TooDeep)
    ensures MeasureChildren(w, id, 0, s, ancestors, one) == MeasureChildren(w, id, 0, s, ancestors, other)
  {
    if one <= other {
      ChildrenTaller(w, id, 0, s, ancestors, one, other);
    } else {
      ChildrenTaller(w, id, 0, s, ancestors, other, one);
    }
  }

  lemma SameTwice(a: seq<Entry>, b: seq<Entry>, c: seq<Entry>)
    requires SameInProgress(a, b) && SameInProgress(b, c)
    ensures SameInProgress(a, c)
  {
  }

  // ---- boxes inside themselves --------------------------------------------------------------------

  /** Children rank below their box. */
  ghost predicate Ranked(w: Boxes, rank: seq<nat>)
    requires Closed(w)
  {
    && |rank| == |w.boxes|
    && forall i: nat, k :: i < |w.boxes| && 0 <= k < |w.boxes[i].children| ==> rank[w.boxes[i].children[k]] < rank[i]
  }

  /** No box is inside itself. */
  ghost predicate Acyclic(w: Boxes)
    requires Closed(w)
  {
    exists rank: seq<nat> :: Ranked(w, rank)
  }

  /** In a tree, what is in progress ranks at least `low`: it lies around the box at hand. */
  ghost predicate InProgressFrom(w: Boxes, rank: seq<nat>, cache: seq<Entry>, low: nat)
    requires Closed(w)
  {
    && Ranked(w, rank) && |cache| == |rank|
    && forall i: nat :: i < |cache| && cache[i].Computing? ==> rank[i] >= low
  }

  /** The walk cannot meet the box at hand again. */
  ghost predicate Clear(w: Boxes, rank: seq<nat>, cache: seq<Entry>, id: nat)
    requires Closed(w)
  {
    id < |rank| && InProgressFrom(w, rank, cache, rank[id] + 1)
  }

  /** Nor any box inside it, while it may be in progress itself. */
  ghost predicate ClearInside(w: Boxes, rank: seq<nat>, cache: seq<Entry>, id: nat)
    requires Closed(w)
  {
    id < |rank| && InProgressFrom(w, rank, cache, rank[id])
  }

  lemma ChildIsClear(w: Boxes, rank: seq<nat>, cache: seq<Entry>, id: nat, k: nat)
    requires Closed(w) && ClearInside(w, rank, cache, id) && k < |w.boxes[id].children|
    ensures Clear(w, rank, cache, w.boxes[id].children[k])
  {
  }

  lemma ClearStays(w: Boxes, rank: seq<nat>, before: seq<Entry>, after: seq<Entry>, id: nat)
    requires Closed(w) && SameInProgress(before, after)
    ensures ClearInside(w, rank, before, id) ==> ClearInside(w, rank, after, id)
  {
  }

  // ---- how far a walk over children has come -----------------------------------------------------

  /** From some height on, a block's sizes are those of its children from the `i`-th on, given `sizes` so far. */
  ghost predicate BlockReached(w: Boxes, id: nat, i: nat, sizes: Sizes, height: nat)
    requires Closed(w) && id < |w.boxes| && i <= |w.boxes[id].children| && height > 0
  {
    forall h: nat :: h >= height ==> BlockContent(w, id, 0, Sizes(0, 0), h) == BlockContent(w, id, i, sizes, h)
  }

  lemma BlockOneMore(w: Boxes, id: nat, i: nat, sizes: Sizes, height: nat, outer: Sizes, more: nat)
    requires Closed(w) && id < |w.boxes| && i < |w.boxes[id].children|
    requires height > 0 && BlockReached(w, id, i, sizes, height)
    requires BlockLevel(w.boxes[w.boxes[id].children[i]].kind) && Outer(w, w.boxes[id].children[i], more) == Ok(outer)
    ensures BlockReached(w, id, i + 1, Widest(sizes, outer), height + more + 1)
  {
    forall h: nat | h >= height + more + 1
      ensures BlockContent(w, id, 0, Sizes(0, 0), h) ==
              BlockContent(w, id, i + 1, Widest(sizes, outer), h)
    {
      OuterTaller(w, w.boxes[id].children[i], more, h - 1);
      hide Outer;
      assert BlockContent(w, id, 0, Sizes(0, 0), h) == BlockContent(w, id, i, sizes, h);
    }
  }

  /** The same walk with the levels that are left: the child's sizes, if it has any there, are the ones found. */
  lemma BlockAgrees(w: Boxes, id: nat, i: nat, sizes: Sizes, levels: nat, outer: Sizes, more: nat)
    requires Closed(w) && id < |w.boxes| && i < |w.boxes[id].children| && levels > 0
    requires Outer(w, w.boxes[id].children[i], more) == Ok(outer) && BlockLevel(w.boxes[w.boxes[id].children[i]].kind)
    requires Agrees(BlockContent(w, id, 0, Sizes(0, 0), levels), BlockContent(w, id, i, sizes, levels))
    ensures Agrees(BlockContent(w, id, 0, Sizes(0, 0), levels),
                   BlockContent(w, id, i + 1, Widest(sizes, outer), levels))
  {
    var child := w.boxes[id].children[i];
    if Outer(w, child, levels - 1) != Err(TooDeep) {
      OuterUnique(w, child, more, levels - 1);
    }
  }

  lemma FlexAgrees(w: Boxes, id: nat, i: nat, sizes: Sizes, levels: nat, outer: Sizes, more: nat)
    requires Closed(w) && id < |w.boxes| && i < |w.boxes[id].children| && levels > 0
    requires Outer(w, w.boxes[id].children[i], more) == Ok(outer)
    requires var child := w.boxes[w.boxes[id].children[i]]; BlockLevel(child.kind) && !AnyAuto(child.style)
    requires Agrees(FlexContent(w, id, 0, Sizes(0, 0), levels), FlexContent(w, id, i, sizes, levels))
    ensures var next := FlexItem(w.boxes[id].style, sizes, outer, i == 0);
            if next.Err? then next.error == Overflow && Justified(next, FlexContent(w, id, 0, Sizes(0, 0), levels))
            else Agrees(FlexContent(w, id, 0, Sizes(0, 0), levels), FlexContent(w, id, i + 1, next.value, levels))
  {
    var child := w.boxes[id].children[i];
    if Outer(w, child, levels - 1) != Err(TooDeep) {
      OuterUnique(w, child, more, levels - 1);
    }
  }

  /** Where a flex walk stops at its i-th item. */
  lemma FlexStops(w: Boxes, id: nat, i: nat, sizes: Sizes, levels: nat)
    requires Closed(w) && id < |w.boxes| && i < |w.boxes[id].children| && levels > 0
    ensures var child := w.boxes[w.boxes[id].children[i]];
            var outer := Outer(w, w.boxes[id].children[i], levels - 1);
            var all := FlexContent(w, id, i, sizes, levels);
            if AnyAuto(child.style) then all == Err(AutomaticMargin)
            else if !BlockLevel(child.kind) then all == Err(Unsupported)
            else outer.Err? ==> all == Err(outer.error)
  {
  }

  ghost predicate FlexReached(w: Boxes, id: nat, i: nat, sizes: Sizes, height: nat)
    requires Closed(w) && id < |w.boxes| && i <= |w.boxes[id].children| && height > 0
  {
    forall h: nat :: h >= height ==> FlexContent(w, id, 0, Sizes(0, 0), h) == FlexContent(w, id, i, sizes, h)
  }

  lemma FlexEnds(w: Boxes, id: nat, sizes: Sizes, height: nat)
    requires Closed(w) && id < |w.boxes| && height > 0
    ensures FlexReached(w, id, 0, Sizes(0, 0), height)
    ensures FlexReached(w, id, |w.boxes[id].children|, sizes, height) ==>
      FlexContent(w, id, 0, Sizes(0, 0), height) == Ok(sizes)
  {
  }

  lemma FlexOneMore(w: Boxes, id: nat, i: nat, sizes: Sizes, height: nat, outer: Sizes, more: nat)
    requires Closed(w) && id < |w.boxes| && i < |w.boxes[id].children|
    requires height > 0 && FlexReached(w, id, i, sizes, height)
    requires var child := w.boxes[w.boxes[id].children[i]]; BlockLevel(child.kind) && !AnyAuto(child.style)
    requires Outer(w, w.boxes[id].children[i], more) == Ok(outer)
    requires FlexItem(w.boxes[id].style, sizes, outer, i == 0).Ok?
    ensures FlexReached(w, id, i + 1, FlexItem(w.boxes[id].style, sizes, outer, i == 0).value, height + more + 1)
  {
    var next := FlexItem(w.boxes[id].style, sizes, outer, i == 0).value;
    forall h: nat | h >= height + more + 1
      ensures FlexContent(w, id, 0, Sizes(0, 0), h) == FlexContent(w, id, i + 1, next, h)
    {
      OuterTaller(w, w.boxes[id].children[i], more, h - 1);
      hide Outer;
      hide FlexItem;
      assert FlexContent(w, id, 0, Sizes(0, 0), h) == FlexContent(w, id, i, sizes, h);
    }
  }

  ghost predicate LineReached(w: Boxes, id: nat, start: LineState, i: nat, s: LineState, ancestors: seq<nat>,
                              height: nat)
    requires Closed(w) && id < |w.boxes| && i <= |w.boxes[id].children|
  {
    forall h: nat :: h >= height ==>
      MeasureChildren(w, id, 0, start, ancestors, h) == MeasureChildren(w, id, i, s, ancestors, h)
  }

  lemma LineOneMore(w: Boxes, id: nat, start: LineState, i: nat, s: LineState, ancestors: seq<nat>, height: nat,
                    t: LineState, more: nat)
    requires Closed(w) && id < |w.boxes| && i < |w.boxes[id].children|
    requires LineReached(w, id, start, i, s, ancestors, height)
    requires MeasureBox(w, w.boxes[id].children[i], s, ancestors, more) == Ok(t)
    ensures LineReached(w, id, start, i + 1, t, ancestors, height + more)
  {
    forall h: nat | h >= height + more
      ensures MeasureChildren(w, id, 0, start, ancestors, h) == MeasureChildren(w, id, i + 1, t, ancestors, h)
    {
      BoxTaller(w, w.boxes[id].children[i], s, ancestors, more, h);
      hide MeasureBox;
      assert MeasureChildren(w, id, 0, start, ancestors, h) == MeasureChildren(w, id, i, s, ancestors, h);
    }
  }

  class IntrinsicSizer {
    const world: Boxes
    const maxDepth: nat
    const workLimit: nat
    var used: nat
    var cache: seq<Entry>

    /** The cache is filled with vacant entries before the first use. */
    constructor (world: Boxes, maxDepth: nat, workLimit: nat)
      requires Closed(world)
      ensures this.world == world && this.maxDepth == maxDepth && this.workLimit == workLimit
      ensures Valid() && forall i :: 0 <= i < |cache| ==> cache[i] == Vacant
    {
      this.world, this.maxDepth, this.workLimit, this.used := world, maxDepth, workLimit, 0;
      this.cache := seq(|world.boxes|, i => Vacant);
    }

    ghost predicate Valid()
      reads this
    {
      Closed(world) && Faithful(world, cache)
    }

    function Levels(depth: nat): nat {
      if depth > maxDepth then 0 else maxDepth + 1 - depth
    }

    method Charge(units: nat) returns (r: Result<bool, SizeError>)
      modifies this`used
      ensures r == if old(used) + units > workLimit then Err(WorkLimit) else Ok(true)
      ensures used == if r.Ok? then old(used) + units else old(used)
    {
      if used + units > workLimit {
        return Err(WorkLimit);
      }
      used := used + units;
      r := Ok(true);
    }

    /** Looks the sizes up or computes them; nothing is left half computed, whatever goes wrong. */
    method ContentSizes(id: nat, depth: nat, ghost rank: seq<nat>)
      returns (r: Result<Sizes, SizeError>, ghost height: nat)
      requires Valid() && id < |world.boxes|
      modifies this
      ensures Valid() && SameInProgress(old(cache), cache)
      ensures r.Ok? ==> Content(world, id, height) == Ok(r.value)
      ensures Clear(world, rank, old(cache), id) ==> r != Err(Reentered)
      ensures Justified(r, Content(world, id, Levels(depth)))
      decreases Levels(depth), 4, 0
    {
      height := 0;
      if depth > maxDepth {
        return Err(TooDeep), height;
      }
      var _ :- Charge(1);
      match cache[id] {
        case Ready(sizes) =>
          height :| Content(world, id, height) == Ok(sizes);
          return Ok(sizes), height;
        case Computing =>
          return Err(Reentered), height;
        case Vacant =>
      }
      cache := cache[id := Computing];
      r, height := ComputeSizes(id, depth, rank);
      if r.Ok? && Compute(world, id, Levels(depth)) != Err(TooDeep) {
        ComputeUnique(world, id, height, Levels(depth));
      }
      if r.Ok? {
        var clamped := Sizes(Max(r.value.minimum, 0), Max(r.value.preferred, 0));
        r := if clamped.minimum > clamped.preferred then Err(OutOfOrder) else Ok(clamped);
      }
      if r.Ok? {
        assert Content(world, id, height) == Ok(r.value);
        cache := cache[id := Ready(r.value)];
      } else {
        cache := cache[id := Vacant];
      }
    }

    method ComputeSizes(id: nat, depth: nat, ghost rank: seq<nat>)
      returns (r: Result<Sizes, SizeError>, ghost height: nat)
      requires Valid() && id < |world.boxes| && depth <= maxDepth
      modifies this
      ensures Valid() && SameInProgress(old(cache), cache)
      ensures height > 0 && (r.Ok? ==> Compute(world, id, height) == Ok(r.value))
      ensures ClearInside(world, rank, old(cache), id) ==> r != Err(Reentered)
      ensures Justified(r, Compute(world, id, Levels(depth)))
      decreases Levels(depth), 3, 0
    {
      height := 1;
      var box := world.boxes[id];
      if !box.supported {
        return Err(Unsupported), height;
      }
      match box.kind {
        case Block => r, height := BlockSizes(id, depth, rank);
        case InlineBlock => r, height := BlockSizes(id, depth, rank);
        case Flex => r, height := FlexSizes(id, depth, rank);
        case _ => r, height := InlineContextSizes(id, depth, rank);
      }
    }

    method BlockSizes(id: nat, depth: nat, ghost rank: seq<nat>)
      returns (r: Result<Sizes, SizeError>, ghost height: nat)
      requires Valid() && id < |world.boxes| && depth <= maxDepth
      modifies this
      ensures Valid() && SameInProgress(old(cache), cache)
      ensures height > 0 && (r.Ok? ==> BlockContent(world, id, 0, Sizes(0, 0), height) == Ok(r.value))
      ensures ClearInside(world, rank, old(cache), id) ==> r != Err(Reentered)
      ensures Justified(r, BlockContent(world, id, 0, Sizes(0, 0), Levels(depth)))
      decreases Levels(depth), 2, 0
    {
      height := 1;
      var children := world.boxes[id].children;
      var _ :- Charge(|children|);
      var result := Sizes(0, 0);
      for i := 0 to |children|
        invariant Valid() && SameInProgress(old(cache), cache) && height > 0
        invariant BlockReached(world, id, i, result, height)
        invariant Agrees(BlockContent(world, id, 0, Sizes(0, 0), Levels(depth)),
            BlockContent(world, id, i, result, Levels(depth)))
      {
        var child := children[i];
        if !BlockLevel(world.boxes[child].kind) {
          return Err(Unsupported), height;
        }
        ghost var before := cache;
        ClearStays(world, rank, old(cache), cache, id);
        if ClearInside(world, rank, cache, id) {
          ChildIsClear(world, rank, cache, id, i);
        }
        hide Clear;
        hide ClearInside;
        var outer, more := OuterSizes(child, depth + 1, rank);
        SameTwice(old(cache), before, cache);
        if outer.Err? {
          return outer, height;
        }
        BlockOneMore(world, id, i, result, height, outer.value, more);
        BlockAgrees(world, id, i, result, Levels(depth), outer.value, more);
        hide BlockReached;
        hide BlockContent;
        hide Outer;
        result := Widest(result, outer.value);
        height := height + more + 1;
      }
      r := Ok(result);
    }

    method FlexSizes(id: nat, depth: nat, ghost rank: seq<nat>) returns (r: Result<Sizes, SizeError>, ghost height: nat)
      requires Valid() && id < |world.boxes| && depth <= maxDepth
      modifies this
      ensures Valid() && SameInProgress(old(cache), cache)
      ensures height > 0 && (r.Ok? ==> FlexContent(world, id, 0, Sizes(0, 0), height) == Ok(r.value))
      ensures ClearInside(world, rank, old(cache), id) ==> r != Err(Reentered)
      ensures Justified(r, FlexContent(world, id, 0, Sizes(0, 0), Levels(depth)))
      decreases Levels(depth), 2, 0
    {
      hide FlexContent;
      hide FlexReached;
      hide FlexItem;
      hide Outer;
      hide Clear;
      hide ClearInside;
      hide Faithful;
      height := 1;
      FlexEnds(world, id, Sizes(0, 0), height);
      var children, style := world.boxes[id].children, world.boxes[id].style;
      var _ :- Charge(|children|);
      var result := Sizes(0, 0);
      for i := 0 to |children|
        invariant Valid() && SameInProgress(old(cache), cache) && height > 0
        invariant FlexReached(world, id, i, result, height)
        invariant Agrees(FlexContent(world, id, 0, Sizes(0, 0), Levels(depth)),
                         FlexContent(world, id, i, result, Levels(depth)))
      {
        var child := children[i];
        FlexStops(world, id, i, result, Levels(depth));
        if AnyAuto(world.boxes[child].style) {
          return Err(AutomaticMargin), height;
        }
        if !BlockLevel(world.boxes[child].kind) {
          return Err(Unsupported), height;
        }
        ghost var before := cache;
        ClearStays(world, rank, old(cache), cache, id);
        if ClearInside(world, rank, cache, id) {
          ChildIsClear(world, rank, cache, id, i);
        }
        var outer, more := OuterSizes(child, depth + 1, rank);
        SameTwice(old(cache), before, cache);
        if outer.Err? {
          return outer, height;
        }
        FlexAgrees(world, id, i, result, Levels(depth), outer.value, more);
        var next := FlexItem(style, result, outer.value, i == 0);
        if next.Err? {
          return next, height;
        }
        FlexOneMore(world, id, i, result, height, outer.value, more);
        result := next.value;
        height := height + more + 1;
      }
      FlexEnds(world, id, result, height);
      r := Ok(result);
    }

    method OuterSizes(id: nat, depth: nat, ghost rank: seq<nat>)
      returns (r: Result<Sizes, SizeError>, ghost height: nat)
      requires Valid() && id < |world.boxes|
      modifies this
      ensures Valid() && SameInProgress(old(cache), cache)
      ensures r.Ok? ==> Outer(world, id, height) == Ok(r.value)
      ensures Clear(world, rank, old(cache), id) ==> r != Err(Reentered)
      ensures Justified(r, Outer(world, id, Levels(depth)))
      decreases Levels(depth), 5, 0
    {
      height := 1;
      if depth > maxDepth {
        return Err(TooDeep), height;
      }
      var _ :- Charge(1);
      var style := world.boxes[id].style;
      var borderAndPadding := BorderAndPadding(style);
      if borderAndPadding.Err? {
        return Err(borderAndPadding.error), height;
      }
      var definite := Definite(style.width, style.borderBox, borderAndPadding.value);
      if definite.Err? {
        return Err(definite.error), height;
      }
      var content := Ok(Sizes(0, 0));
      if definite.value.Some? {
        content := Ok(Sizes(definite.value.value, definite.value.value));
      } else {
        content, height := ContentSizes(id, depth, rank);
        if content.Ok? && Content(world, id, Levels(depth)) != Err(TooDeep) {
          SizesAreUnique(world, id, height, Levels(depth));
        }
        if content.Err? {
          return content, height;
        }
      }
      hide Content;
      hide Around;
      r := Around(style, borderAndPadding.value, content.value);
    }

    method InlineContextSizes(id: nat, depth: nat, ghost rank: seq<nat>)
      returns (r: Result<Sizes, SizeError>, ghost height: nat)
      requires Valid() && id < |world.boxes| && depth <= maxDepth
      modifies this
      ensures Valid() && SameInProgress(old(cache), cache)
      ensures height > 0 && (r.Ok? ==> InlineContext(world, id, height) == Ok(r.value))
      ensures ClearInside(world, rank, old(cache), id) ==> r != Err(Reentered)
      ensures Justified(r, InlineContext(world, id, Levels(depth)))
      decreases Levels(depth), 2, 0
    {
      height := 1;
      var kind := world.boxes[id].kind;
      var s: Result<LineState, SizeError>;
      if kind.Text? || kind.LineBreak? {
        s := MeasureLeaf(world, id, EMPTY_LINE, []);
      } else if kind.Inline? || kind.AnonymousBlock? {
        s, height := MeasureInlineChildren(id, EMPTY_LINE, [id], depth + 1, rank);
        if s.Ok? && MeasureChildren(world, id, 0, EMPTY_LINE, [id], Levels(depth + 1)) != Err(TooDeep) {
          ChildrenUnique(world, id, EMPTY_LINE, [id], height, Levels(depth + 1));
        }
        height := height + 1;
      } else {
        s := Err(Unsupported);
      }
      hide MeasureLeaf;
      hide MeasureChildren;
      if s.Err? {
        return Err(s.error), height;
      }
      var done := ForceBreak(s.value).sizes;
      r := if done.minimum > done.preferred then Err(OutOfOrder) else Ok(done);
    }

    method MeasureInlineChildren(id: nat, start: LineState, ancestors: seq<nat>, depth: nat, ghost rank: seq<nat>)
      returns (r: Result<LineState, SizeError>, ghost height: nat)
      requires Valid() && id < |world.boxes|
      modifies this
      ensures Valid() && SameInProgress(old(cache), cache)
      ensures r.Ok? ==> MeasureChildren(world, id, 0, start, ancestors, height) == Ok(r.value)
      ensures ClearInside(world, rank, old(cache), id) ==> r != Err(Reentered)
      ensures Justified(r, MeasureChildren(world, id, 0, start, ancestors, Levels(depth)))
      decreases Levels(depth), 7, 0
    {
      height := 0;
      var children := world.boxes[id].children;
      var s := start;
      for i := 0 to |children|
        invariant Valid() && SameInProgress(old(cache), cache)
        invariant LineReached(world, id, start, i, s, ancestors, height)
        invariant Agrees(MeasureChildren(world, id, 0, start, ancestors, Levels(depth)),
            MeasureChildren(world, id, i, s, ancestors, Levels(depth)))
      {
        ghost var before := cache;
        ClearStays(world, rank, old(cache), cache, id);
        if ClearInside(world, rank, cache, id) {
          ChildIsClear(world, rank, cache, id, i);
        }
        hide Clear;
        hide ClearInside;
        var t, more := MeasureInlineBox(children[i], s, ancestors, depth, rank);
        SameTwice(old(cache), before, cache);
        if t.Err? {
          return t, height;
        }
        LineOneMore(world, id, start, i, s, ancestors, height, t.value, more);
        if MeasureBox(world, children[i], s, ancestors, Levels(depth)) != Err(TooDeep) {
          BoxUnique(world, children[i], s, ancestors, more, Levels(depth));
        }
        hide MeasureBox;
        hide LineReached;
        s := t.value;
        height := height + more;
      }
      r := Ok(s);
    }

    method MeasureInlineBox(id: nat, s: LineState, ancestors: seq<nat>, depth: nat, ghost rank: seq<nat>)
      returns (r: Result<LineState, SizeError>, ghost height: nat)
      requires Valid() && id < |world.boxes|
      modifies this
      ensures Valid() && SameInProgress(old(cache), cache)
      ensures r.Ok? ==> MeasureBox(world, id, s, ancestors, height) == Ok(r.value)
      ensures Clear(world, rank, old(cache), id) ==> r != Err(Reentered)
      ensures Justified(r, MeasureBox(world, id, s, ancestors, Levels(depth)))
      decreases Levels(depth), 6, 0
    {
      height := 1;
      if depth > maxDepth {
        return Err(TooDeep), height;
      }
      var _ :- Charge(1);
      var kind := world.boxes[id].kind;
      if kind.Text? || kind.LineBreak? {
        hide MeasureLeaf;
        return MeasureLeaf(world, id, s, ancestors), height;
      }
      var admitted := Admit(world.boxes[id]);
      if admitted.Err? {
        return Err(admitted.error), height;
      }
      match kind {
        case Inline =>
          r, height := MeasureInlineChildren(id, s, ancestors + [id], depth + 1, rank);
          height := height + 1;
          hide MeasureChildren;
        case InlineBlock =>
          var sizes, more := OuterSizes(id, depth, rank);
          height := more;
          if sizes.Ok? && Outer(world, id, Levels(depth)) != Err(TooDeep) {
            OuterUnique(world, id, more, Levels(depth));
          }
          hide Outer;
          hide AddVisible;
          if sizes.Err? {
            return Err(sizes.error), height;
          }
          r := AddVisible(world, id, s, sizes.value, ancestors, true);
        case _ =>
          r := Err(Unsupported);
      }
    }

    /** A request from outside: an answer is the uncached size, and nothing is left in progress. */
    method IntrinsicSizesOf(id: nat, depth: nat) returns (r: Result<Sizes, SizeError>)
      requires Valid() && id < |world.boxes| && forall i :: 0 <= i < |cache| ==> !cache[i].Computing?
      modifies this
      ensures Valid() && forall i :: 0 <= i < |cache| ==> !cache[i].Computing?
      ensures r.Ok? ==> HasSize(world, id, r.value)
      ensures Justified(r, Content(world, id, Levels(depth)))
      ensures Acyclic(world) ==> r != Err(Reentered)
    {
      ghost var rank: seq<nat> := [];
      if Acyclic(world) {
        rank :| Ranked(world, rank);
        assert Clear(world, rank, cache, id);
      }
      ghost var height;
      r, height := ContentSizes(id, depth, rank);
    }
  }
}
