/** Intrinsic sizes in closed form: sums and maxima over children, words and lines. */
module IntrinsicForms {
  import opened Outcomes
  import opened Ascii
  import opened Numbers
  import opened IntrinsicSizes

  function Total(values: seq<int>): int {
    if values == [] then 0 else Total(values[..|values| - 1]) + values[|values| - 1]
  }

  /** The largest value, or zero if none is larger. */
  function Largest(values: seq<int>): int {
    if values == [] then 0 else Max(Largest(values[..|values| - 1]), values[|values| - 1])
  }

  lemma {:induction false} LargestIsLargest(values: seq<int>)
    ensures 0 <= Largest(values) && forall i :: 0 <= i < |values| ==> values[i] <= Largest(values)
    ensures Largest(values) == 0 || Largest(values) in values
  {
    if values != [] {
      LargestIsLargest(values[..|values| - 1]);
    }
  }

  lemma PrefixStep(values: seq<int>, k: nat)
    requires k < |values|
    ensures Total(values[..k + 1]) == Total(values[..k]) + values[k]
    ensures Largest(values[..k + 1]) == Max(Largest(values[..k]), values[k])
  {
    assert values[..k + 1][..k] == values[..k];
  }

  /** The sum with a gap between each two values. */
  function Spread(values: seq<int>, gap: int): int {
    if values == [] then 0 else Total(values) + (|values| - 1) * gap
  }

  predicate IsAu(n: int) {
    AU_MIN <= n <= AU_MAX
  }

  /** Adding the gap and then the value stays in the range of lengths. */
  predicate AddsAt(values: seq<int>, gap: int, k: nat)
    requires k < |values|
  {
    IsAu(Spread(values[..k], gap) + if k == 0 then 0 else gap) && IsAu(Spread(values[..k + 1], gap))
  }

  lemma SpreadStep(values: seq<int>, gap: int, k: nat)
    requires k < |values|
    ensures Spread(values[..k + 1], gap) == Spread(values[..k], gap) + (if k == 0 then 0 else gap) + values[k]
  {
    PrefixStep(values, k);
    if k > 0 {
      assert k * gap == (k - 1) * gap + gap;
    }
  }

  // ---- children ------------------------------------------------------------------------------

  function Child(w: Boxes, id: nat, k: nat): Box
    requires Closed(w) && id < |w.boxes| && k < |w.boxes[id].children|
  {
    w.boxes[w.boxes[id].children[k]]
  }

  /** The outer sizes of a box's children, all of which have one. */
  ghost predicate Outers(w: Boxes, id: nat, height: nat, outers: seq<Sizes>)
    requires Closed(w) && id < |w.boxes|
  {
    && |outers| == |w.boxes[id].children|
    && forall k :: 0 <= k < |outers| ==> Outer(w, w.boxes[id].children[k], height) == Ok(outers[k])
  }

  function Minima(outers: seq<Sizes>): (values: seq<int>)
    ensures |values| == |outers|
  {
    seq(|outers|, k requires 0 <= k < |outers| => outers[k].minimum)
  }

  function Preferences(outers: seq<Sizes>): (values: seq<int>)
    ensures |values| == |outers|
  {
    seq(|outers|, k requires 0 <= k < |outers| => outers[k].preferred)
  }

  /** What a box's content comes to once it is known: never negative, and an error if out of order. */
  function Checked(sizes: Sizes): Result<Sizes, SizeError> {
    if Max(sizes.minimum, 0) > Max(sizes.preferred, 0) then Err(OutOfOrder)
    else Ok(Sizes(Max(sizes.minimum, 0), Max(sizes.preferred, 0)))
  }

  // ---- block containers -----------------------------------------------------------------------

  /** As wide as the widest child, and never negative. */
  function Stacked(outers: seq<Sizes>): Sizes {
    Sizes(Largest(Minima(outers)), Largest(Preferences(outers)))
  }

  lemma StackedStep(outers: seq<Sizes>, i: nat)
    requires i < |outers|
    ensures Stacked(outers[..i + 1]) == Widest(Stacked(outers[..i]), outers[i])
  {
    assert Minima(outers[..i + 1])[..i] == Minima(outers[..i]);
    assert Preferences(outers[..i + 1])[..i] == Preferences(outers[..i]);
  }

  predicate AllBlockLevel(w: Boxes, id: nat)
    requires Closed(w) && id < |w.boxes|
  {
    forall k :: 0 <= k < |w.boxes[id].children| ==> BlockLevel(Child(w, id, k).kind)
  }

  lemma {:induction false} BlockRest(w: Boxes, id: nat, i: nat, height: nat, outers: seq<Sizes>)
    requires Closed(w) && id < |w.boxes| && i <= |w.boxes[id].children| && height > 0
    requires AllBlockLevel(w, id) && Outers(w, id, height - 1, outers)
    ensures BlockContent(w, id, i, Stacked(outers[..i]), height) == Ok(Stacked(outers))
    decreases |w.boxes[id].children| - i
  {
    if i == |w.boxes[id].children| {
      assert outers[..i] == outers;
    } else {
      assert BlockLevel(Child(w, id, i).kind) && Outer(w, w.boxes[id].children[i], height - 1) == Ok(outers[i]);
      hide Outer;
      hide Stacked;
      StackedStep(outers, i);
      BlockRest(w, id, i + 1, height, outers);
    }
  }

  /** A block container is as wide as the widest of its children, which are block-level and have sizes. */
  lemma BlockForm(w: Boxes, id: nat, height: nat, outers: seq<Sizes>)
    requires Closed(w) && id < |w.boxes| && height > 0
    requires w.boxes[id].supported && (w.boxes[id].kind.Block? || w.boxes[id].kind.InlineBlock?)
    requires AllBlockLevel(w, id) && Outers(w, id, height - 1, outers)
    ensures Content(w, id, height) == Checked(Stacked(outers))
  {
    BlockRest(w, id, 0, height, outers);
    assert outers[..0] == [];
    hide BlockContent;
    hide Outer;
  }

  lemma {:induction false} BlockChildren(w: Boxes, id: nat, i: nat, sizes: Sizes, height: nat)
    returns (outers: seq<Sizes>)
    requires Closed(w) && id < |w.boxes| && i <= |w.boxes[id].children| && height > 0
    requires BlockContent(w, id, i, sizes, height).Ok?
    ensures |outers| == |w.boxes[id].children| - i
    ensures forall k :: i <= k < |w.boxes[id].children| ==>
      BlockLevel(Child(w, id, k).kind) && Outer(w, w.boxes[id].children[k], height - 1) == Ok(outers[k - i])
    decreases |w.boxes[id].children| - i
  {
    outers := [];
    if i < |w.boxes[id].children| {
      hide Outer;
      var outer := Outer(w, w.boxes[id].children[i], height - 1).value;
      var rest := BlockChildren(w, id, i + 1, Widest(sizes, outer), height);
      outers := [outer] + rest;
    }
  }

  /** And only such children give it a size. */
  lemma BlockNeeds(w: Boxes, id: nat, height: nat) returns (outers: seq<Sizes>)
    requires Closed(w) && id < |w.boxes| && height > 0
    requires w.boxes[id].kind.Block? || w.boxes[id].kind.InlineBlock?
    requires Content(w, id, height).Ok?
    ensures w.boxes[id].supported && AllBlockLevel(w, id) && Outers(w, id, height - 1, outers)
  {
    hide Outer;
    hide BlockContent;
    outers := BlockChildren(w, id, 0, Sizes(0, 0), height);
  }

  // ---- flex containers ----------------------------------------------------------------------------

  /** The gap between items of a row; a negative gap counts as none. */
  function RowGap(style: Style): int {
    Max(style.mainGap, 0)
  }

  /** The items side by side with gaps, or the widest: in a column both sizes, in a wrapping row the minimum. */
  function Arranged(style: Style, outers: seq<Sizes>): Sizes {
    Sizes(if style.row && !style.wraps then Spread(Minima(outers), RowGap(style)) else Largest(Minima(outers)),
          if style.row then Spread(Preferences(outers), RowGap(style)) else Largest(Preferences(outers)))
  }

  predicate CanAdd(style: Style, outers: seq<Sizes>, k: nat)
    requires k < |outers|
  {
    && (style.row ==> AddsAt(Preferences(outers), RowGap(style), k))
    && (style.row && !style.wraps ==> AddsAt(Minima(outers), RowGap(style), k))
  }

  /** No sum that a row takes leaves the range of lengths. */
  predicate CanArrange(style: Style, outers: seq<Sizes>) {
    forall k :: 0 <= k < |outers| ==> CanAdd(style, outers, k)
  }

  /** One item more: it is taken exactly when its gap and its sizes can be added. */
  lemma OneMoreItem(style: Style, outers: seq<Sizes>, i: nat)
    requires i < |outers|
    ensures var next := FlexItem(style, Arranged(style, outers[..i]), outers[i], i == 0);
            && (next.Ok? <==> CanAdd(style, outers, i))
            && (next.Ok? ==> next.value == Arranged(style, outers[..i + 1]))
  {
    var minima, preferences := Minima(outers), Preferences(outers);
    assert Minima(outers[..i]) == minima[..i] && Minima(outers[..i + 1]) == minima[..i + 1];
    assert Preferences(outers[..i]) == preferences[..i] && Preferences(outers[..i + 1]) == preferences[..i + 1];
    PrefixStep(minima, i);
    PrefixStep(preferences, i);
    SpreadStep(minima, RowGap(style), i);
    SpreadStep(preferences, RowGap(style), i);
    hide Spread;
    hide Largest;
    hide Minima;
    hide Preferences;
  }

  predicate AllItems(w: Boxes, id: nat)
    requires Closed(w) && id < |w.boxes|
  {
    forall k :: 0 <= k < |w.boxes[id].children| ==>
      BlockLevel(Child(w, id, k).kind) && !AnyAuto(Child(w, id, k).style)
  }

  lemma {:induction false} FlexRest(w: Boxes, id: nat, i: nat, height: nat, outers: seq<Sizes>)
    requires Closed(w) && id < |w.boxes| && i <= |w.boxes[id].children| && height > 0
    requires AllItems(w, id) && Outers(w, id, height - 1, outers) && CanArrange(w.boxes[id].style, outers)
    ensures FlexContent(w, id, i, Arranged(w.boxes[id].style, outers[..i]), height)
         == Ok(Arranged(w.boxes[id].style, outers))
    decreases |w.boxes[id].children| - i
  {
    if i == |w.boxes[id].children| {
      assert outers[..i] == outers;
    } else {
      assert BlockLevel(Child(w, id, i).kind) && !AnyAuto(Child(w, id, i).style);
      assert Outer(w, w.boxes[id].children[i], height - 1) == Ok(outers[i]);
      assert CanAdd(w.boxes[id].style, outers, i);
      hide Outer;
      hide Arranged;
      hide CanAdd;
      hide FlexItem;
      OneMoreItem(w.boxes[id].style, outers, i);
      FlexRest(w, id, i + 1, height, outers);
    }
  }

  /** A flex container takes the sizes of its items, side by side or stacked, if they can be added up. */
  lemma FlexForm(w: Boxes, id: nat, height: nat, outers: seq<Sizes>)
    requires Closed(w) && id < |w.boxes| && height > 0 && w.boxes[id].supported && w.boxes[id].kind.Flex?
    requires AllItems(w, id) && Outers(w, id, height - 1, outers) && CanArrange(w.boxes[id].style, outers)
    ensures Content(w, id, height) == Checked(Arranged(w.boxes[id].style, outers))
  {
    FlexRest(w, id, 0, height, outers);
    assert outers[..0] == [];
    assert Arranged(w.boxes[id].style, []) == Sizes(0, 0);
    hide FlexContent;
    hide Outer;
    hide Arranged;
    hide CanAdd;
  }

  lemma {:induction false} FlexChildren(w: Boxes, id: nat, height: nat, done: seq<Sizes>)
    returns (outers: seq<Sizes>)
    requires Closed(w) && id < |w.boxes| && |done| <= |w.boxes[id].children| && height > 0
    requires forall k :: 0 <= k < |done| ==> Outer(w, w.boxes[id].children[k], height - 1) == Ok(done[k])
    requires FlexContent(w, id, |done|, Arranged(w.boxes[id].style, done), height).Ok?
    ensures Outers(w, id, height - 1, outers) && done <= outers
    ensures forall k :: |done| <= k < |outers| ==>
      && BlockLevel(Child(w, id, k).kind) && !AnyAuto(Child(w, id, k).style)
      && CanAdd(w.boxes[id].style, outers, k)
    decreases |w.boxes[id].children| - |done|
  {
    hide Outer;
    hide Arranged;
    hide CanAdd;
    hide FlexItem;
    outers := done;
    var i, style := |done|, w.boxes[id].style;
    if i < |w.boxes[id].children| {
      var outer := Outer(w, w.boxes[id].children[i], height - 1).value;
      var more := done + [outer];
      assert more[..i] == done && more[..i + 1] == more;
      OneMoreItem(style, more, i);
      outers := FlexChildren(w, id, height, more);
      CanAddLooksBack(style, more, outers, i);
      assert BlockLevel(Child(w, id, i).kind) && !AnyAuto(Child(w, id, i).style) && CanAdd(style, outers, i);
    }
  }

  lemma CanAddLooksBack(style: Style, some: seq<Sizes>, more: seq<Sizes>, k: nat)
    requires k < |some| && some <= more
    ensures CanAdd(style, some, k) <==> CanAdd(style, more, k)
  {
    assert Minima(more)[..k] == Minima(some)[..k] && Minima(more)[..k + 1] == Minima(some)[..k + 1];
    assert Preferences(more)[..k] == Preferences(some)[..k] && Preferences(more)[..k + 1] == Preferences(some)[..k + 1];
  }

  /** And only such children, with sums in range, give it a size. */
  lemma FlexNeeds(w: Boxes, id: nat, height: nat) returns (outers: seq<Sizes>)
    requires Closed(w) && id < |w.boxes| && height > 0 && w.boxes[id].kind.Flex? && Content(w, id, height).Ok?
    ensures w.boxes[id].supported && AllItems(w, id) && Outers(w, id, height - 1, outers)
    ensures CanArrange(w.boxes[id].style, outers)
  {
    assert Arranged(w.boxes[id].style, []) == Sizes(0, 0);
    hide Outer;
    hide FlexContent;
    hide Arranged;
    hide CanAdd;
    outers := FlexChildren(w, id, height, []);
  }

  // ---- widths ---------------------------------------------------------------------------------------

  /** A width without percentage: of the content box, or of the border box, which is never below border and padding. */
  lemma WidthForm(length: int, borderBox: bool, borderAndPadding: nat)
    requires length <= AU_MAX
    ensures var r := Definite(Some(Length(length, 0)), borderBox, borderAndPadding);
            && r.Ok? && r.value.Some?
            && (!borderBox ==> r.value.value == Max(length, 0))
            && (borderBox ==> r.value.value + borderAndPadding == Max(length, borderAndPadding))
  {
  }

  // ---- text -----------------------------------------------------------------------------------------

  function Word(run: string): seq<string> {
    if run == "" then [] else [run]
  }

  /** The words of a text that continues the word `run`. */
  function Words(run: string, data: string): seq<string>
    decreases |data|
  {
    if data == "" then Word(run)
    else if IsWhitespace(data[0]) then Word(run) + Words("", data[1..])
    else Words(run + [data[0]], data[1..])
  }

  function Widths(w: Boxes, id: nat, words: seq<string>): (widths: seq<int>)
    ensures |widths| == |words|
  {
    seq(|words|, i requires 0 <= i < |words| => w.measure(words[i], id))
  }

  /** No word, and no space, measures less than nothing, and all on one line stay in range. */
  predicate Measurable(w: Boxes, id: nat, words: seq<string>) {
    && 0 <= w.measure(" ", id)
    && (forall i :: 0 <= i < |words| ==> 0 <= w.measure(words[i], id))
    && Spread(Widths(w, id, words), w.measure(" ", id)) <= AU_MAX
  }

  lemma {:induction false} TotalGrows(values: seq<int>, more: seq<int>)
    requires forall i :: 0 <= i < |more| ==> 0 <= more[i]
    ensures Total(values + more) >= Total(values)
    decreases |more|
  {
    if more == [] {
      assert values + more == values;
    } else {
      var init := more[..|more| - 1];
      assert (values + more)[..|values + more| - 1] == values + init;
      TotalGrows(values, init);
    }
  }

  lemma SpreadGrows(values: seq<int>, more: seq<int>, gap: nat)
    requires forall i :: 0 <= i < |values| ==> 0 <= values[i]
    requires forall i :: 0 <= i < |more| ==> 0 <= more[i]
    ensures 0 <= Spread(values, gap) <= Spread(values + more, gap)
  {
    TotalGrows(values, more);
    TotalGrows([], values);
    assert [] + values == values;
    hide Total;
    GapsGrow(gap, |values|, |values + more|);
  }

  /** The first of several words that fit on one line fit as well. */
  lemma MeasurablePrefix(w: Boxes, id: nat, words: seq<string>, more: seq<string>)
    requires Measurable(w, id, words + more)
    ensures Measurable(w, id, words) && 0 <= Spread(Widths(w, id, words), w.measure(" ", id))
  {
    var all := words + more;
    assert Widths(w, id, all) == Widths(w, id, words) + Widths(w, id, more);
    hide Spread;
    forall i | 0 <= i < |words|
      ensures 0 <= w.measure(words[i], id)
    {
      assert words[i] == all[i];
    }
    forall i | 0 <= i < |more|
      ensures 0 <= w.measure(more[i], id)
    {
      assert more[i] == all[|words| + i];
    }
    SpreadGrows(Widths(w, id, words), Widths(w, id, more), w.measure(" ", id));
  }

  lemma GapsGrow(gap: nat, few: nat, many: nat)
    requires few <= many
    ensures few > 0 ==> 0 <= (few - 1) * gap <= (many - 1) * gap
    ensures many > 0 ==> 0 <= (many - 1) * gap
  {
    if few > 0 {
      assert (many - 1) * gap - (few - 1) * gap == (many - few) * gap;
    }
  }

  /** A line that holds exactly these words, with a space waiting or not. */
  predicate HoldsWords(w: Boxes, id: nat, s: LineState, words: seq<string>, soft: bool, open: bool) {
    var widths, gap := Widths(w, id, words), w.measure(" ", id);
    && s.sizes.preferred == 0 && s.currentPreferred == Spread(widths, gap)
    && s.hasContent == (words != []) && !s.previous.atomic
    && s.pending == (if !open || words == [] then NoSpace else if soft then SoftBreak else Unbreakable)
    && if words == [] then s.sizes.minimum == 0 && s.currentMinimum == 0
       else if soft
       then s.sizes.minimum == Largest(widths[..|words| - 1]) && s.currentMinimum == widths[|words| - 1]
       else s.sizes.minimum == 0 && s.currentMinimum == Spread(widths, gap)
  }

  lemma WordsLast(w: Boxes, id: nat, words: seq<string>, word: string)
    ensures var widths, gap := Widths(w, id, words), w.measure(" ", id);
            var more := Widths(w, id, words + [word]);
            && more[..|words|] == widths && more[|words|] == w.measure(word, id)
            && Spread(more, gap) == Spread(widths, gap) + (if words == [] then 0 else gap) + w.measure(word, id)
            && (words != [] ==> Largest(widths) == Max(Largest(widths[..|words| - 1]), widths[|words| - 1]))
  {
    var widths, gap := Widths(w, id, words), w.measure(" ", id);
    var more := Widths(w, id, words + [word]);
    assert more[..|words|] == widths && more[..|words| + 1] == more;
    SpreadStep(more, gap, |words|);
  }

  lemma AddWord(w: Boxes, id: nat, s: LineState, words: seq<string>, word: string, soft: bool, open: bool,
                ancestors: seq<nat>)
    requires HoldsWords(w, id, s, words, soft, open) && word != "" && (words != [] ==> open)
    requires Measurable(w, id, words + [word])
    ensures var r := AddRun(w, id, s, word, ancestors);
            r.Ok? && HoldsWords(w, id, r.value, words + [word], soft, false)
  {
    WordsLast(w, id, words, word);
    MeasurablePrefix(w, id, words, [word]);
    assert (words + [word])[|words|] == word && 0 <= w.measure(word, id);
    var widths, gap := Widths(w, id, words), w.measure(" ", id);
    if words != [] {
      assert 0 <= w.measure(words[|words| - 1], id) && 0 <= widths[|words| - 1];
    }
    hide Spread;
    hide Largest;
    hide Widths;
    hide CommonAncestor;
    assert AddRun(w, id, s, word, ancestors).Ok?;
  }

  lemma {:induction false} CollapsingHoldsWords(w: Boxes, id: nat, s: LineState, words: seq<string>, data: string,
                                                run: string, soft: bool, open: bool, ancestors: seq<nat>)
    returns (waits: bool)
    requires HoldsWords(w, id, s, words, soft, open) && (run != "" && words != [] ==> open)
    requires run == "" ==> (words != [] ==> open)
    requires Measurable(w, id, words + Words(run, data))
    ensures var r := Collapsing(w, id, s, data, run, soft, ancestors);
            r.Ok? && HoldsWords(w, id, r.value, words + Words(run, data), soft, waits)
    decreases |data|
  {
    hide HoldsWords;
    hide Measurable;
    waits := open;
    if data == "" {
      if run == "" {
        assert words + Words(run, data) == words;
      } else {
        AddWord(w, id, s, words, run, soft, open, ancestors);
        waits := false;
      }
    } else if IsWhitespace(data[0]) {
      var all := words + Word(run);
      assert words + Words(run, data) == all + Words("", data[1..]);
      var t := s;
      if run == "" {
        assert all == words;
      } else {
        MeasurablePrefix(w, id, all, Words("", data[1..]));
        AddWord(w, id, s, words, run, soft, open, ancestors);
        t := AddRun(w, id, s, run, ancestors).value;
        waits := false;
      }
      SpaceWaits(w, id, t, all, soft, waits);
      waits := CollapsingHoldsWords(w, id, WithSpace(t, soft), all, data[1..], "", soft, true, ancestors);
    } else {
      waits := CollapsingHoldsWords(w, id, s, words, data[1..], run + [data[0]], soft, open, ancestors);
    }
  }

  lemma SpaceWaits(w: Boxes, id: nat, s: LineState, words: seq<string>, soft: bool, open: bool)
    requires HoldsWords(w, id, s, words, soft, open)
    ensures HoldsWords(w, id, WithSpace(s, soft), words, soft, true)
  {
  }

  /**
   A text whose white space collapses: it prefers all its words on one line with a space between each two, and
   where lines may break it can be as narrow as its widest word.
   */
  lemma TextForm(w: Boxes, id: nat, height: nat)
    requires Closed(w) && id < |w.boxes| && height > 0 && w.boxes[id].kind.Text? && w.boxes[id].supported
    requires !AnyAuto(w.boxes[id].style) && w.boxes[id].text.Some? && !w.boxes[id].style.whiteSpace.Pre?
    requires Measurable(w, id, Words("", w.boxes[id].text.value))
    ensures var widths := Widths(w, id, Words("", w.boxes[id].text.value));
            var oneLine := Spread(widths, w.measure(" ", id));
            Content(w, id, height)
            == Ok(Sizes(if w.boxes[id].style.whiteSpace.NormalSpace? then Largest(widths) else oneLine, oneLine))
  {
    var data, soft := w.boxes[id].text.value, w.boxes[id].style.whiteSpace.NormalSpace?;
    var words := Words("", data);
    var widths := Widths(w, id, words);
    assert [] + words == words;
    assert HoldsWords(w, id, EMPTY_LINE, [], soft, true) by { assert Widths(w, id, []) == []; }
    var waits := CollapsingHoldsWords(w, id, EMPTY_LINE, [], data, "", soft, true, []);
    var line := Collapsing(w, id, EMPTY_LINE, data, "", soft, []).value;
    assert InlineContext(w, id, height).Ok? ==> InlineContext(w, id, height).value == ForceBreak(line).sizes;
    LargestIsLargest(widths);
    if words != [] {
      WordsLast(w, id, words, "");
      LineIsLonger(widths, w.measure(" ", id));
    }
    hide Collapsing;
    hide Largest;
    hide Spread;
    hide Widths;
    hide Words;
  }

  lemma {:induction false} LineIsLonger(values: seq<int>, gap: nat)
    requires forall i :: 0 <= i < |values| ==> 0 <= values[i]
    ensures 0 <= Largest(values) <= Spread(values, gap)
  {
    if values != [] {
      var init := values[..|values| - 1];
      LineIsLonger(init, gap);
      SpreadStep(values, gap, |init|);
      assert values[..|init| + 1] == values;
    }
  }

  // ---- preformatted text -----------------------------------------------------------------------

  /** The lines of a text, `run` being what came before on the first of them. */
  function Lines(run: string, data: string): seq<string>
    decreases |data|
  {
    if data == "" then [run]
    else if data[0] == '\n' then [run] + Lines("", data[1..])
    else Lines(run + [data[0]], data[1..])
  }

  /** An empty line is not measured. */
  function LineWidth(w: Boxes, id: nat, line: string): int {
    if line == "" then 0 else w.measure(line, id)
  }

  function LineWidths(w: Boxes, id: nat, lines: seq<string>): (widths: seq<int>)
    ensures |widths| == |lines|
  {
    seq(|lines|, i requires 0 <= i < |lines| => LineWidth(w, id, lines[i]))
  }

  predicate MeasurableLines(w: Boxes, id: nat, lines: seq<string>) {
    forall i :: 0 <= i < |lines| ==> 0 <= LineWidth(w, id, lines[i]) <= AU_MAX
  }

  /** At the start of a line, after others. */
  predicate AfterLines(w: Boxes, id: nat, s: LineState, lines: seq<string>) {
    var widest := Largest(LineWidths(w, id, lines));
    s == LineState(Sizes(widest, widest), 0, 0, false, NoSpace, NO_BOUNDARY)
  }

  lemma OneMoreLine(w: Boxes, id: nat, s: LineState, lines: seq<string>, line: string, ancestors: seq<nat>)
    requires AfterLines(w, id, s, lines) && 0 <= LineWidth(w, id, line) <= AU_MAX
    ensures AddRun(w, id, s, line, ancestors).Ok?
    ensures AfterLines(w, id, ForceBreak(AddRun(w, id, s, line, ancestors).value), lines + [line])
  {
    var widths := LineWidths(w, id, lines + [line]);
    assert widths[..|lines|] == LineWidths(w, id, lines) && widths[..|lines| + 1] == widths;
    PrefixStep(widths, |lines|);
    LargestIsLargest(LineWidths(w, id, lines));
  }

  lemma {:induction false} PreformattedHoldsLines(w: Boxes, id: nat, s: LineState, lines: seq<string>, data: string,
                                                  run: string, ancestors: seq<nat>)
    requires AfterLines(w, id, s, lines) && MeasurableLines(w, id, Lines(run, data))
    ensures var r := Preformatted(w, id, s, data, run, ancestors);
            r.Ok? && AfterLines(w, id, ForceBreak(r.value), lines + Lines(run, data))
    decreases |data|
  {
    hide AfterLines;
    if data == "" {
      assert Lines(run, data)[0] == run;
      OneMoreLine(w, id, s, lines, run, ancestors);
    } else if data[0] == '\n' {
      var rest := Lines("", data[1..]);
      assert Lines(run, data)[0] == run && Lines(run, data)[1..] == rest;
      OneMoreLine(w, id, s, lines, run, ancestors);
      var next := ForceBreak(AddRun(w, id, s, run, ancestors).value);
      PreformattedHoldsLines(w, id, next, lines + [run], data[1..], "", ancestors);
      assert lines + [run] + rest == lines + Lines(run, data);
    } else {
      PreformattedHoldsLines(w, id, s, lines, data[1..], run + [data[0]], ancestors);
    }
  }

  /** Preformatted text is as wide as its longest line, however narrow the box. */
  lemma PreformattedForm(w: Boxes, id: nat, height: nat)
    requires Closed(w) && id < |w.boxes| && height > 0 && w.boxes[id].kind.Text? && w.boxes[id].supported
    requires !AnyAuto(w.boxes[id].style) && w.boxes[id].text.Some? && w.boxes[id].style.whiteSpace.Pre?
    requires MeasurableLines(w, id, Lines("", w.boxes[id].text.value))
    ensures var widest := Largest(LineWidths(w, id, Lines("", w.boxes[id].text.value)));
            Content(w, id, height) == Ok(Sizes(widest, widest))
  {
    var data := w.boxes[id].text.value;
    var lines := Lines("", data);
    assert LineWidths(w, id, []) == [] && [] + lines == lines;
    PreformattedHoldsLines(w, id, EMPTY_LINE, [], data, "", []);
    var line := Preformatted(w, id, EMPTY_LINE, data, "", []).value;
    assert ForceBreak(line).sizes == Sizes(Largest(LineWidths(w, id, lines)), Largest(LineWidths(w, id, lines)));
    assert InlineContext(w, id, height) == Ok(ForceBreak(line).sizes);
    LargestIsLargest(LineWidths(w, id, lines));
    hide Preformatted;
    hide Largest;
    hide LineWidths;
    hide Lines;
  }

  // ---- a line of inline blocks -----------------------------------------------------------------

  predicate InOrder(sizes: Sizes) {
    0 <= sizes.minimum <= sizes.preferred
  }

  /** The outer sizes of children that are all inline blocks and together stay in range. */
  ghost predicate Atoms(w: Boxes, id: nat, height: nat, outers: seq<Sizes>)
    requires Closed(w) && id < |w.boxes|
  {
    && Outers(w, id, height, outers)
    && (forall k :: 0 <= k < |outers| ==> Child(w, id, k).kind.InlineBlock? && Child(w, id, k).supported)
    && (forall k :: 0 <= k < |outers| ==> InOrder(outers[k]))
    && Total(Preferences(outers)) <= AU_MAX
  }

  /** A line that holds the first i of them, between which it may break or not. */
  predicate HoldsAtoms(id: nat, s: LineState, outers: seq<Sizes>, i: nat, soft: bool)
    requires i <= |outers|
  {
    var minima := Minima(outers);
    && s.sizes.preferred == 0 && s.currentPreferred == Total(Preferences(outers)[..i])
    && s.hasContent == (i > 0) && s.pending.NoSpace?
    && s.previous == (if i > 0 then Boundary(true, true, [id]) else NO_BOUNDARY)
    && if i > 0 && soft then s.sizes.minimum == Largest(minima[..i - 1]) && s.currentMinimum == minima[i - 1]
       else s.sizes.minimum == 0 && s.currentMinimum == Total(minima[..i])
  }

  /** Sums of the first ones stay below the sum of all, and of minima below that of preferences. */
  lemma {:induction false} AtomTotals(outers: seq<Sizes>, i: nat)
    requires i <= |outers| && forall k :: 0 <= k < |outers| ==> InOrder(outers[k])
    ensures 0 <= Total(Minima(outers)[..i]) <= Total(Preferences(outers)[..i]) <= Total(Preferences(outers))
    decreases |outers| - i
  {
    var minima, preferences := Minima(outers), Preferences(outers);
    if i < |outers| {
      AtomTotals(outers, i + 1);
      PrefixStep(minima, i);
      PrefixStep(preferences, i);
    } else {
      assert preferences[..i] == preferences;
    }
    AtomTotalsUp(outers, i);
  }

  lemma {:induction false} AtomTotalsUp(outers: seq<Sizes>, i: nat)
    requires i <= |outers| && forall k :: 0 <= k < |outers| ==> InOrder(outers[k])
    ensures 0 <= Total(Minima(outers)[..i]) <= Total(Preferences(outers)[..i])
  {
    if i > 0 {
      AtomTotalsUp(outers, i - 1);
      PrefixStep(Minima(outers), i - 1);
      PrefixStep(Preferences(outers), i - 1);
    }
  }

  lemma OneMoreAtom(w: Boxes, id: nat, child: nat, s: LineState, outers: seq<Sizes>, i: nat)
    requires id < |w.boxes| && i < |outers| && (forall k :: 0 <= k < |outers| ==> InOrder(outers[k]))
    requires Total(Preferences(outers)) <= AU_MAX
    requires HoldsAtoms(id, s, outers, i, w.boxes[id].style.whiteSpace.NormalSpace?)
    ensures var r := AddVisible(w, child, s, outers[i], [id], true);
            r.Ok? && HoldsAtoms(id, r.value, outers, i + 1, w.boxes[id].style.whiteSpace.NormalSpace?)
  {
    AtomTotals(outers, i);
    AtomTotals(outers, i + 1);
    PrefixStep(Minima(outers), i);
    PrefixStep(Preferences(outers), i);
    if i > 0 {
      PrefixStep(Minima(outers), i - 1);
      assert CommonAncestor([id], [id]) == Some(id);
    }
    hide Total;
    hide Largest;
    hide CommonAncestor;
  }

  lemma AtomMeasures(w: Boxes, id: nat, height: nat, outers: seq<Sizes>, s: LineState, i: nat)
    requires Closed(w) && id < |w.boxes| && height > 0 && Atoms(w, id, height, outers) && i < |outers|
    ensures MeasureBox(w, w.boxes[id].children[i], s, [id], height)
         == AddVisible(w, w.boxes[id].children[i], s, outers[i], [id], true)
  {
    hide AddVisible;
    hide Outer;
    var child := w.boxes[id].children[i];
    assert w.boxes[child] == Child(w, id, i) && Outer(w, child, height) == Ok(outers[i]);
  }

  lemma {:induction false} AtomsHeld(w: Boxes, id: nat, height: nat, outers: seq<Sizes>, s: LineState, i: nat)
    requires Closed(w) && id < |w.boxes| && height > 0 && Atoms(w, id, height, outers) && i <= |outers|
    requires HoldsAtoms(id, s, outers, i, w.boxes[id].style.whiteSpace.NormalSpace?)
    ensures var r := MeasureChildren(w, id, i, s, [id], height);
            r.Ok? && HoldsAtoms(id, r.value, outers, |outers|, w.boxes[id].style.whiteSpace.NormalSpace?)
    decreases |outers| - i
  {
    hide HoldsAtoms;
    hide MeasureBox;
    if i < |outers| {
      AtomMeasures(w, id, height, outers, s, i);
      OneMoreAtom(w, id, w.boxes[id].children[i], s, outers, i);
      var next := MeasureBox(w, w.boxes[id].children[i], s, [id], height).value;
      AtomsHeld(w, id, height, outers, next, i + 1);
    }
  }

  /** What the line comes to when it ends. */
  lemma AtomsEnd(id: nat, s: LineState, outers: seq<Sizes>, soft: bool)
    requires HoldsAtoms(id, s, outers, |outers|, soft) && forall k :: 0 <= k < |outers| ==> InOrder(outers[k])
    ensures var minima := Minima(outers);
            var sizes := Sizes(if soft then Largest(minima) else Total(minima), Total(Preferences(outers)));
            ForceBreak(s).sizes == sizes && InOrder(sizes)
  {
    var n, minima, preferences := |outers|, Minima(outers), Preferences(outers);
    assert minima[..n] == minima && preferences[..n] == preferences;
    AtomTotals(outers, n);
    LargestIsLargest(minima);
    LargestBelowTotal(minima);
    if n > 0 {
      PrefixStep(minima, n - 1);
      LargestIsLargest(minima[..n - 1]);
    }
  }

  lemma {:induction false} LargestBelowTotal(values: seq<int>)
    requires forall i :: 0 <= i < |values| ==> 0 <= values[i]
    ensures Largest(values) <= Total(values) && 0 <= Total(values)
  {
    if values != [] {
      LargestBelowTotal(values[..|values| - 1]);
    }
  }

  /**
   A line of inline blocks prefers them side by side; where it may break between them it is as narrow as the widest
   minimum, and elsewhere as narrow as all minima side by side.
   */
  lemma AtomsForm(w: Boxes, id: nat, height: nat, outers: seq<Sizes>)
    requires Closed(w) && id < |w.boxes| && height > 1 && w.boxes[id].supported
    requires (w.boxes[id].kind.Inline? || w.boxes[id].kind.AnonymousBlock?) && Atoms(w, id, height - 1, outers)
    ensures var minima := Minima(outers);
            var narrow := if w.boxes[id].style.whiteSpace.NormalSpace? then Largest(minima) else Total(minima);
            Content(w, id, height) == Ok(Sizes(narrow, Total(Preferences(outers))))
  {
    var soft := w.boxes[id].style.whiteSpace.NormalSpace?;
    assert HoldsAtoms(id, EMPTY_LINE, outers, 0, soft);
    AtomsHeld(w, id, height - 1, outers, EMPTY_LINE, 0);
    var line := MeasureChildren(w, id, 0, EMPTY_LINE, [id], height - 1).value;
    AtomsEnd(id, line, outers, soft);
    hide MeasureChildren;
    hide HoldsAtoms;
    hide Total;
    hide Largest;
    assert InlineContext(w, id, height) == Ok(ForceBreak(line).sizes);
  }

  // ---- around the content ----------------------------------------------------------------------

  /** The value nearest to `used` within the limits; of limits that cross, the lower. */
  predicate KeptWithin(used: int, low: Option<int>, high: Option<int>, r: int) {
    if low.Some? && high.Some? && low.value > high.value then r == low.value
    else
      && (low.Some? ==> low.value <= r) && (high.Some? ==> r <= high.value)
      && ((low.Some? ==> low.value <= used) && (high.Some? ==> used <= high.value) ==> r == used)
      && (low.Some? && used < low.value ==> r == low.value) && (high.Some? && used > high.value ==> r == high.value)
  }

  function Edges(style: Style): int {
    style.borderLeft + style.paddingLeft + style.paddingRight + style.borderRight
  }

  function Margins(style: Style): int {
    (if style.autoLeft then 0 else style.marginLeft) + if style.autoRight then 0 else style.marginRight
  }

  /** A box's outer size: its width, or else its content, within its limits, plus border, padding and margins. */
  lemma OuterForm(w: Boxes, id: nat, height: nat)
    requires Closed(w) && id < |w.boxes| && Outer(w, id, height).Ok?
    ensures var style, outer := w.boxes[id].style, Outer(w, id, height).value;
            var width := Definite(style.width, style.borderBox, Edges(style));
            var low := Definite(style.minWidth, style.borderBox, Edges(style));
            var high := Definite(style.maxWidth, style.borderBox, Edges(style));
            && width.Ok? && low.Ok? && high.Ok? && (width.value.None? ==> Content(w, id, height).Ok?)
            && var content := if width.value.Some? then Sizes(width.value.value, width.value.value)
                              else Content(w, id, height).value;
               var around := Edges(style) + Margins(style);
               && KeptWithin(content.minimum, low.value, high.value, outer.minimum - around)
               && KeptWithin(content.preferred, low.value, high.value, outer.preferred - around)
               && outer.minimum <= outer.preferred
  {
    hide Content;
    hide Definite;
  }
}
