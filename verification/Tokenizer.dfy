/**
 The incremental tokenizer as a step function over its pending input, and the
 theorem that the way input is cut into chunks cannot be observed.
 */
module Tokenizer {
  import opened Outcomes
  import opened Ascii
  import opened TokenizerText
  import opened TokenizerMarkup

  datatype Mode = DataMode | RawTextMode(endTag: string) | RcDataMode(endTag: string) | PlainTextMode

  datatype Limits = Limits(maxTokenBytes: nat, maxAttributes: nat)

  datatype SpannedToken = SpannedToken(token: Token, span: Span)

  datatype State = State(pending: string, position: Position, mode: Mode)

  /** Either more input is needed, or something was consumed (or a text mode was left). */
  datatype Outcome = Wait | Go(next: State, tokens: seq<SpannedToken>, errors: seq<ParseError>)

  // ---- searches in the pending input ---------------------------------------------------

  function Find(s: string, pattern: string, from: nat): (r: Option<nat>)
    ensures r.Some? ==> from <= r.value && r.value + |pattern| <= |s|
    decreases |s| - from
  {
    if from + |pattern| > |s| then None
    else if s[from..from + |pattern|] == pattern then Some(from)
    else if from == |s| then None
    else Find(s, pattern, from + 1)
  }

  /** The closing ">" of a tag: the first one outside quotes. */
  function TagEnd(s: string, from: nat, quote: Option<char>): (r: Option<nat>)
    ensures r.Some? ==> from <= r.value < |s|
    decreases |s| - from
  {
    if from >= |s| then None
    else if quote.Some? then TagEnd(s, from + 1, if s[from] == quote.value then None else quote)
    else if s[from] == '\'' || s[from] == '"' then TagEnd(s, from + 1, Some(s[from]))
    else if s[from] == '>' then Some(from)
    else TagEnd(s, from + 1, None)
  }

  predicate IsEndTagAt(s: string, i: nat, tag: string) {
    && i + 2 + |tag| < |s|
    && s[i] == '<' && s[i + 1] == '/'
    && LowerAll(s[i + 2..i + 2 + |tag|]) == LowerAll(tag)
    && (IsWhitespace(s[i + 2 + |tag|]) || s[i + 2 + |tag|] == '/' || s[i + 2 + |tag|] == '>')
  }

  /** The first place from which an appropriate end tag can be read. */
  function FindEndTag(s: string, tag: string, from: nat): (r: Option<nat>)
    ensures r.Some? ==> from <= r.value < |s| && IsEndTagAt(s, r.value, tag)
    ensures forall i :: from <= i && (r.None? || i < r.value) ==> !IsEndTagAt(s, i, tag)
    decreases |s| - from
  {
    if from >= |s| then None
    else if IsEndTagAt(s, from, tag) then Some(from)
    else FindEndTag(s, tag, from + 1)
  }

  predicate IsPrefixIgnoringCase(s: string, target: string) {
    |s| <= |target| && LowerAll(s) == LowerAll(target[..|s|])
  }

  // ---- one step -----------------------------------------------------------------------------

  function Consumed(st: State, n: nat): State
    requires n <= |st.pending|
  {
    State(st.pending[n..], Advance(st.position, st.pending[..n]), st.mode)
  }

  function SpanOf(st: State, n: nat): Span
    requires n <= |st.pending|
  {
    Span(st.position, Advance(st.position, st.pending[..n]))
  }

  function EmitCharacters(st: State, n: nat, kind: TextKind): (out: Outcome)
    requires n <= |st.pending|
    ensures out.Go? && out.next == Consumed(st, n)
  {
    var text := TextOf(st.pending[..n], st.position, kind);
    var tokens := if text.data == [] then [] else [SpannedToken(Character(text.data), SpanOf(st, n))];
    Go(Consumed(st, n), tokens, text.errors)
  }

  function EmitLiteral(st: State): Outcome
    requires |st.pending| > 0
  {
    Go(Consumed(st, 1), [SpannedToken(Character(st.pending[..1]), SpanOf(st, 1))],
       [ParseError(TokenLimitExceeded, st.position)])
  }

  function TextModeFor(name: string): Mode {
    if name in {"script", "style", "xmp", "iframe", "noembed", "noframes"} then RawTextMode(name)
    else if name in {"title", "textarea"} then RcDataMode(name)
    else if name == "plaintext" then PlainTextMode
    else DataMode
  }

  function StepText(st: State, eof: bool): Outcome
    requires st.mode != DataMode && st.pending != []
  {
    var p := st.pending;
    if st.mode == PlainTextMode then
      var length := if eof then |p| else SafeTextPrefix(p, false);
      if length == 0 then Wait else EmitCharacters(st, length, Raw)
    else
      var kind := if st.mode.RcDataMode? then Decoded else Raw;
      var found := FindEndTag(p, st.mode.endTag, 0);
      if found.Some? then
        if found.value == 0 then Go(st.(mode := DataMode), [], []) else EmitCharacters(st, found.value, kind)
      else if eof then EmitCharacters(st, |p|, kind)
      else
        var length := HeldBackLength(p, st.mode);
        if length == 0 then Wait else EmitCharacters(st, length, kind)
  }

  /** How much text may be emitted while an end tag could still begin in what is kept back. */
  function HeldBackLength(p: string, mode: Mode): (length: nat)
    requires mode.RawTextMode? || mode.RcDataMode?
    ensures length <= |p| && (length > 0 ==> length + |mode.endTag| + 4 <= |p|)
  {
    var retain := |mode.endTag| + 4;
    if |p| <= retain then 0
    else
      var length := |p| - retain;
      var safe := if mode.RcDataMode? then SafeTextPrefix(p[..length], true) else length;
      if safe > 0 && p[safe - 1] == '\r' then safe - 1 else safe
  }

  function StepData(st: State, eof: bool, limits: Limits): Outcome
    requires st.pending != []
  {
    var p := st.pending;
    if p[0] != '<' then
      var less := Find(p, "<", 0);
      var length := if less.Some? then less.value else if eof then |p| else SafeTextPrefix(p, true);
      if length == 0 then Wait else EmitCharacters(st, length, Decoded)
    else if |p| == 1 && !eof then Wait
    else if IsPrefixIgnoringCase(p, "<!--") && |p| < 4 && !eof then Wait
    else if "<!--" <= p then StepComment(st, eof, limits)
    else if IsPrefixIgnoringCase(p, "<!doctype") && |p| < 9 && !eof then Wait
    else if StartsWithIgnoringCase(p, "<!doctype") || "</" <= p || (|p| > 1 && IsAlpha(p[1])) then
      StepTag(st, eof, limits)
    else if "<!" <= p || "<?" <= p then StepBogusComment(st, eof, limits)
    else
      var emitted := EmitCharacters(st, 1, Raw);
      Go(emitted.next, emitted.tokens, [ParseError(InvalidFirstCharacterOfTagName, st.position)] + emitted.errors)
  }

  function StepComment(st: State, eof: bool, limits: Limits): Outcome
    requires |st.pending| >= 4
  {
    var p := st.pending;
    var close := Find(p, "-->", 4);
    if close.None? && !eof then if |p| <= limits.maxTokenBytes then Wait else EmitLiteral(st)
    else
      var contentEnd := if close.Some? then close.value else |p|;
      var length := if close.Some? then close.value + 3 else |p|;
      Go(Consumed(st, length), [SpannedToken(Comment(NormalizeNewlines(p[4..contentEnd])), SpanOf(st, length))],
         ErrorWhen(close.None?, ParseError(EofInComment, st.position)))
  }

  function StepBogusComment(st: State, eof: bool, limits: Limits): Outcome
    requires |st.pending| >= 2
  {
    var p := st.pending;
    var close := Find(p, ">", 0);
    if close.None? && !eof then if |p| <= limits.maxTokenBytes then Wait else EmitLiteral(st)
    else
      var length := if close.Some? then close.value + 1 else |p|;
      var contentEnd := if p[length - 1] == '>' then length - 1 else length;
      var content := if 2 <= contentEnd then p[2..contentEnd] else [];
      Go(Consumed(st, length), [SpannedToken(Comment(NormalizeNewlines(content)), SpanOf(st, length))],
         [ParseError(IncorrectlyOpenedComment, st.position)])
  }

  /** A doctype, end tag or start tag: read once its closing ">" has arrived. */
  function StepTag(st: State, eof: bool, limits: Limits): Outcome
    requires |st.pending| >= 2
  {
    var p := st.pending;
    var close := TagEnd(p, 1, None);
    if close.None? then
      if eof then Go(Consumed(st, |p|), [], [ParseError(EofInTag, st.position)])
      else if |p| <= limits.maxTokenBytes then Wait
      else Go(Consumed(st, 1), [], [ParseError(TokenLimitExceeded, st.position)])
    else
      var length := close.value + 1;
      var source := p[..length];
      var markup :=
        if StartsWithIgnoringCase(source, "<!doctype") then ReadDoctype(source, st.position)
        else if "</" <= source then ReadEndTag(source, st.position)
        else ReadStartTag(source, st.position, limits.maxAttributes);
      var next := Consumed(st, length);
      var mode :=
        if markup.token.Some? && markup.token.value.StartTag? && !markup.token.value.selfClosing
        then TextModeFor(markup.token.value.name) else st.mode;
      Go(next.(mode := mode), if markup.token.Some? then [SpannedToken(markup.token.value, SpanOf(st, length))]
          else [], markup.errors)
  }

  function Step(st: State, eof: bool, limits: Limits): Outcome
    requires st.pending != []
  {
    if st.mode == DataMode then StepData(st, eof, limits) else StepText(st, eof)
  }

  // ---- tokens that outgrow the limit --------------------------------------------------------------

  /** Markup has begun, it is clear which, and its end has not arrived. */
  predicate Unclosed(p: string) {
    && |p| >= 2 && p[0] == '<'
    && !(IsPrefixIgnoringCase(p, "<!--") && |p| < 4)
    && if "<!--" <= p then Find(p, "-->", 4).None?
       else if IsPrefixIgnoringCase(p, "<!doctype") && |p| < 9 then false
       else if StartsWithIgnoringCase(p, "<!doctype") || "</" <= p || IsAlpha(p[1]) then TagEnd(p, 1, None).None?
       else ("<!" <= p || "<?" <= p) && Find(p, ">", 0).None?
  }

  /** More of one unclosed tag, comment or doctype is held than the limit allows. */
  predicate Outgrown(st: State, limits: Limits) {
    st.mode == DataMode && |st.pending| > limits.maxTokenBytes && Unclosed(st.pending)
  }

  // ---- draining ---------------------------------------------------------------------------------

  function Measure(st: State): nat {
    2 * |st.pending| + if st.mode == DataMode then 0 else 1
  }

  predicate Progresses(st: State, out: Outcome) {
    out.Go? ==> Measure(out.next) < Measure(st) && |out.next.pending| <= |st.pending|
  }

  lemma TextProgress(st: State, eof: bool)
    requires st.pending != [] && st.mode != DataMode
    ensures Progresses(st, StepText(st, eof))
  {
    hide FindEndTag;
    hide SafeTextPrefix;
    hide HeldBackLength;
    hide TextOf;
    hide Advance;
    assert Progresses(st, StepText(st, eof));
  }

  lemma TagProgress(st: State, eof: bool, limits: Limits)
    requires |st.pending| >= 2 && st.mode == DataMode
    ensures Progresses(st, StepTag(st, eof, limits))
    ensures Progresses(st, StepBogusComment(st, eof, limits))
    ensures |st.pending| >= 4 ==> Progresses(st, StepComment(st, eof, limits))
  {
    hide TagEnd;
    hide ReadDoctype;
    hide ReadEndTag;
    hide ReadStartTag;
    hide StartsWithIgnoringCase;
    hide Find;
    hide Advance;
    assert Progresses(st, StepTag(st, eof, limits));
    assert Progresses(st, StepBogusComment(st, eof, limits));
    assert |st.pending| >= 4 ==> Progresses(st, StepComment(st, eof, limits));
  }

  lemma DataProgress(st: State, eof: bool, limits: Limits)
    requires st.pending != [] && st.mode == DataMode
    ensures Progresses(st, StepData(st, eof, limits))
  {
    if |st.pending| >= 2 {
      TagProgress(st, eof, limits);
    }
    hide StepTag;
    hide StepComment;
    hide StepBogusComment;
    hide Find;
    hide SafeTextPrefix;
    hide TextOf;
    hide Advance;
    assert Progresses(st, StepData(st, eof, limits));
  }

  lemma StepProgress(st: State, eof: bool, limits: Limits)
    requires st.pending != []
    ensures Step(st, eof, limits).Go? ==>
      && Measure(Step(st, eof, limits).next) < Measure(st)
      && |Step(st, eof, limits).next.pending| <= |st.pending|
  {
    if st.mode == DataMode {
      DataProgress(st, eof, limits);
    } else {
      TextProgress(st, eof);
    }
    hide StepData;
    hide StepText;
    assert Progresses(st, Step(st, eof, limits));
  }

  datatype Output = Output(state: State, tokens: seq<SpannedToken>, errors: seq<ParseError>)

  function Before(tokens: seq<SpannedToken>, errors: seq<ParseError>, rest: Output): Output {
    Output(rest.state, tokens + rest.tokens, errors + rest.errors)
  }

  /** Steps until the input is used up or more is needed. */
  function Drain(st: State, eof: bool, limits: Limits): (out: Output)
    ensures |out.state.pending| <= |st.pending|
    decreases Measure(st)
  {
    if st.pending == [] then Output(st, [], [])
    else
      StepProgress(st, eof, limits);
      match Step(st, eof, limits)
      case Wait => Output(st, [], [])
      case Go(next, tokens, errors) => Before(tokens, errors, Drain(next, eof, limits))
  }

  /** No token outgrows the limit while what has arrived is drained. */
  predicate DrainFits(st: State, limits: Limits)
    decreases Measure(st)
  {
    st.pending == [] ||
    (!Outgrown(st, limits) &&
     (StepProgress(st, false, limits);
      match Step(st, false, limits)
      case Wait => true
      case Go(next, _, _) => DrainFits(next, limits)))
  }

  function Feed(st: State, chunk: string, limits: Limits): (out: Output)
    ensures |out.state.pending| <= |st.pending| + |chunk|
  {
    Drain(st.(pending := st.pending + chunk), false, limits)
  }

  function FeedAll(st: State, chunks: seq<string>, limits: Limits): Output
    decreases |chunks|
  {
    if chunks == [] then Output(st, [], [])
    else
      var first := Feed(st, chunks[0], limits);
      Before(first.tokens, first.errors, FeedAll(first.state, chunks[1..], limits))
  }

  /** No token outgrows the limit while the chunks arrive. */
  predicate Fits(st: State, chunks: seq<string>, limits: Limits)
    decreases |chunks|
  {
    chunks != [] ==>
      DrainFits(At(st, chunks[0]), limits) && Fits(Feed(st, chunks[0], limits).state, chunks[1..], limits)
  }

  /** Feeding the chunks and then finishing. */
  function Tokenize(st: State, chunks: seq<string>, limits: Limits): Output {
    var fed := FeedAll(st, chunks, limits);
    Before(fed.tokens, fed.errors, Drain(fed.state, true, limits))
  }

  function Concat(chunks: seq<string>): string {
    if chunks == [] then [] else chunks[0] + Concat(chunks[1..])
  }

  // ---- adjacent character tokens count as one ---------------------------------------------------

  function Append(tokens: seq<SpannedToken>, t: SpannedToken): seq<SpannedToken> {
    if tokens != [] && t.token.Character? && tokens[|tokens| - 1].token.Character? then
      var last := tokens[|tokens| - 1];
      var merged := SpannedToken(Character(last.token.data + t.token.data), Span(last.span.start, t.span.end));
      tokens[..|tokens| - 1] + [merged]
    else tokens + [t]
  }

  /** Appends tokens one by one, joining a character token to a character token before it. */
  function Coalesce(onto: seq<SpannedToken>, tokens: seq<SpannedToken>): seq<SpannedToken>
    decreases |tokens|
  {
    if tokens == [] then onto else Coalesce(Append(onto, tokens[0]), tokens[1..])
  }

  lemma {:induction false} CoalesceConcat(onto: seq<SpannedToken>, a: seq<SpannedToken>, b: seq<SpannedToken>)
    ensures Coalesce(onto, a + b) == Coalesce(Coalesce(onto, a), b)
    decreases |a|
  {
    if a == [] {
      assert a + b == b;
    } else {
      assert (a + b)[1..] == a[1..] + b;
      CoalesceConcat(Append(onto, a[0]), a[1..], b);
    }
  }

  /** Two character tokens in a row join to the token of their joined text. */
  lemma CharactersJoin(onto: seq<SpannedToken>, a: string, b: string, start: Position, middle: Position, end: Position)
    ensures Append(Append(onto, SpannedToken(Character(a), Span(start, middle))),
                   SpannedToken(Character(b), Span(middle, end)))
         == Append(onto, SpannedToken(Character(a + b), Span(start, end)))
  {
    var first := Append(onto, SpannedToken(Character(a), Span(start, middle)));
    if onto != [] && onto[|onto| - 1].token.Character? {
      var before := onto[|onto| - 1].token.data;
      assert before + a + b == before + (a + b);
      assert first[..|first| - 1] == onto[..|onto| - 1];
    } else {
      assert first[..|first| - 1] == onto;
    }
  }

  /** Two outputs a reader cannot tell apart: same errors, same end, same tokens once characters are joined. */
  ghost predicate Same(a: Output, b: Output) {
    && a.errors == b.errors && a.state == b.state
    && forall onto: seq<SpannedToken> :: Coalesce(onto, a.tokens) == Coalesce(onto, b.tokens)
  }

  lemma SameAfter(tokens: seq<SpannedToken>, errors: seq<ParseError>, a: Output, b: Output)
    requires Same(a, b)
    ensures Same(Before(tokens, errors, a), Before(tokens, errors, b))
  {
    forall onto: seq<SpannedToken>
      ensures Coalesce(onto, tokens + a.tokens) == Coalesce(onto, tokens + b.tokens)
    {
      CoalesceConcat(onto, tokens, a.tokens);
      CoalesceConcat(onto, tokens, b.tokens);
    }
  }

  lemma BeforeTwice(t: seq<SpannedToken>, e: seq<ParseError>, t': seq<SpannedToken>, e': seq<ParseError>, out: Output)
    ensures Before(t, e, Before(t', e', out)) == Before(t + t', e + e', out)
  {
    assert t + (t' + out.tokens) == t + t' + out.tokens;
    assert e + (e' + out.errors) == e + e' + out.errors;
  }

  // ---- what has been found stays found -----------------------------------------------------------

  lemma {:induction false} FindExtends(s: string, more: string, pattern: string, from: nat)
    requires pattern != [] && Find(s, pattern, from).Some?
    ensures Find(s + more, pattern, from) == Find(s, pattern, from)
    decreases |s| - from
  {
    assert (s + more)[from..from + |pattern|] == s[from..from + |pattern|];
    if s[from..from + |pattern|] != pattern {
      FindExtends(s, more, pattern, from + 1);
    }
  }

  lemma {:induction false} TagEndExtends(s: string, more: string, from: nat, quote: Option<char>)
    requires TagEnd(s, from, quote).Some?
    ensures TagEnd(s + more, from, quote) == TagEnd(s, from, quote)
    decreases |s| - from
  {
    assert (s + more)[from] == s[from];
    if quote.Some? {
      TagEndExtends(s, more, from + 1, if s[from] == quote.value then None else quote);
    } else if s[from] == '\'' || s[from] == '"' {
      TagEndExtends(s, more, from + 1, Some(s[from]));
    } else if s[from] != '>' {
      TagEndExtends(s, more, from + 1, None);
    }
  }

  /** An end tag is recognised from the characters up to its terminator, whatever follows. */
  lemma EndTagExtends(s: string, more: string, i: nat, tag: string)
    requires i + 2 + |tag| < |s|
    ensures IsEndTagAt(s + more, i, tag) == IsEndTagAt(s, i, tag)
  {
    assert (s + more)[i + 2..i + 2 + |tag|] == s[i + 2..i + 2 + |tag|];
  }

  lemma EndTagShifts(s: string, k: nat, i: nat, tag: string)
    requires k <= i && k <= |s|
    ensures IsEndTagAt(s[k..], i - k, tag) == IsEndTagAt(s, i, tag)
  {
    if i + 2 + |tag| < |s| {
      assert s[k..][i - k + 2..i - k + 2 + |tag|] == s[i + 2..i + 2 + |tag|];
    }
  }

  lemma FindEndTagExtends(s: string, more: string, tag: string)
    requires FindEndTag(s, tag, 0).Some?
    ensures FindEndTag(s + more, tag, 0) == FindEndTag(s, tag, 0)
  {
    var i := FindEndTag(s, tag, 0).value;
    EndTagExtends(s, more, i, tag);
    var found := FindEndTag(s + more, tag, 0);
    assert found.Some? && found.value <= i;
    EndTagExtends(s, more, found.value, tag);
  }

  /** Searching from a place before the first end tag finds the same end tag. */
  lemma FindEndTagShifts(s: string, k: nat, tag: string)
    requires k <= |s| && (FindEndTag(s, tag, 0).Some? ==> k <= FindEndTag(s, tag, 0).value)
    ensures FindEndTag(s[k..], tag, 0) ==
      if FindEndTag(s, tag, 0).Some? then Some(FindEndTag(s, tag, 0).value - k) else None
  {
    var whole, tail := FindEndTag(s, tag, 0), FindEndTag(s[k..], tag, 0);
    if whole.Some? { EndTagShifts(s, k, whole.value, tag); }
    if tail.Some? { EndTagShifts(s, k, k + tail.value, tag); }
  }

  /** Text released from a text mode lies before any end tag that later input could complete. */
  lemma ReleasedBeforeEndTag(p: string, more: string, mode: Mode)
    requires mode.RawTextMode? || mode.RcDataMode?
    requires FindEndTag(p, mode.endTag, 0).None?
    ensures var found := FindEndTag(p + more, mode.endTag, 0); found.Some? ==> HeldBackLength(p, mode) <= found.value
  {
    var found := FindEndTag(p + more, mode.endTag, 0);
    if found.Some? && found.value < HeldBackLength(p, mode) {
      EndTagExtends(p, more, found.value, mode.endTag);
    }
  }

  // ---- text cut in two reads the same ------------------------------------------------------------

  function At(st: State, more: string): State {
    st.(pending := st.pending + more)
  }

  /** Emitting a run of text at once, or in two pieces cut at a safe place. */
  lemma TextInTwoPieces(st: State, k: nat, end: nat, kind: TextKind, rest: Output)
    requires 0 < k < end <= |st.pending|
    requires SafeCut(st.pending[..k], st.pending[k..end], kind)
    ensures var whole := EmitCharacters(st, end, kind);
            var first := EmitCharacters(st, k, kind);
            var second := EmitCharacters(first.next, end - k, kind);
            && whole.next == second.next
            && Same(Before(whole.tokens, whole.errors, rest),
                    Before(first.tokens, first.errors, Before(second.tokens, second.errors, rest)))
  {
    var x, y := st.pending[..k], st.pending[k..end];
    assert x + y == st.pending[..end];
    var whole, first := EmitCharacters(st, end, kind), EmitCharacters(st, k, kind);
    assert first.next.pending[..end - k] == y;
    assert first.next.pending[end - k..] == st.pending[end..];
    var second := EmitCharacters(first.next, end - k, kind);
    TextSplits(x, y, st.position, kind);
    AdvanceSplit(st.position, x, y);
    TextIsNotEmpty(x, st.position, kind);
    TextIsNotEmpty(y, first.next.position, kind);
    hide TextOf;
    hide Advance;
    hide SafeCut;
    BeforeTwice(first.tokens, first.errors, second.tokens, second.errors, rest);
    forall onto: seq<SpannedToken>
      ensures Coalesce(onto, whole.tokens + rest.tokens) == Coalesce(onto, first.tokens + second.tokens + rest.tokens)
    {
      var a, b := TextOf(x, st.position, kind), TextOf(y, first.next.position, kind);
      PiecesCoalesce(onto, a.data, b.data, st.position, first.next.position, second.next.position, rest.tokens);
    }
  }

  lemma PiecesCoalesce(onto: seq<SpannedToken>, a: string, b: string, start: Position, middle: Position,
                       end: Position, rest: seq<SpannedToken>)
    ensures Coalesce(onto, [SpannedToken(Character(a + b), Span(start, end))] + rest)
         == Coalesce(onto, [SpannedToken(Character(a), Span(start, middle))]
             + [SpannedToken(Character(b), Span(middle, end))] + rest)
  {
    var one, two, both := SpannedToken(Character(a), Span(start, middle)),
        SpannedToken(Character(b), Span(middle, end)), SpannedToken(Character(a + b), Span(start, end));
    CharactersJoin(onto, a, b, start, middle, end);
    hide Append;
    assert ([both] + rest)[1..] == rest;
    assert ([one] + [two] + rest)[1..] == [two] + rest;
    assert ([two] + rest)[1..] == rest;
  }

  // ---- a step taken early is the step taken late ------------------------------------------------

  function Later(out: Outcome, more: string): Outcome
    requires out.Go?
  {
    out.(next := At(out.next, more))
  }

  lemma ConsumedLater(st: State, more: string, n: nat)
    requires n <= |st.pending|
    ensures Consumed(At(st, more), n) == At(Consumed(st, n), more) && SpanOf(At(st, more), n) == SpanOf(st, n)
    ensures At(st, more).pending[..n] == st.pending[..n]
  {
    assert (st.pending + more)[..n] == st.pending[..n];
    assert (st.pending + more)[n..] == st.pending[n..] + more;
  }

  lemma EmitLater(st: State, more: string, n: nat, kind: TextKind)
    requires n <= |st.pending|
    ensures EmitCharacters(At(st, more), n, kind) == Later(EmitCharacters(st, n, kind), more)
  {
    ConsumedLater(st, more, n);
  }

  lemma CommentLater(st: State, more: string, limits: Limits)
    requires |st.pending| >= 4 && Find(st.pending, "-->", 4).Some?
    ensures StepComment(st, false, limits).Go?
    ensures StepComment(At(st, more), true, limits) == Later(StepComment(st, false, limits), more)
  {
    var close := Find(st.pending, "-->", 4);
    FindExtends(st.pending, more, "-->", 4);
    ConsumedLater(st, more, close.value + 3);
    assert (st.pending + more)[4..close.value] == st.pending[4..close.value];
  }

  lemma BogusCommentLater(st: State, more: string, limits: Limits)
    requires |st.pending| >= 2 && Find(st.pending, ">", 0).Some?
    ensures StepBogusComment(st, false, limits).Go?
    ensures StepBogusComment(At(st, more), true, limits) == Later(StepBogusComment(st, false, limits), more)
  {
    var close := Find(st.pending, ">", 0);
    FindExtends(st.pending, more, ">", 0);
    var length := close.value + 1;
    ConsumedLater(st, more, length);
    assert (st.pending + more)[length - 1] == st.pending[length - 1];
    if 2 <= length - 1 { assert (st.pending + more)[2..length - 1] == st.pending[2..length - 1]; }
    if 2 <= length { assert (st.pending + more)[2..length] == st.pending[2..length]; }
  }

  lemma TagLater(st: State, more: string, limits: Limits)
    requires |st.pending| >= 2 && TagEnd(st.pending, 1, None).Some?
    ensures StepTag(st, false, limits).Go?
    ensures StepTag(At(st, more), true, limits) == Later(StepTag(st, false, limits), more)
  {
    hide ReadStartTag;
    hide ReadEndTag;
    hide ReadDoctype;
    hide StartsWithIgnoringCase;
    var close := TagEnd(st.pending, 1, None);
    TagEndExtends(st.pending, more, 1, None);
    ConsumedLater(st, more, close.value + 1);
  }

  lemma PrefixesLater(p: string, more: string, target: string)
    requires |target| <= |p| || !IsPrefixIgnoringCase(p, target)
    ensures StartsWithIgnoringCase(p + more, target) == StartsWithIgnoringCase(p, target)
    ensures target <= p + more <==> target <= p
  {
    if |target| <= |p| {
      assert (p + more)[..|target|] == p[..|target|];
    } else if |target| <= |p + more| {
      var s := (p + more)[..|target|];
      assert p == s[..|p|];
      assert LowerAll(p) == LowerAll(s)[..|p|];
      assert LowerAll(target)[..|p|] == LowerAll(target[..|p|]);
    }
  }

  lemma MarkupLater(st: State, more: string, limits: Limits)
    requires st.pending != [] && st.pending[0] == '<' && st.mode == DataMode
    requires !Outgrown(st, limits) && StepData(st, false, limits).Go?
    ensures StepData(At(st, more), true, limits) == Later(StepData(st, false, limits), more)
  {
    var p := st.pending;
    PrefixesLater(p, more, "<!--");
    if "<!--" <= p {
      CommentLater(st, more, limits);
    } else {
      PrefixesLater(p, more, "<!doctype");
      assert (p + more)[1] == p[1];
      PrefixesLater(p, more, "</");
      PrefixesLater(p, more, "<!");
      PrefixesLater(p, more, "<?");
      hide IsPrefixIgnoringCase;
      hide StartsWithIgnoringCase;
      hide StepTag;
      hide StepComment;
      hide StepBogusComment;
      hide EmitCharacters;
      if StartsWithIgnoringCase(p, "<!doctype") || "</" <= p || IsAlpha(p[1]) {
        TagLater(st, more, limits);
      } else if "<!" <= p || "<?" <= p {
        BogusCommentLater(st, more, limits);
      } else {
        EmitLater(st, more, 1, Raw);
      }
    }
  }

  /** The step of a finished input, and the rest of it. */
  lemma DrainStep(st: State, limits: Limits)
    requires st.pending != [] && Step(st, true, limits).Go?
    ensures var go := Step(st, true, limits);
            Drain(st, true, limits) == Before(go.tokens, go.errors, Drain(go.next, true, limits))
  {
    hide Step;
    StepProgress(st, true, limits);
  }

  lemma SameItself(out: Output)
    ensures Same(out, out)
  {
  }

  /** Where text of the current mode ends in a finished input, and how it is read. */
  predicate TextRun(st: State, end: nat, kind: TextKind, limits: Limits) {
    0 < end <= |st.pending| && Step(st, true, limits) == EmitCharacters(st, end, kind)
  }

  /** Releasing a safe piece of a run of text early changes nothing. */
  lemma EarlyPiece(st: State, k: nat, end: nat, kind: TextKind, limits: Limits)
    requires TextRun(st, end, kind, limits) && 0 < k <= end
    requires k < end ==> SafeCut(st.pending[..k], st.pending[k..end], kind)
    requires k < end ==> TextRun(Consumed(st, k), end - k, kind, limits)
    ensures var first := EmitCharacters(st, k, kind);
            Same(Drain(st, true, limits), Before(first.tokens, first.errors, Drain(first.next, true, limits)))
  {
    hide Step;
    hide SafeCut;
    DrainStep(st, limits);
    var first := EmitCharacters(st, k, kind);
    if k < end {
      DrainStep(first.next, limits);
      var second := EmitCharacters(first.next, end - k, kind);
      TextInTwoPieces(st, k, end, kind, Drain(second.next, true, limits));
    } else {
      SameItself(Drain(st, true, limits));
    }
  }

  lemma FindFirst(s: string, c: char, from: nat)
    requires from <= |s|
    ensures var r := Find(s, [c], from);
            && (r.Some? ==> s[r.value] == c)
            && forall i :: from <= i < |s| && (r.None? || i < r.value) ==> s[i] != c
    decreases |s| - from
  {
    if from < |s| {
      assert s[from..from + 1] == [s[from]];
      if s[from] != c { FindFirst(s, c, from + 1); }
    }
  }

  function DataRunEnd(p: string): (end: nat)
    ensures end <= |p|
  {
    var less := Find(p, "<", 0);
    if less.Some? then less.value else |p|
  }

  lemma DataRun(st: State, limits: Limits)
    requires st.mode == DataMode && st.pending != [] && st.pending[0] != '<'
    ensures TextRun(st, DataRunEnd(st.pending), Decoded, limits)
    ensures forall i :: 0 <= i < DataRunEnd(st.pending) ==> st.pending[i] != '<'
    ensures DataRunEnd(st.pending) < |st.pending| ==> st.pending[DataRunEnd(st.pending)] == '<'
  {
    FindFirst(st.pending, '<', 0);
  }

  /** Text released in the data state is a safe piece of the run of text it belongs to. */
  lemma DataPiece(p: string, more: string)
    requires p != [] && p[0] != '<'
    ensures var less := Find(p, "<", 0);
            var k := if less.Some? then less.value else SafeTextPrefix(p, true);
            var s := p + more;
            var end := DataRunEnd(s);
            && k <= end
            && (k < end ==> SafeCut(s[..k], s[k..end], Decoded) && s[k] != '<' && DataRunEnd(s[k..]) == end - k)
  {
    hide SafeTextPrefix;
    hide SafeCut;
    var less := Find(p, "<", 0);
    var k := if less.Some? then less.value else SafeTextPrefix(p, true);
    var s := p + more;
    var end := DataRunEnd(s);
    FindFirst(p, '<', 0);
    FindFirst(s, '<', 0);
    hide Find;
    if less.Some? {
      assert s[k] == p[k];
    } else {
      assert forall i :: 0 <= i < |p| ==> s[i] == p[i];
    }
    if k < end {
      CutInside(p, more, k, end, true);
      FindFirst(s[k..], '<', 0);
      SameRunEnd(s, k, end, DataRunEnd(s[k..]));
    }
  }

  lemma DataTextLater(st: State, more: string, limits: Limits)
    requires st.mode == DataMode && st.pending != [] && st.pending[0] != '<' && StepData(st, false, limits).Go?
    ensures var go := StepData(st, false, limits);
            Same(Drain(At(st, more), true, limits),
                 Before(go.tokens, go.errors, Drain(At(go.next, more), true, limits)))
  {
    hide Drain;
    hide SafeTextPrefix;
    hide SafeCut;
    hide Same;
    hide Before;
    hide EmitCharacters;
    var p, whole := st.pending, At(st, more);
    var less := Find(p, "<", 0);
    var k := if less.Some? then less.value else SafeTextPrefix(p, true);
    DataPiece(p, more);
    EmitLater(st, more, k, Decoded);
    DataRun(whole, limits);
    var end := DataRunEnd(whole.pending);
    if k < end {
      var after := Consumed(whole, k);
      assert after.pending == whole.pending[k..];
      DataRun(after, limits);
    }
    hide TextRun;
    EarlyPiece(whole, k, end, Decoded, limits);
    assert Consumed(whole, k) == At(Consumed(st, k), more) by { ConsumedLater(st, more, k); }
  }

  lemma SameRunEnd(s: string, k: nat, end: nat, tailEnd: nat)
    requires k <= end <= |s| && tailEnd <= |s| - k
    requires forall i :: 0 <= i < end ==> s[i] != '<'
    requires end < |s| ==> s[end] == '<'
    requires forall i :: 0 <= i < tailEnd ==> s[k..][i] != '<'
    requires tailEnd < |s| - k ==> s[k..][tailEnd] == '<'
    ensures tailEnd == end - k
  {
    assert tailEnd < |s| - k ==> s[k..][tailEnd] == s[k + tailEnd];
    assert end < |s| ==> s[k..][end - k] == s[end];
  }

  /** A safe prefix of what has arrived is a safe cut of any run of text that contains it. */
  lemma CutInside(p: string, more: string, k: nat, end: nat, entities: bool)
    requires k == SafeTextPrefix(p, entities) && k < end <= |p + more|
    ensures var s := p + more; SafeCut(s[..k], s[k..end], if entities then Decoded else Raw)
  {
    SafePrefixIsSafe(p, more, entities);
    var s := p + more;
    assert s[..k] == p[..k] && s[k..] == p[k..] + more;
    ShorterTail(s[..k], s[k..], s[k..end], if entities then Decoded else Raw);
  }

  lemma ShorterTail(x: string, y: string, z: string, kind: TextKind)
    requires SafeCut(x, y, kind) && z <= y && z != []
    ensures SafeCut(x, z, kind)
  {
    assert z[0] == y[0];
  }

  // ---- text modes -------------------------------------------------------------------------------

  lemma PlainTextLater(st: State, more: string, limits: Limits)
    requires st.mode == PlainTextMode && st.pending != [] && StepText(st, false).Go?
    ensures var go := StepText(st, false);
            Same(Drain(At(st, more), true, limits),
                 Before(go.tokens, go.errors, Drain(At(go.next, more), true, limits)))
  {
    var whole := At(st, more);
    var k, end := SafeTextPrefix(st.pending, false), |whole.pending|;
    EmitLater(st, more, k, Raw);
    if k < end {
      CutInside(st.pending, more, k, end, false);
    }
    hide Drain;
    EarlyPiece(whole, k, end, Raw, limits);
  }

  function KindOf(mode: Mode): TextKind {
    if mode.RcDataMode? then Decoded else Raw
  }

  /** A cut before a carriage return, and in raw text any cut not after one, is safe. */
  lemma PlainCut(x: string, y: string, kind: TextKind)
    requires kind != AttributeValue && x != [] && y != []
    requires y[0] == '\r' || (kind == Raw && x[|x| - 1] != '\r')
    ensures SafeCut(x, y, kind)
  {
  }

  /** In decoded text the cut falls at the safe prefix of what lies before the part kept back. */
  lemma DecodedCut(p: string, more: string, length: nat, end: nat)
    requires length <= |p|
    requires 0 < SafeTextPrefix(p[..length], true) < end <= |p + more|
    ensures var k := SafeTextPrefix(p[..length], true); SafeCut((p + more)[..k], (p + more)[k..end], Decoded)
  {
    var rest := p[length..] + more;
    assert p + more == p[..length] + rest;
    CutInside(p[..length], rest, SafeTextPrefix(p[..length], true), end, true);
  }

  /** The cut that a text mode makes is safe. */
  lemma HeldBackCut(p: string, more: string, mode: Mode, end: nat)
    requires mode.RawTextMode? || mode.RcDataMode?
    requires 0 < HeldBackLength(p, mode) < end <= |p + more|
    ensures var k := HeldBackLength(p, mode); SafeCut((p + more)[..k], (p + more)[k..end], KindOf(mode))
  {
    hide SafeCut;
    hide SafeTextPrefix;
    var k, s := HeldBackLength(p, mode), p + more;
    var length := |p| - |mode.endTag| - 4;
    var safe := if mode.RcDataMode? then SafeTextPrefix(p[..length], true) else length;
    assert s[k..end][0] == p[k] && s[..k][k - 1] == p[k - 1];
    if k < safe || mode.RawTextMode? {
      PlainCut(s[..k], s[k..end], KindOf(mode));
    } else {
      DecodedCut(p, more, length, end);
    }
  }

  lemma ModeRun(st: State, limits: Limits)
    requires st.mode.RawTextMode? || st.mode.RcDataMode?
    requires st.pending != [] && FindEndTag(st.pending, st.mode.endTag, 0) != Some(0)
    ensures var found := FindEndTag(st.pending, st.mode.endTag, 0);
            TextRun(st, if found.Some? then found.value else |st.pending|, KindOf(st.mode), limits)
  {
  }

  /** An end tag that has arrived is where the text ends, whatever follows. */
  lemma ModeEndLater(st: State, more: string, limits: Limits)
    requires st.mode.RawTextMode? || st.mode.RcDataMode?
    requires st.pending != [] && FindEndTag(st.pending, st.mode.endTag, 0).Some?
    ensures StepText(st, false).Go? && StepText(At(st, more), true) == Later(StepText(st, false), more)
  {
    hide EmitCharacters;
    hide FindEndTag;
    var found := FindEndTag(st.pending, st.mode.endTag, 0);
    FindEndTagExtends(st.pending, more, st.mode.endTag);
    EmitLater(st, more, found.value, KindOf(st.mode));
  }

  /** Text released from a text mode is a safe piece of the run of text it belongs to. */
  lemma ModePiece(st: State, more: string, limits: Limits)
    requires st.mode.RawTextMode? || st.mode.RcDataMode?
    requires FindEndTag(st.pending, st.mode.endTag, 0).None? && HeldBackLength(st.pending, st.mode) > 0
    ensures var k := HeldBackLength(st.pending, st.mode);
            var whole := At(st, more);
            var found := FindEndTag(whole.pending, st.mode.endTag, 0);
            var end := if found.Some? then found.value else |whole.pending|;
            && k <= end && TextRun(whole, end, KindOf(st.mode), limits)
            && (k < end ==> SafeCut(whole.pending[..k], whole.pending[k..end], KindOf(st.mode))
                            && TextRun(Consumed(whole, k), end - k, KindOf(st.mode), limits))
  {
    hide TextRun;
    hide SafeCut;
    hide FindEndTag;
    var k, whole, tag := HeldBackLength(st.pending, st.mode), At(st, more), st.mode.endTag;
    hide HeldBackLength;
    ReleasedBeforeEndTag(st.pending, more, st.mode);
    var found := FindEndTag(whole.pending, tag, 0);
    var end := if found.Some? then found.value else |whole.pending|;
    ModeRun(whole, limits);
    if k < end {
      HeldBackCut(st.pending, more, st.mode, end);
      FindEndTagShifts(whole.pending, k, tag);
      ModeRun(Consumed(whole, k), limits);
    }
  }

  lemma ModeTextLater(st: State, more: string, limits: Limits)
    requires st.mode.RawTextMode? || st.mode.RcDataMode?
    requires st.pending != [] && StepText(st, false).Go?
    ensures var go := StepText(st, false);
            Same(Drain(At(st, more), true, limits),
                 Before(go.tokens, go.errors, Drain(At(go.next, more), true, limits)))
  {
    hide Drain;
    hide Same;
    hide Before;
    hide SafeCut;
    hide TextRun;
    hide EmitCharacters;
    hide HeldBackLength;
    hide FindEndTag;
    var whole := At(st, more);
    var found := FindEndTag(st.pending, st.mode.endTag, 0);
    if found.Some? {
      ModeEndLater(st, more, limits);
      hide StepText;
      DrainStep(whole, limits);
      SameItself(Drain(whole, true, limits));
    } else {
      var k := HeldBackLength(st.pending, st.mode);
      ModePiece(st, more, limits);
      EmitLater(st, more, k, KindOf(st.mode));
      var later := FindEndTag(whole.pending, st.mode.endTag, 0);
      EarlyPiece(whole, k, if later.Some? then later.value else |whole.pending|, KindOf(st.mode), limits);
    }
  }

  // ---- chunk boundaries cannot be observed --------------------------------------------------------

  /** A step taken before all input has arrived is a step of the finished input. */
  lemma StepLater(st: State, more: string, limits: Limits)
    requires st.pending != [] && !Outgrown(st, limits) && Step(st, false, limits).Go?
    ensures var go := Step(st, false, limits);
            Same(Drain(At(st, more), true, limits),
                 Before(go.tokens, go.errors, Drain(At(go.next, more), true, limits)))
  {
    hide Drain;
    if st.mode != DataMode {
      if st.mode == PlainTextMode { PlainTextLater(st, more, limits); } else { ModeTextLater(st, more, limits); }
    } else if st.pending[0] != '<' {
      DataTextLater(st, more, limits);
    } else {
      MarkupLater(st, more, limits);
      hide StepData;
      var whole := At(st, more);
      assert whole.pending[0] == st.pending[0];
      DrainStep(whole, limits);
      SameItself(Drain(whole, true, limits));
    }
  }

  /** Draining what has arrived, and the rest when it arrives, reads like draining it all at the end. */
  lemma {:induction false} DrainLater(st: State, more: string, limits: Limits)
    requires DrainFits(st, limits)
    ensures var out := Drain(st, false, limits);
            Same(Drain(At(st, more), true, limits),
                 Before(out.tokens, out.errors, Drain(At(out.state, more), true, limits)))
    decreases Measure(st)
  {
    if st.pending == [] || Step(st, false, limits).Wait? {
      SameItself(Drain(At(st, more), true, limits));
      NothingBefore(Drain(At(st, more), true, limits));
    } else {
      hide Step;
      StepProgress(st, false, limits);
      var go := Step(st, false, limits);
      StepLater(st, more, limits);
      DrainLater(go.next, more, limits);
      var out := Drain(go.next, false, limits);
      var end := Drain(At(out.state, more), true, limits);
      SameAfter(go.tokens, go.errors, Drain(At(go.next, more), true, limits), Before(out.tokens, out.errors, end));
      BeforeTwice(go.tokens, go.errors, out.tokens, out.errors, end);
    }
  }

  lemma NothingBefore(out: Output)
    ensures Before([], [], out) == out
  {
    assert [] + out.tokens == out.tokens && [] + out.errors == out.errors;
  }

  lemma SameTransitive(a: Output, b: Output, c: Output)
    requires Same(a, b) && Same(c, b)
    ensures Same(c, a)
  {
  }

  /**
   For every way to cut an input into chunks such that no token outgrows the limit while it is incomplete,
   feeding the chunks and finishing gives the same tokens (adjacent character tokens joined), the same spans,
   the same errors at the same positions and the same end state as finishing on the whole input.
   */
  lemma {:induction false} ChunksCannotBeObserved(st: State, chunks: seq<string>, limits: Limits)
    requires Fits(st, chunks, limits)
    ensures Same(Tokenize(st, chunks, limits), Drain(At(st, Concat(chunks)), true, limits))
    decreases |chunks|
  {
    var target := Drain(At(st, Concat(chunks)), true, limits);
    if chunks == [] {
      assert st.pending + [] == st.pending;
      NothingBefore(Drain(st, true, limits));
      SameItself(target);
    } else {
      var first := Feed(st, chunks[0], limits);
      ChunksCannotBeObserved(first.state, chunks[1..], limits);
      FirstChunk(st, chunks, limits);
    }
  }

  lemma FirstChunk(st: State, chunks: seq<string>, limits: Limits)
    requires chunks != [] && DrainFits(At(st, chunks[0]), limits)
    requires var first := Feed(st, chunks[0], limits);
             Same(Tokenize(first.state, chunks[1..], limits), Drain(At(first.state, Concat(chunks[1..])), true, limits))
    ensures Same(Tokenize(st, chunks, limits), Drain(At(st, Concat(chunks)), true, limits))
  {
    hide Drain;
    hide Same;
    hide Before;
    hide Tokenize;
    var rest := Concat(chunks[1..]);
    var now := At(st, chunks[0]);
    assert now.pending + rest == st.pending + Concat(chunks);
    DrainLater(now, rest, limits);
    var first := Feed(st, chunks[0], limits);
    var later := Tokenize(first.state, chunks[1..], limits);
    var middle := Drain(At(first.state, rest), true, limits);
    SameAfter(first.tokens, first.errors, later, middle);
    TokenizeStep(st, chunks, limits);
    SameTransitive(Drain(At(st, Concat(chunks)), true, limits), Before(first.tokens, first.errors, middle),
        Tokenize(st, chunks, limits));
  }

  lemma TokenizeStep(st: State, chunks: seq<string>, limits: Limits)
    requires chunks != []
    ensures var first := Feed(st, chunks[0], limits);
            Tokenize(st, chunks, limits)
            == Before(first.tokens, first.errors, Tokenize(first.state, chunks[1..], limits))
  {
    hide Drain;
    hide Feed;
    var first := Feed(st, chunks[0], limits);
    var fed := FeedAll(first.state, chunks[1..], limits);
    BeforeTwice(first.tokens, first.errors, fed.tokens, fed.errors, Drain(fed.state, true, limits));
  }

  /** Finishing leaves nothing pending. */
  lemma {:induction false} FinishUsesEverything(st: State, limits: Limits)
    ensures Drain(st, true, limits).state.pending == []
    decreases Measure(st)
  {
    if st.pending != [] {
      StepAtEnd(st, limits);
      hide Step;
      StepProgress(st, true, limits);
      FinishUsesEverything(Step(st, true, limits).next, limits);
    }
  }

  lemma StepAtEnd(st: State, limits: Limits)
    requires st.pending != []
    ensures Step(st, true, limits).Go?
  {
    if st.mode == DataMode && st.pending[0] != '<' {
      DataRun(st, limits);
    }
  }

  // ---- the tokenizer object -------------------------------------------------------------------------

  method FindTagEnd(source: string) returns (end: Option<nat>)
    ensures end == TagEnd(source, 1, None)
  {
    var quote: Option<char> := None;
    var index := 1;
    while index < |source|
      invariant 1 <= index
      invariant TagEnd(source, 1, None) == TagEnd(source, index, quote)
      decreases |source| - index
    {
      var byte := source[index];
      if quote.Some? {
        if quote.value == byte { quote := None; }
      } else if byte == '\'' || byte == '"' {
        quote := Some(byte);
      } else if byte == '>' {
        return Some(index);
      }
      index := index + 1;
    }
    return None;
  }

  /** Jumps from one "</" to the next. */
  method FindAppropriateEndTag(source: string, tag: string) returns (found: Option<nat>)
    ensures found == FindEndTag(source, tag, 0)
  {
    var cursor := 0;
    while cursor + 2 + |tag| <= |source|
      invariant cursor <= |source|
      invariant NoEndTagBefore(source, tag, cursor)
      decreases |source| - cursor
    {
      FindPair(source, cursor);
      var next := Find(source, "</", cursor);
      if next.None? {
        NoEndTag(source, tag, cursor);
        return None;
      }
      var index := next.value;
      var nameEnd := index + 2 + |tag|;
      if nameEnd > |source| {
        NoEndTag(source, tag, cursor);
        return None;
      }
      if nameEnd < |source| && LowerAll(source[index + 2..nameEnd]) == LowerAll(tag)
         && (IsWhitespace(source[nameEnd]) || source[nameEnd] == '/' || source[nameEnd] == '>')
      {
        assert IsEndTagAt(source, index, tag);
        return Some(index);
      }
      NoEndTagBetween(source, tag, cursor, index);
      cursor := index + 2;
    }
    NoEndTag(source, tag, cursor);
    return None;
  }

  predicate NoEndTagBefore(source: string, tag: string, cursor: nat) {
    forall i :: 0 <= i < cursor ==> !IsEndTagAt(source, i, tag)
  }

  /** No "</" with room for the tag from the cursor on: there is no end tag. */
  lemma NoEndTag(source: string, tag: string, cursor: nat)
    requires NoEndTagBefore(source, tag, cursor)
    requires forall i :: cursor <= i && i + 2 + |tag| < |source| ==> !(source[i] == '<' && source[i + 1] == '/')
    ensures FindEndTag(source, tag, 0) == None
  {
  }

  lemma NoEndTagBetween(source: string, tag: string, cursor: nat, index: nat)
    requires NoEndTagBefore(source, tag, cursor) && index + 1 < |source| && source[index + 1] == '/'
    requires forall i :: cursor <= i < index ==> !(source[i] == '<' && source[i + 1] == '/')
    requires !IsEndTagAt(source, index, tag)
    ensures NoEndTagBefore(source, tag, index + 2)
  {
  }

  lemma FindPair(s: string, from: nat)
    requires from <= |s|
    ensures var r := Find(s, "</", from);
            && (r.Some? ==> s[r.value] == '<' && s[r.value + 1] == '/')
            && forall i :: from <= i < |s| - 1 && (r.None? || i < r.value) ==> !(s[i] == '<' && s[i + 1] == '/')
    decreases |s| - from
  {
    if from + 2 <= |s| {
      assert s[from..from + 2] == [s[from], s[from + 1]];
      if s[from..from + 2] != "</" { FindPair(s, from + 1); }
    }
  }

  lemma DrainUnfolds(st: State, eof: bool, limits: Limits)
    ensures st.pending == [] || Step(st, eof, limits).Wait? ==> Drain(st, eof, limits) == Output(st, [], [])
    ensures st.pending != [] && Step(st, eof, limits).Go? ==>
      var go := Step(st, eof, limits);
      && Measure(go.next) < Measure(st)
      && Drain(st, eof, limits) == Before(go.tokens, go.errors, Drain(go.next, eof, limits))
  {
    hide Step;
    if st.pending != [] {
      StepProgress(st, eof, limits);
    }
  }

  class HtmlTokenizer {
    const limits: Limits
    var pending: string
    var position: Position
    var mode: Mode
    var errors: seq<ParseError>
    var finished: bool

    function Current(): State
      reads this
    {
      State(pending, position, mode)
    }

    constructor (limits: Limits)
      ensures this.limits == limits && !finished && errors == []
      ensures Current() == State([], Position(0, 1, 1), DataMode)
    {
      this.limits := limits;
      pending, position, mode, errors, finished := [], Position(0, 1, 1), DataMode, [], false;
    }

    method DrainPending(eof: bool) returns (output: seq<SpannedToken>)
      modifies this`pending, this`position, this`mode, this`errors
      ensures var out := Drain(old(Current()), eof, limits);
              Current() == out.state && output == out.tokens && errors == old(errors) + out.errors
    {
      hide Step;
      hide Drain;
      hide Before;
      output := [];
      ghost var reported: seq<ParseError> := [];
      NothingBefore(Drain(Current(), eof, limits));
      while pending != []
        invariant errors == old(errors) + reported
        invariant Drain(old(Current()), eof, limits) == Before(output, reported, Drain(Current(), eof, limits))
        decreases Measure(Current())
      {
        DrainUnfolds(Current(), eof, limits);
        match Step(Current(), eof, limits)
        case Wait =>
          break;
        case Go(next, tokens, new_) =>
          BeforeTwice(output, reported, tokens, new_, Drain(next, eof, limits));
          pending, position, mode := next.pending, next.position, next.mode;
          output := output + tokens;
          errors := errors + new_;
          reported := reported + new_;
      }
      DrainUnfolds(Current(), eof, limits);
      NothingAfter(output, reported, Current());
    }

    method FeedChunk(input: string) returns (r: Result<seq<SpannedToken>, ()>)
      modifies this`pending, this`position, this`mode, this`errors
      ensures r.Err? <==> finished
      ensures r.Err? ==> Current() == old(Current()) && errors == old(errors)
      ensures r.Ok? ==>
        var out := Feed(old(Current()), input, limits);
        Current() == out.state && r.value == out.tokens && errors == old(errors) + out.errors
    {
      if finished {
        return Err(());
      }
      pending := pending + input;
      var output := DrainPending(false);
      return Ok(output);
    }

    method Finish() returns (r: Result<seq<SpannedToken>, ()>)
      modifies this
      ensures r.Err? <==> old(finished)
      ensures finished
      ensures r.Err? ==> Current() == old(Current()) && errors == old(errors)
      ensures r.Ok? ==>
        var out := Drain(old(Current()), true, limits);
        Current() == out.state && r.value == out.tokens && errors == old(errors) + out.errors && pending == []
    {
      if finished {
        return Err(());
      }
      finished := true;
      FinishUsesEverything(Current(), limits);
      var output := DrainPending(true);
      return Ok(output);
    }
  }

  lemma NothingAfter(tokens: seq<SpannedToken>, errors: seq<ParseError>, st: State)
    ensures Before(tokens, errors, Output(st, [], [])) == Output(st, tokens, errors)
  {
    assert tokens + [] == tokens && errors + [] == errors;
  }
}
