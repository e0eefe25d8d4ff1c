/** Chunk boundaries show exactly when an incomplete token outgrows the token limit. */
module TokenizerLimits {
  import opened Outcomes
  import opened Ascii
  import opened TokenizerText
  import opened TokenizerMarkup
  import opened Tokenizer

  // ---- finished input never reports the limit -------------------------------------------------

  predicate Clean(errors: seq<ParseError>) {
    forall i :: 0 <= i < |errors| ==> errors[i].code != TokenLimitExceeded
  }

  lemma CleanConcat(a: seq<ParseError>, b: seq<ParseError>)
    ensures Clean(a + b) <==> Clean(a) && Clean(b)
  {
    if Clean(a + b) {
      assert forall i :: 0 <= i < |a| ==> (a + b)[i] == a[i];
      assert forall i :: 0 <= i < |b| ==> (a + b)[|a| + i] == b[i];
    }
  }

  lemma UnitClean(s: string, position: Position, kind: TextKind)
    requires |s| > 0
    ensures Clean(NextUnit(s, position, kind).errors)
  {
  }

  lemma {:induction false} TextClean(s: string, position: Position, kind: TextKind)
    ensures Clean(TextOf(s, position, kind).errors)
    decreases |s|
  {
    if s != [] {
      UnitProgress(s, position, kind);
      UnitClean(s, position, kind);
      var u := NextUnit(s, position, kind);
      hide NextUnit;
      TextClean(s[u.consumed..], Advance(position, s[..u.consumed]), kind);
      CleanConcat(u.errors, TextOf(s[u.consumed..], Advance(position, s[..u.consumed]), kind).errors);
    }
  }

  lemma {:induction false} UnquotedClean(source: string, from: nat, end: nat, position: Position)
    requires from <= end <= |source|
    ensures Clean(UnquotedErrors(source, from, end, position))
    decreases end - from
  {
    if from < end {
      UnquotedClean(source, from + 1, end, position);
      CleanConcat(ErrorWhen(source[from] in {'"', '\'', '<', '=', '`'},
                            ErrorIn(UnexpectedCharacterInUnquotedAttributeValue, source, from, position)),
                  UnquotedErrors(source, from + 1, end, position));
    }
  }

  lemma QuotedClean(text: string, at: Position, error: ParseError)
    requires error.code != TokenLimitExceeded
    ensures Clean(TextOf(text, at, AttributeValue).errors + [error])
  {
    TextClean(text, at, AttributeValue);
    CleanConcat(TextOf(text, at, AttributeValue).errors, [error]);
  }

  lemma ValueClean(source: string, nameEnd: nat, end: nat, position: Position)
    requires nameEnd <= end <= |source|
    ensures Clean(ReadValue(source, nameEnd, end, position).errors)
  {
    hide TextOf;
    hide Advance;
    hide Skip;
    hide SkipToQuote;
    hide UnquotedErrors;
    hide Clean;
    var equals := Skip(source, nameEnd, end, IsWhitespace);
    NothingClean();
    if equals < end && source[equals] == '=' {
      var start := Skip(source, equals + 1, end, IsWhitespace);
      if start >= end {
        OneClean(ErrorIn(MissingAttributeValue, source, start, position));
      } else if source[start] == '"' || source[start] == '\'' {
        var close := SkipToQuote(source, start + 1, end, source[start]);
        TextClean(source[start + 1..close], Advance(position, source[..start + 1]), AttributeValue);
        QuotedClean(source[start + 1..close], Advance(position, source[..start + 1]),
                    ErrorIn(EofInTag, source, close, position));
      } else {
        var close := Skip(source, start, end, IsNotWhitespace);
        UnquotedClean(source, start, close, position);
        TextClean(source[start..close], Advance(position, source[..start]), AttributeValue);
        CleanConcat(UnquotedErrors(source, start, close, position),
                    TextOf(source[start..close], Advance(position, source[..start]), AttributeValue).errors);
      }
    }
  }

  lemma NothingClean()
    ensures Clean([])
  {
  }

  lemma OneClean(error: ParseError)
    requires error.code != TokenLimitExceeded
    ensures Clean([error])
  {
  }

  lemma WhenClean(condition: bool, error: ParseError)
    requires error.code != TokenLimitExceeded
    ensures Clean(ErrorWhen(condition, error))
  {
  }

  /** Errors of one attribute before those of the rest. */
  lemma AttributeClean(early: seq<ParseError>, value: seq<ParseError>, late: seq<ParseError>, rest: seq<ParseError>)
    requires Clean(early) && Clean(value) && Clean(late) && Clean(rest)
    ensures Clean(early + rest) && Clean(early + value + rest) && Clean(early + value + late + rest)
  {
    CleanConcat(early, value);
    CleanConcat(early + value, late);
    CleanConcat(early, rest);
    CleanConcat(early + value, rest);
    CleanConcat(early + value + late, rest);
  }

  lemma {:induction false} AttributesClean(source: string, cursor: nat, end: nat, position: Position, limit: nat,
                                           list: seq<Attribute>)
    requires cursor <= end <= |source|
    ensures Clean(ReadAttributes(source, cursor, end, position, limit, list).errors)
    decreases end - cursor, 0
  {
    hide Skip;
    hide ReadValue;
    hide LowerAll;
    hide Advance;
    hide Clean;
    NothingClean();
    var start := Skip(source, cursor, end, IsWhitespace);
    if start < end {
      if source[start] == '/' {
        var next := Skip(source, start + 1, end, IsWhitespace);
        WhenClean(next < end, ErrorIn(UnexpectedCharacterInUnquotedAttributeValue, source, next, position));
      } else {
        var early := ErrorWhen(source[start] == '=',
                               ErrorIn(UnexpectedEqualsSignBeforeAttributeName, source, start, position));
        WhenClean(source[start] == '=', ErrorIn(UnexpectedEqualsSignBeforeAttributeName, source, start, position));
        var nameEnd := Skip(source, start, end, IsAttributeNameChar);
        if nameEnd == start {
          AttributesClean(source, start + 1, end, position, limit, list);
          AttributeClean(early, [], [], ReadAttributes(source, start + 1, end, position, limit, list).errors);
        } else {
          LaterAttributesClean(source, start, nameEnd, end, position, limit, list, early);
        }
      }
    }
  }

  lemma {:induction false} LaterAttributesClean(source: string, start: nat, nameEnd: nat, end: nat,
                                                position: Position, limit: nat,
                                                list: seq<Attribute>, early: seq<ParseError>)
    requires start < nameEnd <= end <= |source| && Clean(early)
    ensures var name := LowerAll(source[start..nameEnd]);
            var v := ReadValue(source, nameEnd, end, position);
            var kept := list + [Attribute(name, v.value,
                Span(Advance(position, source[..start]), Advance(position, source[..v.cursor])))];
            && Clean(Reporting(early + v.errors + [ErrorIn(DuplicateAttribute, source, start, position)],
                               ReadAttributes(source, v.cursor, end, position, limit, list)).errors)
            && Clean(Reporting(early + v.errors + [ErrorIn(AttributeLimitExceeded, source, start, position)],
                               ReadAttributes(source, v.cursor, end, position, limit, list)).errors)
            && Clean(Reporting(early + v.errors, ReadAttributes(source, v.cursor, end, position, limit, kept)).errors)
    decreases end - nameEnd, 1
  {
    var name := LowerAll(source[start..nameEnd]);
    var v := ReadValue(source, nameEnd, end, position);
    ValueClean(source, nameEnd, end, position);
    hide ReadValue;
    hide ReadAttributes;
    hide Clean;
    var kept := list + [Attribute(name, v.value,
        Span(Advance(position, source[..start]), Advance(position, source[..v.cursor])))];
    AttributesClean(source, v.cursor, end, position, limit, list);
    AttributesClean(source, v.cursor, end, position, limit, kept);
    var duplicate, over := ErrorIn(DuplicateAttribute, source, start, position),
        ErrorIn(AttributeLimitExceeded, source, start, position);
    OneClean(duplicate);
    OneClean(over);
    AttributeClean(early, v.errors, [duplicate], ReadAttributes(source, v.cursor, end, position, limit, list).errors);
    AttributeClean(early, v.errors, [over], ReadAttributes(source, v.cursor, end, position, limit, list).errors);
    AttributeClean(early, v.errors, [over], ReadAttributes(source, v.cursor, end, position, limit, kept).errors);
  }

  lemma EndTagClean(source: string, position: Position)
    requires |source| > 1
    ensures Clean(ReadEndTag(source, position).errors)
  {
  }

  lemma StartTagClean(source: string, position: Position, limit: nat)
    requires |source| > 0
    ensures Clean(ReadStartTag(source, position, limit).errors)
  {
    var end := ContentEnd(source);
    var nameEnd := Skip(source, 1, end, IsTagNameChar);
    if nameEnd <= end {
      AttributesClean(source, nameEnd, end, position, limit, []);
    }
  }

  lemma DoctypeEndClean(missing: bool, error: ParseError, source: string, cursor: nat, end: nat, position: Position)
    requires cursor <= end <= |source| && error.code != TokenLimitExceeded
    ensures Clean(ErrorWhen(missing, error) + DoctypeTail(source, cursor, end, position))
  {
    WhenClean(missing, error);
    var after := Skip(source, cursor, end, IsWhitespace);
    WhenClean(after != end, ErrorIn(UnexpectedCharacterAfterDoctypeName, source, after, position));
    CleanConcat(ErrorWhen(missing, error), DoctypeTail(source, cursor, end, position));
  }

  lemma DoctypeClean(source: string, position: Position)
    ensures Clean(ReadDoctype(source, position).errors)
  {
    hide Skip;
    hide LowerAll;
    hide ContentEnd;
    hide Advance;
    hide ReadIdentifier;
    hide StartsWithIgnoringCase;
    hide DoctypeTail;
    hide Clean;
    var end := ContentEnd(source);
    var keyword := if 9 < end then 9 else end;
    var early := ErrorWhen(keyword < end && !IsWhitespace(source[keyword]),
                           ErrorIn(InvalidDoctype, source, keyword, position));
    WhenClean(keyword < end && !IsWhitespace(source[keyword]), ErrorIn(InvalidDoctype, source, keyword, position));
    var nameStart := Skip(source, keyword, end, IsWhitespace);
    var nameEnd := Skip(source, nameStart, end, IsNotWhitespace);
    OneClean(ErrorIn(MissingDoctypeName, source, nameEnd, position));
    CleanConcat(early, [ErrorIn(MissingDoctypeName, source, nameEnd, position)]);
    var cursor := Skip(source, nameEnd, end, IsWhitespace);
    OneClean(ErrorIn(UnexpectedCharacterAfterDoctypeName, source, cursor, position));
    CleanConcat(early, [ErrorIn(UnexpectedCharacterAfterDoctypeName, source, cursor, position)]);
    if cursor < end && StartsWithIgnoringCase(source[cursor..end], "public") {
      PublicClean(source, cursor, end, position, early);
    }
    if cursor < end && StartsWithIgnoringCase(source[cursor..end], "system") {
      SystemClean(source, cursor, end, position, early);
    }
  }

  lemma PublicClean(source: string, cursor: nat, end: nat, position: Position, early: seq<ParseError>)
    requires cursor <= end <= |source| && StartsWithIgnoringCase(source[cursor..end], "public") && Clean(early)
    ensures var (publicId, afterPublic) := ReadIdentifier(source, cursor + 6, end);
            var (systemId, afterSystem) := ReadIdentifier(source, afterPublic, end);
            Clean(early + (ErrorWhen(publicId.None?, ErrorIn(InvalidDoctype, source, afterSystem, position))
                           + DoctypeTail(source, afterSystem, end, position)))
  {
    hide ReadIdentifier;
    hide DoctypeTail;
    var (publicId, afterPublic) := ReadIdentifier(source, cursor + 6, end);
    var (systemId, afterSystem) := ReadIdentifier(source, afterPublic, end);
    var error := ErrorIn(InvalidDoctype, source, afterSystem, position);
    DoctypeEndClean(publicId.None?, error, source, afterSystem, end, position);
    CleanConcat(early, ErrorWhen(publicId.None?, error) + DoctypeTail(source, afterSystem, end, position));
  }

  lemma SystemClean(source: string, cursor: nat, end: nat, position: Position, early: seq<ParseError>)
    requires cursor <= end <= |source| && StartsWithIgnoringCase(source[cursor..end], "system") && Clean(early)
    ensures var (systemId, afterSystem) := ReadIdentifier(source, cursor + 6, end);
            Clean(early + (ErrorWhen(systemId.None?, ErrorIn(InvalidDoctype, source, afterSystem, position))
                           + DoctypeTail(source, afterSystem, end, position)))
  {
    hide ReadIdentifier;
    hide DoctypeTail;
    var (systemId, afterSystem) := ReadIdentifier(source, cursor + 6, end);
    var error := ErrorIn(InvalidDoctype, source, afterSystem, position);
    DoctypeEndClean(systemId.None?, error, source, afterSystem, end, position);
    CleanConcat(early, ErrorWhen(systemId.None?, error) + DoctypeTail(source, afterSystem, end, position));
  }

  lemma TagStepClean(st: State, limits: Limits)
    requires |st.pending| >= 2
    ensures Clean(StepTag(st, true, limits).errors)
  {
    hide TagEnd;
    hide ReadStartTag;
    hide ReadEndTag;
    hide ReadDoctype;
    hide StartsWithIgnoringCase;
    hide Consumed;
    hide SpanOf;
    hide TextModeFor;
    hide Clean;
    var close := TagEnd(st.pending, 1, None);
    OneClean(ParseError(EofInTag, st.position));
    if close.Some? {
      var source := st.pending[..close.value + 1];
      if StartsWithIgnoringCase(source, "<!doctype") {
        DoctypeClean(source, st.position);
      } else if "</" <= source {
        EndTagClean(source, st.position);
      } else {
        StartTagClean(source, st.position, limits.maxAttributes);
      }
    }
  }

  lemma EmitClean(st: State, n: nat, kind: TextKind)
    requires n <= |st.pending|
    ensures Clean(EmitCharacters(st, n, kind).errors)
  {
    TextClean(st.pending[..n], st.position, kind);
  }

  lemma DataStepClean(st: State, limits: Limits)
    requires st.pending != []
    ensures StepData(st, true, limits).Go? ==> Clean(StepData(st, true, limits).errors)
  {
    var p := st.pending;
    if p[0] != '<' {
      var less := Find(p, "<", 0);
      EmitClean(st, if less.Some? then less.value else |p|, Decoded);
    } else {
      EmitClean(st, 1, Raw);
      CleanConcat([ParseError(InvalidFirstCharacterOfTagName, st.position)], EmitCharacters(st, 1, Raw).errors);
      if |p| >= 2 {
        TagStepClean(st, limits);
      }
    }
  }

  lemma StepClean(st: State, limits: Limits)
    requires st.pending != []
    ensures Step(st, true, limits).Go? ==> Clean(Step(st, true, limits).errors)
  {
    if st.mode == DataMode {
      DataStepClean(st, limits);
    } else {
      EmitClean(st, |st.pending|, Raw);
      EmitClean(st, |st.pending|, Decoded);
      if st.mode != PlainTextMode && FindEndTag(st.pending, st.mode.endTag, 0).Some? {
        EmitClean(st, FindEndTag(st.pending, st.mode.endTag, 0).value, Raw);
        EmitClean(st, FindEndTag(st.pending, st.mode.endTag, 0).value, Decoded);
      }
    }
  }

  /** Finishing never reports that the limit was exceeded. */
  lemma {:induction false} FinishClean(st: State, limits: Limits)
    ensures Clean(Drain(st, true, limits).errors)
    decreases Measure(st)
  {
    DrainUnfolds(st, true, limits);
    hide Step;
    if st.pending != [] && Step(st, true, limits).Go? {
      var go := Step(st, true, limits);
      StepClean(st, limits);
      FinishClean(go.next, limits);
      CleanConcat(go.errors, Drain(go.next, true, limits).errors);
    }
  }

  // ---- recovery always does -------------------------------------------------------------------------

  /** A token that outgrows the limit is given up, and that is reported. */
  lemma OutgrownIsReported(st: State, limits: Limits)
    requires Outgrown(st, limits)
    ensures Step(st, false, limits).Go? && !Clean(Step(st, false, limits).errors)
  {
    var p := st.pending;
    hide Find;
    hide TagEnd;
    hide Consumed;
    hide IsPrefixIgnoringCase;
    hide StartsWithIgnoringCase;
    assert Step(st, false, limits).Go? && Step(st, false, limits).errors
         == [ParseError(TokenLimitExceeded, st.position)];
    assert Step(st, false, limits).errors[0].code == TokenLimitExceeded;
  }

  lemma {:induction false} DrainReports(st: State, limits: Limits)
    requires !DrainFits(st, limits)
    ensures !Clean(Drain(st, false, limits).errors)
    decreases Measure(st)
  {
    DrainUnfolds(st, false, limits);
    if Outgrown(st, limits) {
      OutgrownIsReported(st, limits);
    }
    hide Step;
    hide Outgrown;
    var go := Step(st, false, limits);
    if !Outgrown(st, limits) {
      DrainReports(go.next, limits);
    }
    CleanConcat(go.errors, Drain(go.next, false, limits).errors);
  }

  lemma {:induction false} FeedReports(st: State, chunks: seq<string>, limits: Limits)
    requires !Fits(st, chunks, limits)
    ensures !Clean(FeedAll(st, chunks, limits).errors)
    decreases |chunks|
  {
    var first := Feed(st, chunks[0], limits);
    if DrainFits(At(st, chunks[0]), limits) {
      FeedReports(first.state, chunks[1..], limits);
    } else {
      DrainReports(At(st, chunks[0]), limits);
    }
    CleanConcat(first.errors, FeedAll(first.state, chunks[1..], limits).errors);
  }

  // ---- the exact condition ------------------------------------------------------------------------------

  /**
   For every input and every way to cut it: feeding the chunks and finishing is indistinguishable from finishing
   on the whole input if and only if no incomplete tag, comment or doctype outgrows the limit while chunks arrive.
   */
  lemma ChunksShowExactlyWhenOutgrown(st: State, chunks: seq<string>, limits: Limits)
    ensures Same(Tokenize(st, chunks, limits), Drain(At(st, Concat(chunks)), true, limits)) <==>
      Fits(st, chunks, limits)
  {
    if Fits(st, chunks, limits) {
      ChunksCannotBeObserved(st, chunks, limits);
    } else {
      FeedReports(st, chunks, limits);
      var fed := FeedAll(st, chunks, limits);
      CleanConcat(fed.errors, Drain(fed.state, true, limits).errors);
      FinishClean(At(st, Concat(chunks)), limits);
    }
  }

  /** Next to a way to cut the input that fits, another one agrees with it exactly if it fits too. */
  lemma AnyTwoChunkingsAgree(a: seq<string>, b: seq<string>, st: State, limits: Limits)
    requires Concat(a) == Concat(b) && Fits(st, a, limits)
    ensures Same(Tokenize(st, a, limits), Tokenize(st, b, limits)) <==> Fits(st, b, limits)
  {
    hide Tokenize;
    hide Drain;
    hide Fits;
    ChunksShowExactlyWhenOutgrown(st, a, limits);
    ChunksShowExactlyWhenOutgrown(st, b, limits);
  }

  // ---- inputs that fit, and inputs that do not -------------------------------------------------------------

  lemma {:induction false} ShortDrainsFit(st: State, limits: Limits)
    requires |st.pending| <= limits.maxTokenBytes
    ensures DrainFits(st, limits)
    decreases Measure(st)
  {
    hide Step;
    if st.pending != [] {
      StepProgress(st, false, limits);
      if Step(st, false, limits).Go? {
        ShortDrainsFit(Step(st, false, limits).next, limits);
      }
    }
  }

  /** An input no longer than the limit fits however it is cut, so its chunks cannot be observed. */
  lemma {:induction false} ShortInputsFit(st: State, chunks: seq<string>, limits: Limits)
    requires |st.pending| + |Concat(chunks)| <= limits.maxTokenBytes
    ensures Fits(st, chunks, limits)
    decreases |chunks|
  {
    if chunks != [] {
      ShortDrainsFit(At(st, chunks[0]), limits);
      ShortInputsFit(Feed(st, chunks[0], limits).state, chunks[1..], limits);
    }
  }

  function Dots(n: nat): (s: string)
    ensures |s| == n && forall i :: 0 <= i < n ==> s[i] == '.'
  {
    seq(n, i => '.')
  }

  lemma {:induction false} NoCloseInDots(s: string, from: nat)
    requires 4 <= from && forall i :: 4 <= i < |s| ==> s[i] == '.'
    ensures Find(s, "-->", from).None?
    decreases |s| - from
  {
    if from + 3 <= |s| {
      assert s[from..from + 3][2] == '.';
      NoCloseInDots(s, from + 1);
    }
  }

  /** Whatever the limit, a comment that is cut before its end and longer than the limit shows the cut. */
  lemma EveryLimitCanBeOutgrown(limits: Limits)
    ensures var start := State([], Position(0, 1, 1), DataMode);
            var opening := "<!--" + Dots(limits.maxTokenBytes);
            !Same(Tokenize(start, [opening, "-->"], limits), Drain(At(start, opening + "-->"), true, limits))
  {
    var start := State([], Position(0, 1, 1), DataMode);
    var opening := "<!--" + Dots(limits.maxTokenBytes);
    var chunks := [opening, "-->"];
    var held := At(start, opening);
    assert held.pending == opening;
    NoCloseInDots(opening, 4);
    assert Outgrown(held, limits);
    assert !Fits(start, chunks, limits);
    assert chunks[1..] == ["-->"] && ["-->"][1..] == [];
    assert Concat(["-->"]) == "-->" && Concat(chunks) == opening + "-->";
    ChunksShowExactlyWhenOutgrown(start, chunks, limits);
  }
}
