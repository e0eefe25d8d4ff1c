/**
 Documents written out and tokenized: the tokenizer gives back exactly the tags, attributes, comments, doctypes and
 text that were written, with their spans and without errors.
 */
module TokenizerRoundTrip {
  import opened Outcomes
  import opened Ascii
  import opened TokenizerText
  import opened TokenizerMarkup
  import opened Tokenizer
  import opened TokenizerWriting

  // ---- where a tag ends ---------------------------------------------------------------------------

  lemma {:induction false} TagEndRun(s: string, from: nat, to: nat)
    requires from <= to <= |s|
    requires forall j :: from <= j < to ==> s[j] != '\'' && s[j] != '"' && s[j] != '>'
    ensures TagEnd(s, from, None) == TagEnd(s, to, None)
    decreases |s| - from
  {
    if from < to {
      TagEndRun(s, from + 1, to);
    }
  }

  lemma {:induction false} TagEndQuoted(s: string, from: nat, close: nat)
    requires from <= close < |s| && forall j :: from <= j < close ==> s[j] != s[close]
    ensures TagEnd(s, from, Some(s[close])) == TagEnd(s, close + 1, None)
    decreases |s| - from
  {
    if from < close {
      TagEndQuoted(s, from + 1, close);
    }
  }

  lemma TagEndName(s: string, from: nat, name: string)
    requires IsName(name) && from + |name| <= |s| && s[from..from + |name|] == name
    ensures TagEnd(s, from, None) == TagEnd(s, from + |name|, None)
  {
    forall j | from <= j < from + |name|
      ensures s[j] != '\'' && s[j] != '"' && s[j] != '>'
    {
      assert s[j] == s[from..from + |name|][j - from];
    }
    TagEndRun(s, from, from + |name|);
  }

  lemma TagEndOpensQuote(s: string, at: nat)
    requires at < |s| && (s[at] == '"' || s[at] == '\'')
    ensures TagEnd(s, at, None) == TagEnd(s, at + 1, Some(s[at]))
  {
  }

  /** The search passes over a written name with its equals sign. */
  lemma TagEndNamed(s: string, cursor: nat, name: string)
    requires IsName(name) && cursor + 2 + |name| <= |s|
    requires s[cursor] == ' ' && s[cursor + 1..cursor + 1 + |name|] == name && s[cursor + 1 + |name|] == '='
    ensures TagEnd(s, cursor, None) == TagEnd(s, cursor + 2 + |name|, None)
  {
    hide TagEnd;
    hide IsName;
    TagEndRun(s, cursor, cursor + 1);
    TagEndName(s, cursor + 1, name);
    TagEndRun(s, cursor + 1 + |name|, cursor + 2 + |name|);
  }

  lemma TagEndValue(s: string, from: nat, a: Pair)
    requires WritableOne(a)
    requires var d, n := |Delimiter(a.quoting)|, |ValueText(a)|;
             && from + n + 2 * d <= |s| && s[from + d..from + d + n] == ValueText(a)
             && (d == 1 ==> s[from] == s[from + 1 + n] == Delimiter(a.quoting)[0])
    ensures TagEnd(s, from, None) == TagEnd(s, from + |ValueText(a)| + 2 * |Delimiter(a.quoting)|, None)
  {
    hide TagEnd;
    hide IsName;
    hide Plain;
    ValueIsClear(a);
    hide ValueText;
    var d, n := |Delimiter(a.quoting)|, |ValueText(a)|;
    if a.quoting.Unquoted? {
      SliceIsBare(s, from, ValueText(a));
      TagEndRun(s, from, from + n);
    } else {
      SliceLacks(s, from + 1, ValueText(a), Delimiter(a.quoting)[0]);
      TagEndOpensQuote(s, from);
      TagEndQuoted(s, from + 1, from + 1 + n);
    }
  }

  lemma TagEndAttribute(s: string, cursor: nat, a: Pair)
    requires WritableOne(a)
    requires cursor + |Written(a)| <= |s| && s[cursor..cursor + |Written(a)|] == Written(a)
    ensures TagEnd(s, cursor, None) == TagEnd(s, cursor + |Written(a)|, None)
  {
    hide TagEnd;
    hide IsName;
    hide Plain;
    hide Written;
    hide ValueText;
    hide Delimiter;
    DelimiterLength(a.quoting);
    WrittenParts(s, cursor, a);
    TagEndNamed(s, cursor, a.name);
    TagEndValue(s, cursor + 2 + |a.name|, a);
  }

  lemma {:induction false} TagEndAttributes(s: string, cursor: nat, attributes: seq<Pair>)
    requires Writable(attributes)
    requires cursor + |WrittenAll(attributes)| <= |s|
    requires s[cursor..cursor + |WrittenAll(attributes)|] == WrittenAll(attributes)
    ensures TagEnd(s, cursor, None) == TagEnd(s, cursor + |WrittenAll(attributes)|, None)
    decreases |attributes|
  {
    hide TagEnd;
    hide Written;
    hide WritableOne;
    if attributes != [] {
      var a, rest := attributes[0], attributes[1..];
      var piece, next := s[cursor..cursor + |WrittenAll(attributes)|], cursor + |Written(a)|;
      assert s[cursor..next] == piece[..|Written(a)|] == Written(a);
      assert s[next..next + |WrittenAll(rest)|] == piece[|Written(a)|..] == WrittenAll(rest);
      TagEndAttribute(s, cursor, a);
      assert forall i :: 0 <= i < |rest| ==> rest[i] == attributes[i + 1];
      TagEndAttributes(s, next, rest);
    }
  }

  lemma OpeningEnds(name: string, attributes: seq<Pair>, closed: bool, rest: string)
    requires IsTagName(name) && Writable(attributes)
    ensures TagEnd(Opening(name, attributes, closed) + rest, 1, None) == Some(|Opening(name, attributes, closed)| - 1)
  {
    OpeningParts(name, attributes, closed);
    var source := Opening(name, attributes, closed);
    var s, nameEnd, end := source + rest, 1 + |name|, |source| - 1;
    hide Opening;
    hide WrittenAll;
    hide Solidus;
    hide IsName;
    hide Writable;
    var middle := nameEnd + |WrittenAll(attributes)|;
    assert s[1..nameEnd] == source[1..nameEnd] && s[end] == '>';
    assert s[nameEnd..end] == source[nameEnd..end] == WrittenAll(attributes) + Solidus(closed);
    assert s[nameEnd..middle] == s[nameEnd..end][..middle - nameEnd] == WrittenAll(attributes);
    assert s[middle..end] == s[nameEnd..end][middle - nameEnd..] == Solidus(closed);
    TagEndName(s, 1, name);
    TagEndAttributes(s, nameEnd, attributes);
    TagEndSolidus(s, middle, end, closed);
  }

  lemma TagEndSolidus(s: string, cursor: nat, end: nat, closed: bool)
    requires cursor <= end <= |s| && s[cursor..end] == Solidus(closed)
    ensures TagEnd(s, cursor, None) == TagEnd(s, end, None)
  {
    forall j | cursor <= j < end
      ensures s[j] != '\'' && s[j] != '"' && s[j] != '>'
    {
      assert s[j] == s[cursor..end][j - cursor];
    }
    TagEndRun(s, cursor, end);
  }

  lemma ClosingEnds(name: string, rest: string)
    requires IsTagName(name)
    ensures TagEnd(Closing(name) + rest, 1, None) == Some(|Closing(name)| - 1)
  {
    var s := Closing(name) + rest;
    assert s[2..2 + |name|] == name && s[1] == '/' && s[2 + |name|] == '>';
    TagEndRun(s, 1, 2);
    hide IsName;
    TagEndName(s, 2, name);
  }

  // ---- one step a piece ----------------------------------------------------------------------------

  /** The tokenizer takes the source at the front of its input in one step, for one token. */
  predicate Takes(st: State, source: string, mode: Mode, token: Token, limits: Limits) {
    && source != [] && source <= st.pending
    && var end := Advance(st.position, source);
       Step(st, true, limits)
       == Go(State(st.pending[|source|..], end, mode), [SpannedToken(token, Span(st.position, end))], [])
  }

  /** A tag at the front of the input, once it is known what its reader finds. */
  lemma TagStep(st: State, source: string, rest: string, token: Token, limits: Limits)
    requires st.mode == DataMode && st.pending == source + rest && |source| > 1
    requires TagEnd(st.pending, 1, None) == Some(|source| - 1)
    requires (if StartsWithIgnoringCase(source, "<!doctype") then ReadDoctype(source, st.position)
              else if "</" <= source then ReadEndTag(source, st.position)
              else ReadStartTag(source, st.position, limits.maxAttributes)) == Markup(Some(token), [])
    ensures var end := Advance(st.position, source);
            var mode := if token.StartTag? && !token.selfClosing then TextModeFor(token.name) else DataMode;
            StepTag(st, true, limits) == Go(State(rest, end, mode), [SpannedToken(token, Span(st.position, end))], [])
  {
    assert st.pending[..|source|] == source && st.pending[|source|..] == rest;
    hide TagEnd;
    hide ReadDoctype;
    hide ReadEndTag;
    hide ReadStartTag;
    hide StartsWithIgnoringCase;
    hide Advance;
    hide TextModeFor;
    var end := Advance(st.position, source);
    var mode := if token.StartTag? && !token.selfClosing then TextModeFor(token.name) else DataMode;
    assert StepTag(st, true, limits)
        == Go(State(rest, end, mode), [SpannedToken(token, Span(st.position, end))], []);
  }

  lemma NotADeclaration(p: string)
    requires |p| > 1 && p[1] != '!'
    ensures !StartsWithIgnoringCase(p, "<!doctype") && !("<!--" <= p)
  {
    assert |p| >= 9 ==> LowerAll(p[..9])[1] != LowerAll("<!doctype")[1];
  }

  lemma DataTagStep(st: State, limits: Limits)
    requires st.mode == DataMode && |st.pending| > 1 && st.pending[0] == '<' && !("<!--" <= st.pending)
    requires StartsWithIgnoringCase(st.pending, "<!doctype") || "</" <= st.pending || IsAlpha(st.pending[1])
    ensures Step(st, true, limits) == StepTag(st, true, limits)
  {
    hide StartsWithIgnoringCase;
    hide IsPrefixIgnoringCase;
    hide StepTag;
    hide IsAlpha;
  }

  /** A tag at the front of the input is taken whole. */
  lemma FrontTag(st: State, source: string, rest: string, token: Token, limits: Limits)
    requires st.mode == DataMode && st.pending == source + rest && |source| > 1
    requires st.pending[0] == '<' && !("<!--" <= st.pending)
    requires StartsWithIgnoringCase(st.pending, "<!doctype") || "</" <= st.pending || IsAlpha(st.pending[1])
    requires TagEnd(st.pending, 1, None) == Some(|source| - 1)
    requires (if StartsWithIgnoringCase(source, "<!doctype") then ReadDoctype(source, st.position)
              else if "</" <= source then ReadEndTag(source, st.position)
              else ReadStartTag(source, st.position, limits.maxAttributes)) == Markup(Some(token), [])
    ensures Takes(st, source, if token.StartTag? && !token.selfClosing then TextModeFor(token.name) else DataMode,
                  token, limits)
  {
    hide TagEnd;
    hide ReadDoctype;
    hide ReadEndTag;
    hide ReadStartTag;
    hide StartsWithIgnoringCase;
    hide StepTag;
    hide Step;
    hide Advance;
    hide TextModeFor;
    hide IsAlpha;
    DataTagStep(st, limits);
    TagStep(st, source, rest, token, limits);
    assert st.pending[|source|..] == rest;
    assert Takes(st, source, if token.StartTag? && !token.selfClosing then TextModeFor(token.name) else DataMode,
                 token, limits);
  }

  lemma OpeningOpens(name: string, attributes: seq<Pair>, closed: bool, rest: string)
    requires IsTagName(name)
    ensures var source := Opening(name, attributes, closed);
            var p := source + rest;
            && |source| > 1 && p[0] == '<' && IsAlpha(p[1]) && !("<!--" <= p) && !("</" <= source)
            && !StartsWithIgnoringCase(source, "<!doctype")
  {
    OpeningParts(name, attributes, closed);
    hide Opening;
    hide WrittenAll;
    hide Solidus;
    hide StartsWithIgnoringCase;
    var source := Opening(name, attributes, closed);
    assert source[1] == source[1..1 + |name|][0] == name[0];
    NotADeclaration(source);
    NotADeclaration(source + rest);
  }

  lemma OpeningLength(name: string, attributes: seq<Pair>, closed: bool)
    ensures 1 + |name| + |WrittenAll(attributes)| <= |Opening(name, attributes, closed)|
  {
  }

  lemma OpeningStep(name: string, attributes: seq<Pair>, closed: bool, rest: string, position: Position,
                    limits: Limits)
    requires IsTagName(name) && Writable(attributes) && |attributes| <= limits.maxAttributes
    ensures 1 + |name| + |WrittenAll(attributes)| <= |Opening(name, attributes, closed)|
    ensures var source := Opening(name, attributes, closed);
            Takes(State(source + rest, position, DataMode), source, if closed then DataMode else TextModeFor(name),
                  StartTag(name, Listed(source, 1 + |name|, attributes, position), closed), limits)
  {
    hide *;
    OpeningLength(name, attributes, closed);
    OpeningOpens(name, attributes, closed, rest);
    OpeningEnds(name, attributes, closed, rest);
    StartTagReads(name, attributes, closed, position, limits.maxAttributes);
    var source := Opening(name, attributes, closed);
    var token := StartTag(name, Listed(source, 1 + |name|, attributes, position), closed);
    FrontTag(State(source + rest, position, DataMode), source, rest, token, limits);
    var mode := if closed then DataMode else TextModeFor(name);
    assert Takes(State(source + rest, position, DataMode), source, mode, token, limits);
  }

  lemma ClosingStep(name: string, rest: string, position: Position, limits: Limits)
    requires IsTagName(name)
    ensures Takes(State(Closing(name) + rest, position, DataMode), Closing(name), DataMode, EndTag(name), limits)
  {
    ClosingEnds(name, rest);
    EndTagReads(name, position);
    var source := Closing(name);
    var st := State(source + rest, position, DataMode);
    assert source[1] == '/' && "</" <= source && "</" <= st.pending;
    NotADeclaration(source);
    NotADeclaration(st.pending);
    hide *;
    FrontTag(st, source, rest, EndTag(name), limits);
    assert Takes(st, source, DataMode, EndTag(name), limits);
  }

  // ---- comments and doctypes -----------------------------------------------------------------------

  predicate OccursAt(s: string, pattern: string, i: nat) {
    i + |pattern| <= |s| && s[i..i + |pattern|] == pattern
  }

  ghost predicate Contains(s: string, pattern: string) {
    exists i: nat :: OccursAt(s, pattern, i)
  }

  function Commented(data: string): string {
    "<!--" + data + "-->"
  }

  lemma {:induction false} FindAt(s: string, pattern: string, from: nat, at: nat)
    requires from <= at && OccursAt(s, pattern, at)
    requires forall i: nat :: from <= i < at ==> !OccursAt(s, pattern, i)
    ensures Find(s, pattern, from) == Some(at)
    decreases |s| - from
  {
    if from < at {
      assert !OccursAt(s, pattern, from);
      FindAt(s, pattern, from + 1, at);
    }
  }

  /** The first "-->" after the opening is the one that was written there. */
  lemma CommentEnds(data: string, rest: string)
    requires !Contains(data, "-->")
    ensures Find(Commented(data) + rest, "-->", 4) == Some(4 + |data|)
  {
    var s, at := Commented(data) + rest, 4 + |data|;
    assert s[at] == '-' && s[at + 1] == '-' && s[at + 2] == '>';
    assert s[at..at + 3] == "-->";
    assert forall k :: 4 <= k < at ==> s[k] == data[k - 4];
    forall i: nat | 4 <= i < at
      ensures !OccursAt(s, "-->", i)
    {
      if OccursAt(s, "-->", i) {
        assert s[i] == s[i..i + 3][0] && s[i + 1] == s[i..i + 3][1] && s[i + 2] == s[i..i + 3][2];
        assert data[i - 4..i - 1] == "-->";
        assert OccursAt(data, "-->", i - 4);
      }
    }
    FindAt(s, "-->", 4, at);
  }

  lemma CommentStep(data: string, rest: string, position: Position, limits: Limits)
    requires !Contains(data, "-->") && '\r' !in data
    ensures Takes(State(Commented(data) + rest, position, DataMode), Commented(data), DataMode, Comment(data), limits)
  {
    CommentEnds(data, rest);
    PlainNewlines(data);
    var source := Commented(data);
    var st := State(source + rest, position, DataMode);
    assert st.pending[4..4 + |data|] == data;
    assert st.pending[..|source|] == source && st.pending[|source|..] == rest;
    assert "<!--" <= st.pending;
    hide Find;
    hide NormalizeNewlines;
    hide Advance;
    hide IsPrefixIgnoringCase;
    hide Commented;
    assert Takes(st, source, DataMode, Comment(data), limits);
  }

  lemma DeclarationEnds(name: string, publicId: Option<string>, systemId: Option<string>, rest: string)
    requires IsName(name)
    requires (publicId.Some? ==> IsIdentifier(publicId.value)) && (systemId.Some? ==> IsIdentifier(systemId.value))
    ensures var source := Declaration(name, publicId, systemId);
            TagEnd(source + rest, 1, None) == Some(|source| - 1)
  {
    DeclarationParts(name, publicId, systemId);
    var source, ids := Declaration(name, publicId, systemId), Identifiers(publicId, systemId);
    var s, nameEnd, end := source + rest, 10 + |name|, |source| - 1;
    hide Declaration;
    assert s[..9] == source[..9] && s[9] == ' ' && s[10..nameEnd] == source[10..nameEnd];
    assert s[nameEnd..end] == source[nameEnd..end] && s[end] == '>';
    forall j | 1 <= j < 10
      ensures s[j] != '\'' && s[j] != '"' && s[j] != '>'
    {
      if j < 9 { assert s[j] == s[..9][j] == "<!DOCTYPE"[j]; }
    }
    TagEndRun(s, 1, 10);
    hide IsName;
    TagEndName(s, 10, name);
    TagEndIdentifiers(s, nameEnd, end, publicId, systemId);
  }

  lemma TagEndQuotedAt(s: string, cursor: nat, id: string)
    requires IsIdentifier(id) && cursor + |Quoted(id)| <= |s| && s[cursor..cursor + |Quoted(id)|] == Quoted(id)
    ensures TagEnd(s, cursor, None) == TagEnd(s, cursor + |Quoted(id)|, None)
  {
    var piece, close := s[cursor..cursor + |Quoted(id)|], cursor + 2 + |id|;
    assert forall k :: 0 <= k < |piece| ==> s[cursor + k] == piece[k];
    assert piece[0] == ' ' && piece[1] == '"' && piece[2 + |id|] == '"';
    TagEndRun(s, cursor, cursor + 1);
    forall j | cursor + 2 <= j < close
      ensures s[j] != '"'
    {
      assert s[j] == piece[j - cursor] == id[j - cursor - 2];
      assert id[j - cursor - 2] in id;
    }
    TagEndQuoted(s, cursor + 2, close);
  }

  lemma TagEndKeyword(s: string, cursor: nat, keyword: string)
    requires keyword == " PUBLIC" || keyword == " SYSTEM"
    requires cursor + 7 <= |s| && s[cursor..cursor + 7] == keyword
    ensures TagEnd(s, cursor, None) == TagEnd(s, cursor + 7, None)
  {
    forall j | cursor <= j < cursor + 7
      ensures s[j] != '\'' && s[j] != '"' && s[j] != '>'
    {
      assert s[j] == s[cursor..cursor + 7][j - cursor] == keyword[j - cursor];
    }
    TagEndRun(s, cursor, cursor + 7);
  }

  lemma TagEndIdentifiers(s: string, cursor: nat, end: nat, publicId: Option<string>, systemId: Option<string>)
    requires (publicId.Some? ==> IsIdentifier(publicId.value)) && (systemId.Some? ==> IsIdentifier(systemId.value))
    requires cursor <= end <= |s| && s[cursor..end] == Identifiers(publicId, systemId)
    ensures TagEnd(s, cursor, None) == TagEnd(s, end, None)
  {
    hide TagEnd;
    hide Quoted;
    hide IsIdentifier;
    if publicId.Some? {
      var quoted, tail := Quoted(publicId.value), if systemId.Some? then Quoted(systemId.value) else [];
      Slices(s, cursor, end, " PUBLIC", quoted, tail);
      TagEndKeyword(s, cursor, " PUBLIC");
      TagEndQuotedAt(s, cursor + 7, publicId.value);
      if systemId.Some? {
        TagEndQuotedAt(s, cursor + 7 + |quoted|, systemId.value);
      }
    } else if systemId.Some? {
      assert s[cursor..end] == " SYSTEM" + Quoted(systemId.value) + [];
      Slices(s, cursor, end, " SYSTEM", Quoted(systemId.value), []);
      TagEndKeyword(s, cursor, " SYSTEM");
      TagEndQuotedAt(s, cursor + 7, systemId.value);
    }
  }

  lemma DoctypeOpens(p: string)
    requires "<!DOCTYPE" <= p
    ensures StartsWithIgnoringCase(p, "<!doctype") && !("<!--" <= p)
  {
    assert p[..9] == "<!DOCTYPE" && p[2] == 'D';
    assert LowerAll("<!DOCTYPE") == "<!doctype" == LowerAll("<!doctype");
  }

  lemma DoctypeStep(name: string, publicId: Option<string>, systemId: Option<string>, rest: string,
                    position: Position, limits: Limits)
    requires IsName(name)
    requires (publicId.Some? ==> IsIdentifier(publicId.value)) && (systemId.Some? ==> IsIdentifier(systemId.value))
    ensures var source := Declaration(name, publicId, systemId);
            Takes(State(source + rest, position, DataMode), source, DataMode,
                  Doctype(name, OrEmpty(publicId), OrEmpty(systemId), name != "html"), limits)
  {
    hide *;
    DeclarationOpens(name, publicId, systemId, rest);
    DeclarationEnds(name, publicId, systemId, rest);
    DoctypeReads(name, publicId, systemId, position);
    var source := Declaration(name, publicId, systemId);
    var token := Doctype(name, OrEmpty(publicId), OrEmpty(systemId), name != "html");
    FrontTag(State(source + rest, position, DataMode), source, rest, token, limits);
    assert Takes(State(source + rest, position, DataMode), source, DataMode, token, limits);
  }

  lemma DeclarationOpens(name: string, publicId: Option<string>, systemId: Option<string>, rest: string)
    requires IsName(name)
    ensures var source := Declaration(name, publicId, systemId);
            var p := source + rest;
            && |source| > 1 && p[0] == '<' && !("<!--" <= p)
            && StartsWithIgnoringCase(source, "<!doctype") && StartsWithIgnoringCase(p, "<!doctype")
  {
    DeclarationParts(name, publicId, systemId);
    hide Declaration;
    hide Identifiers;
    hide IsName;
    var source := Declaration(name, publicId, systemId);
    assert (source + rest)[..9] == source[..9];
    hide StartsWithIgnoringCase;
    DoctypeOpens(source);
    DoctypeOpens(source + rest);
  }

  // ---- text --------------------------------------------------------------------------------------------

  lemma EmitsPlainly(st: State, source: string, text: string, kind: TextKind)
    requires source != [] && source <= st.pending && text != []
    requires TextOf(source, st.position, kind) == Text(text, [])
    ensures var end := Advance(st.position, source);
            EmitCharacters(st, |source|, kind)
            == Go(State(st.pending[|source|..], end, st.mode),
                  [SpannedToken(Character(text), Span(st.position, end))], [])
  {
    assert st.pending[..|source|] == source;
    hide TextOf;
    hide Advance;
  }

  lemma RunEnds(source: string, rest: string)
    requires '<' !in source && source != [] && (rest == [] || rest[0] == '<')
    ensures var p := source + rest;
            p[0] != '<' && Find(p, "<", 0) == if rest == [] then None else Some(|source|)
  {
    var p := source + rest;
    FindFirst(p, '<', 0);
    hide Find;
    forall i | 0 <= i < |source|
      ensures p[i] != '<'
    {
      assert source[i] in source;
    }
    assert rest != [] ==> p[|source|] == '<';
  }

  /** A run of text up to the next tag or the end. */
  lemma RunStep(text: string, rest: string, position: Position, limits: Limits)
    requires Plain(text) && text != [] && (rest == [] || rest[0] == '<')
    ensures var source := Encoded(text, '<');
            Takes(State(source + rest, position, DataMode), source, DataMode, Character(text), limits)
  {
    EncodedIsPlain(text, '<');
    EncodedReads(text, '<', position, Decoded);
    var source := Encoded(text, '<');
    var st := State(source + rest, position, DataMode);
    RunEnds(source, rest);
    hide Plain;
    hide Encoded;
    hide TextOf;
    hide Advance;
    hide Find;
    hide SafeTextPrefix;
    EmitsPlainly(st, source, text, Decoded);
    hide EmitCharacters;
    assert Takes(st, source, DataMode, Character(text), limits);
  }

  // ---- elements whose content is text --------------------------------------------------------------------

  predicate IsWord(name: string) {
    name != [] && forall i :: 0 <= i < |name| ==> 'a' <= name[i] <= 'z'
  }

  /** Nowhere in the text does an end tag of that name begin. */
  predicate Endless(text: string, name: string) {
    forall i :: 0 <= i && i + 2 + |name| <= |text| && text[i] == '<' && text[i + 1] == '/' ==>
      LowerAll(text[i + 2..i + 2 + |name|]) != name
  }

  lemma NoEarlierEndTag(text: string, name: string, rest: string, i: nat)
    requires IsWord(name) && Endless(text, name) && i < |text|
    ensures !IsEndTagAt(text + Closing(name) + rest, i, name)
  {
    var s := text + Closing(name) + rest;
    assert LowerAll(name) == name;
    assert s[|text|] == '<';
    if i + 2 + |name| <= |text| {
      assert s[i] == text[i] && s[i + 1] == text[i + 1];
      assert s[i + 2..i + 2 + |name|] == text[i + 2..i + 2 + |name|];
    } else if i + 1 < |text| && i + 2 + |name| <= |s| {
      var k := |text| - i - 2;
      assert LowerAll(s[i + 2..i + 2 + |name|])[k] == Lower(s[|text|]) == '<';
      assert name[k] != '<';
    }
  }

  lemma EndTagFound(text: string, name: string, rest: string)
    requires IsWord(name) && Endless(text, name)
    ensures FindEndTag(text + Closing(name) + rest, name, 0) == Some(|text|)
  {
    var s := text + Closing(name) + rest;
    forall i | 0 <= i < |text|
      ensures !IsEndTagAt(s, i, name)
    {
      NoEarlierEndTag(text, name, rest, i);
    }
    var n := |text| + 2 + |name|;
    assert s[|text|] == '<' && s[|text| + 1] == '/' && s[n] == '>' && s[|text| + 2..n] == name;
    assert IsEndTagAt(s, |text|, name);
    hide IsEndTagAt;
    hide FindEndTag;
  }

  /** The mode that is left again at the end tag of the name. */
  predicate Until(mode: Mode, name: string) {
    mode == RawTextMode(name) || mode == RcDataMode(name)
  }

  function KindIn(mode: Mode): TextKind {
    if mode.RcDataMode? then Decoded else Raw
  }

  lemma ContentStep(source: string, text: string, name: string, rest: string, position: Position, mode: Mode,
                    limits: Limits)
    requires IsWord(name) && Endless(source, name) && Until(mode, name) && source != [] && text != []
    requires TextOf(source, position, KindIn(mode)) == Text(text, [])
    ensures Takes(State(source + Closing(name) + rest, position, mode), source, mode, Character(text), limits)
  {
    EndTagFound(source, name, rest);
    hide TextOf;
    hide Advance;
    hide FindEndTag;
    hide Closing;
    hide Endless;
    hide IsWord;
    var st := State(source + Closing(name) + rest, position, mode);
    EmitsPlainly(st, source, text, KindIn(mode));
    hide EmitCharacters;
    assert Takes(st, source, mode, Character(text), limits);
  }

  lemma ModeEnds(name: string, rest: string, position: Position, mode: Mode, limits: Limits)
    requires IsWord(name) && Until(mode, name)
    ensures var st := State(Closing(name) + rest, position, mode);
            st.pending != [] && Step(st, true, limits) == Go(st.(mode := DataMode), [], [])
  {
    assert [] + Closing(name) + rest == Closing(name) + rest;
    EndTagFound([], name, rest);
    hide FindEndTag;
  }

  lemma WordIsTagName(name: string)
    requires IsWord(name)
    ensures IsTagName(name)
  {
  }

  function TokenOf(text: string, start: Position, end: Position): seq<SpannedToken> {
    if text == [] then [] else [SpannedToken(Character(text), Span(start, end))]
  }

  lemma TakenDrains(st: State, source: string, mode: Mode, token: Token, limits: Limits)
    requires Takes(st, source, mode, token, limits)
    ensures var end := Advance(st.position, source);
            Drain(st, true, limits)
            == Before([SpannedToken(token, Span(st.position, end))], [],
                      Drain(State(st.pending[|source|..], end, mode), true, limits))
  {
    hide Step;
    hide Advance;
    hide Drain;
    DrainUnfolds(st, true, limits);
  }

  /** Content and end tag of an element whose content is text. */
  lemma ContentDrains(source: string, text: string, name: string, rest: string, position: Position, mode: Mode,
                      limits: Limits)
    requires IsWord(name) && Endless(source, name) && Until(mode, name) && (source == [] <==> text == [])
    requires TextOf(source, position, KindIn(mode)) == Text(text, [])
    ensures var middle := Advance(position, source);
            var end := Advance(middle, Closing(name));
            Drain(State(source + Closing(name) + rest, position, mode), true, limits)
            == Before(TokenOf(text, position, middle) + [SpannedToken(EndTag(name), Span(middle, end))], [],
                      Drain(State(rest, end, DataMode), true, limits))
  {
    hide TextOf;
    hide Endless;
    hide Drain;
    hide Step;
    hide Takes;
    hide IsWord;
    var closing := Closing(name);
    hide Closing;
    var middle := Advance(position, source);
    var end := Advance(middle, closing);
    var st := State(source + closing + rest, position, mode);
    var inside := State(closing + rest, middle, mode);
    if source == [] {
      assert st == inside;
      assert TokenOf(text, position, middle) == [];
    } else {
      hide Advance;
      ContentStep(source, text, name, rest, position, mode, limits);
      TakenDrains(st, source, mode, Character(text), limits);
      assert st.pending[|source|..] == closing + rest;
    }
    hide Advance;
    ModeEnds(name, rest, middle, mode, limits);
    DrainUnfolds(inside, true, limits);
    WordIsTagName(name);
    ClosingStep(name, rest, middle, limits);
    TakenDrains(inside.(mode := DataMode), closing, DataMode, EndTag(name), limits);
    assert inside.pending[|closing|..] == rest;
    var last := Drain(State(rest, end, DataMode), true, limits);
    var tag := [SpannedToken(EndTag(name), Span(middle, end))];
    assert Drain(inside, true, limits) == Before([], [], Before(tag, [], last)) == Before(tag, [], last);
    BeforeTwice(TokenOf(text, position, middle), tag, last);
    assert Drain(st, true, limits) == Before(TokenOf(text, position, middle) + tag, [], last);
  }

  lemma BeforeTwice(a: seq<SpannedToken>, b: seq<SpannedToken>, rest: Output)
    ensures Before(a, [], Before(b, [], rest)) == Before(a + b, [], rest)
    ensures Before([], [], rest) == rest
  {
    assert a + (b + rest.tokens) == (a + b) + rest.tokens;
    assert [] + ([] + rest.errors) == [] + rest.errors;
  }

  // ---- whole documents -----------------------------------------------------------------------------------

  /** What a document is written from. */
  datatype Piece =
    | StartPiece(name: string, attributes: seq<Pair>, closed: bool)
    | EndPiece(name: string)
    | CommentPiece(data: string)
    | DoctypePiece(name: string, publicId: Option<string>, systemId: Option<string>)
    | TextPiece(text: string)
    | VerbatimPiece(name: string, attributes: seq<Pair>, text: string)
    | EscapedPiece(name: string, attributes: seq<Pair>, text: string)

  predicate IsVerbatim(name: string) {
    name in {"script", "style", "xmp", "iframe", "noembed", "noframes"}
  }

  predicate IsEscaped(name: string) {
    name in {"title", "textarea"}
  }

  ghost predicate Presentable(p: Piece, limits: Limits) {
    match p
    case StartPiece(name, attributes, closed) =>
      && IsTagName(name) && Writable(attributes) && |attributes| <= limits.maxAttributes
      && (!closed ==> !IsVerbatim(name) && !IsEscaped(name) && name != "plaintext")
    case EndPiece(name) => IsTagName(name)
    case CommentPiece(data) => !Contains(data, "-->") && '\r' !in data
    case DoctypePiece(name, publicId, systemId) =>
      && IsName(name)
      && (publicId.Some? ==> IsIdentifier(publicId.value)) && (systemId.Some? ==> IsIdentifier(systemId.value))
    case TextPiece(text) => Plain(text) && text != []
    case VerbatimPiece(name, attributes, text) =>
      && IsVerbatim(name) && Writable(attributes) && |attributes| <= limits.maxAttributes
      && Plain(text) && Endless(text, name)
    case EscapedPiece(name, attributes, text) =>
      IsEscaped(name) && Writable(attributes) && |attributes| <= limits.maxAttributes && Plain(text)
  }

  function Source(p: Piece): string {
    match p
    case StartPiece(name, attributes, closed) => Opening(name, attributes, closed)
    case EndPiece(name) => Closing(name)
    case CommentPiece(data) => Commented(data)
    case DoctypePiece(name, publicId, systemId) => Declaration(name, publicId, systemId)
    case TextPiece(text) => Encoded(text, '<')
    case VerbatimPiece(name, attributes, text) => Opening(name, attributes, false) + text + Closing(name)
    case EscapedPiece(name, attributes, text) => Opening(name, attributes, false) + Encoded(text, '<') + Closing(name)
  }

  function Spanned(token: Token, start: Position, source: string): SpannedToken {
    SpannedToken(token, Span(start, Advance(start, source)))
  }

  function Opened(name: string, attributes: seq<Pair>, closed: bool, position: Position): SpannedToken {
    var source := Opening(name, attributes, closed);
    Spanned(StartTag(name, Listed(source, 1 + |name|, attributes, position), closed), position, source)
  }

  /** Start tag, text (if any) and end tag of an element whose content is text, written as `source`. */
  function Element(name: string, attributes: seq<Pair>, text: string, source: string, position: Position)
    : seq<SpannedToken>
  {
    var start := Advance(position, Opening(name, attributes, false));
    var middle := Advance(start, source);
    [Opened(name, attributes, false, position)] + TokenOf(text, start, middle)
    + [Spanned(EndTag(name), middle, Closing(name))]
  }

  /** The tokens of a piece that is written at a position. */
  function Tokens(p: Piece, position: Position): seq<SpannedToken> {
    match p
    case StartPiece(name, attributes, closed) => [Opened(name, attributes, closed, position)]
    case EndPiece(name) => [Spanned(EndTag(name), position, Source(p))]
    case CommentPiece(data) => [Spanned(Comment(data), position, Source(p))]
    case DoctypePiece(name, publicId, systemId) =>
      [Spanned(Doctype(name, OrEmpty(publicId), OrEmpty(systemId), name != "html"), position, Source(p))]
    case TextPiece(text) => [Spanned(Character(text), position, Source(p))]
    case VerbatimPiece(name, attributes, text) => Element(name, attributes, text, text, position)
    case EscapedPiece(name, attributes, text) => Element(name, attributes, text, Encoded(text, '<'), position)
  }

  function PositionAfter(p: Piece, position: Position): Position {
    match p
    case VerbatimPiece(name, attributes, text) =>
      Advance(Advance(Advance(position, Opening(name, attributes, false)), text), Closing(name))
    case EscapedPiece(name, attributes, text) =>
      Advance(Advance(Advance(position, Opening(name, attributes, false)), Encoded(text, '<')), Closing(name))
    case _ => Advance(position, Source(p))
  }

  /** An element whose content is text is read back whole. */
  lemma ElementDrains(name: string, attributes: seq<Pair>, text: string, source: string, mode: Mode, rest: string,
                      position: Position, limits: Limits)
    requires IsWord(name) && Writable(attributes) && |attributes| <= limits.maxAttributes
    requires mode == TextModeFor(name) && Until(mode, name)
    requires Endless(source, name) && (source == [] <==> text == [])
    requires forall at :: TextOf(source, at, KindIn(mode)) == Text(text, [])
    ensures var start := Advance(position, Opening(name, attributes, false));
            var end := Advance(Advance(start, source), Closing(name));
            Drain(State(Opening(name, attributes, false) + source + Closing(name) + rest, position, DataMode), true,
                  limits)
            == Before(Element(name, attributes, text, source, position), [],
                      Drain(State(rest, end, DataMode), true, limits))
  {
    hide TextOf;
    hide Endless;
    hide Drain;
    hide Takes;
    hide IsWord;
    hide Advance;
    hide Opening;
    hide Closing;
    hide TextModeFor;
    hide Listed;
    hide Writable;
    WordIsTagName(name);
    var opening, tail := Opening(name, attributes, false), source + Closing(name) + rest;
    var st := State(opening + tail, position, DataMode);
    assert opening + source + Closing(name) + rest == opening + tail;
    OpeningStep(name, attributes, false, tail, position, limits);
    var token := StartTag(name, Listed(opening, 1 + |name|, attributes, position), false);
    TakenDrains(st, opening, mode, token, limits);
    assert st.pending[|opening|..] == tail;
    var start := Advance(position, opening);
    ContentDrains(source, text, name, rest, start, mode, limits);
    var middle := Advance(start, source);
    var last := Drain(State(rest, Advance(middle, Closing(name)), DataMode), true, limits);
    var content := TokenOf(text, start, middle) + [Spanned(EndTag(name), middle, Closing(name))];
    BeforeTwice([Opened(name, attributes, false, position)], content, last);
    assert [Opened(name, attributes, false, position)] + content == Element(name, attributes, text, source, position);
    assert Drain(st, true, limits) == Before(Element(name, attributes, text, source, position), [], last);
  }

  lemma NamesOfTextElements(name: string)
    ensures IsVerbatim(name) ==> IsWord(name) && TextModeFor(name) == RawTextMode(name)
    ensures IsEscaped(name) ==> IsWord(name) && TextModeFor(name) == RcDataMode(name)
    ensures name == "plaintext" ==> IsWord(name) && TextModeFor(name) == PlainTextMode
    ensures !IsVerbatim(name) && !IsEscaped(name) && name != "plaintext" ==> TextModeFor(name) == DataMode
  {
  }

  lemma EncodedIsEndless(text: string, name: string)
    requires Plain(text)
    ensures Endless(Encoded(text, '<'), name)
  {
    EncodedIsPlain(text, '<');
    var source := Encoded(text, '<');
    forall i | 0 <= i < |source|
      ensures source[i] != '<'
    {
      assert source[i] in source;
    }
  }

  lemma VerbatimDrains(name: string, attributes: seq<Pair>, text: string, rest: string, position: Position,
                       limits: Limits)
    requires Presentable(VerbatimPiece(name, attributes, text), limits)
    ensures var p := VerbatimPiece(name, attributes, text);
            Drain(State(Source(p) + rest, position, DataMode), true, limits)
            == Before(Tokens(p, position), [], Drain(State(rest, PositionAfter(p, position), DataMode), true, limits))
  {
    NamesOfTextElements(name);
    forall at
      ensures TextOf(text, at, Raw) == Text(text, [])
    {
      RawReads(text, at);
    }
    hide Drain;
    hide TextOf;
    hide Advance;
    hide IsVerbatim;
    ElementDrains(name, attributes, text, text, RawTextMode(name), rest, position, limits);
  }

  lemma EscapedDrains(name: string, attributes: seq<Pair>, text: string, rest: string, position: Position,
                      limits: Limits)
    requires Presentable(EscapedPiece(name, attributes, text), limits)
    ensures var p := EscapedPiece(name, attributes, text);
            Drain(State(Source(p) + rest, position, DataMode), true, limits)
            == Before(Tokens(p, position), [], Drain(State(rest, PositionAfter(p, position), DataMode), true, limits))
  {
    NamesOfTextElements(name);
    EncodedIsPlain(text, '<');
    EncodedIsEndless(text, name);
    forall at
      ensures TextOf(Encoded(text, '<'), at, Decoded) == Text(text, [])
    {
      EncodedReads(text, '<', at, Decoded);
    }
    hide Drain;
    hide TextOf;
    hide Advance;
    hide IsEscaped;
    assert text == [] ==> Encoded(text, '<') == [];
    hide Encoded;
    ElementDrains(name, attributes, text, Encoded(text, '<'), RcDataMode(name), rest, position, limits);
  }

  /** A piece that the tokenizer takes in one step. */
  lemma SinglePieceTaken(p: Piece, rest: string, position: Position, limits: Limits) returns (token: Token)
    requires Presentable(p, limits) && !p.VerbatimPiece? && !p.EscapedPiece?
    requires p.TextPiece? ==> rest == [] || rest[0] == '<'
    ensures Tokens(p, position) == [Spanned(token, position, Source(p))]
    ensures Takes(State(Source(p) + rest, position, DataMode), Source(p), DataMode, token, limits)
  {
    hide Takes;
    hide Advance;
    hide IsName;
    hide Writable;
    hide Contains;
    token := Tokens(p, position)[0].token;
    match p
    case StartPiece(name, attributes, closed) =>
      NamesOfTextElements(name);
      OpeningStep(name, attributes, closed, rest, position, limits);
    case EndPiece(name) => ClosingStep(name, rest, position, limits);
    case CommentPiece(data) => CommentStep(data, rest, position, limits);
    case DoctypePiece(name, publicId, systemId) => DoctypeStep(name, publicId, systemId, rest, position, limits);
    case TextPiece(text) => RunStep(text, rest, position, limits);
  }

  lemma PieceDrains(p: Piece, rest: string, position: Position, limits: Limits)
    requires Presentable(p, limits) && (p.TextPiece? ==> rest == [] || rest[0] == '<')
    ensures Drain(State(Source(p) + rest, position, DataMode), true, limits)
         == Before(Tokens(p, position), [], Drain(State(rest, PositionAfter(p, position), DataMode), true, limits))
  {
    if p.VerbatimPiece? {
      VerbatimDrains(p.name, p.attributes, p.text, rest, position, limits);
    } else if p.EscapedPiece? {
      EscapedDrains(p.name, p.attributes, p.text, rest, position, limits);
    } else {
      hide Drain;
      hide Presentable;
      hide Source;
      hide Tokens;
      hide Takes;
      hide Advance;
      var token := SinglePieceTaken(p, rest, position, limits);
      TakenDrains(State(Source(p) + rest, position, DataMode), Source(p), DataMode, token, limits);
      assert (Source(p) + rest)[|Source(p)|..] == rest;
      assert PositionAfter(p, position) == Advance(position, Source(p));
      assert Drain(State(Source(p) + rest, position, DataMode), true, limits)
          == Before(Tokens(p, position), [], Drain(State(rest, PositionAfter(p, position), DataMode), true, limits));
    }
  }

  function SourceOf(pieces: seq<Piece>): string {
    if pieces == [] then [] else Source(pieces[0]) + SourceOf(pieces[1..])
  }

  function TokensOf(pieces: seq<Piece>, position: Position): seq<SpannedToken>
    decreases |pieces|
  {
    if pieces == [] then []
    else Tokens(pieces[0], position) + TokensOf(pieces[1..], PositionAfter(pieces[0], position))
  }

  function EndOf(pieces: seq<Piece>, position: Position): Position
    decreases |pieces|
  {
    if pieces == [] then position else EndOf(pieces[1..], PositionAfter(pieces[0], position))
  }

  /** Pieces in a row, no two runs of text next to each other: these would be read as one. */
  ghost predicate Document(pieces: seq<Piece>, limits: Limits) {
    && (forall i :: 0 <= i < |pieces| ==> Presentable(pieces[i], limits))
    && forall i :: 0 < i < |pieces| ==> !(pieces[i - 1].TextPiece? && pieces[i].TextPiece?)
  }

  lemma TagsOpen(p: Piece)
    requires !p.TextPiece?
    ensures Source(p) != [] && Source(p)[0] == '<'
  {
  }

  /** A written document is read back exactly: every token with its span, nothing else, and no errors. */
  lemma {:induction false} DocumentReads(pieces: seq<Piece>, position: Position, limits: Limits)
    requires Document(pieces, limits)
    ensures Drain(State(SourceOf(pieces), position, DataMode), true, limits)
         == Output(State([], EndOf(pieces, position), DataMode), TokensOf(pieces, position), [])
    decreases |pieces|
  {
    if pieces != [] {
      hide Drain;
      hide Presentable;
      hide Source;
      hide Tokens;
      hide PositionAfter;
      var p, rest := pieces[0], pieces[1..];
      assert Document(rest, limits) by {
        assert forall i :: 0 <= i < |rest| ==> rest[i] == pieces[i + 1];
      }
      if p.TextPiece? && rest != [] {
        assert !pieces[1].TextPiece?;
        TagsOpen(rest[0]);
      }
      PieceDrains(p, SourceOf(rest), position, limits);
      DocumentReads(rest, PositionAfter(p, position), limits);
      assert Drain(State(SourceOf(pieces), position, DataMode), true, limits)
          == Output(State([], EndOf(pieces, position), DataMode), TokensOf(pieces, position), []);
    }
  }

  /** However the document arrives, if no piece outgrows the token limit on the way. */
  lemma ChunkedDocumentReads(pieces: seq<Piece>, chunks: seq<string>, position: Position, limits: Limits)
    requires Document(pieces, limits) && Concat(chunks) == SourceOf(pieces)
    requires Fits(State([], position, DataMode), chunks, limits)
    ensures Same(Tokenize(State([], position, DataMode), chunks, limits),
                 Output(State([], EndOf(pieces, position), DataMode), TokensOf(pieces, position), []))
  {
    hide Drain;
    hide Same;
    hide Fits;
    hide Document;
    hide Tokenize;
    var st := State([], position, DataMode);
    assert At(st, Concat(chunks)) == State(SourceOf(pieces), position, DataMode);
    ChunksCannotBeObserved(st, chunks, limits);
    DocumentReads(pieces, position, limits);
  }

  lemma PlainModeReads(name: string, attributes: seq<Pair>, text: string, position: Position, limits: Limits)
    requires IsTagName(name) && TextModeFor(name) == PlainTextMode
    requires Writable(attributes) && |attributes| <= limits.maxAttributes && Plain(text)
    ensures var start := Advance(position, Opening(name, attributes, false));
            var end := Advance(start, text);
            Drain(State(Opening(name, attributes, false) + text, position, DataMode), true, limits)
            == Output(State([], end, PlainTextMode),
                      [Opened(name, attributes, false, position)] + TokenOf(text, start, end), [])
  {
    hide Drain;
    hide Takes;
    hide Opening;
    hide Listed;
    hide Writable;
    hide Advance;
    hide TextModeFor;
    hide IsTagName;
    hide Plain;
    OpeningStep(name, attributes, false, text, position, limits);
    var opening := Opening(name, attributes, false);
    var token := StartTag(name, Listed(opening, 1 + |name|, attributes, position), false);
    var st, start := State(opening + text, position, DataMode), Advance(position, opening);
    var end := Advance(start, text);
    assert st.pending[|opening|..] == text;
    PlaintextContent(text, start, limits);
    TakenDrains(st, opening, PlainTextMode, token, limits);
    assert Drain(st, true, limits) == Output(State([], end, PlainTextMode),
        [Opened(name, attributes, false, position)] + TokenOf(text, start, end), []);
  }

  /** After a plaintext tag everything is text. */
  lemma PlaintextReads(name: string, attributes: seq<Pair>, text: string, position: Position, limits: Limits)
    requires name == "plaintext"
    requires Writable(attributes) && |attributes| <= limits.maxAttributes && Plain(text)
    ensures var start := Advance(position, Opening(name, attributes, false));
            var end := Advance(start, text);
            Drain(State(Opening(name, attributes, false) + text, position, DataMode), true, limits)
            == Output(State([], end, PlainTextMode),
                      [Opened(name, attributes, false, position)] + TokenOf(text, start, end), [])
  {
    NamesOfTextElements(name);
    WordIsTagName(name);
    hide *;
    PlainModeReads(name, attributes, text, position, limits);
  }

  lemma PlaintextContent(text: string, position: Position, limits: Limits)
    requires Plain(text)
    ensures var end := Advance(position, text);
            Drain(State(text, position, PlainTextMode), true, limits)
            == Output(State([], end, PlainTextMode), TokenOf(text, position, end), [])
  {
    var st := State(text, position, PlainTextMode);
    if text != [] {
      RawReads(text, position);
      hide TextOf;
      EmitsPlainly(st, text, text, Raw);
      hide EmitCharacters;
      assert st.pending[|text|..] == [];
      DrainUnfolds(st, true, limits);
    }
  }
}
