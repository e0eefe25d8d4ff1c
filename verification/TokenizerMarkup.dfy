/** What the tokenizer reads out of one complete tag or doctype, from its first character to its closing ">". */
module TokenizerMarkup {
  import opened Outcomes
  import opened Ascii
  import opened TokenizerText

  datatype Attribute = Attribute(name: string, value: string, span: Span)

  datatype Token =
    | Doctype(name: string, publicId: string, systemId: string, forceQuirks: bool)
    | StartTag(name: string, attributes: seq<Attribute>, selfClosing: bool)
    | EndTag(name: string)
    | Comment(data: string)
    | Character(data: string)

  /** Advances over a character class, but not past the end given. */
  function Skip(s: string, cursor: nat, end: nat, class_: char -> bool): (next: nat)
    requires end <= |s|
    ensures cursor <= next && (cursor <= end ==> next <= end)
    decreases end - cursor
  {
    if cursor < end && class_(s[cursor]) then Skip(s, cursor + 1, end, class_) else cursor
  }

  predicate IsTagNameChar(c: char) { !IsWhitespace(c) && c != '/' }

  predicate IsNotWhitespace(c: char) { !IsWhitespace(c) }

  predicate IsAttributeNameChar(c: char) { !IsWhitespace(c) && c != '=' && c != '/' }

  predicate IsNotSingleQuote(c: char) { c != '\'' }

  predicate IsNotDoubleQuote(c: char) { c != '"' }

  function SkipToQuote(s: string, cursor: nat, end: nat, quote: char): (next: nat)
    requires end <= |s|
    ensures cursor <= next && (cursor <= end ==> next <= end)
  {
    if quote == '"' then Skip(s, cursor, end, IsNotDoubleQuote) else Skip(s, cursor, end, IsNotSingleQuote)
  }

  function LastIndexOf(s: string, c: char): (k: int)
    ensures -1 <= k < |s|
  {
    if s == [] then -1 else if s[|s| - 1] == c then |s| - 1 else LastIndexOf(s[..|s| - 1], c)
  }

  function ContentEnd(source: string): (end: nat)
    ensures end <= |source|
  {
    if LastIndexOf(source, '>') < 0 then |source| else LastIndexOf(source, '>')
  }

  function ErrorIn(code: ErrorCode, source: string, offset: nat, position: Position): ParseError {
    ParseError(code, Advance(position, source[..if offset < |source| then offset else |source|]))
  }

  function ErrorWhen(condition: bool, error: ParseError): seq<ParseError> {
    if condition then [error] else []
  }

  function NormalizeNewlines(s: string): string
    decreases |s|
  {
    if s == [] then []
    else if s[0] == '\r' then "\n" + NormalizeNewlines(if |s| > 1 && s[1] == '\n' then s[2..] else s[1..])
    else [s[0]] + NormalizeNewlines(s[1..])
  }

  // ---- attributes ---------------------------------------------------------------------

  datatype AttributeValueAt = AttributeValueAt(value: string, cursor: nat, errors: seq<ParseError>)

  function UnquotedErrors(source: string, from: nat, end: nat, position: Position): seq<ParseError>
    requires from <= end <= |source|
    decreases end - from
  {
    if from == end then []
    else
      ErrorWhen(source[from] in {'"', '\'', '<', '=', '`'},
          ErrorIn(UnexpectedCharacterInUnquotedAttributeValue, source, from, position))
      + UnquotedErrors(source, from + 1, end, position)
  }

  /** The value after an attribute name that ends at the cursor. */
  function ReadValue(source: string, nameEnd: nat, end: nat, position: Position): (v: AttributeValueAt)
    requires nameEnd <= end <= |source|
    ensures nameEnd <= v.cursor <= end
  {
    var equals := Skip(source, nameEnd, end, IsWhitespace);
    if equals >= end || source[equals] != '=' then AttributeValueAt([], equals, [])
    else
      var start := Skip(source, equals + 1, end, IsWhitespace);
      if start >= end then AttributeValueAt([], start, [ErrorIn(MissingAttributeValue, source, start, position)])
      else if source[start] == '"' || source[start] == '\'' then
        var close := SkipToQuote(source, start + 1, end, source[start]);
        var text := TextOf(source[start + 1..close], Advance(position, source[..start + 1]), AttributeValue);
        if close < end then AttributeValueAt(text.data, close + 1, text.errors)
        else AttributeValueAt(text.data, close, text.errors + [ErrorIn(EofInTag, source, close, position)])
      else
        var close := Skip(source, start, end, IsNotWhitespace);
        var text := TextOf(source[start..close], Advance(position, source[..start]), AttributeValue);
        AttributeValueAt(text.data, close, UnquotedErrors(source, start, close, position) + text.errors)
  }

  datatype Attributes = Attributes(list: seq<Attribute>, selfClosing: bool, errors: seq<ParseError>)

  function Reporting(errors: seq<ParseError>, rest: Attributes): Attributes {
    rest.(errors := errors + rest.errors)
  }

  /** The attribute loop of a start tag; a repeated name or one attribute too many is dropped. */
  function ReadAttributes(source: string, cursor: nat, end: nat, position: Position, limit: nat, list: seq<Attribute>)
    : Attributes
    requires cursor <= end <= |source|
    decreases end - cursor
  {
    var start := Skip(source, cursor, end, IsWhitespace);
    if start >= end then Attributes(list, false, [])
    else if source[start] == '/' then
      var next := Skip(source, start + 1, end, IsWhitespace);
      Attributes(list, true,
                 ErrorWhen(next < end, ErrorIn(UnexpectedCharacterInUnquotedAttributeValue, source, next, position)))
    else
      var early := ErrorWhen(source[start] == '=',
                             ErrorIn(UnexpectedEqualsSignBeforeAttributeName, source, start, position));
      var nameEnd := Skip(source, start, end, IsAttributeNameChar);
      if nameEnd == start then Reporting(early, ReadAttributes(source, start + 1, end, position, limit, list))
      else
        var name := LowerAll(source[start..nameEnd]);
        var v := ReadValue(source, nameEnd, end, position);
        if exists i :: 0 <= i < |list| && list[i].name == name then
          Reporting(early + v.errors + [ErrorIn(DuplicateAttribute, source, start, position)],
                    ReadAttributes(source, v.cursor, end, position, limit, list))
        else if |list| >= limit then
          Reporting(early + v.errors + [ErrorIn(AttributeLimitExceeded, source, start, position)],
                    ReadAttributes(source, v.cursor, end, position, limit, list))
        else
          var span := Span(Advance(position, source[..start]), Advance(position, source[..v.cursor]));
          Reporting(early + v.errors, ReadAttributes(source, v.cursor, end, position, limit, list
              + [Attribute(name, v.value, span)]))
  }

  // ---- tags ------------------------------------------------------------------------------

  /** A token (none for an end tag without a name) and the errors reading it reports. */
  datatype Markup = Markup(token: Option<Token>, errors: seq<ParseError>)

  function ReadStartTag(source: string, position: Position, limit: nat): Markup
    requires |source| > 0
  {
    var end := ContentEnd(source);
    var nameEnd := Skip(source, 1, end, IsTagNameChar);
    if end < nameEnd then Markup(Some(StartTag([], [], false)), [])
    else
      var attributes := ReadAttributes(source, nameEnd, end, position, limit, []);
      Markup(Some(StartTag(LowerAll(source[1..nameEnd]), attributes.list, attributes.selfClosing)), attributes.errors)
  }

  function ReadEndTag(source: string, position: Position): Markup
    requires |source| > 1
  {
    var end := ContentEnd(source);
    var nameStart := Skip(source, 2, end, IsWhitespace);
    var nameEnd := Skip(source, nameStart, end, IsTagNameChar);
    var name := if nameEnd <= |source| then LowerAll(source[nameStart..nameEnd]) else [];
    var after := Skip(source, nameEnd, end, IsWhitespace);
    var trailing :=
      if after >= end then []
      else
        var kind := if source[after] == '/' then EndTagWithTrailingSolidus else EndTagWithAttributes;
        [ErrorIn(kind, source, after, position), ErrorIn(UnexpectedCharacterAfterEndTagName, source, after, position)];
    Markup(
      if name == [] then None else Some(EndTag(name)),
      ErrorWhen(name == [], ErrorIn(MissingEndTagName, source, nameEnd, position)) + trailing)
  }

  // ---- doctypes -----------------------------------------------------------------------------

  /** A quoted identifier at the cursor, if there is one, and where reading it leaves the cursor. */
  function ReadIdentifier(source: string, cursor: nat, end: nat): (r: (Option<string>, nat))
    requires cursor <= end <= |source|
    ensures cursor <= r.1 <= end
  {
    var open := Skip(source, cursor, end, IsWhitespace);
    if open >= end || (source[open] != '"' && source[open] != '\'') then (None, open)
    else
      var close := SkipToQuote(source, open + 1, end, source[open]);
      if close >= end then (None, close) else (Some(NormalizeNewlines(source[open + 1..close])), close + 1)
  }

  predicate StartsWithIgnoringCase(s: string, prefix: string) {
    |prefix| <= |s| && LowerAll(s[..|prefix|]) == LowerAll(prefix)
  }

  function OrEmpty(s: Option<string>): string {
    if s.Some? then s.value else []
  }

  function DoctypeTail(source: string, cursor: nat, end: nat, position: Position): seq<ParseError>
    requires cursor <= end <= |source|
  {
    var after := Skip(source, cursor, end, IsWhitespace);
    ErrorWhen(after != end, ErrorIn(UnexpectedCharacterAfterDoctypeName, source, after, position))
  }

  function ReadDoctype(source: string, position: Position): Markup {
    var end := ContentEnd(source);
    var keyword := if 9 < end then 9 else end;
    var early := ErrorWhen(keyword < end && !IsWhitespace(source[keyword]),
                           ErrorIn(InvalidDoctype, source, keyword, position));
    var nameStart := Skip(source, keyword, end, IsWhitespace);
    var nameEnd := Skip(source, nameStart, end, IsNotWhitespace);
    var name := LowerAll(source[nameStart..nameEnd]);
    if name == [] then
      Markup(Some(Doctype(name, [], [], true)), early + [ErrorIn(MissingDoctypeName, source, nameEnd, position)])
    else
      var quirks := name != "html";
      var cursor := Skip(source, nameEnd, end, IsWhitespace);
      var remainder := source[cursor..end];
      if cursor == end then Markup(Some(Doctype(name, [], [], quirks)), early)
      else if StartsWithIgnoringCase(remainder, "public") then
        var (publicId, afterPublic) := ReadIdentifier(source, cursor + 6, end);
        var (systemId, afterSystem) := ReadIdentifier(source, afterPublic, end);
        var errors := ErrorWhen(publicId.None?, ErrorIn(InvalidDoctype, source, afterSystem, position))
            + DoctypeTail(source, afterSystem, end, position);
        Markup(Some(Doctype(name, OrEmpty(publicId), OrEmpty(systemId), quirks || errors != [])), early + errors)
      else if StartsWithIgnoringCase(remainder, "system") then
        var (systemId, afterSystem) := ReadIdentifier(source, cursor + 6, end);
        var errors := ErrorWhen(systemId.None?, ErrorIn(InvalidDoctype, source, afterSystem, position))
            + DoctypeTail(source, afterSystem, end, position);
        Markup(Some(Doctype(name, [], OrEmpty(systemId), quirks || errors != [])), early + errors)
      else
        Markup(Some(Doctype(name, [], [], true)), early
            + [ErrorIn(UnexpectedCharacterAfterDoctypeName, source, cursor, position)])
  }
}
