/**
 Source positions, character references and newline normalisation, over ASCII
 text with one byte per character, and where text may be cut in two.
 */
module TokenizerText {
  import opened Outcomes
  import opened Ascii

  datatype Position = Position(byte: nat, line: nat, column: nat)

  datatype Span = Span(start: Position, end: Position)

  datatype ErrorCode =
    | UnexpectedNullCharacter
    | InvalidFirstCharacterOfTagName
    | EofInTag
    | EofInComment
    | IncorrectlyOpenedComment
    | MissingDoctypeName
    | InvalidDoctype
    | UnexpectedCharacterAfterDoctypeName
    | MissingEndTagName
    | UnexpectedCharacterAfterEndTagName
    | UnexpectedEqualsSignBeforeAttributeName
    | MissingAttributeValue
    | UnexpectedCharacterInUnquotedAttributeValue
    | DuplicateAttribute
    | EndTagWithAttributes
    | EndTagWithTrailingSolidus
    | UnknownNamedCharacterReference
    | AbsenceOfDigitsInNumericCharacterReference
    | MissingSemicolonAfterCharacterReference
    | NullCharacterReference
    | CharacterReferenceOutsideUnicodeRange
    | SurrogateCharacterReference
    | ControlCharacterReference
    | TokenLimitExceeded
    | AttributeLimitExceeded

  datatype ParseError = ParseError(code: ErrorCode, position: Position)

  // ---- positions ---------------------------------------------------------------------

  /** Carriage return, line feed and the pair of them each count as one newline. */
  function Advance(p: Position, source: string): Position
    decreases |source|
  {
    if source == [] then p
    else if source[0] == '\r' && |source| > 1 && source[1] == '\n' then
      Advance(Position(p.byte + 2, p.line + 1, 1), source[2..])
    else if source[0] == '\r' || source[0] == '\n' then
      Advance(Position(p.byte + 1, p.line + 1, 1), source[1..])
    else
      Advance(Position(p.byte + 1, p.line, p.column + 1), source[1..])
  }

  /** The cut falls inside a carriage return, line feed pair. */
  predicate SplitsNewline(x: string, y: string) {
    |x| > 0 && |y| > 0 && x[|x| - 1] == '\r' && y[0] == '\n'
  }

  lemma {:induction false} AdvanceSplit(p: Position, x: string, y: string)
    requires !SplitsNewline(x, y)
    ensures Advance(p, x + y) == Advance(Advance(p, x), y)
    decreases |x|
  {
    if x == [] {
      assert x + y == y;
    } else {
      var n := if x[0] == '\r' && |x| > 1 && x[1] == '\n' then 2 else 1;
      assert (x + y)[n..] == x[n..] + y;
      var step := if x[0] == '\r' || x[0] == '\n' then Position(p.byte + n, p.line + 1, 1)
          else Position(p.byte + 1, p.line, p.column + 1);
      AdvanceSplit(step, x[n..], y);
    }
  }

  /** A line ends at a line feed, and at a carriage return that none follows. */
  predicate EndsLine(source: string, i: nat)
    requires i < |source|
  {
    source[i] == '\n' || (source[i] == '\r' && !(i + 1 < |source| && source[i + 1] == '\n'))
  }

  /** The lines that end among the first k characters. */
  function LinesEnded(source: string, k: nat): nat
    requires k <= |source|
  {
    if k == 0 then 0 else LinesEnded(source, k - 1) + if EndsLine(source, k - 1) then 1 else 0
  }

  lemma {:induction false} LinesEndedAfter(source: string, n: nat, k: nat)
    requires n <= k <= |source|
    ensures LinesEnded(source, k) == LinesEnded(source, n) + LinesEnded(source[n..], k - n)
    decreases k
  {
    if n < k {
      LinesEndedAfter(source, n, k - 1);
      assert EndsLine(source, k - 1) == EndsLine(source[n..], k - 1 - n);
    }
  }

  /**
   A position counts every character, every line that ended, and the characters since the last of them: `last` is
   where the last line begins.
   */
  lemma {:induction false} PositionsCount(p: Position, source: string, last: nat)
    requires last <= |source| && (last == 0 || EndsLine(source, last - 1))
    requires forall i :: last <= i < |source| ==> !EndsLine(source, i)
    ensures var end := Advance(p, source);
            && end.byte == p.byte + |source|
            && end.line == p.line + LinesEnded(source, |source|)
            && end.column == (if last == 0 then p.column else 1) + |source| - last
    decreases |source|
  {
    if source != [] {
      var n := if source[0] == '\r' && |source| > 1 && source[1] == '\n' then 2 else 1;
      var rest := source[n..];
      assert forall i :: 0 <= i < |rest| ==> EndsLine(rest, i) == EndsLine(source, i + n);
      LinesEndedAfter(source, n, |source|);
      assert LinesEnded(source, 1) == if EndsLine(source, 0) then 1 else 0;
      if last == 0 {
        assert !EndsLine(source, n - 1);
        PositionsCount(Position(p.byte + 1, p.line, p.column + 1), rest, 0);
      } else {
        assert n == 2 ==> !EndsLine(source, 0);
        var step := if EndsLine(source, n - 1) then Position(p.byte + n, p.line + 1, 1)
                    else Position(p.byte + 1, p.line, p.column + 1);
        PositionsCount(step, rest, last - n);
      }
    }
  }

  // ---- character classes ----------------------------------------------------------------

  /** What a reference that is still open can consist of. */
  predicate IsReferenceChar(c: char) { IsAlphanumeric(c) || c == '#' }

  /** The first index from i on whose character is not in the class, or the end. */
  function ScanWhile(s: string, i: nat, class_: char -> bool): (end: nat)
    requires i <= |s|
    ensures i <= end <= |s|
    ensures forall j :: i <= j < end ==> class_(s[j])
    ensures end < |s| ==> !class_(s[end])
    decreases |s| - i
  {
    if i < |s| && class_(s[i]) then ScanWhile(s, i + 1, class_) else i
  }

  /** Scanning stops at the same place in a longer text, if it stops or the new text stops it. */
  lemma {:induction false} ScanExtends(x: string, y: string, i: nat, class_: char -> bool)
    requires i <= |x|
    requires ScanWhile(x, i, class_) < |x| || y == [] || !class_(y[0])
    ensures ScanWhile(x + y, i, class_) == ScanWhile(x, i, class_)
    decreases |x| - i
  {
    if i < |x| && class_(x[i]) {
      ScanExtends(x, y, i + 1, class_);
    }
  }

  // ---- character references -----------------------------------------------------------------

  function NamedReference(name: string): Option<string> {
    if name == "amp" || name == "AMP" then Some("&")
    else if name == "lt" || name == "LT" then Some("<")
    else if name == "gt" || name == "GT" then Some(">")
    else if name == "quot" || name == "QUOT" then Some("\"")
    else if name == "apos" then Some("'")
    else if name == "nbsp" then Some("\U{00A0}")
    else if name == "copy" || name == "COPY" then Some("\U{00A9}")
    else if name == "reg" || name == "REG" then Some("\U{00AE}")
    else if name == "hellip" then Some("\U{2026}")
    else if name == "ndash" then Some("\U{2013}")
    else if name == "mdash" then Some("\U{2014}")
    else None
  }

  const WINDOWS_1252: map<nat, char> := map[
    0x80 := '\U{20AC}', 0x82 := '\U{201A}', 0x83 := '\U{0192}', 0x84 := '\U{201E}', 0x85 := '\U{2026}',
    0x86 := '\U{2020}', 0x87 := '\U{2021}', 0x88 := '\U{02C6}', 0x89 := '\U{2030}', 0x8A := '\U{0160}',
    0x8B := '\U{2039}', 0x8C := '\U{0152}', 0x8E := '\U{017D}', 0x91 := '\U{2018}', 0x92 := '\U{2019}',
    0x93 := '\U{201C}', 0x94 := '\U{201D}', 0x95 := '\U{2022}', 0x96 := '\U{2013}', 0x97 := '\U{2014}',
    0x98 := '\U{02DC}', 0x99 := '\U{2122}', 0x9A := '\U{0161}', 0x9B := '\U{203A}', 0x9C := '\U{0153}',
    0x9E := '\U{017E}', 0x9F := '\U{0178}']

  const REPLACEMENT: char := '\U{FFFD}'

  /** The character a numeric reference stands for, and the errors it reports. */
  function Sanitize(value: nat): (char, seq<ErrorCode>) {
    if value == 0 then (REPLACEMENT, [NullCharacterReference])
    else if value > 0x10FFFF then (REPLACEMENT, [CharacterReferenceOutsideUnicodeRange])
    else if 0xD800 <= value <= 0xDFFF then (REPLACEMENT, [SurrogateCharacterReference])
    else if value in WINDOWS_1252 then (WINDOWS_1252[value], [ControlCharacterReference])
    else (value as char, [])
  }

  function DigitValue(c: char): nat {
    if IsDigit(c) then c as int - '0' as int
    else if 'a' <= c <= 'f' then c as int - 'a' as int + 10
    else if 'A' <= c <= 'F' then c as int - 'A' as int + 10
    else 0
  }

  function Digits(s: string, radix: nat): nat {
    if s == [] then 0 else Digits(s[..|s| - 1], radix) * radix + DigitValue(s[|s| - 1])
  }

  const U32_MAX: nat := 0xFFFF_FFFF

  /** A reference's value; one that does not fit 32 bits reads as the largest. */
  function NumericValue(s: string, radix: nat): nat {
    if Digits(s, radix) > U32_MAX then U32_MAX else Digits(s, radix)
  }

  function ErrorsAt(codes: seq<ErrorCode>, position: Position): seq<ParseError> {
    seq(|codes|, i requires 0 <= i < |codes| => ParseError(codes[i], position))
  }

  /** The replacement of the next piece of text, the errors it reports and the characters it uses up. */
  datatype Unit = Unit(text: string, errors: seq<ParseError>, consumed: nat)

  /** "&" that starts no reference. */
  function Bare(codes: seq<ErrorCode>, position: Position): Unit {
    Unit("&", ErrorsAt(codes, position), 1)
  }

  function NumericUnit(s: string, position: Position): Unit
    requires |s| > 1 && s[0] == '&' && s[1] == '#'
  {
    var hex := |s| > 2 && (s[2] == 'x' || s[2] == 'X');
    var start := if hex then 3 else 2;
    var end := if hex then ScanWhile(s, start, IsHexDigit) else ScanWhile(s, start, IsDigit);
    if end == start then Bare([AbsenceOfDigitsInNumericCharacterReference], position)
    else
      var semicolon := end < |s| && s[end] == ';';
      var (c, codes) := Sanitize(NumericValue(s[start..end], if hex then 16 else 10));
      Unit([c], ErrorsAt((if semicolon then [] else [MissingSemicolonAfterCharacterReference]) + codes, position),
           if semicolon then end + 1 else end)
  }

  function NamedUnit(s: string, position: Position, inAttribute: bool): Unit
    requires |s| > 0 && s[0] == '&'
  {
    var end := ScanWhile(s, 1, IsAlphanumeric);
    if end == 1 then Bare([], position)
    else
      var semicolon := end < |s| && s[end] == ';';
      var replacement := NamedReference(s[1..end]);
      if replacement.None? then Bare(if semicolon then [UnknownNamedCharacterReference] else [], position)
      else if semicolon then Unit(replacement.value, [], end + 1)
      else if inAttribute && end < |s| && (IsAlphanumeric(s[end]) || s[end] == '=') then Bare([], position)
      else Unit(replacement.value, ErrorsAt([MissingSemicolonAfterCharacterReference], position), end)
  }

  function ReferenceUnit(s: string, position: Position, inAttribute: bool): Unit
    requires |s| > 0 && s[0] == '&'
  {
    if |s| > 1 && s[1] == '#' then NumericUnit(s, position) else NamedUnit(s, position, inAttribute)
  }

  function RawUnit(s: string, position: Position): Unit
    requires |s| > 0
  {
    if s[0] == '\0' then Unit([REPLACEMENT], ErrorsAt([UnexpectedNullCharacter], position), 1)
    else if s[0] == '\r' then Unit("\n", [], if |s| > 1 && s[1] == '\n' then 2 else 1)
    else Unit([s[0]], [], 1)
  }

  datatype TextKind = Raw | Decoded | AttributeValue

  function NextUnit(s: string, position: Position, kind: TextKind): Unit
    requires |s| > 0
  {
    if kind != Raw && s[0] == '&' then ReferenceUnit(s, position, kind == AttributeValue) else RawUnit(s, position)
  }

  lemma UnitProgress(s: string, position: Position, kind: TextKind)
    requires |s| > 0
    ensures var u := NextUnit(s, position, kind); 1 <= u.consumed <= |s| && |u.text| > 0
  {
  }

  datatype Text = Text(data: string, errors: seq<ParseError>)

  function Join(a: Text, b: Text): Text {
    Text(a.data + b.data, a.errors + b.errors)
  }

  /** Text as it is emitted: references decoded (unless raw), nulls replaced, newlines normalised. */
  function TextOf(s: string, position: Position, kind: TextKind): Text
    decreases |s|
  {
    if s == [] then Text([], [])
    else
      UnitProgress(s, position, kind);
      var u := NextUnit(s, position, kind);
      Join(Text(u.text, u.errors), TextOf(s[u.consumed..], Advance(position, s[..u.consumed]), kind))
  }

  lemma TextStep(s: string, position: Position, kind: TextKind)
    requires s != []
    ensures var u := NextUnit(s, position, kind);
            && 1 <= u.consumed <= |s|
            && TextOf(s, position, kind) == Join(Text(u.text, u.errors),
                TextOf(s[u.consumed..], Advance(position, s[..u.consumed]), kind))
  {
    hide NextUnit;
    UnitProgress(s, position, kind);
  }

  lemma TextIsNotEmpty(s: string, position: Position, kind: TextKind)
    requires s != []
    ensures TextOf(s, position, kind).data != []
  {
    UnitProgress(s, position, kind);
  }

  // ---- cutting text in two ---------------------------------------------------------------------

  /** The text ends inside a reference that later text could still extend. */
  predicate OpenTail(x: string) {
    exists k :: 0 <= k < |x| && x[k] == '&' && forall j :: k < j < |x| ==> IsReferenceChar(x[j])
  }

  /** A place where text may be cut: later text cannot change how the earlier text reads. */
  predicate SafeCut(x: string, y: string, kind: TextKind) {
    && !SplitsNewline(x, y)
    && (kind == Raw || (kind == Decoded && (!OpenTail(x) || y == [] || y[0] == '&' || y[0] == '\r')))
  }

  lemma OpenTailOfSuffix(x: string, n: nat)
    requires n <= |x| && OpenTail(x[n..])
    ensures OpenTail(x)
  {
    var y := x[n..];
    var k :| 0 <= k < |y| && y[k] == '&' && forall j :: k < j < |y| ==> IsReferenceChar(y[j]);
    assert x[n + k] == '&';
    forall j | n + k < j < |x|
      ensures IsReferenceChar(x[j])
    {
      assert x[j] == y[j - n];
    }
  }

  /** A scan over reference characters that runs off the end of x meets a stopper in y. */
  lemma ReferenceScanExtends(x: string, y: string, i: nat, class_: char -> bool)
    requires |x| > 0 && x[0] == '&' && 1 <= i <= |x| && SafeCut(x, y, Decoded)
    requires forall j :: 1 <= j < i ==> IsReferenceChar(x[j])
    requires forall c :: class_(c) ==> IsReferenceChar(c)
    ensures ScanWhile(x + y, i, class_) == ScanWhile(x, i, class_)
    ensures var end := ScanWhile(x, i, class_);
            (end < |x + y| && (x + y)[end] == ';') == (end < |x| && x[end] == ';')
  {
    var end := ScanWhile(x, i, class_);
    if end == |x| {
      assert x[0] == '&' && forall j :: 0 < j < |x| ==> IsReferenceChar(x[j]);
      assert OpenTail(x);
    }
    ScanExtends(x, y, i, class_);
  }

  lemma HashAfterCut(x: string, y: string)
    requires |x| > 0 && x[0] == '&' && SafeCut(x, y, Decoded)
    ensures (|x + y| > 1 && (x + y)[1] == '#') == (|x| > 1 && x[1] == '#')
    ensures |x| == 1 && y != [] ==> y[0] == '&' || y[0] == '\r'
  {
    if |x| == 1 {
      assert OpenTail(x);
    }
  }

  lemma NumericUnitExtends(x: string, y: string, position: Position)
    requires |x| > 1 && x[0] == '&' && x[1] == '#' && SafeCut(x, y, Decoded)
    ensures NumericUnit(x + y, position) == NumericUnit(x, position)
  {
    hide Sanitize;
    hide NumericValue;
    hide ErrorsAt;
    var s := x + y;
    if |x| == 2 {
      assert x[0] == '&' && forall j :: 0 < j < |x| ==> IsReferenceChar(x[j]);
      assert OpenTail(x);
      assert y != [] ==> s[2] == y[0] && (y[0] == '&' || y[0] == '\r');
    } else {
      assert s[2] == x[2];
    }
    var hex := |x| > 2 && (x[2] == 'x' || x[2] == 'X');
    assert hex == (|s| > 2 && (s[2] == 'x' || s[2] == 'X'));
    var start := if hex then 3 else 2;
    if hex {
      ReferenceScanExtends(x, y, start, IsHexDigit);
    } else {
      ReferenceScanExtends(x, y, start, IsDigit);
    }
    var end := if hex then ScanWhile(x, start, IsHexDigit) else ScanWhile(x, start, IsDigit);
    assert s[start..end] == x[start..end];
  }

  lemma NamedUnitExtends(x: string, y: string, position: Position)
    requires |x| > 0 && x[0] == '&' && SafeCut(x, y, Decoded)
    ensures NamedUnit(x + y, position, false) == NamedUnit(x, position, false)
  {
    ReferenceScanExtends(x, y, 1, IsAlphanumeric);
    var end := ScanWhile(x, 1, IsAlphanumeric);
    assert (x + y)[1..end] == x[1..end];
  }

  /** At a safe cut the next unit of the earlier text is the next unit of the whole. */
  lemma UnitExtends(x: string, y: string, position: Position, kind: TextKind)
    requires |x| > 0 && SafeCut(x, y, kind)
    ensures NextUnit(x + y, position, kind) == NextUnit(x, position, kind)
  {
    if kind == Decoded && x[0] == '&' {
      HashAfterCut(x, y);
      if |x| > 1 && x[1] == '#' {
        NumericUnitExtends(x, y, position);
      } else {
        NamedUnitExtends(x, y, position);
      }
    }
  }

  /** No unit but a newline's ends in a carriage return, and a newline's takes its line feed along. */
  lemma UnitTakesWholeNewlines(s: string, position: Position, kind: TextKind)
    requires |s| > 0
    ensures var n := NextUnit(s, position, kind).consumed; n <= |s| && !SplitsNewline(s[..n], s[n..])
  {
    UnitProgress(s, position, kind);
    var n := NextUnit(s, position, kind).consumed;
    if n > 1 && kind != Raw && s[0] == '&' {
      ReferenceEnds(s, position, kind == AttributeValue);
    }
  }

  lemma ReferenceEnds(s: string, position: Position, inAttribute: bool)
    requires |s| > 0 && s[0] == '&'
    ensures var n := ReferenceUnit(s, position, inAttribute).consumed; 1 <= n <= |s| && s[n - 1] != '\r'
  {
    if |s| > 1 && s[1] == '#' {
      var hex := |s| > 2 && (s[2] == 'x' || s[2] == 'X');
      var start := if hex then 3 else 2;
      var end := if hex then ScanWhile(s, start, IsHexDigit) else ScanWhile(s, start, IsDigit);
      if end > start { assert if hex then IsHexDigit(s[end - 1]) else IsDigit(s[end - 1]); }
    } else {
      var end := ScanWhile(s, 1, IsAlphanumeric);
      if end > 1 { assert IsAlphanumeric(s[end - 1]); }
    }
  }

  /** Emitting text in two pieces cut at a safe place gives the same characters and the same errors. */
  lemma {:induction false} TextSplits(x: string, y: string, position: Position, kind: TextKind)
    requires SafeCut(x, y, kind)
    ensures TextOf(x + y, position, kind) == Join(TextOf(x, position, kind), TextOf(y, Advance(position, x), kind))
    decreases |x|
  {
    if x == [] {
      assert x + y == y;
    } else {
      hide NextUnit;
      hide TextOf;
      hide Advance;
      hide SafeCut;
      hide SplitsNewline;
      hide Join;
      TextStep(x, position, kind);
      TextStep(x + y, position, kind);
      UnitExtends(x, y, position, kind);
      UnitTakesWholeNewlines(x, position, kind);
      var u := NextUnit(x, position, kind);
      var n := u.consumed;
      CutFacts(x, y, n);
      var after := Advance(position, x[..n]);
      SuffixCut(x, y, kind, n);
      TextSplits(x[n..], y, after, kind);
      AdvanceSplit(position, x[..n], x[n..]);
      var head := Text(u.text, u.errors);
      JoinAssociates(head, TextOf(x[n..], after, kind), TextOf(y, Advance(position, x), kind));
    }
  }

  lemma CutFacts(x: string, y: string, n: nat)
    requires n <= |x|
    ensures (x + y)[n..] == x[n..] + y && (x + y)[..n] == x[..n] && x == x[..n] + x[n..]
  {
  }

  lemma JoinAssociates(a: Text, b: Text, c: Text)
    ensures Join(Join(a, b), c) == Join(a, Join(b, c))
  {
  }

  lemma SuffixCut(x: string, y: string, kind: TextKind, n: nat)
    requires SafeCut(x, y, kind) && n <= |x|
    ensures SafeCut(x[n..], y, kind)
  {
    if OpenTail(x[n..]) {
      OpenTailOfSuffix(x, n);
    }
  }

  // ---- how much text may be emitted before more input arrives ------------------------------------

  function LastAmpersand(s: string): (k: int)
    ensures -1 <= k < |s|
    ensures k >= 0 ==> s[k] == '&'
    ensures forall j :: k < j < |s| ==> s[j] != '&'
  {
    if s == [] then -1
    else if s[|s| - 1] == '&' then |s| - 1
    else LastAmpersand(s[..|s| - 1])
  }

  /** The longest prefix that later input cannot affect: no trailing carriage return, no open reference. */
  function SafeTextPrefix(s: string, entities: bool): (length: nat)
    ensures length <= |s|
  {
    var length := if |s| > 0 && s[|s| - 1] == '\r' then |s| - 1 else |s|;
    var ampersand := LastAmpersand(s[..length]);
    if entities && ampersand >= 0 && ScanWhile(s[..length], ampersand + 1, IsReferenceChar) == length then ampersand
    else length
  }

  /** Whatever follows, cutting at the safe prefix (or one before it at a carriage return) is safe. */
  lemma SafePrefixIsSafe(s: string, rest: string, entities: bool)
    ensures var k := SafeTextPrefix(s, entities);
            SafeCut(s[..k], s[k..] + rest, if entities then Decoded else Raw)
  {
    var trimmed := if |s| > 0 && s[|s| - 1] == '\r' then |s| - 1 else |s|;
    var k := SafeTextPrefix(s, entities);
    var prefix := s[..trimmed];
    var ampersand := LastAmpersand(prefix);
    if k == trimmed {
      if trimmed < |s| { assert (s[k..] + rest)[0] == '\r'; }
    } else {
      assert s[k] == prefix[k] == '&';
      assert (s[k..] + rest)[0] == '&';
    }
  }

  // ---- the engine's loops ---------------------------------------------------------------------------

  /** What the decoding loop still has to produce when its cursor is at a given place. */
  function TextFrom(source: string, start: Position, kind: TextKind, cursor: nat): Text
    requires cursor <= |source|
  {
    TextOf(source[cursor..], Advance(start, source[..cursor]), kind)
  }

  lemma LoopEnds(source: string, start: Position, kind: TextKind)
    ensures TextFrom(source, start, kind, 0) == TextOf(source, start, kind)
    ensures TextFrom(source, start, kind, |source|) == Text([], [])
    ensures !SplitsNewline(source[..0], source[0..])
  {
    assert source[0..] == source && source[..0] == [] && source[|source|..] == [];
  }

  lemma LoopStep(source: string, start: Position, kind: TextKind, cursor: nat)
    requires cursor < |source| && !SplitsNewline(source[..cursor], source[cursor..])
    ensures var u := NextUnit(source[cursor..], Advance(start, source[..cursor]), kind);
            var next := cursor + u.consumed;
            && cursor < next <= |source| && !SplitsNewline(source[..next], source[next..])
            && TextFrom(source, start, kind, cursor)
               == Join(Text(u.text, u.errors), TextFrom(source, start, kind, next))
  {
    hide NextUnit;
    hide Advance;
    hide TextOf;
    var suffix, position := source[cursor..], Advance(start, source[..cursor]);
    UnitTakesWholeNewlines(suffix, position, kind);
    TextStep(suffix, position, kind);
    CursorStep(source, cursor, NextUnit(suffix, position, kind).consumed, start);
  }

  /** The decoding loop: a cursor over the source, positions taken from its start. */
  method EmitText(source: string, start: Position, kind: TextKind) returns (text: Text)
    ensures text == TextOf(source, start, kind)
  {
    hide NextUnit;
    hide TextFrom;
    hide TextOf;
    hide Advance;
    hide SplitsNewline;
    LoopEnds(source, start, kind);
    var cursor := 0;
    text := Text([], []);
    while cursor < |source|
      invariant cursor <= |source| && !SplitsNewline(source[..cursor], source[cursor..])
      invariant TextOf(source, start, kind) == Join(text, TextFrom(source, start, kind, cursor))
      decreases |source| - cursor
    {
      LoopStep(source, start, kind, cursor);
      var u := NextUnit(source[cursor..], Advance(start, source[..cursor]), kind);
      JoinAssociates(text, Text(u.text, u.errors), TextFrom(source, start, kind, cursor + u.consumed));
      text := Join(text, Text(u.text, u.errors));
      cursor := cursor + u.consumed;
    }
  }

  lemma CursorStep(source: string, cursor: nat, n: nat, start: Position)
    requires cursor + n <= |source| && 0 < n
    requires !SplitsNewline(source[..cursor], source[cursor..])
    requires !SplitsNewline(source[cursor..][..n], source[cursor..][n..])
    ensures source[cursor..][n..] == source[cursor + n..]
    ensures Advance(start, source[..cursor + n]) == Advance(Advance(start, source[..cursor]), source[cursor..][..n])
    ensures !SplitsNewline(source[..cursor + n], source[cursor + n..])
  {
    assert source[..cursor + n] == source[..cursor] + source[cursor..][..n];
    assert source[cursor..][n..] == source[cursor + n..];
    assert source[..cursor + n][cursor + n - 1] == source[cursor..][..n][n - 1];
    AdvanceSplit(start, source[..cursor], source[cursor..][..n]);
  }
}
