/**
 Text and tags written out and read back: what the tokenizer's readers find in the source of a tag whose name and
 attributes are known.
 */
module TokenizerWriting {
  import opened Outcomes
  import opened Ascii
  import opened TokenizerText
  import opened TokenizerMarkup

  // ---- text ------------------------------------------------------------------------------------

  /** Characters that stand for themselves: carriage returns are normalised and nulls replaced. */
  predicate Plain(s: string) {
    '\r' !in s && '\0' !in s
  }

  /** The reference that stands for a character with a meaning of its own. */
  function Reference(c: char): string
    requires c == '&' || IsSpecial(c)
  {
    if c == '&' then "&amp;" else if c == '<' then "&lt;" else if c == '"' then "&quot;" else "&apos;"
  }

  predicate IsSpecial(special: char) {
    special == '<' || special == '"' || special == '\''
  }

  function EncodedChar(c: char, special: char): (text: string)
    requires IsSpecial(special)
    ensures text != []
  {
    if c == '&' || c == special then Reference(c) else [c]
  }

  /** Text in which "&" and one other character are written as references. */
  function Encoded(s: string, special: char): string
    requires IsSpecial(special)
  {
    if s == [] then [] else EncodedChar(s[0], special) + Encoded(s[1..], special)
  }

  lemma PlainParts(s: string)
    requires s != []
    ensures Plain(s) <==> s[0] != '\r' && s[0] != '\0' && Plain(s[1..])
  {
    assert s == [s[0]] + s[1..];
  }

  lemma CharIsPlain(c: char, special: char)
    requires IsSpecial(special) && c != '\r' && c != '\0'
    ensures Plain(EncodedChar(c, special)) && special !in EncodedChar(c, special)
  {
  }

  lemma {:induction false} EncodedIsPlain(s: string, special: char)
    requires Plain(s) && IsSpecial(special)
    ensures Plain(Encoded(s, special)) && special !in Encoded(s, special)
    ensures s != [] ==> Encoded(s, special) != []
  {
    if s != [] {
      PlainParts(s);
      CharIsPlain(s[0], special);
      hide EncodedChar;
      EncodedIsPlain(s[1..], special);
    }
  }

  lemma ScanStops(s: string, i: nat, end: nat, class_: char -> bool)
    requires i <= end <= |s| && (forall j :: i <= j < end ==> class_(s[j])) && (end < |s| ==> !class_(s[end]))
    ensures ScanWhile(s, i, class_) == end
  {
  }

  lemma NameReads(name: string, rest: string, position: Position, inAttribute: bool)
    requires name != [] && (forall i :: 0 <= i < |name| ==> IsAlphanumeric(name[i])) && NamedReference(name).Some?
    ensures NamedUnit("&" + name + ";" + rest, position, inAttribute)
         == Unit(NamedReference(name).value, [], |name| + 2)
  {
    hide NamedReference;
    var s := "&" + name + ";" + rest;
    ScanStops(s, 1, 1 + |name|, IsAlphanumeric);
    assert s[1..1 + |name|] == name;
  }

  lemma ReferenceName(c: char) returns (name: string)
    requires c == '&' || IsSpecial(c)
    ensures name != [] && (forall i :: 0 <= i < |name| ==> IsAlphanumeric(name[i]))
    ensures Reference(c) == "&" + name + ";" && NamedReference(name) == Some([c])
  {
    if c == '&' {
      name := "amp";
    } else if c == '<' {
      name := "lt";
    } else if c == '"' {
      name := "quot";
    } else {
      name := "apos";
    }
  }

  lemma ReferenceReads(c: char, rest: string, position: Position, inAttribute: bool)
    requires c == '&' || IsSpecial(c)
    ensures ReferenceUnit(Reference(c) + rest, position, inAttribute) == Unit([c], [], |Reference(c)|)
  {
    hide Reference;
    hide NamedReference;
    hide NamedUnit;
    var name := ReferenceName(c);
    NameReads(name, rest, position, inAttribute);
    assert "&" + name + ";" + rest == Reference(c) + rest;
    assert (Reference(c) + rest)[1] == name[0];
  }

  lemma CharReads(c: char, rest: string, special: char, position: Position, kind: TextKind)
    requires IsSpecial(special) && kind != Raw && c != '\r' && c != '\0'
    ensures NextUnit(EncodedChar(c, special) + rest, position, kind) == Unit([c], [], |EncodedChar(c, special)|)
  {
    if c == '&' || c == special {
      ReferenceReads(c, rest, position, kind == AttributeValue);
    }
    hide ReferenceUnit;
  }

  /** Written text reads back as it was, without errors. */
  lemma {:induction false} EncodedReads(s: string, special: char, position: Position, kind: TextKind)
    requires Plain(s) && IsSpecial(special) && kind != Raw
    ensures TextOf(Encoded(s, special), position, kind) == Text(s, [])
    decreases |s|
  {
    if s != [] {
      hide TextOf;
      hide NextUnit;
      hide Advance;
      PlainParts(s);
      var first, rest := EncodedChar(s[0], special), Encoded(s[1..], special);
      hide EncodedChar;
      assert (first + rest)[|first|..] == rest;
      CharReads(s[0], rest, special, position, kind);
      TextStep(first + rest, position, kind);
      EncodedReads(s[1..], special, Advance(position, (first + rest)[..|first|]), kind);
      assert s == [s[0]] + s[1..];
      assert TextOf(Encoded(s, special), position, kind) == Text(s, []);
    }
  }

  // ---- numeric references ----------------------------------------------------------------------

  function DigitChar(d: nat): char
    requires d < 16
  {
    if d < 10 then '0' + d as char else 'a' + (d - 10) as char
  }

  /** A number written in a radix. */
  function NumeralText(n: nat, radix: nat): string
    requires 2 <= radix <= 16
  {
    if n < radix then [DigitChar(n)] else NumeralText(n / radix, radix) + [DigitChar(n % radix)]
  }

  lemma {:induction false} NumeralReads(n: nat, radix: nat)
    requires radix == 10 || radix == 16
    ensures var s := NumeralText(n, radix);
            && s != [] && Digits(s, radix) == n
            && forall i :: 0 <= i < |s| ==> IsHexDigit(s[i]) && (radix == 10 ==> IsDigit(s[i]))
  {
    var s := NumeralText(n, radix);
    if n < radix {
      assert s[..0] == [] && Digits(s[..0], radix) == 0;
    } else {
      NumeralReads(n / radix, radix);
      assert s[..|s| - 1] == NumeralText(n / radix, radix);
      assert n / radix * radix + n % radix == n;
    }
  }

  function NumericReference(n: nat, hex: bool): string {
    (if hex then "&#x" else "&#") + NumeralText(n, if hex then 16 else 10) + ";"
  }

  /** A number that stands for the character of that number. */
  predicate IsOrdinary(n: nat) {
    0 < n < 0x11_0000 && !(0xD800 <= n < 0xE000) && n !in WINDOWS_1252
  }

  lemma NumericUnitReads(digits: string, hex: bool, rest: string, position: Position)
    requires digits != [] && forall i :: 0 <= i < |digits| ==> IsHexDigit(digits[i]) && (!hex ==> IsDigit(digits[i]))
    ensures var head := if hex then "&#x" else "&#";
            var (c, codes) := Sanitize(NumericValue(digits, if hex then 16 else 10));
            NumericUnit(head + digits + ";" + rest, position)
            == Unit([c], ErrorsAt(codes, position), |head| + |digits| + 1)
  {
    var head := if hex then "&#x" else "&#";
    var s, end := head + digits + ";" + rest, |head| + |digits|;
    assert s[|head|..end] == digits && s[end] == ';';
    assert forall j :: |head| <= j < end ==> s[j] == digits[j - |head|];
    assert !hex ==> s[2] == digits[0];
    if hex {
      ScanStops(s, 3, end, IsHexDigit);
    } else {
      ScanStops(s, 2, end, IsDigit);
    }
    hide Sanitize;
    hide NumericValue;
    hide ScanWhile;
    var (c, codes) := Sanitize(NumericValue(digits, if hex then 16 else 10));
    assert [] + codes == codes;
  }

  /** A numeric reference, decimal or hexadecimal, reads as the character of its number, without errors. */
  lemma NumericReads(n: nat, hex: bool, rest: string, position: Position, inAttribute: bool)
    requires IsOrdinary(n)
    ensures ReferenceUnit(NumericReference(n, hex) + rest, position, inAttribute)
         == Unit([n as char], [], |NumericReference(n, hex)|)
  {
    var radix := if hex then 16 else 10;
    var head := if hex then "&#x" else "&#";
    NumeralReads(n, radix);
    var digits := NumeralText(n, radix);
    NumericUnitReads(digits, hex, rest, position);
    assert NumericReference(n, hex) + rest == head + digits + ";" + rest;
    assert Sanitize(n) == (n as char, []) && ErrorsAt([], position) == [];
    hide NumericUnit;
    hide NumeralText;
  }

  /** Raw text reads as it is. */
  lemma {:induction false} RawReads(s: string, position: Position)
    requires Plain(s)
    ensures TextOf(s, position, Raw) == Text(s, [])
    decreases |s|
  {
    if s != [] {
      PlainParts(s);
      TextStep(s, position, Raw);
      RawReads(s[1..], Advance(position, s[..1]));
      assert s == [s[0]] + s[1..];
    }
  }

  lemma {:induction false} PlainNewlines(s: string)
    requires '\r' !in s
    ensures NormalizeNewlines(s) == s
    decreases |s|
  {
    if s != [] {
      assert s[0] in s && forall c :: c in s[1..] ==> c in s;
      PlainNewlines(s[1..]);
      assert s == [s[0]] + s[1..];
    }
  }

  // ---- names -----------------------------------------------------------------------------------------

  /** A character that a written name may have: lower case, and no delimiter of any kind. */
  predicate IsNameChar(c: char) {
    && Lower(c) == c && !IsWhitespace(c)
    && c != '/' && c != '>' && c != '=' && c != '"' && c != '\'' && c != '\0'
  }

  predicate IsName(s: string) {
    s != [] && forall i :: 0 <= i < |s| ==> IsNameChar(s[i])
  }

  lemma NameIsLower(s: string)
    requires IsName(s)
    ensures LowerAll(s) == s
  {
  }

  lemma {:induction false} SkipTo(s: string, cursor: nat, to: nat, end: nat, class_: char -> bool)
    requires cursor <= to <= end <= |s|
    requires forall j :: cursor <= j < to ==> class_(s[j])
    requires to < end ==> !class_(s[to])
    ensures Skip(s, cursor, end, class_) == to
    decreases end - cursor
  {
    if cursor < to {
      SkipTo(s, cursor + 1, to, end, class_);
    }
  }

  // ---- attributes ----------------------------------------------------------------------------------------

  datatype Quoting = DoubleQuoted | SingleQuoted | Unquoted

  datatype Pair = Pair(name: string, value: string, quoting: Quoting)

  function Delimiter(quoting: Quoting): string {
    match quoting
    case DoubleQuoted => "\""
    case SingleQuoted => "'"
    case Unquoted => []
  }

  /** A value as it is written between its delimiters. */
  function ValueText(a: Pair): string {
    Encoded(a.value, if a.quoting.SingleQuoted? then '\'' else '"')
  }

  /** An attribute as it is written: a space, the name, and the value in quotes of either kind or in none. */
  function Written(a: Pair): (text: string)
    ensures text != []
  {
    " " + a.name + "=" + Delimiter(a.quoting) + ValueText(a) + Delimiter(a.quoting)
  }

  /** A character that may stand in a value without quotes. */
  predicate IsBareChar(c: char) {
    !IsWhitespace(c) && c != '"' && c != '\'' && c != '<' && c != '=' && c != '`' && c != '>'
  }

  predicate AllBare(s: string) {
    forall i :: 0 <= i < |s| ==> IsBareChar(s[i])
  }

  predicate WritableOne(a: Pair) {
    IsName(a.name) && Plain(a.value) && (a.quoting.Unquoted? ==> a.value != [] && AllBare(a.value))
  }

  function WrittenAll(attributes: seq<Pair>): string {
    if attributes == [] then [] else Written(attributes[0]) + WrittenAll(attributes[1..])
  }

  predicate Writable(attributes: seq<Pair>) {
    && (forall i :: 0 <= i < |attributes| ==> WritableOne(attributes[i]))
    && forall i, j :: 0 <= i < j < |attributes| ==> attributes[i].name != attributes[j].name
  }

  /** The attributes as tokens, with the spans they have in the source from the cursor on. */
  function Listed(source: string, cursor: nat, attributes: seq<Pair>, position: Position): seq<Attribute>
    requires cursor + |WrittenAll(attributes)| <= |source|
    decreases |attributes|
  {
    if attributes == [] then []
    else
      var a, end := attributes[0], cursor + |Written(attributes[0])|;
      var span := Span(Advance(position, source[..cursor + 1]), Advance(position, source[..end]));
      [Attribute(a.name, a.value, span)] + Listed(source, end, attributes[1..], position)
  }

  /** Where the parts are in what is written. */
  lemma PiecesOf(a: Pair)
    ensures var n, d, v := |a.name|, |Delimiter(a.quoting)|, |ValueText(a)|;
            && d <= 1 && |Written(a)| == 2 + n + v + 2 * d && Written(a)[0] == ' '
            && Written(a)[1..1 + n] == a.name && Written(a)[1 + n] == '='
            && Written(a)[2 + n + d..2 + n + d + v] == ValueText(a)
            && (d == 1 ==> Written(a)[2 + n] == Written(a)[3 + n + v] == Delimiter(a.quoting)[0])
  {
    hide ValueText;
  }

  lemma CharOfSlice(source: string, cursor: nat, piece: string, i: nat)
    requires cursor + |piece| <= |source| && source[cursor..cursor + |piece|] == piece && i < |piece|
    ensures source[cursor + i] == piece[i]
  {
    assert source[cursor..cursor + |piece|][i] == source[cursor + i];
  }

  lemma SliceOfSlice(source: string, cursor: nat, piece: string, i: nat, j: nat)
    requires cursor + |piece| <= |source| && source[cursor..cursor + |piece|] == piece && i <= j <= |piece|
    ensures source[cursor + i..cursor + j] == piece[i..j]
  {
    forall k | 0 <= k < j - i
      ensures source[cursor + i..cursor + j][k] == piece[i..j][k]
    {
      CharOfSlice(source, cursor, piece, i + k);
    }
  }

  /** The parts of a text, where they are in a source that has the text at the cursor. */
  lemma PiecesAt(source: string, cursor: nat, text: string, name: string, delimiter: string, value: string)
    requires cursor + |text| <= |source| && source[cursor..cursor + |text|] == text
    requires |delimiter| <= 1 && |text| == 2 + |name| + |value| + 2 * |delimiter|
    requires text[0] == ' ' && text[1..1 + |name|] == name && text[1 + |name|] == '='
    requires text[2 + |name| + |delimiter|..2 + |name| + |delimiter| + |value|] == value
    requires |delimiter| == 1 ==> text[2 + |name|] == text[3 + |name| + |value|] == delimiter[0]
    ensures var nameEnd, d := cursor + 1 + |name|, |delimiter|;
            && source[cursor] == ' ' && source[cursor + 1..nameEnd] == name && source[nameEnd] == '='
            && source[nameEnd + 1 + d..nameEnd + 1 + d + |value|] == value
            && (d == 1 ==> source[nameEnd + 1] == source[nameEnd + 2 + |value|] == delimiter[0])
  {
    var n, d, v := |name|, |delimiter|, |value|;
    CharOfSlice(source, cursor, text, 0);
    CharOfSlice(source, cursor, text, 1 + n);
    SliceOfSlice(source, cursor, text, 1, 1 + n);
    SliceOfSlice(source, cursor, text, 2 + n + d, 2 + n + d + v);
    if d == 1 {
      CharOfSlice(source, cursor, text, 2 + n);
      CharOfSlice(source, cursor, text, 3 + n + v);
    }
  }

  /** A written attribute at the cursor: where its parts are. */
  lemma WrittenParts(source: string, cursor: nat, a: Pair)
    requires cursor + |Written(a)| <= |source| && source[cursor..cursor + |Written(a)|] == Written(a)
    ensures var nameEnd, d := cursor + 1 + |a.name|, |Delimiter(a.quoting)|;
            var from := nameEnd + 1 + d;
            var close := from + |ValueText(a)|;
            && close + d == cursor + |Written(a)|
            && source[cursor] == ' ' && source[cursor + 1..nameEnd] == a.name && source[nameEnd] == '='
            && source[from..close] == ValueText(a)
            && (d == 1 ==> source[nameEnd + 1] == source[close] == Delimiter(a.quoting)[0])
  {
    hide *;
    PiecesOf(a);
    PiecesAt(source, cursor, Written(a), a.name, Delimiter(a.quoting), ValueText(a));
  }

  lemma BareChar(c: char)
    requires IsBareChar(c)
    ensures AllBare(EncodedChar(c, '"'))
  {
  }

  lemma {:induction false} BareText(s: string)
    requires AllBare(s)
    ensures AllBare(Encoded(s, '"')) && (s != [] ==> Encoded(s, '"') != [])
  {
    if s != [] {
      BareChar(s[0]);
      hide EncodedChar;
      BareText(s[1..]);
    }
  }

  /** No delimiter inside a quoted value, and nothing but bare characters in another. */
  lemma ValueIsClear(a: Pair)
    requires WritableOne(a)
    ensures a.quoting.DoubleQuoted? ==> '"' !in ValueText(a)
    ensures a.quoting.SingleQuoted? ==> '\'' !in ValueText(a)
    ensures a.quoting.Unquoted? ==> ValueText(a) != [] && AllBare(ValueText(a))
  {
    if a.quoting.Unquoted? {
      BareText(a.value);
    } else {
      EncodedIsPlain(a.value, if a.quoting.SingleQuoted? then '\'' else '"');
    }
  }

  lemma QuotedReads(source: string, nameEnd: nat, close: nat, end: nat, position: Position)
    requires nameEnd + 2 <= close < end <= |source| && source[nameEnd] == '='
    requires source[nameEnd + 1] == source[close] && (source[close] == '"' || source[close] == '\'')
    requires forall j :: nameEnd + 2 <= j < close ==> source[j] != source[close]
    ensures var text := TextOf(source[nameEnd + 2..close], Advance(position, source[..nameEnd + 2]), AttributeValue);
            ReadValue(source, nameEnd, end, position) == AttributeValueAt(text.data, close + 1, text.errors)
  {
    hide Skip;
    hide TextOf;
    hide Advance;
    hide ErrorIn;
    hide UnquotedErrors;
    SkipTo(source, nameEnd, nameEnd, end, IsWhitespace);
    SkipTo(source, nameEnd + 1, nameEnd + 1, end, IsWhitespace);
    if source[close] == '"' {
      SkipTo(source, nameEnd + 2, close, end, IsNotDoubleQuote);
    } else {
      SkipTo(source, nameEnd + 2, close, end, IsNotSingleQuote);
    }
    assert SkipToQuote(source, nameEnd + 2, end, source[nameEnd + 1]) == close;
  }

  lemma {:induction false} BareHasNoErrors(source: string, from: nat, end: nat, position: Position)
    requires from <= end <= |source| && forall j :: from <= j < end ==> IsBareChar(source[j])
    ensures UnquotedErrors(source, from, end, position) == []
    decreases end - from
  {
    if from < end {
      BareHasNoErrors(source, from + 1, end, position);
    }
  }

  lemma UnquotedReads(source: string, nameEnd: nat, close: nat, end: nat, position: Position)
    requires nameEnd + 1 < close <= end <= |source| && source[nameEnd] == '='
    requires forall j :: nameEnd + 1 <= j < close ==> IsBareChar(source[j])
    requires close < end ==> IsWhitespace(source[close])
    ensures var text := TextOf(source[nameEnd + 1..close], Advance(position, source[..nameEnd + 1]), AttributeValue);
            ReadValue(source, nameEnd, end, position) == AttributeValueAt(text.data, close, text.errors)
  {
    hide Skip;
    hide TextOf;
    hide Advance;
    hide ErrorIn;
    hide UnquotedErrors;
    SkipTo(source, nameEnd, nameEnd, end, IsWhitespace);
    SkipTo(source, nameEnd + 1, nameEnd + 1, end, IsWhitespace);
    SkipTo(source, nameEnd + 1, close, end, IsNotWhitespace);
    BareHasNoErrors(source, nameEnd + 1, close, position);
  }

  /** A space follows what was written, or nothing does. */
  predicate EndsWord(source: string, at: nat, end: nat)
    requires end <= |source|
  {
    at < end ==> source[at] == ' '
  }

  lemma SliceLacks(source: string, from: nat, text: string, c: char)
    requires from + |text| <= |source| && source[from..from + |text|] == text && c !in text
    ensures forall j :: from <= j < from + |text| ==> source[j] != c
  {
    forall j | from <= j < from + |text|
      ensures source[j] != c
    {
      CharOfSlice(source, from, text, j - from);
      assert text[j - from] in text;
    }
  }

  lemma SliceIsBare(source: string, from: nat, text: string)
    requires from + |text| <= |source| && source[from..from + |text|] == text && AllBare(text)
    ensures forall j :: from <= j < from + |text| ==> IsBareChar(source[j])
  {
    forall j | from <= j < from + |text|
      ensures IsBareChar(source[j])
    {
      CharOfSlice(source, from, text, j - from);
    }
  }

  /** A slice in two parts. */
  lemma FrontAndRest(source: string, cursor: nat, end: nat, front: string, rest: string)
    requires cursor <= end <= |source| && source[cursor..end] == front + rest
    ensures cursor + |front| + |rest| == end
    ensures source[cursor..cursor + |front|] == front && source[cursor + |front|..end] == rest
    ensures rest != [] ==> source[cursor + |front|] == rest[0]
  {
    assert |source[cursor..end]| == |front| + |rest|;
    SliceOfSlice(source, cursor, front + rest, 0, |front|);
    SliceOfSlice(source, cursor, front + rest, |front|, |front| + |rest|);
    assert (front + rest)[0..|front|] == front && (front + rest)[|front|..|front| + |rest|] == rest;
    if rest != [] {
      CharOfSlice(source, cursor, front + rest, |front|);
    }
  }

  lemma QuotedTextReads(source: string, nameEnd: nat, end: nat, text: string, position: Position)
    requires nameEnd + 3 + |text| <= end <= |source| && source[nameEnd] == '='
    requires source[nameEnd + 1] == source[nameEnd + 2 + |text|] && source[nameEnd + 1] !in text
    requires source[nameEnd + 1] == '"' || source[nameEnd + 1] == '\''
    requires source[nameEnd + 2..nameEnd + 2 + |text|] == text
    ensures var read := TextOf(text, Advance(position, source[..nameEnd + 2]), AttributeValue);
            ReadValue(source, nameEnd, end, position)
            == AttributeValueAt(read.data, nameEnd + 3 + |text|, read.errors)
  {
    hide *;
    SliceLacks(source, nameEnd + 2, text, source[nameEnd + 1]);
    QuotedReads(source, nameEnd, nameEnd + 2 + |text|, end, position);
  }

  lemma BareTextReads(source: string, nameEnd: nat, end: nat, text: string, position: Position)
    requires nameEnd + 1 + |text| <= end <= |source| && source[nameEnd] == '=' && text != [] && AllBare(text)
    requires source[nameEnd + 1..nameEnd + 1 + |text|] == text && EndsWord(source, nameEnd + 1 + |text|, end)
    ensures var read := TextOf(text, Advance(position, source[..nameEnd + 1]), AttributeValue);
            ReadValue(source, nameEnd, end, position)
            == AttributeValueAt(read.data, nameEnd + 1 + |text|, read.errors)
  {
    hide ReadValue;
    hide TextOf;
    hide Advance;
    hide IsBareChar;
    SliceIsBare(source, nameEnd + 1, text);
    UnquotedReads(source, nameEnd, nameEnd + 1 + |text|, end, position);
  }

  /** The value reads as the text between its delimiters, and leaves the cursor after them. */
  lemma DelimitedReads(source: string, nameEnd: nat, end: nat, a: Pair, position: Position)
    requires WritableOne(a)
    requires var d, n := |Delimiter(a.quoting)|, |ValueText(a)|;
             && nameEnd + 1 + n + 2 * d <= end <= |source| && source[nameEnd] == '='
             && source[nameEnd + 1 + d..nameEnd + 1 + d + n] == ValueText(a)
             && (d == 1 ==> source[nameEnd + 1] == source[nameEnd + 2 + n] == Delimiter(a.quoting)[0])
             && EndsWord(source, nameEnd + 1 + n + 2 * d, end)
    ensures var d, n := |Delimiter(a.quoting)|, |ValueText(a)|;
            var text := TextOf(ValueText(a), Advance(position, source[..nameEnd + 1 + d]), AttributeValue);
            ReadValue(source, nameEnd, end, position)
            == AttributeValueAt(text.data, nameEnd + 1 + n + 2 * d, text.errors)
  {
    hide ReadValue;
    hide TextOf;
    hide Advance;
    hide ValueText;
    hide WritableOne;
    hide AllBare;
    hide EndsWord;
    ValueIsClear(a);
    if a.quoting.Unquoted? {
      BareTextReads(source, nameEnd, end, ValueText(a), position);
    } else {
      QuotedTextReads(source, nameEnd, end, ValueText(a), position);
    }
  }

  lemma ValueReads(source: string, cursor: nat, end: nat, a: Pair, position: Position)
    requires cursor + |Written(a)| <= end <= |source| && source[cursor..cursor + |Written(a)|] == Written(a)
    requires WritableOne(a) && EndsWord(source, cursor + |Written(a)|, end)
    ensures ReadValue(source, cursor + 1 + |a.name|, end, position)
         == AttributeValueAt(a.value, cursor + |Written(a)|, [])
  {
    hide ReadValue;
    hide TextOf;
    hide Advance;
    hide Written;
    hide Encoded;
    hide Delimiter;
    DelimiterLength(a.quoting);
    WrittenParts(source, cursor, a);
    var nameEnd, d := cursor + 1 + |a.name|, |Delimiter(a.quoting)|;
    DelimitedReads(source, nameEnd, end, a, position);
    EncodedReads(a.value, if a.quoting.SingleQuoted? then '\'' else '"', Advance(position, source[..nameEnd + 1 + d]),
                 AttributeValue);
  }

  lemma DelimiterLength(quoting: Quoting)
    ensures |Delimiter(quoting)| <= 1
  {
  }

  predicate NewNames(attributes: seq<Pair>, list: seq<Attribute>) {
    forall i, j :: 0 <= i < |attributes| && 0 <= j < |list| ==> attributes[i].name != list[j].name
  }

  lemma AttributeStep(source: string, cursor: nat, start: nat, nameEnd: nat, end: nat, position: Position, limit: nat,
                      list: seq<Attribute>, name: string)
    requires cursor <= start < nameEnd <= end <= |source| && |list| < limit
    requires Skip(source, cursor, end, IsWhitespace) == start && source[start] != '/' && source[start] != '='
    requires Skip(source, start, end, IsAttributeNameChar) == nameEnd && LowerAll(source[start..nameEnd]) == name
    requires forall j :: 0 <= j < |list| ==> name != list[j].name
    requires ReadValue(source, nameEnd, end, position).errors == []
    ensures var v := ReadValue(source, nameEnd, end, position);
            var span := Span(Advance(position, source[..start]), Advance(position, source[..v.cursor]));
            ReadAttributes(source, cursor, end, position, limit, list)
            == ReadAttributes(source, v.cursor, end, position, limit, list + [Attribute(name, v.value, span)])
  {
    hide Skip;
    hide ReadValue;
    hide Advance;
  }

  lemma SliceIsName(source: string, from: nat, name: string)
    requires from + |name| <= |source| && source[from..from + |name|] == name && IsName(name)
    ensures forall j :: from <= j < from + |name| ==> IsNameChar(source[j])
  {
    forall j | from <= j < from + |name|
      ensures IsNameChar(source[j])
    {
      CharOfSlice(source, from, name, j - from);
    }
  }

  /** The attribute loop on one written attribute. */
  lemma AttributeReads(source: string, cursor: nat, end: nat, position: Position, limit: nat, list: seq<Attribute>,
                       a: Pair)
    requires cursor + |Written(a)| <= end <= |source| && source[cursor..cursor + |Written(a)|] == Written(a)
    requires WritableOne(a) && EndsWord(source, cursor + |Written(a)|, end) && |list| < limit
    requires forall j :: 0 <= j < |list| ==> a.name != list[j].name
    ensures var next := cursor + |Written(a)|;
            var span := Span(Advance(position, source[..cursor + 1]), Advance(position, source[..next]));
            ReadAttributes(source, cursor, end, position, limit, list)
            == ReadAttributes(source, next, end, position, limit, list + [Attribute(a.name, a.value, span)])
  {
    hide ReadAttributes;
    hide ReadValue;
    hide Skip;
    hide Advance;
    WrittenParts(source, cursor, a);
    ValueReads(source, cursor, end, a, position);
    hide Written;
    hide ValueText;
    var start, nameEnd := cursor + 1, cursor + 1 + |a.name|;
    SliceIsName(source, start, a.name);
    SkipTo(source, cursor, start, end, IsWhitespace);
    SkipTo(source, start, nameEnd, end, IsAttributeNameChar);
    NameIsLower(a.name);
    AttributeStep(source, cursor, start, nameEnd, end, position, limit, list, a.name);
    var next := cursor + |Written(a)|;
    var span := Span(Advance(position, source[..start]), Advance(position, source[..next]));
    assert ReadAttributes(source, cursor, end, position, limit, list)
        == ReadAttributes(source, next, end, position, limit, list + [Attribute(a.name, a.value, span)]);
  }

  /** What follows the attributes of a tag: the solidus of a self-closing one. */
  function Solidus(closed: bool): string {
    if closed then " /" else []
  }

  lemma NextStartsWithSpace(attributes: seq<Pair>, closed: bool)
    ensures var text := WrittenAll(attributes) + Solidus(closed); text != [] ==> text[0] == ' '
  {
  }

  lemma ListedStep(source: string, cursor: nat, attributes: seq<Pair>, position: Position, list: seq<Attribute>,
                   longer: seq<Attribute>)
    requires attributes != [] && cursor + |WrittenAll(attributes)| <= |source|
    requires var a, next := attributes[0], cursor + |Written(attributes[0])|;
             longer == list + [Attribute(a.name, a.value, Span(Advance(position, source[..cursor + 1]),
                                                               Advance(position, source[..next])))]
    ensures longer + Listed(source, cursor + |Written(attributes[0])|, attributes[1..], position)
         == list + Listed(source, cursor, attributes, position)
  {
    hide Advance;
    hide Written;
  }

  lemma {:induction false} AttributesRead(source: string, cursor: nat, end: nat, position: Position, limit: nat,
                                          attributes: seq<Pair>, closed: bool, list: seq<Attribute>)
    requires cursor + |WrittenAll(attributes)| <= end <= |source|
    requires source[cursor..end] == WrittenAll(attributes) + Solidus(closed)
    requires Writable(attributes) && NewNames(attributes, list) && |list| + |attributes| <= limit
    ensures ReadAttributes(source, cursor, end, position, limit, list)
         == Attributes(list + Listed(source, cursor, attributes, position), closed, [])
    decreases |attributes|
  {
    hide ReadAttributes;
    hide Written;
    hide Advance;
    hide WritableOne;
    hide Solidus;
    if attributes == [] {
      assert WrittenAll(attributes) + Solidus(closed) == Solidus(closed);
      AttributesEnd(source, cursor, end, position, limit, closed, list);
      assert list + Listed(source, cursor, attributes, position) == list;
    } else {
      var a, rest := attributes[0], attributes[1..];
      var next := cursor + |Written(a)|;
      assert WrittenAll(attributes) + Solidus(closed) == Written(a) + (WrittenAll(rest) + Solidus(closed));
      FrontAndRest(source, cursor, end, Written(a), WrittenAll(rest) + Solidus(closed));
      NextStartsWithSpace(rest, closed);
      AttributeReads(source, cursor, end, position, limit, list, a);
      var span := Span(Advance(position, source[..cursor + 1]), Advance(position, source[..next]));
      var longer := list + [Attribute(a.name, a.value, span)];
      TailIsWritable(attributes, list, Attribute(a.name, a.value, span));
      AttributesRead(source, next, end, position, limit, rest, closed, longer);
      ListedStep(source, cursor, attributes, position, list, longer);
    }
    hide Listed;
    hide WrittenAll;
    assert ReadAttributes(source, cursor, end, position, limit, list)
        == Attributes(list + Listed(source, cursor, attributes, position), closed, []);
  }

  lemma AttributesEnd(source: string, cursor: nat, end: nat, position: Position, limit: nat, closed: bool,
                      list: seq<Attribute>)
    requires cursor <= end <= |source| && source[cursor..end] == Solidus(closed)
    ensures ReadAttributes(source, cursor, end, position, limit, list) == Attributes(list, closed, [])
  {
    if closed {
      assert source[cursor] == source[cursor..end][0] && source[cursor + 1] == source[cursor..end][1];
      SkipTo(source, cursor, cursor + 1, end, IsWhitespace);
      SkipTo(source, cursor + 2, cursor + 2, end, IsWhitespace);
      hide Skip;
      hide Advance;
    }
  }

  lemma TailIsWritable(attributes: seq<Pair>, list: seq<Attribute>, a: Attribute)
    requires attributes != [] && Writable(attributes) && NewNames(attributes, list) && a.name == attributes[0].name
    ensures Writable(attributes[1..]) && NewNames(attributes[1..], list + [a])
  {
    hide WritableOne;
    var rest := attributes[1..];
    assert forall i :: 0 <= i < |rest| ==> rest[i] == attributes[i + 1];
  }

  predicate DistinctNames(list: seq<Attribute>) {
    forall i, j :: 0 <= i < j < |list| ==> list[i].name != list[j].name
  }

  /** Whatever the source of a tag, no attribute name comes twice, and there are never more than the limit. */
  lemma {:induction false} AttributesAreDistinct(source: string, cursor: nat, end: nat, position: Position, limit: nat,
                                                 list: seq<Attribute>)
    requires cursor <= end <= |source| && DistinctNames(list) && |list| <= limit
    ensures var r := ReadAttributes(source, cursor, end, position, limit, list).list;
            list <= r && DistinctNames(r) && |r| <= limit
    decreases end - cursor
  {
    hide Advance;
    hide ReadValue;
    hide Skip;
    hide LowerAll;
    hide ErrorIn;
    hide ErrorWhen;
    var start := Skip(source, cursor, end, IsWhitespace);
    if start < end && source[start] != '/' {
      var nameEnd := Skip(source, start, end, IsAttributeNameChar);
      if nameEnd == start {
        AttributesAreDistinct(source, start + 1, end, position, limit, list);
      } else {
        var name, v := LowerAll(source[start..nameEnd]), ReadValue(source, nameEnd, end, position);
        if (exists i :: 0 <= i < |list| && list[i].name == name) || |list| >= limit {
          AttributesAreDistinct(source, v.cursor, end, position, limit, list);
        } else {
          var span := Span(Advance(position, source[..start]), Advance(position, source[..v.cursor]));
          AttributesAreDistinct(source, v.cursor, end, position, limit, list + [Attribute(name, v.value, span)]);
        }
      }
    }
  }

  // ---- tags ----------------------------------------------------------------------------------------------

  predicate IsTagName(name: string) {
    IsName(name) && IsAlpha(name[0])
  }

  function Opening(name: string, attributes: seq<Pair>, closed: bool): string {
    "<" + name + (WrittenAll(attributes) + Solidus(closed)) + ">"
  }

  function Closing(name: string): string {
    "</" + name + ">"
  }

  lemma EndsWithBracket(source: string)
    requires |source| > 0 && source[|source| - 1] == '>'
    ensures ContentEnd(source) == |source| - 1
  {
  }

  lemma NameEnds(source: string, start: nat, name: string, end: nat)
    requires IsName(name) && start + |name| <= end < |source| && source[start..start + |name|] == name
    requires start + |name| < end ==> IsWhitespace(source[start + |name|])
    ensures Skip(source, start, end, IsTagNameChar) == start + |name|
    ensures Skip(source, start, end, IsNotWhitespace) == start + |name|
    ensures Skip(source, start, end, IsWhitespace) == start
    ensures LowerAll(source[start..start + |name|]) == name
  {
    forall j | start <= j < start + |name|
      ensures IsNameChar(source[j])
    {
      assert source[j] == source[start..start + |name|][j - start];
    }
    SkipTo(source, start, start + |name|, end, IsTagNameChar);
    SkipTo(source, start, start + |name|, end, IsNotWhitespace);
    SkipTo(source, start, start, end, IsWhitespace);
    NameIsLower(name);
  }

  lemma Bracketed(name: string, inside: string)
    ensures var source, nameEnd := "<" + name + inside + ">", 1 + |name|;
            var end := nameEnd + |inside|;
            && |source| == end + 1 && source[end] == '>' && source[0] == '<'
            && source[1..nameEnd] == name && source[nameEnd..end] == inside
            && (inside != [] ==> source[nameEnd] == inside[0])
  {
  }

  lemma OpeningParts(name: string, attributes: seq<Pair>, closed: bool)
    ensures var source, nameEnd := Opening(name, attributes, closed), 1 + |name|;
            var inside := WrittenAll(attributes) + Solidus(closed);
            var end := nameEnd + |inside|;
            && |source| == end + 1 && source[end] == '>' && source[0] == '<'
            && source[1..nameEnd] == name && source[nameEnd..end] == inside
            && (inside != [] ==> source[nameEnd] == ' ')
  {
    NextStartsWithSpace(attributes, closed);
    hide WrittenAll;
    hide Solidus;
    Bracketed(name, WrittenAll(attributes) + Solidus(closed));
  }

  /** A written start tag reads back as its name and its attributes, without errors. */
  lemma StartTagReads(name: string, attributes: seq<Pair>, closed: bool, position: Position, limit: nat)
    requires IsTagName(name) && Writable(attributes) && |attributes| <= limit
    ensures var source := Opening(name, attributes, closed);
            ReadStartTag(source, position, limit)
            == Markup(Some(StartTag(name, Listed(source, 1 + |name|, attributes, position), closed)), [])
  {
    OpeningParts(name, attributes, closed);
    hide Opening;
    hide WrittenAll;
    hide Solidus;
    hide Writable;
    hide ReadAttributes;
    hide Skip;
    hide ContentEnd;
    hide Listed;
    hide IsName;
    var source, nameEnd := Opening(name, attributes, closed), 1 + |name|;
    var end := |source| - 1;
    EndsWithBracket(source);
    NameEnds(source, 1, name, end);
    AttributesRead(source, nameEnd, end, position, limit, attributes, closed, []);
    assert [] + Listed(source, nameEnd, attributes, position) == Listed(source, nameEnd, attributes, position);
    assert ReadStartTag(source, position, limit)
        == Markup(Some(StartTag(name, Listed(source, nameEnd, attributes, position), closed)), []);
  }

  /** A written end tag reads back as its name, without errors. */
  lemma EndTagReads(name: string, position: Position)
    requires IsTagName(name)
    ensures ReadEndTag(Closing(name), position) == Markup(Some(EndTag(name)), [])
  {
    var source, end := Closing(name), 2 + |name|;
    EndsWithBracket(source);
    assert source[2..end] == name;
    NameEnds(source, 2, name, end);
    SkipTo(source, end, end, end, IsWhitespace);
    hide Skip;
    hide ContentEnd;
  }

  // ---- doctypes ------------------------------------------------------------------------------------------

  predicate IsIdentifier(s: string) {
    '"' !in s && '\r' !in s
  }

  function Quoted(s: string): string {
    " \"" + s + "\""
  }

  function Identifiers(publicId: Option<string>, systemId: Option<string>): string {
    if publicId.Some? then " PUBLIC" + Quoted(publicId.value) + if systemId.Some? then Quoted(systemId.value) else []
    else if systemId.Some? then " SYSTEM" + Quoted(systemId.value)
    else []
  }

  function Declaration(name: string, publicId: Option<string>, systemId: Option<string>): string {
    "<!DOCTYPE " + name + Identifiers(publicId, systemId) + ">"
  }

  /** A quoted identifier at the cursor reads as it is written. */
  lemma IdentifierReads(source: string, cursor: nat, end: nat, s: string)
    requires IsIdentifier(s) && cursor + |Quoted(s)| <= end <= |source|
    requires source[cursor..cursor + |Quoted(s)|] == Quoted(s)
    ensures ReadIdentifier(source, cursor, end) == (Some(s), cursor + |Quoted(s)|)
  {
    var open, close := cursor + 1, cursor + 2 + |s|;
    var piece := source[cursor..cursor + |Quoted(s)|];
    assert forall k :: 0 <= k < |piece| ==> source[cursor + k] == piece[k];
    assert piece[2..2 + |s|] == s && piece[1] == '"' && piece[2 + |s|] == '"';
    assert source[open + 1..close] == piece[2..2 + |s|];
    SkipTo(source, cursor, open, end, IsWhitespace);
    forall j | open + 1 <= j < close
      ensures source[j] != '"'
    {
      assert source[j] == source[open + 1..close][j - open - 1];
      assert s[j - open - 1] in s;
    }
    SkipTo(source, open + 1, close, end, IsNotDoubleQuote);
    PlainNewlines(s);
    hide Skip;
    hide NormalizeNewlines;
  }

  lemma NoIdentifier(source: string, end: nat)
    requires end <= |source|
    ensures ReadIdentifier(source, end, end) == (None, end)
    ensures Skip(source, end, end, IsWhitespace) == end
  {
  }

  lemma DeclarationParts(name: string, publicId: Option<string>, systemId: Option<string>)
    requires IsName(name)
    ensures var source, nameEnd := Declaration(name, publicId, systemId), 10 + |name|;
            var end := nameEnd + |Identifiers(publicId, systemId)|;
            && |source| == end + 1 && source[end] == '>' && source[9] == ' ' && source[..9] == "<!DOCTYPE"
            && source[10..nameEnd] == name && source[nameEnd..end] == Identifiers(publicId, systemId)
            && (nameEnd < end ==> source[nameEnd] == ' ' && !IsWhitespace(source[nameEnd + 1]))
  {
    hide IsName;
    hide Quoted;
    var source, nameEnd := Declaration(name, publicId, systemId), 10 + |name|;
    var ids := Identifiers(publicId, systemId);
    assert source == "<!DOCTYPE" + " " + name + ids + ">";
    assert ids != [] ==> source[nameEnd] == ids[0] && source[nameEnd + 1] == ids[1];
  }

  /** What the reader has found once it stands at the identifiers. */
  predicate AtIdentifiers(source: string, name: string, cursor: nat, end: nat) {
    var nameEnd := 10 + |name|;
    && name != [] && nameEnd <= cursor <= end < |source| && ContentEnd(source) == end && IsWhitespace(source[9])
    && Skip(source, 9, end, IsWhitespace) == 10 && Skip(source, 10, end, IsNotWhitespace) == nameEnd
    && LowerAll(source[10..nameEnd]) == name && Skip(source, nameEnd, end, IsWhitespace) == cursor
  }

  /** What the doctype reader finds before the identifiers. */
  lemma DoctypeHead(name: string, publicId: Option<string>, systemId: Option<string>)
    requires IsName(name)
    ensures var source, nameEnd := Declaration(name, publicId, systemId), 10 + |name|;
            var end := |source| - 1;
            && nameEnd <= end && source[nameEnd..end] == Identifiers(publicId, systemId)
            && AtIdentifiers(source, name, if nameEnd < end then nameEnd + 1 else end, end)
  {
    hide Declaration;
    hide Identifiers;
    hide ContentEnd;
    hide Skip;
    hide LowerAll;
    DeclarationParts(name, publicId, systemId);
    var source, nameEnd := Declaration(name, publicId, systemId), 10 + |name|;
    var end := |source| - 1;
    EndsWithBracket(source);
    assert source[10] == source[10..nameEnd][0] == name[0];
    SkipTo(source, 9, 10, end, IsWhitespace);
    NameEnds(source, 10, name, end);
    SkipTo(source, nameEnd, if nameEnd < end then nameEnd + 1 else end, end, IsWhitespace);
    assert AtIdentifiers(source, name, if nameEnd < end then nameEnd + 1 else end, end);
  }

  lemma KeywordReads(remainder: string, keyword: string, upper: string)
    requires (keyword == "public" && upper == "PUBLIC") || (keyword == "system" && upper == "SYSTEM")
    requires upper <= remainder
    ensures StartsWithIgnoringCase(remainder, keyword)
    ensures keyword == "system" ==> !StartsWithIgnoringCase(remainder, "public")
  {
    assert remainder[..6] == upper;
    assert LowerAll(upper) == keyword == LowerAll(keyword);
    assert LowerAll("public") == "public";
  }

  lemma Slices(source: string, cursor: nat, end: nat, a: string, b: string, c: string)
    requires cursor <= end <= |source| && source[cursor..end] == a + b + c
    ensures cursor + |a| + |b| + |c| == end && a <= source[cursor..end]
    ensures source[cursor..cursor + |a|] == a
    ensures source[cursor + |a|..cursor + |a| + |b|] == b && source[cursor + |a| + |b|..end] == c
  {
    assert a + b + c == a + (b + c);
    FrontAndRest(source, cursor, end, a, b + c);
    FrontAndRest(source, cursor + |a|, end, b, c);
  }

  lemma PublicReads(source: string, cursor: nat, end: nat, publicId: string, systemId: Option<string>)
    requires IsIdentifier(publicId) && (systemId.Some? ==> IsIdentifier(systemId.value)) && cursor <= end <= |source|
    requires source[cursor..end] == "PUBLIC" + Quoted(publicId) + if systemId.Some? then Quoted(systemId.value) else []
    ensures cursor + 6 <= end && StartsWithIgnoringCase(source[cursor..end], "public")
    ensures var first := ReadIdentifier(source, cursor + 6, end);
            first.0 == Some(publicId) && ReadIdentifier(source, first.1, end) == (systemId, end)
  {
    hide Quoted;
    hide ReadIdentifier;
    hide StartsWithIgnoringCase;
    hide IsIdentifier;
    var quoted, tail := Quoted(publicId), if systemId.Some? then Quoted(systemId.value) else [];
    Slices(source, cursor, end, "PUBLIC", quoted, tail);
    KeywordReads(source[cursor..end], "public", "PUBLIC");
    IdentifierReads(source, cursor + 6, end, publicId);
    if systemId.Some? {
      IdentifierReads(source, cursor + 6 + |quoted|, end, systemId.value);
    } else {
      NoIdentifier(source, end);
    }
    var first := ReadIdentifier(source, cursor + 6, end);
    assert first.0 == Some(publicId) && ReadIdentifier(source, first.1, end) == (systemId, end);
  }

  lemma SystemReads(source: string, cursor: nat, end: nat, systemId: string)
    requires IsIdentifier(systemId) && cursor <= end <= |source| && source[cursor..end] == "SYSTEM" + Quoted(systemId)
    ensures cursor + 6 <= end && StartsWithIgnoringCase(source[cursor..end], "system")
    ensures !StartsWithIgnoringCase(source[cursor..end], "public")
    ensures ReadIdentifier(source, cursor + 6, end) == (Some(systemId), end)
  {
    hide Quoted;
    hide ReadIdentifier;
    hide StartsWithIgnoringCase;
    hide IsIdentifier;
    assert source[cursor..end] == "SYSTEM" + Quoted(systemId) + [];
    Slices(source, cursor, end, "SYSTEM", Quoted(systemId), []);
    KeywordReads(source[cursor..end], "system", "SYSTEM");
    IdentifierReads(source, cursor + 6, end, systemId);
    assert ReadIdentifier(source, cursor + 6, end) == (Some(systemId), end);
  }

  lemma NoIdentifiersRead(source: string, name: string, end: nat, position: Position)
    requires AtIdentifiers(source, name, end, end)
    ensures ReadDoctype(source, position) == Markup(Some(Doctype(name, [], [], name != "html")), [])
  {
    hide Skip;
    hide ContentEnd;
    hide ReadIdentifier;
    hide StartsWithIgnoringCase;
    hide LowerAll;
  }

  lemma PublicIdentifiersRead(source: string, name: string, cursor: nat, end: nat, publicId: string,
                              systemId: Option<string>, position: Position)
    requires AtIdentifiers(source, name, cursor, end) && cursor + 6 <= end
    requires StartsWithIgnoringCase(source[cursor..end], "public")
    requires var first := ReadIdentifier(source, cursor + 6, end);
             first.0 == Some(publicId) && ReadIdentifier(source, first.1, end) == (systemId, end)
    ensures ReadDoctype(source, position)
         == Markup(Some(Doctype(name, publicId, OrEmpty(systemId), name != "html")), [])
  {
    hide Skip;
    hide ContentEnd;
    hide ReadIdentifier;
    hide StartsWithIgnoringCase;
    hide LowerAll;
    hide Advance;
    NoIdentifier(source, end);
    assert DoctypeTail(source, end, end, position) == [];
    assert ReadDoctype(source, position)
        == Markup(Some(Doctype(name, publicId, OrEmpty(systemId), name != "html")), []);
  }

  lemma SystemIdentifierReads(source: string, name: string, cursor: nat, end: nat, systemId: string, position: Position)
    requires AtIdentifiers(source, name, cursor, end) && cursor + 6 <= end
    requires StartsWithIgnoringCase(source[cursor..end], "system")
    requires !StartsWithIgnoringCase(source[cursor..end], "public")
    requires ReadIdentifier(source, cursor + 6, end) == (Some(systemId), end)
    ensures ReadDoctype(source, position) == Markup(Some(Doctype(name, [], systemId, name != "html")), [])
  {
    hide Skip;
    hide ContentEnd;
    hide ReadIdentifier;
    hide StartsWithIgnoringCase;
    hide LowerAll;
    hide Advance;
    NoIdentifier(source, end);
    assert DoctypeTail(source, end, end, position) == [];
    assert ReadDoctype(source, position) == Markup(Some(Doctype(name, [], systemId, name != "html")), []);
  }

  /** A written doctype reads back as its name and identifiers; only another name than "html" is quirky. */
  lemma DoctypeReads(name: string, publicId: Option<string>, systemId: Option<string>, position: Position)
    requires IsName(name)
    requires (publicId.Some? ==> IsIdentifier(publicId.value)) && (systemId.Some? ==> IsIdentifier(systemId.value))
    ensures ReadDoctype(Declaration(name, publicId, systemId), position)
         == Markup(Some(Doctype(name, OrEmpty(publicId), OrEmpty(systemId), name != "html")), [])
  {
    hide ReadDoctype;
    hide ReadIdentifier;
    hide StartsWithIgnoringCase;
    hide IsIdentifier;
    hide Quoted;
    hide Declaration;
    DoctypeHead(name, publicId, systemId);
    var source, cursor := Declaration(name, publicId, systemId), 11 + |name|;
    var end := |source| - 1;
    if publicId.Some? || systemId.Some? {
      assert source[cursor..end] == source[cursor - 1..end][1..] == Identifiers(publicId, systemId)[1..];
      if publicId.Some? {
        PublicReads(source, cursor, end, publicId.value, systemId);
        PublicIdentifiersRead(source, name, cursor, end, publicId.value, systemId, position);
      } else {
        SystemReads(source, cursor, end, systemId.value);
        SystemIdentifierReads(source, name, cursor, end, systemId.value, position);
      }
    } else {
      NoIdentifiersRead(source, name, end, position);
    }
    assert ReadDoctype(source, position)
        == Markup(Some(Doctype(name, OrEmpty(publicId), OrEmpty(systemId), name != "html")), []);
  }
}
