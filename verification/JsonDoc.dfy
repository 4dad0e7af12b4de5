/**
 The JSON documents src/cert_bundle.rs prints: ordered trees without white space, their text, and what
 JsonReader makes of that text.
 */
module JsonDoc {
  import opened Kernel
  import opened Text
  import opened Hex
  import opened JsonSyntax
  import opened JsonReader

  datatype Doc =
    | DocString(text: string)
    | DocNumber(number: u64)
    | DocBool(flag: bool)
    | DocArray(items: seq<Doc>)
    | DocObject(fields: seq<Field>)

  datatype Field = Field(key: string, doc: Doc)

  // ---------------------------------------------------------------- text

  /** One arm of `push_json_escaped`. */
  function EscapeChar(c: char): string {
    if c == '\"' then "\\\""
    else if c == '\\' then "\\\\"
    else if c == '\n' then "\\n"
    else if c == '\r' then "\\r"
    else if c == '\t' then "\\t"
    else if IsControl(c) then "\\u00" + [LowerHexDigit(c as int / 16), LowerHexDigit(c as int % 16)]
    else [c]
  }

  /** A control character without a short escape is printed as a backslash, a `u` and its code in four hexadecimal digits. */
  lemma ControlEscape(c: char)
    requires IsControl(c) && c != '\n' && c != '\r' && c != '\t'
    ensures |EscapeChar(c)| == 6 && EscapeChar(c)[..2] == "\\u" && EscapeChar(c)[2..] == ToHex([0, c as int])
  {
    assert ToHex([0, c as int]) == ['0', '0'] + ToHex([c as int]) by {
      assert [0, c as int][1..] == [c as int];
    }
    assert [c as int][1..] == [];
    assert ToHex([c as int]) == [LowerHexDigit(c as int / 16), LowerHexDigit(c as int % 16)] + ToHex([]);
  }

  function Escape(s: string): string {
    if s == "" then "" else EscapeChar(s[0]) + Escape(s[1..])
  }

  function StringText(s: string): seq<byte> {
    [QUOTE] + Utf8(Escape(s)) + [QUOTE]
  }

  function DocText(d: Doc): seq<byte>
    decreases d, 0
  {
    match d
    case DocString(s) => StringText(s)
    case DocNumber(n) => Decimal(n)
    case DocBool(b) => if b then TRUE_TEXT else FALSE_TEXT
    case DocArray(items) => [OPEN_BRACKET] + ItemsText(items) + [CLOSE_BRACKET]
    case DocObject(fields) => [OPEN_BRACE] + FieldsText(fields) + [CLOSE_BRACE]
  }

  function ItemsText(items: seq<Doc>): seq<byte>
    decreases items, 1
  {
    if items == [] then []
    else if |items| == 1 then DocText(items[0])
    else DocText(items[0]) + ([COMMA] + ItemsText(items[1..]))
  }

  function KeyText(key: string): seq<byte> {
    [QUOTE] + Utf8(key) + [QUOTE, COLON]
  }

  function FieldText(f: Field): seq<byte>
    decreases f, 1
  {
    KeyText(f.key) + DocText(f.doc)
  }

  function FieldsText(fields: seq<Field>): seq<byte>
    decreases fields, 2
  {
    if fields == [] then []
    else if |fields| == 1 then FieldText(fields[0])
    else FieldText(fields[0]) + ([COMMA] + FieldsText(fields[1..]))
  }

  // ---------------------------------------------------------------- value and size

  function DocValue(d: Doc): JsonValue
    decreases d, 0
  {
    match d
    case DocString(s) => JsonString(s)
    case DocNumber(n) => JsonNumber(n)
    case DocBool(b) => JsonBool(b)
    case DocArray(items) => JsonArray(ItemValues(items))
    case DocObject(fields) => JsonObject(FieldMap(map[], fields))
  }

  function ItemValues(items: seq<Doc>): (values: seq<JsonValue>)
    ensures |values| == |items|
    ensures forall i | 0 <= i < |items| :: values[i] == DocValue(items[i])
    decreases items, 1
  {
    if items == [] then [] else [DocValue(items[0])] + ItemValues(items[1..])
  }

  function FieldMap(seen: map<string, JsonValue>, fields: seq<Field>): map<string, JsonValue>
    decreases fields, 1
  {
    if fields == [] then seen
    else FieldMap(seen[fields[0].key := DocValue(fields[0].doc)], fields[1..])
  }

  function DocNodes(d: Doc): (n: nat)
    ensures n >= 1
    decreases d, 0
  {
    match d
    case DocArray(items) => 1 + ItemNodes(items)
    case DocObject(fields) => 1 + FieldNodes(fields)
    case _ => 1
  }

  function ItemNodes(items: seq<Doc>): nat
    decreases items, 1
  {
    if items == [] then 0 else DocNodes(items[0]) + ItemNodes(items[1..])
  }

  function FieldNodes(fields: seq<Field>): nat
    decreases fields, 1
  {
    if fields == [] then 0 else DocNodes(fields[0].doc) + FieldNodes(fields[1..])
  }

  function DocHeight(d: Doc): nat
    decreases d, 0
  {
    match d
    case DocArray(items) => if items == [] then 0 else 1 + ItemsHeight(items)
    case DocObject(fields) => if fields == [] then 0 else 1 + FieldsHeight(fields)
    case _ => 0
  }

  function ItemsHeight(items: seq<Doc>): nat
    decreases items, 1
  {
    if items == [] then 0 else Max(DocHeight(items[0]), ItemsHeight(items[1..]))
  }

  function FieldsHeight(fields: seq<Field>): nat
    decreases fields, 1
  {
    if fields == [] then 0 else Max(DocHeight(fields[0].doc), FieldsHeight(fields[1..]))
  }

  // ---------------------------------------------------------------- well-formed documents

  /** The characters the parser reads back as the printer wrote them: 0x20..0x7e and three escapes. */
  predicate IsPlainChar(c: char) {
    0x20 <= c as int <= 0x7e || c == '\n' || c == '\r' || c == '\t'
  }

  predicate IsPlain(s: string) {
    forall i | 0 <= i < |s| :: IsPlainChar(s[i])
  }

  /** A key the printer may write without escaping. */
  predicate IsPlainKey(key: string) {
    forall i | 0 <= i < |key| :: 0x20 <= key[i] as int <= 0x7e && key[i] != '\"' && key[i] != '\\'
  }

  predicate DistinctKeys(fields: seq<Field>) {
    forall i, j | 0 <= i < j < |fields| :: fields[i].key != fields[j].key
  }

  /** Every object's keys are distinct and need no escaping. */
  predicate Keyed(d: Doc)
    decreases d, 0
  {
    match d
    case DocArray(items) => forall i | 0 <= i < |items| :: Keyed(items[i])
    case DocObject(fields) =>
      && DistinctKeys(fields)
      && forall i | 0 <= i < |fields| :: IsPlainKey(fields[i].key) && Keyed(fields[i].doc)
    case _ => true
  }

  /** Every string value is plain. */
  predicate PlainStrings(d: Doc)
    decreases d, 0
  {
    match d
    case DocString(s) => IsPlain(s)
    case DocArray(items) => forall i | 0 <= i < |items| :: PlainStrings(items[i])
    case DocObject(fields) => forall i | 0 <= i < |fields| :: PlainStrings(fields[i].doc)
    case _ => true
  }

  predicate FitsLimits(d: Doc) {
    DocHeight(d) <= MAX_JSON_DEPTH && DocNodes(d) <= MAX_JSON_NODES
  }

  // ---------------------------------------------------------------- strings: exactly what survives

  /** A control character other than the three the printer has short escapes for. */
  predicate IsUnreadable(c: char) {
    IsControl(c) && c != '\n' && c != '\r' && c != '\t'
  }

  predicate IsReadable(s: string) {
    forall i | 0 <= i < |s| :: !IsUnreadable(s[i])
  }

  predicate ReadableDoc(d: Doc)
    decreases d, 0
  {
    match d
    case DocString(s) => IsReadable(s)
    case DocArray(items) => forall i | 0 <= i < |items| :: ReadableDoc(items[i])
    case DocObject(fields) => forall i | 0 <= i < |fields| :: ReadableDoc(fields[i].doc)
    case _ => true
  }

  /** The bytes of a string read back one character per byte. */
  function ByteChars(bytes: seq<byte>): string {
    seq(|bytes|, i requires 0 <= i < |bytes| => bytes[i] as char)
  }

  /** The pieces the parser sees for one printed character. */
  function CharPieces(c: char): (ps: seq<Piece>)
    requires !IsUnreadable(c)
    ensures PiecesBytes(ps) == Utf8(EscapeChar(c))
    ensures PiecesText(ps) == ByteChars(Utf8Char(c))
  {
    if c == '\"' then EscapePieces(QUOTE, c, '\"')
    else if c == '\\' then EscapePieces(BACKSLASH, c, '\\')
    else if c == '\n' then EscapePieces(0x6e, c, 'n')
    else if c == '\r' then EscapePieces(0x72, c, 'r')
    else if c == '\t' then EscapePieces(0x74, c, 't')
    else
      assert Utf8([c]) == Utf8Char(c) + [];
      RawPieces(Utf8Char(c))
  }

  function EscapePieces(b: byte, c: char, letter: char): (ps: seq<Piece>)
    requires Unescape(b) == Some(c) && letter as int == b && b < 0x80
    ensures PiecesBytes(ps) == Utf8(['\\', letter])
    ensures PiecesText(ps) == [c]
  {
    var p: Piece := Escaped(b);
    Utf8Pair('\\', letter);
    assert [p][1..] == [];
    assert PiecesBytes([p]) == PieceBytes(p) + [];
    [p]
  }

  function RawPieces(bytes: seq<byte>): (ps: seq<Piece>)
    requires forall i | 0 <= i < |bytes| :: bytes[i] >= 0x20 && bytes[i] != QUOTE && bytes[i] != BACKSLASH
    ensures PiecesBytes(ps) == bytes
    ensures PiecesText(ps) == ByteChars(bytes)
  {
    if bytes == [] then []
    else
      var tail := RawPieces(bytes[1..]);
      var ps: seq<Piece> := [Raw(bytes[0])] + tail;
      assert ps[1..] == tail;
      assert bytes == [bytes[0]] + bytes[1..];
      ps
  }

  function Pieces(s: string): seq<Piece>
    requires IsReadable(s)
  {
    if s == "" then [] else CharPieces(s[0]) + Pieces(s[1..])
  }

  lemma {:induction false} PiecesPrinted(s: string)
    requires IsReadable(s)
    ensures PiecesBytes(Pieces(s)) == Utf8(Escape(s))
    ensures PiecesText(Pieces(s)) == ByteChars(Utf8(s))
  {
    if s != "" {
      var head, tail := CharPieces(s[0]), Pieces(s[1..]);
      PiecesPrinted(s[1..]);
      PiecesBytesConcat(head, tail);
      PiecesTextConcat(head, tail);
      Utf8Concat(EscapeChar(s[0]), Escape(s[1..]));
      ByteCharsConcat(Utf8Char(s[0]), Utf8(s[1..]));
    }
  }

  lemma ByteCharsConcat(a: seq<byte>, b: seq<byte>)
    ensures ByteChars(a + b) == ByteChars(a) + ByteChars(b)
  {
  }

  lemma {:induction false} PiecesBytesConcat(ps: seq<Piece>, qs: seq<Piece>)
    ensures PiecesBytes(ps + qs) == PiecesBytes(ps) + PiecesBytes(qs)
  {
    if ps == [] {
      assert ps + qs == qs;
    } else {
      PiecesBytesConcat(ps[1..], qs);
      assert (ps + qs)[1..] == ps[1..] + qs && (ps + qs)[0] == ps[0];
    }
  }

  lemma {:induction false} PiecesTextConcat(ps: seq<Piece>, qs: seq<Piece>)
    ensures PiecesText(ps + qs) == PiecesText(ps) + PiecesText(qs)
  {
    if ps == [] {
      assert ps + qs == qs;
    } else {
      PiecesTextConcat(ps[1..], qs);
      assert (ps + qs)[1..] == ps[1..] + qs && (ps + qs)[0] == ps[0];
    }
  }

  /** An unreadable character stops the parser wherever it stands, because the printer writes it as \u. */
  lemma {:induction false} UnreadableStops(s: string, rest: seq<byte>)
    requires !IsReadable(s)
    ensures ReadChars(Utf8(Escape(s)) + rest) == Err(ParseError)
  {
    hide ReadChars, Utf8, EscapeChar, CharPieces;
    var c, tail := s[0], s[1..];
    var on := Utf8(Escape(tail)) + rest;
    Utf8Concat(EscapeChar(c), Escape(tail));
    Associative(Utf8(EscapeChar(c)), Utf8(Escape(tail)), rest);
    if IsUnreadable(c) {
      UnknownEscapeStops(c, on);
    } else {
      var i :| 0 <= i < |s| && IsUnreadable(s[i]);
      assert tail[i - 1] == s[i];
      UnreadableStops(tail, rest);
      PiecesStop(CharPieces(c), on);
    }
  }

  lemma UnknownEscapeStops(c: char, on: seq<byte>)
    requires IsUnreadable(c)
    ensures ReadChars(Utf8(EscapeChar(c)) + on) == Err(ParseError)
  {
    var bytes := Utf8(EscapeChar(c));
    Utf8Ascii(EscapeChar(c));
    assert bytes[0] == BACKSLASH && bytes[1] == 0x75;
    assert (bytes + on)[0] == BACKSLASH && (bytes + on)[1] == 0x75;
  }

  lemma {:induction false} PiecesStop(ps: seq<Piece>, s: seq<byte>)
    requires ReadChars(s).Err?
    ensures ReadChars(PiecesBytes(ps) + s) == ReadChars(s)
  {
    if ps == [] {
      assert PiecesBytes(ps) + s == s;
    } else {
      PiecesStop(ps[1..], s);
      var head, on := PieceBytes(ps[0]), PiecesBytes(ps[1..]) + s;
      assert PiecesBytes(ps) + s == head + on;
      assert (head + on)[|head|..] == on;
    }
  }

  /** What the parser returns for any printed string: its bytes as characters, or an error. */
  lemma RereadString(s: string, rest: seq<byte>)
    ensures ReadString(StringText(s) + rest)
         == if IsReadable(s) then Ok(Token(ByteChars(Utf8(s)), rest)) else Err(ParseError)
  {
    var inner := Utf8(Escape(s)) + ([QUOTE] + rest);
    assert StringText(s) + rest == [QUOTE] + inner;
    assert ([QUOTE] + inner)[1..] == inner;
    assert ReadString([QUOTE] + inner) == ReadChars(inner);
    if IsReadable(s) {
      PiecesPrinted(s);
      ReadCharsOver(Pieces(s), rest);
    } else {
      UnreadableStops(s, [QUOTE] + rest);
    }
  }

  lemma {:induction false} ByteCharsOfUtf8(s: string)
    ensures ByteChars(Utf8(s)) == s <==> IsAscii(s)
    ensures !IsAscii(s) ==> |Utf8(s)| > |s|
  {
    if s != "" {
      ByteCharsOfUtf8(s[1..]);
      var head, tail := Utf8Char(s[0]), Utf8(s[1..]);
      assert Utf8(s) == head + tail;
      if IsAscii(s) {
        assert IsAscii(s[1..]);
        assert ByteChars(Utf8(s)) == [head[0] as char] + ByteChars(tail);
      } else if s[0] as int < 0x80 {
        assert !IsAscii(s[1..]) by {
          var i :| 0 <= i < |s| && s[i] as int >= 0x80;
          assert s[1..][i - 1] == s[i];
        }
      }
    }
  }

  /** Printing and reading a string is the identity exactly on plain strings. */
  lemma StringRoundTrip(s: string, rest: seq<byte>)
    ensures ReadString(StringText(s) + rest) == Ok(Token(s, rest)) <==> IsPlain(s)
  {
    RereadString(s, rest);
    ByteCharsOfUtf8(s);
    if IsReadable(s) && IsAscii(s) {
      forall i | 0 <= i < |s|
        ensures IsPlainChar(s[i])
      {
        assert !IsUnreadable(s[i]);
      }
    }
  }

  /** DEL is printed as \u007f, which the parser has no escape for. */
  lemma DeleteDoesNotRoundTrip(rest: seq<byte>)
    ensures ReadString(StringText([127 as char]) + rest) == Err(ParseError)
  {
    RereadString([127 as char], rest);
    assert IsUnreadable([127 as char][0]);
  }

  // ---------------------------------------------------------------- documents as derivations

  /** A document the grammar derives: sound keys and no string with an unreadable character. */
  predicate Derivable(d: Doc) {
    Keyed(d) && ReadableDoc(d)
  }

  predicate DerivableItems(items: seq<Doc>) {
    forall i | 0 <= i < |items| :: Derivable(items[i])
  }

  predicate DerivableFields(fields: seq<Field>) {
    forall i | 0 <= i < |fields| :: IsPlainKey(fields[i].key) && Derivable(fields[i].doc)
  }

  /** The document the parser sees: each string's bytes as characters. */
  function Reread(d: Doc): Doc
    decreases d, 0
  {
    match d
    case DocString(s) => DocString(ByteChars(Utf8(s)))
    case DocArray(items) => DocArray(RereadItems(items))
    case DocObject(fields) => DocObject(RereadFields(fields))
    case _ => d
  }

  function RereadItems(items: seq<Doc>): seq<Doc>
    decreases items, 1
  {
    if items == [] then [] else [Reread(items[0])] + RereadItems(items[1..])
  }

  function RereadFields(fields: seq<Field>): seq<Field>
    decreases fields, 1
  {
    if fields == [] then []
    else [Field(fields[0].key, Reread(fields[0].doc))] + RereadFields(fields[1..])
  }

  /** The derivation of a readable document's text. */
  function Tree(d: Doc): Syntax
    requires Derivable(d)
    decreases d, 0
  {
    match d
    case DocString(s) => StringToken(Pieces(s))
    case DocNumber(n) => NumberToken(n)
    case DocBool(b) => if b then TrueToken else FalseToken
    case DocArray(items) => if items == [] then EmptyArray([]) else ArrayOf(TreeElements(items))
    case DocObject(fields) => if fields == [] then EmptyObject([]) else ObjectOf(TreeMembers(fields))
  }

  function TreeElements(items: seq<Doc>): Elements
    requires items != [] && DerivableItems(items)
    decreases items, 1
  {
    if |items| == 1 then LastElement([], Tree(items[0]), [])
    else NextElement([], Tree(items[0]), [], TreeElements(items[1..]))
  }

  function TreeMembers(fields: seq<Field>): Members
    requires fields != [] && DerivableFields(fields)
    decreases fields, 1
  {
    KeyIsPlain(fields[0].key);
    var m := Member([], Pieces(fields[0].key), [], [], Tree(fields[0].doc));
    if |fields| == 1 then LastMember(m, []) else NextMember(m, [], TreeMembers(fields[1..]))
  }

  lemma {:induction false} KeyIsPlain(key: string)
    requires IsPlainKey(key)
    ensures IsPlain(key) && Escape(key) == key
  {
    if key != "" {
      KeyIsPlain(key[1..]);
    }
  }

  lemma StringPieces(s: string)
    requires IsReadable(s)
    ensures PiecesText(Pieces(s)) == ByteChars(Utf8(s))
    ensures IsPlain(s) ==> PiecesText(Pieces(s)) == s
    ensures StringBytes(Pieces(s)) == StringText(s)
  {
    PiecesPrinted(s);
    ByteCharsOfUtf8(s);
  }

  lemma {:induction false} TreeText(d: Doc)
    requires Derivable(d)
    ensures Yield(Tree(d)) == DocText(d)
    decreases d, 0
  {
    hide StringText, StringBytes, Pieces, YieldElements, YieldMembers, TreeElements, TreeMembers;
    match d
    case DocString(s) => StringPieces(s);
    case DocArray(items) => if items != [] { TreeElementsText(items); }
    case DocObject(fields) => if fields != [] { TreeMembersText(fields); }
    case _ =>
  }

  lemma CompactElementText(v: Syntax, rest: Elements)
    ensures YieldElements(LastElement([], v, [])) == Yield(v) + [CLOSE_BRACKET]
    ensures YieldElements(NextElement([], v, [], rest)) == Yield(v) + ([COMMA] + YieldElements(rest))
  {
    var none: Ws := [];
    assert none + [CLOSE_BRACKET] == [CLOSE_BRACKET];
    assert none + ([COMMA] + YieldElements(rest)) == [COMMA] + YieldElements(rest);
    assert none + (Yield(v) + [CLOSE_BRACKET]) == Yield(v) + [CLOSE_BRACKET];
    assert none + (Yield(v) + ([COMMA] + YieldElements(rest))) == Yield(v) + ([COMMA] + YieldElements(rest));
  }

  lemma CompactMemberText(key: seq<Piece>, v: Syntax, rest: Members)
    ensures var m := Member([], key, [], [], v);
      && YieldMembers(LastMember(m, [])) == (StringBytes(key) + [COLON]) + Yield(v) + [CLOSE_BRACE]
      && YieldMembers(NextMember(m, [], rest))
         == (StringBytes(key) + [COLON]) + Yield(v) + ([COMMA] + YieldMembers(rest))
  {
    var none: Ws := [];
    var m := Member([], key, [], [], v);
    assert none + Yield(v) == Yield(v);
    assert none + ([COLON] + Yield(v)) == [COLON] + Yield(v);
    assert none + (StringBytes(key) + ([COLON] + Yield(v))) == StringBytes(key) + ([COLON] + Yield(v));
    assert YieldMember(m) == StringBytes(key) + ([COLON] + Yield(v)) == (StringBytes(key) + [COLON]) + Yield(v);
    assert none + [CLOSE_BRACE] == [CLOSE_BRACE];
    assert none + ([COMMA] + YieldMembers(rest)) == [COMMA] + YieldMembers(rest);
  }

  lemma {:induction false} TreeElementsText(items: seq<Doc>)
    requires items != [] && DerivableItems(items)
    ensures YieldElements(TreeElements(items)) == ItemsText(items) + [CLOSE_BRACKET]
    decreases items, 1
  {
    TreeText(items[0]);
    if |items| == 1 {
      CompactElementText(Tree(items[0]), LastElement([], NullToken, []));
    } else {
      TreeElementsText(items[1..]);
      CompactElementText(Tree(items[0]), TreeElements(items[1..]));
      Reassociate(DocText(items[0]), ItemsText(items[1..]), CLOSE_BRACKET);
    }
  }

  lemma Reassociate(head: seq<byte>, tail: seq<byte>, close: byte)
    ensures (head + ([COMMA] + tail)) + [close] == head + ([COMMA] + (tail + [close]))
  {
  }

  lemma {:induction false} TreeMembersText(fields: seq<Field>)
    requires fields != [] && DerivableFields(fields)
    ensures YieldMembers(TreeMembers(fields)) == FieldsText(fields) + [CLOSE_BRACE]
    decreases fields, 1
  {
    hide Tree, Yield, Pieces, DocText, StringBytes;
    var f := fields[0];
    KeyIsPlain(f.key);
    StringPieces(f.key);
    TreeText(f.doc);
    assert StringBytes(Pieces(f.key)) + [COLON] == KeyText(f.key);
    if |fields| == 1 {
      CompactMemberText(Pieces(f.key), Tree(f.doc), LastMember(Member([], [], [], [], NullToken), []));
    } else {
      TreeMembersText(fields[1..]);
      CompactMemberText(Pieces(f.key), Tree(f.doc), TreeMembers(fields[1..]));
      Reassociate(FieldText(f), FieldsText(fields[1..]), CLOSE_BRACE);
    }
  }

  lemma {:induction false} TreeMeaning(d: Doc)
    requires Derivable(d)
    ensures Value(Tree(d)) == DocValue(Reread(d)) && UniqueKeys(Tree(d))
    ensures Nodes(Tree(d)) == DocNodes(d) && Height(Tree(d)) == DocHeight(d)
    decreases d, 0
  {
    match d
    case DocString(s) => StringPieces(s);
    case DocArray(items) => if items != [] { TreeElementsMeaning(items); }
    case DocObject(fields) =>
      var none: map<string, JsonValue> := map[];
      assert none.Keys == {};
      if fields != [] { TreeMembersMeaning(none, fields); }
    case _ =>
  }

  lemma {:induction false} TreeElementsMeaning(items: seq<Doc>)
    requires items != [] && DerivableItems(items)
    ensures Items(TreeElements(items)) == ItemValues(RereadItems(items)) && UniqueElementKeys(TreeElements(items))
    ensures ElementNodes(TreeElements(items)) == ItemNodes(items)
    ensures ElementsHeight(TreeElements(items)) == ItemsHeight(items)
    decreases items, 1
  {
    TreeMeaning(items[0]);
    if |items| > 1 {
      TreeElementsMeaning(items[1..]);
    }
  }

  lemma {:induction false} TreeMembersMeaning(seen: map<string, JsonValue>, fields: seq<Field>)
    requires fields != [] && DistinctKeys(fields)
    requires DerivableFields(fields)
    requires forall i | 0 <= i < |fields| :: fields[i].key !in seen
    ensures AddMembers(seen, TreeMembers(fields)) == FieldMap(seen, RereadFields(fields))
    ensures UniqueMemberKeys(seen.Keys, TreeMembers(fields))
    ensures MemberNodes(TreeMembers(fields)) == FieldNodes(fields)
    ensures MembersHeight(TreeMembers(fields)) == FieldsHeight(fields)
    decreases fields, 1
  {
    hide Tree, Value, Pieces, Nodes, Height, UniqueKeys, DocValue, DocNodes, DocHeight;
    TreeMeaning(fields[0].doc);
    KeyIsPlain(fields[0].key);
    StringPieces(fields[0].key);
    var key := fields[0].key;
    var added := seen[key := DocValue(Reread(fields[0].doc))];
    assert added.Keys == seen.Keys + {key};
    if |fields| > 1 {
      TreeMembersMeaning(added, fields[1..]);
    }
  }

  // ---------------------------------------------------------------- documents: exactly what survives

  lemma {:induction false} PlainIsReadable(d: Doc)
    requires PlainStrings(d)
    ensures ReadableDoc(d) && Reread(d) == d
    decreases d, 0
  {
    match d
    case DocString(s) => ByteCharsOfUtf8(s);
    case DocArray(items) => PlainItems(items);
    case DocObject(fields) => PlainFields(fields);
    case _ =>
  }

  lemma {:induction false} PlainItems(items: seq<Doc>)
    requires forall i | 0 <= i < |items| :: PlainStrings(items[i])
    ensures (forall i | 0 <= i < |items| :: ReadableDoc(items[i])) && RereadItems(items) == items
    decreases items, 1
  {
    if items != [] {
      PlainIsReadable(items[0]);
      PlainItems(items[1..]);
    }
  }

  lemma {:induction false} PlainFields(fields: seq<Field>)
    requires forall i | 0 <= i < |fields| :: PlainStrings(fields[i].doc)
    ensures (forall i | 0 <= i < |fields| :: ReadableDoc(fields[i].doc)) && RereadFields(fields) == fields
    decreases fields, 1
  {
    if fields != [] {
      PlainIsReadable(fields[0].doc);
      PlainFields(fields[1..]);
    }
  }

  lemma {:induction false} RereadShape(items: seq<Doc>)
    ensures |RereadItems(items)| == |items|
    ensures forall i | 0 <= i < |items| :: RereadItems(items)[i] == Reread(items[i])
  {
    if items != [] {
      RereadShape(items[1..]);
    }
  }

  lemma {:induction false} RereadFieldShape(fields: seq<Field>)
    ensures |RereadFields(fields)| == |fields|
    ensures forall i | 0 <= i < |fields| :: RereadFields(fields)[i] == Field(fields[i].key, Reread(fields[i].doc))
  {
    hide Reread;
    if fields != [] {
      RereadFieldShape(fields[1..]);
    }
  }

  /** Only a plain document means the same after being read back. */
  lemma {:induction false} SameMeaningIsPlain(d: Doc)
    requires Derivable(d) && DocValue(Reread(d)) == DocValue(d)
    ensures PlainStrings(d)
    decreases d
  {
    match d
    case DocString(s) =>
      ByteCharsOfUtf8(s);
      forall i | 0 <= i < |s|
        ensures IsPlainChar(s[i])
      {
        assert !IsUnreadable(s[i]);
      }
    case DocArray(items) =>
      RereadShape(items);
      forall i | 0 <= i < |items|
        ensures PlainStrings(items[i])
      {
        assert ItemValues(RereadItems(items))[i] == ItemValues(items)[i];
        SameMeaningIsPlain(items[i]);
      }
    case DocObject(fields) =>
      var again := RereadFields(fields);
      RereadFieldShape(fields);
      FieldLookup(map[], fields);
      FieldLookup(map[], again);
      forall i | 0 <= i < |fields|
        ensures PlainStrings(fields[i].doc)
      {
        assert again[i].key == fields[i].key;
        SameMeaningIsPlain(fields[i].doc);
      }
    case _ =>
  }

  lemma DocTextStart(d: Doc)
    ensures DocText(d) != [] && !IsWs(DocText(d)[0]) && DocText(d)[0] != CLOSE_BRACKET
    ensures IsDigit(DocText(d)[0]) <==> d.DocNumber?
  {
  }

  lemma ReadQuoted(s: seq<byte>, depth: nat, nodes: nat)
    requires StartsWith(s, QUOTE) && ReadString(s).Err?
    ensures ReadValue(s, depth, nodes).Err?
  {
    SkipWsOver([], s);
  }

  lemma ReadsText(d: Doc, rest: seq<byte>, depth: nat, nodes: nat)
    requires Derivable(d) && rest != [] && !IsDigit(rest[0])
    ensures ReadValue(DocText(d) + rest, depth, nodes) == Followed(Eval(Tree(d), depth, nodes), rest)
  {
    TreeText(d);
    ReadValueOver([], Tree(d), rest, depth, nodes);
    assert [] + (DocText(d) + rest) == DocText(d) + rest;
  }

  /** An unreadable character anywhere in a document makes its text unparseable, whatever the budgets left. */
  lemma {:induction false} UnreadableDoc(d: Doc, rest: seq<byte>, depth: nat, nodes: nat)
    requires Keyed(d) && !ReadableDoc(d)
    ensures ReadValue(DocText(d) + rest, depth, nodes).Err?
    decreases d, 0
  {
    hide ReadString, ReadElements, ReadMembers, Escape, ItemsText, FieldsText;
    if depth > MAX_JSON_DEPTH || nodes >= MAX_JSON_NODES {
      return;
    }
    match d
    case DocString(s) =>
      RereadString(s, rest);
      assert StringText(s) + rest == [QUOTE] + (Utf8(Escape(s)) + ([QUOTE] + rest));
      ReadQuoted(StringText(s) + rest, depth, nodes);
    case DocArray(items) =>
      var on := ItemsText(items) + ([CLOSE_BRACKET] + rest);
      assert DocText(d) + rest == [OPEN_BRACKET] + on;
      assert ([OPEN_BRACKET] + on)[1..] == on;
      assert [] + ([OPEN_BRACKET] + on) == [OPEN_BRACKET] + on;
      ReadContainer([], [OPEN_BRACKET] + on, depth, nodes);
      ItemsStart(items, [CLOSE_BRACKET] + rest);
      UnreadableItems([], items, rest, depth + 1, nodes + 1);
    case DocObject(fields) =>
      var on := FieldsText(fields) + ([CLOSE_BRACE] + rest);
      assert DocText(d) + rest == [OPEN_BRACE] + on;
      assert ([OPEN_BRACE] + on)[1..] == on;
      assert [] + ([OPEN_BRACE] + on) == [OPEN_BRACE] + on;
      ReadContainer([], [OPEN_BRACE] + on, depth, nodes);
      FieldsStart(fields, [CLOSE_BRACE] + rest);
      UnreadableFields(map[], fields, rest, depth + 1, nodes + 1);
  }

  lemma ItemsStart(items: seq<Doc>, rest: seq<byte>)
    requires items != []
    ensures SkipWs(ItemsText(items) + rest) == ItemsText(items) + rest
    ensures !StartsWith(ItemsText(items) + rest, CLOSE_BRACKET)
  {
    hide DocText;
    DocTextStart(items[0]);
    var s := ItemsText(items) + rest;
    assert s[0] == DocText(items[0])[0];
    assert [] + s == s;
    SkipWsOver([], s);
  }

  lemma FieldsStart(fields: seq<Field>, rest: seq<byte>)
    requires fields != []
    ensures SkipWs(FieldsText(fields) + rest) == FieldsText(fields) + rest
    ensures !StartsWith(FieldsText(fields) + rest, CLOSE_BRACE)
  {
    hide DocText;
    var s := FieldsText(fields) + rest;
    assert KeyText(fields[0].key)[0] == QUOTE;
    assert FieldText(fields[0])[0] == QUOTE;
    assert s[0] == QUOTE;
    assert [] + s == s;
    SkipWsOver([], s);
  }

  lemma {:induction false} UnreadableItems(before: seq<JsonValue>, items: seq<Doc>, rest: seq<byte>, depth: nat, nodes: nat)
    requires forall i | 0 <= i < |items| :: Keyed(items[i])
    requires exists i | 0 <= i < |items| :: !ReadableDoc(items[i])
    ensures ReadElements(before, ItemsText(items) + ([CLOSE_BRACKET] + rest), depth, nodes).Err?
    decreases items, 1
  {
    hide ReadValue, DocText, Eval;
    var more := ItemsText(items[1..]) + ([CLOSE_BRACKET] + rest);
    var next := if |items| == 1 then [CLOSE_BRACKET] + rest else [COMMA] + more;
    assert ItemsText(items) + ([CLOSE_BRACKET] + rest) == DocText(items[0]) + next;
    if ReadableDoc(items[0]) {
      var i :| 0 <= i < |items| && !ReadableDoc(items[i]);
      assert items[1..][i - 1] == items[i];
      ReadsText(items[0], next, depth, nodes);
      assert [] + next == next;
      SkipWsOver([], next);
      assert next[1..] == more;
      var v := Eval(Tree(items[0]), depth, nodes);
      if v.Ok? {
        UnreadableItems(before + [v.value.value], items[1..], rest, depth, v.value.nodes);
      }
    } else {
      UnreadableDoc(items[0], next, depth, nodes);
    }
  }

  /** Reading `"key":` and what follows it. */
  lemma ReadKeyed(seen: map<string, JsonValue>, key: string, s: seq<byte>, depth: nat, nodes: nat)
    requires IsPlainKey(key) && s != [] && !IsWs(s[0])
    ensures ReadMember(seen, KeyText(key) + s, depth, nodes)
      == match ReadValue(s, depth, nodes)
         case Err(e) => Err(e)
         case Ok(v) =>
           if key in seen then Err(InvalidProfile) else Ok(Parsed(seen[key := v.value], v.rest, v.nodes))
  {
    hide ReadValue, ReadString, StringText, StringBytes, KeyText, Pieces, PiecesText;
    KeyPieces(key);
    var on := [COLON] + s;
    var text := StringText(key) + on;
    Associative(StringText(key), [COLON], s);
    SkipWsOver([], text);
    assert [] + text == text;
    ReadStringOver(Pieces(key), on);
    SkipWsOver([], on);
    assert [] + on == on;
    assert on[1..] == s;
  }

  lemma KeyPieces(key: string)
    requires IsPlainKey(key)
    ensures IsReadable(key) && StringBytes(Pieces(key)) == StringText(key) && PiecesText(Pieces(key)) == key
    ensures KeyText(key) == StringText(key) + [COLON]
    ensures StartsWith(StringText(key), QUOTE)
  {
    KeyIsPlain(key);
    StringPieces(key);
  }

  lemma {:induction false} UnreadableFields(
    seen: map<string, JsonValue>, fields: seq<Field>, rest: seq<byte>, depth: nat, nodes: nat)
    requires forall i | 0 <= i < |fields| :: IsPlainKey(fields[i].key) && Keyed(fields[i].doc)
    requires exists i | 0 <= i < |fields| :: !ReadableDoc(fields[i].doc)
    ensures ReadMembers(seen, FieldsText(fields) + ([CLOSE_BRACE] + rest), depth, nodes).Err?
    decreases fields, 1
  {
    hide ReadValue, ReadMember, DocText, Eval, KeyText;
    var f := fields[0];
    var more := FieldsText(fields[1..]) + ([CLOSE_BRACE] + rest);
    var next := if |fields| == 1 then [CLOSE_BRACE] + rest else [COMMA] + more;
    var value := DocText(f.doc) + next;
    assert FieldsText(fields) + ([CLOSE_BRACE] + rest) == KeyText(f.key) + value;
    DocTextStart(f.doc);
    ReadKeyed(seen, f.key, value, depth, nodes);
    if ReadableDoc(f.doc) {
      var i :| 0 <= i < |fields| && !ReadableDoc(fields[i].doc);
      assert fields[1..][i - 1] == fields[i];
      ReadsText(f.doc, next, depth, nodes);
      assert [] + next == next;
      SkipWsOver([], next);
      assert next[1..] == more;
      var v := Eval(Tree(f.doc), depth, nodes);
      if v.Ok? && f.key !in seen {
        UnreadableFields(seen[f.key := v.value.value], fields[1..], rest, depth, v.value.nodes);
      }
    } else {
      UnreadableDoc(f.doc, next, depth, nodes);
    }
  }

  /**
   What the parser returns for any printed document with sound keys, with any white space around it: the value with
   each string's bytes as characters, an overflow error beyond the limits, or an error if some string is unreadable.
   */
  lemma DocReadBack(before: Ws, d: Doc, after: Ws)
    requires Keyed(d)
    ensures ReadableDoc(d) ==>
      Parse(before + (DocText(d) + after)) == if FitsLimits(d) then Ok(DocValue(Reread(d))) else Err(LengthOverflow)
    ensures !ReadableDoc(d) ==> Parse(before + (DocText(d) + after)).Err?
  {
    hide ReadValue, Eval, DocText, Yield;
    if ReadableDoc(d) {
      TreeText(d);
      TreeMeaning(d);
      EvalIsValue(Tree(d), 0, 0);
      ParseDocument(Document(before, Tree(d), after));
    } else {
      DocTextStart(d);
      UnreadableDoc(d, after, 0, 0);
      SkipSpace(before, DocText(d) + after);
    }
  }

  lemma SkipSpace(before: Ws, s: seq<byte>)
    requires s != [] && !IsWs(s[0])
    ensures ReadValue(before + s, 0, 0) == ReadValue(s, 0, 0)
  {
    hide ReadObject, ReadArray, ReadString, ReadNumber, ReadLiteral;
    SkipWsOver(before, s);
    assert [] + s == s;
    SkipWsOver([], s);
  }

  /** Printing then parsing is the identity exactly on the documents with plain strings that fit the limits. */
  lemma DocRoundTrip(before: Ws, d: Doc, after: Ws)
    requires Keyed(d)
    ensures Parse(before + (DocText(d) + after)) == Ok(DocValue(d)) <==> PlainStrings(d) && FitsLimits(d)
    ensures PlainStrings(d) && !FitsLimits(d) ==> Parse(before + (DocText(d) + after)) == Err(LengthOverflow)
  {
    hide Parse, DocText, DocValue, Reread;
    DocReadBack(before, d, after);
    if PlainStrings(d) {
      PlainIsReadable(d);
    } else if ReadableDoc(d) && DocValue(Reread(d)) == DocValue(d) {
      SameMeaningIsPlain(d);
    }
  }

  /** Reading one field of an object's map. */
  lemma {:induction false} FieldLookup(seen: map<string, JsonValue>, fields: seq<Field>)
    requires DistinctKeys(fields)
    requires forall i | 0 <= i < |fields| :: fields[i].key !in seen
    ensures FieldMap(seen, fields).Keys == seen.Keys + set i | 0 <= i < |fields| :: fields[i].key
    ensures forall i | 0 <= i < |fields| :: FieldMap(seen, fields)[fields[i].key] == DocValue(fields[i].doc)
    ensures forall k | k in seen :: FieldMap(seen, fields)[k] == seen[k]
    decreases fields
  {
    hide DocValue;
    if fields != [] {
      var key := fields[0].key;
      var added := seen[key := DocValue(fields[0].doc)];
      assert added.Keys == seen.Keys + {key};
      FieldLookup(added, fields[1..]);
      assert forall i | 1 <= i < |fields| :: fields[i] == fields[1..][i - 1];
    }
  }
}
