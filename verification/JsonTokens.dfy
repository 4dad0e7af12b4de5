/**
 The tokens and limits of the parser, byte by byte: what `Parse` makes of given texts, stated with the bytes of
 RFC 8259 themselves rather than with the tables the reader and the grammar share.
 */
module JsonTokens {
  import opened Kernel
  import opened JsonSyntax
  import opened JsonReader

  // ---------------------------------------------------------------- strings

  /** The character each of the eight simple escapes of section 7 of RFC 8259 stands for. */
  function EscapeMeaning(letter: byte): (c: Option<char>)
    ensures c.None? <==> letter !in [0x22, 0x5c, 0x2f, 0x62, 0x66, 0x6e, 0x72, 0x74]
    ensures letter in [0x22, 0x5c, 0x2f] ==> c == Some(letter as char)
  {
    match letter
    case 0x22 => Some('\"')
    case 0x5c => Some('\\')
    case 0x2f => Some('/')
    case 0x62 => Some('\U{0008}')
    case 0x66 => Some('\U{000C}')
    case 0x6e => Some('\n')
    case 0x72 => Some('\r')
    case 0x74 => Some('\t')
    case _ => None
  }

  /** Characters put before the ones read. */
  function Prefixed(text: string, r: Result<Token<string>>): Result<Token<string>> {
    match r
    case Ok(t) => Ok(Token(text + t.value, t.rest))
    case Err(e) => Err(e)
  }

  lemma ReadPiece(p: Piece, tail: seq<byte>)
    ensures ReadChars(PieceBytes(p) + tail) == Prefixed([PieceChar(p)], ReadChars(tail))
  {
    var s := PieceBytes(p) + tail;
    assert s[|PieceBytes(p)|..] == tail;
  }

  /** Reading passes over the pieces already read and meets what follows them. */
  lemma {:induction false} ReadPast(ps: seq<Piece>, tail: seq<byte>)
    ensures ReadChars(PiecesBytes(ps) + tail) == Prefixed(PiecesText(ps), ReadChars(tail))
  {
    hide ReadChars, PieceBytes, PieceChar;
    if ps == [] {
      assert PiecesBytes(ps) + tail == tail;
      assert Prefixed("", ReadChars(tail)) == ReadChars(tail) by {
        assert ReadChars(tail).Ok? ==> "" + ReadChars(tail).value.value == ReadChars(tail).value.value;
      }
    } else {
      var on := PiecesBytes(ps[1..]) + tail;
      ReadPast(ps[1..], tail);
      ReadPiece(ps[0], on);
      Associative(PieceBytes(ps[0]), PiecesBytes(ps[1..]), tail);
      if ReadChars(tail).Ok? {
        Associative([PieceChar(ps[0])], PiecesText(ps[1..]), ReadChars(tail).value.value);
      }
    }
  }

  lemma ReadEscape(letter: byte, tail: seq<byte>)
    ensures ReadChars([0x5c, letter] + tail) ==
      match EscapeMeaning(letter)
      case Some(c) => Prefixed([c], ReadChars(tail))
      case None => Err(ParseError)
  {
    var s := [0x5c, letter] + tail;
    assert s[2..] == tail;
  }

  lemma ReadPlain(b: byte, tail: seq<byte>)
    requires b != 0x22 && b != 0x5c
    ensures ReadChars([b] + tail) == if b >= 0x20 then Prefixed([b as char], ReadChars(tail)) else Err(ParseError)
  {
    var s := [b] + tail;
    assert s[1..] == tail;
  }

  lemma ReadEnd(after: seq<Piece>)
    ensures ReadChars(PiecesBytes(after) + [0x22]) == Ok(Token(PiecesText(after), []))
  {
    ReadCharsOver(after, []);
    assert [0x22] + [] == [0x22];
  }

  /** An escape anywhere in a string adds its character, and a backslash before any other byte ends the parse. */
  lemma EscapeInString(before: seq<Piece>, letter: byte, after: seq<Piece>)
    ensures
      Parse([0x22] + (PiecesBytes(before) + ([0x5c, letter] + (PiecesBytes(after) + [0x22])))) ==
        match EscapeMeaning(letter)
        case Some(c) => Ok(JsonString(PiecesText(before) + ([c] + PiecesText(after))))
        case None => Err(ParseError)
  {
    hide Parse, ReadChars, PiecesBytes, PiecesText, EscapeMeaning;
    var close := PiecesBytes(after) + [0x22];
    ReadEnd(after);
    ReadEscape(letter, close);
    ReadPast(before, [0x5c, letter] + close);
    ParseString(PiecesBytes(before) + ([0x5c, letter] + close));
  }

  /** A text that starts with a quotation mark is a string token and white space, or not a value. */
  lemma ParseString(inner: seq<byte>)
    ensures Parse([0x22] + inner) ==
      match ReadChars(inner)
      case Ok(t) => if SkipWs(t.rest) == [] then Ok(JsonString(t.value)) else Err(ParseError)
      case Err(e) => Err(e)
  {
    var s := [0x22] + inner;
    assert s[1..] == inner;
  }

  /** An escaped solidus reads like a plain one in every string. */
  lemma EscapedSolidusIsPlain(before: seq<Piece>, after: seq<Piece>)
    ensures
      Parse([0x22] + (PiecesBytes(before) + ([0x5c, 0x2f] + (PiecesBytes(after) + [0x22]))))
      == Parse([0x22] + (PiecesBytes(before) + ([0x2f] + (PiecesBytes(after) + [0x22]))))
  {
    EscapeInString(before, 0x2f, after);
    PlainInString(before, 0x2f, after);
  }

  /** A plain byte stands for the character with its code; a control character or a bare quotation mark does not belong. */
  lemma PlainInString(before: seq<Piece>, b: byte, after: seq<Piece>)
    requires b != 0x22 && b != 0x5c
    ensures
      Parse([0x22] + (PiecesBytes(before) + ([b] + (PiecesBytes(after) + [0x22])))) ==
        if b >= 0x20 then Ok(JsonString(PiecesText(before) + ([b as char] + PiecesText(after)))) else Err(ParseError)
  {
    hide Parse, ReadChars, PiecesBytes, PiecesText;
    var close := PiecesBytes(after) + [0x22];
    ReadEnd(after);
    ReadPlain(b, close);
    ReadPast(before, [b] + close);
    ParseString(PiecesBytes(before) + ([b] + close));
  }

  /** The eight escapes on their own. */
  lemma EscapeTable(letter: byte)
    ensures Parse([0x22, 0x5c, letter, 0x22]) ==
      match EscapeMeaning(letter)
      case Some(c) => Ok(JsonString([c]))
      case None => Err(ParseError)
  {
    EscapeInString([], letter, []);
    assert [0x22] + ([] + ([0x5c, letter] + ([] + [0x22]))) == [0x22, 0x5c, letter, 0x22];
    if EscapeMeaning(letter).Some? {
      assert "" + ([EscapeMeaning(letter).value] + "") == [EscapeMeaning(letter).value];
    }
  }

  // ---------------------------------------------------------------- white space, literals, numbers

  /** Exactly space, line feed, carriage return and tab may stand before and after a value. */
  lemma WhiteSpaceBytes(b: byte)
    ensures Parse([0x74, 0x72, 0x75, 0x65, b]) ==
      if b in [0x20, 0x0a, 0x0d, 0x09] then Ok(JsonBool(true)) else Err(ParseError)
    ensures b in [0x20, 0x0a, 0x0d, 0x09] ==> Parse([b, 0x74, 0x72, 0x75, 0x65]) == Ok(JsonBool(true))
  {
    var after := [0x74, 0x72, 0x75, 0x65, b];
    assert after == TRUE_TEXT + [b] && after[4..] == [b];
    assert SkipWs([b]) == if IsWs(b) then [] else [b] by {
      assert [b][1..] == [];
    }
    var before := [b, 0x74, 0x72, 0x75, 0x65];
    assert before[1..] == TRUE_TEXT && TRUE_TEXT[4..] == [];
    assert SkipWs(TRUE_TEXT) == TRUE_TEXT;
    assert b in [0x20, 0x0a, 0x0d, 0x09] ==> SkipWs(before) == TRUE_TEXT;
  }

  /** The three literal names, spelt out. */
  lemma LiteralNames()
    ensures Parse([0x74, 0x72, 0x75, 0x65]) == Ok(JsonBool(true))
    ensures Parse([0x66, 0x61, 0x6c, 0x73, 0x65]) == Ok(JsonBool(false))
    ensures Parse([0x6e, 0x75, 0x6c, 0x6c]) == Ok(JsonNull)
  {
    ParseDocument(Document([], TrueToken, []));
    ParseDocument(Document([], FalseToken, []));
    ParseDocument(Document([], NullToken, []));
    assert YieldDocument(Document([], TrueToken, [])) == [0x74, 0x72, 0x75, 0x65];
    assert YieldDocument(Document([], FalseToken, [])) == [0x66, 0x61, 0x6c, 0x73, 0x65];
    assert YieldDocument(Document([], NullToken, [])) == [0x6e, 0x75, 0x6c, 0x6c];
  }

  /** The decimal digits of any number read as that number up to 2^64 - 1 and are refused beyond. */
  lemma NumberRange(n: nat)
    ensures Parse(Decimal(n)) ==
      if n <= 18_446_744_073_709_551_615 then Ok(JsonNumber(n)) else Err(ParseError)
  {
    var s := Decimal(n);
    DigitRunOver(s, []);
    assert s + [] == s && s[..|s|] == s;
    DecimalValueOfDecimal(n);
  }

  // ---------------------------------------------------------------- structure

  function SmallList(): Elements {
    NextElement([], NumberToken(1), [], LastElement([], NumberToken(2), []))
  }

  function SmallMember(letter: byte, value: Syntax): Member
    requires 0x61 <= letter <= 0x62
  {
    Member([], [Raw(letter)], [], [], value)
  }

  function SmallMembers(): Members {
    NextMember(SmallMember(0x61, ArrayOf(SmallList())), [], LastMember(SmallMember(0x62, EmptyObject([])), []))
  }

  lemma SmallListText()
    ensures Yield(ArrayOf(SmallList())) == [0x5b, 0x31, 0x2c, 0x32, 0x5d]
    ensures Items(SmallList()) == [JsonNumber(1), JsonNumber(2)]
  {
    var last := LastElement([], NumberToken(2), []);
    assert YieldElements(last) == [0x32, 0x5d];
    assert YieldElements(SmallList()) == [] + ([0x31] + ([] + ([0x2c] + YieldElements(last))));
    assert Items(SmallList()) == [JsonNumber(1)] + Items(last);
  }

  lemma SmallMemberText(letter: byte, value: Syntax)
    requires 0x61 <= letter <= 0x62
    ensures YieldMember(SmallMember(letter, value)) == [0x22, letter, 0x22, 0x3a] + Yield(value)
    ensures PiecesText([Raw(letter)]) == [letter as char]
  {
    hide Yield;
    assert PiecesBytes([Raw(letter)]) == [letter] + PiecesBytes([]);
    assert PiecesText([Raw(letter)]) == [letter as char] + PiecesText([]);
    assert StringBytes([Raw(letter)]) == [0x22, letter, 0x22];
  }

  lemma SmallMembersText()
    ensures YieldMembers(SmallMembers()) ==
      [0x22, 0x61, 0x22, 0x3a, 0x5b, 0x31, 0x2c, 0x32, 0x5d, 0x2c, 0x22, 0x62, 0x22, 0x3a, 0x7b, 0x7d, 0x7d]
  {
    hide YieldElements, YieldMember, SmallMember;
    var a, b := SmallMember(0x61, ArrayOf(SmallList())), SmallMember(0x62, EmptyObject([]));
    SmallListText();
    SmallMemberText(0x61, ArrayOf(SmallList()));
    SmallMemberText(0x62, EmptyObject([]));
    assert YieldMembers(LastMember(b, [])) == YieldMember(b) + ([] + [0x7d]);
    assert YieldMembers(SmallMembers()) == YieldMember(a) + ([] + ([0x2c] + YieldMembers(LastMember(b, []))));
  }

  lemma SmallMeaning()
    ensures
      var t := ObjectOf(SmallMembers());
      && UniqueKeys(t) && Height(t) == 2 && Nodes(t) == 5
      && Value(t) == JsonObject(map["a" := JsonArray([JsonNumber(1), JsonNumber(2)]), "b" := JsonObject(map[])])
  {
    hide Yield, YieldElements, YieldMembers, YieldMember;
    SmallListText();
    SmallMemberText(0x61, ArrayOf(SmallList()));
    SmallMemberText(0x62, EmptyObject([]));
    assert "a" != "b" by { assert "a"[0] != "b"[0]; }
    var none: map<string, JsonValue> := map[];
    var tail := LastMember(SmallMember(0x62, EmptyObject([])), []);
    var first := none["a" := Value(ArrayOf(SmallList()))];
    assert AddMembers(none, SmallMembers()) == AddMembers(first, tail);
    assert Height(ArrayOf(SmallList())) == 1 && Nodes(ArrayOf(SmallList())) == 3;
    assert MembersHeight(tail) == 0 && MemberNodes(tail) == 1;
  }

  /** The six structural characters at work: {"a":[1,2],"b":{}} */
  lemma StructuralCharacters()
    ensures Parse([0x7b, 0x22, 0x61, 0x22, 0x3a, 0x5b, 0x31, 0x2c, 0x32, 0x5d, 0x2c, 0x22, 0x62, 0x22, 0x3a, 0x7b, 0x7d, 0x7d])
         == Ok(JsonObject(map["a" := JsonArray([JsonNumber(1), JsonNumber(2)]), "b" := JsonObject(map[])]))
  {
    hide Parse, Value, Eval, YieldMembers, SmallMembers, UniqueKeys, Height, Nodes;
    var t := ObjectOf(SmallMembers());
    SmallMembersText();
    SmallMeaning();
    ParseDocument(Document([], t, []));
    EvalIsValue(t, 0, 0);
    assert YieldDocument(Document([], t, [])) == [0x7b] + YieldMembers(SmallMembers());
    assert [0x7b] + YieldMembers(SmallMembers()) ==
      [0x7b, 0x22, 0x61, 0x22, 0x3a, 0x5b, 0x31, 0x2c, 0x32, 0x5d, 0x2c, 0x22, 0x62, 0x22, 0x3a, 0x7b, 0x7d, 0x7d];
  }

  // ---------------------------------------------------------------- limits

  /** `count` copies of a byte. */
  function Copies(b: byte, count: nat): (s: seq<byte>)
    ensures |s| == count
  {
    seq(count, _ => b)
  }

  function Nest(depth: nat): Syntax
    requires depth >= 1
  {
    if depth == 1 then EmptyArray([]) else ArrayOf(LastElement([], Nest(depth - 1), []))
  }

  lemma {:induction false} NestText(depth: nat)
    requires depth >= 1
    ensures Yield(Nest(depth)) == Copies(0x5b, depth) + Copies(0x5d, depth)
    ensures UniqueKeys(Nest(depth)) && Height(Nest(depth)) == depth - 1 && Nodes(Nest(depth)) == depth
  {
    if depth == 1 {
      assert Yield(Nest(1)) == [0x5b] + ([] + [0x5d]);
    } else {
      NestText(depth - 1);
      var inner := Yield(Nest(depth - 1));
      assert YieldElements(LastElement([], Nest(depth - 1), [])) == [] + (inner + ([] + [0x5d]));
      assert Yield(Nest(depth)) == [0x5b] + inner + [0x5d];
      assert Copies(0x5b, depth) == [0x5b] + Copies(0x5b, depth - 1);
      assert Copies(0x5d, depth) == Copies(0x5d, depth - 1) + [0x5d];
    }
  }

  /** Arrays nested twenty-five deep are read, and one more is refused. */
  lemma NestingLimit(depth: nat)
    requires depth >= 1
    ensures Parse(Copies(0x5b, depth) + Copies(0x5d, depth)).Ok? <==> depth <= 25
    ensures depth > 25 ==> Parse(Copies(0x5b, depth) + Copies(0x5d, depth)) == Err(LengthOverflow)
  {
    NestText(depth);
    var t := Nest(depth);
    ParseDocument(Document([], t, []));
    EvalIsValue(t, 0, 0);
    assert YieldDocument(Document([], t, [])) == Yield(t);
  }

  function Zeros(count: nat): Elements
    requires count >= 1
  {
    if count == 1 then LastElement([], NumberToken(0), []) else NextElement([], NumberToken(0), [], Zeros(count - 1))
  }

  /** The items of [0,0,...,0] and the closing bracket. */
  function ZerosText(count: nat): seq<byte>
    requires count >= 1
  {
    if count == 1 then [0x30, 0x5d] else [0x30, 0x2c] + ZerosText(count - 1)
  }

  lemma {:induction false} ZerosYield(count: nat)
    requires count >= 1
    ensures YieldElements(Zeros(count)) == ZerosText(count)
    ensures UniqueElementKeys(Zeros(count)) && ElementsHeight(Zeros(count)) == 0 && ElementNodes(Zeros(count)) == count
  {
    hide Yield;
    assert Yield(NumberToken(0)) == [0x30] by { ZeroText(); }
    if count > 1 {
      ZerosYield(count - 1);
      assert [] + ([0x30] + ([] + ([0x2c] + ZerosText(count - 1)))) == [0x30, 0x2c] + ZerosText(count - 1);
    }
  }

  lemma ZeroText()
    ensures Yield(NumberToken(0)) == [0x30]
  {
  }

  /** An array of 4095 items, with itself 4096 values, is read, and one more is refused. */
  lemma NodeLimit(count: nat)
    requires count >= 1
    ensures Parse([0x5b] + ZerosText(count)).Ok? <==> count <= 4095
    ensures count > 4095 ==> Parse([0x5b] + ZerosText(count)) == Err(LengthOverflow)
  {
    hide Parse, Eval, Zeros, ZerosText, YieldElements, UniqueElementKeys, ElementsHeight, ElementNodes;
    ZerosYield(count);
    var t := ArrayOf(Zeros(count));
    ParseDocument(Document([], t, []));
    EvalIsValue(t, 0, 0);
    assert YieldDocument(Document([], t, [])) == Yield(t);
  }
}
