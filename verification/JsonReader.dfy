/**
 What `JsonParser` (src/config.rs) computes, as functions from the unread input to a value, the input left
 over and the node counter; and the proof that these functions recognise exactly the grammar of JsonSyntax.
 */
module JsonReader {
  import opened Kernel
  import opened JsonSyntax

  datatype Parsed<+T> = Parsed(value: T, rest: seq<byte>, nodes: nat)

  datatype Token<+T> = Token(value: T, rest: seq<byte>)

  /** `peek() == Some(b)` on the unread input. */
  predicate StartsWith(s: seq<byte>, b: byte) {
    s != [] && s[0] == b
  }

  /** `expect_byte`. */
  function Expect(s: seq<byte>, b: byte): (r: Result<seq<byte>>)
    ensures r.Ok? ==> s == [b] + r.value
  {
    if StartsWith(s, b) then Ok(s[1..]) else Err(ParseError)
  }

  /** `skip_ws`. */
  function SkipWs(s: seq<byte>): (rest: seq<byte>)
    ensures |rest| <= |s|
    ensures rest != [] ==> !IsWs(rest[0])
  {
    if s != [] && IsWs(s[0]) then SkipWs(s[1..]) else s
  }

  /** The characters of a string token up to and including the closing quote. */
  function ReadChars(s: seq<byte>): (r: Result<Token<string>>)
    ensures r.Ok? ==> |r.value.rest| < |s|
  {
    if s == [] then Err(ParseError)
    else if s[0] == QUOTE then Ok(Token("", s[1..]))
    else if s[0] == BACKSLASH then
      if |s| < 2 || Unescape(s[1]).None? then Err(ParseError)
      else
        var more :- ReadChars(s[2..]);
        Ok(Token([Unescape(s[1]).value] + more.value, more.rest))
    else if s[0] < 0x20 then Err(ParseError)
    else
      var more :- ReadChars(s[1..]);
      Ok(Token([s[0] as char] + more.value, more.rest))
  }

  /** `parse_string`. */
  function ReadString(s: seq<byte>): (r: Result<Token<string>>)
    ensures r.Ok? ==> |r.value.rest| < |s|
  {
    var inner :- Expect(s, QUOTE);
    ReadChars(inner)
  }

  /** The longest run of digits at the start of the input. */
  function DigitRun(s: seq<byte>): (n: nat)
    ensures n <= |s|
    ensures forall i | 0 <= i < n :: IsDigit(s[i])
    ensures n < |s| ==> !IsDigit(s[n])
  {
    if s != [] && IsDigit(s[0]) then 1 + DigitRun(s[1..]) else 0
  }

  predicate AllDigits(s: seq<byte>) {
    forall i | 0 <= i < |s| :: IsDigit(s[i])
  }

  function DecimalValue(digits: seq<byte>): nat
    requires AllDigits(digits)
  {
    if digits == [] then 0
    else 10 * DecimalValue(digits[..|digits| - 1]) + (digits[|digits| - 1] - 0x30)
  }

  /** `parse_number`: a digit run without a leading zero whose value fits 64 bits. */
  function ReadNumber(s: seq<byte>): (r: Result<Token<u64>>) {
    var n := DigitRun(s);
    if n == 0 || (n > 1 && s[0] == 0x30) || DecimalValue(s[..n]) >= U64_LIMIT then Err(ParseError)
    else Ok(Token(DecimalValue(s[..n]), s[n..]))
  }

  /** `expect_literal`. */
  function ReadLiteral(s: seq<byte>, literal: seq<byte>): Result<seq<byte>> {
    if literal <= s then Ok(s[|literal|..]) else Err(ParseError)
  }

  /** `parse_value`: leading white space, then one value. */
  function ReadValue(input: seq<byte>, depth: nat, nodes: nat): (r: Result<Parsed<JsonValue>>)
    ensures r.Ok? ==> |r.value.rest| < |input|
    decreases |input|, 2
  {
    if depth > MAX_JSON_DEPTH || nodes >= MAX_JSON_NODES then Err(LengthOverflow)
    else
      var s := SkipWs(input);
      if s == [] then Err(ParseError)
      else if s[0] == OPEN_BRACE then ReadObject(s, depth + 1, nodes + 1)
      else if s[0] == OPEN_BRACKET then ReadArray(s, depth + 1, nodes + 1)
      else if s[0] == QUOTE then
        var t :- ReadString(s);
        Ok(Parsed(JsonString(t.value), t.rest, nodes + 1))
      else if s[0] == 0x74 then
        var rest :- ReadLiteral(s, TRUE_TEXT);
        Ok(Parsed(JsonBool(true), rest, nodes + 1))
      else if s[0] == 0x66 then
        var rest :- ReadLiteral(s, FALSE_TEXT);
        Ok(Parsed(JsonBool(false), rest, nodes + 1))
      else if s[0] == 0x6e then
        var rest :- ReadLiteral(s, NULL_TEXT);
        Ok(Parsed(JsonNull, rest, nodes + 1))
      else if IsDigit(s[0]) then
        var t :- ReadNumber(s);
        Ok(Parsed(JsonNumber(t.value), t.rest, nodes + 1))
      else Err(ParseError)
  }

  /** `parse_object`. */
  function ReadObject(s: seq<byte>, depth: nat, nodes: nat): (r: Result<Parsed<JsonValue>>)
    ensures r.Ok? ==> |r.value.rest| < |s|
    decreases |s|, 1
  {
    var inner :- Expect(s, OPEN_BRACE);
    var body := SkipWs(inner);
    if StartsWith(body, CLOSE_BRACE) then Ok(Parsed(JsonObject(map[]), body[1..], nodes))
    else
      var fields :- ReadMembers(map[], body, depth, nodes);
      Ok(Parsed(JsonObject(fields.value), fields.rest, fields.nodes))
  }

  /** One round of the object loop: white space, key, colon, value, duplicate check, insertion. */
  function ReadMember(fields: map<string, JsonValue>, s: seq<byte>, depth: nat, nodes: nat)
    : (r: Result<Parsed<map<string, JsonValue>>>)
    ensures r.Ok? ==> |r.value.rest| < |s|
    decreases |s|, 3
  {
    var key :- ReadString(SkipWs(s));
    var afterColon :- Expect(SkipWs(key.rest), COLON);
    var v :- ReadValue(afterColon, depth, nodes);
    :- Check(key.value !in fields, InvalidProfile);
    Ok(Parsed(fields[key.value := v.value], v.rest, v.nodes))
  }

  /** The rest of an object from the start of a member, after the members already in `fields`. */
  function ReadMembers(fields: map<string, JsonValue>, s: seq<byte>, depth: nat, nodes: nat)
    : (r: Result<Parsed<map<string, JsonValue>>>)
    ensures r.Ok? ==> |r.value.rest| < |s|
    decreases |s|, 4
  {
    var m :- ReadMember(fields, s, depth, nodes);
    var next := SkipWs(m.rest);
    if StartsWith(next, CLOSE_BRACE) then Ok(m.(rest := next[1..]))
    else
      var more :- Expect(next, COMMA);
      ReadMembers(m.value, more, depth, m.nodes)
  }

  /** `parse_array`. */
  function ReadArray(s: seq<byte>, depth: nat, nodes: nat): (r: Result<Parsed<JsonValue>>)
    ensures r.Ok? ==> |r.value.rest| < |s|
    decreases |s|, 1
  {
    var inner :- Expect(s, OPEN_BRACKET);
    var body := SkipWs(inner);
    if StartsWith(body, CLOSE_BRACKET) then Ok(Parsed(JsonArray([]), body[1..], nodes))
    else
      var items :- ReadElements([], body, depth, nodes);
      Ok(Parsed(JsonArray(items.value), items.rest, items.nodes))
  }

  /** The rest of an array from the start of an element, after the elements already in `items`. */
  function ReadElements(items: seq<JsonValue>, s: seq<byte>, depth: nat, nodes: nat)
    : (r: Result<Parsed<seq<JsonValue>>>)
    ensures r.Ok? ==> |r.value.rest| < |s|
    decreases |s|, 3
  {
    var v :- ReadValue(s, depth, nodes);
    var added := items + [v.value];
    var next := SkipWs(v.rest);
    if StartsWith(next, CLOSE_BRACKET) then Ok(Parsed(added, next[1..], v.nodes))
    else
      var more :- Expect(next, COMMA);
      ReadElements(added, more, depth, v.nodes)
  }

  /** `parse`: the whole input is one value with optional white space around it. */
  function Parse(input: seq<byte>): Result<JsonValue> {
    var v :- ReadValue(input, 0, 0);
    :- Check(SkipWs(v.rest) == [], ParseError);
    Ok(v.value)
  }

  // ---------------------------------------------------------------- tokens: both directions

  lemma {:induction false} SkipWsOver(w: Ws, s: seq<byte>)
    requires s != [] ==> !IsWs(s[0])
    ensures SkipWs(w + s) == s
  {
    if w == [] {
      assert w + s == s;
    } else {
      var tail: Ws := w[1..];
      SkipWsOver(tail, s);
      assert (w + s)[1..] == tail + s;
    }
  }

  lemma {:induction false} SkipWsSplit(s: seq<byte>) returns (w: Ws)
    ensures s == w + SkipWs(s)
  {
    w := [];
    if s != [] && IsWs(s[0]) {
      var v := SkipWsSplit(s[1..]);
      w := [s[0]] + v;
    }
  }

  lemma {:induction false} ReadCharsOver(ps: seq<Piece>, rest: seq<byte>)
    ensures ReadChars(PiecesBytes(ps) + ([QUOTE] + rest)) == Ok(Token(PiecesText(ps), rest))
  {
    var s := PiecesBytes(ps) + ([QUOTE] + rest);
    if ps == [] {
      assert s == [QUOTE] + rest;
    } else {
      ReadCharsOver(ps[1..], rest);
      var head := PieceBytes(ps[0]);
      assert s == head + (PiecesBytes(ps[1..]) + ([QUOTE] + rest));
      assert s[|head|..] == PiecesBytes(ps[1..]) + ([QUOTE] + rest);
    }
  }

  lemma ReadStringOver(ps: seq<Piece>, rest: seq<byte>)
    ensures ReadString(StringBytes(ps) + rest) == Ok(Token(PiecesText(ps), rest))
  {
    ReadCharsOver(ps, rest);
    assert StringBytes(ps) + rest == [QUOTE] + (PiecesBytes(ps) + ([QUOTE] + rest));
  }

  lemma {:induction false} ReadCharsSplit(s: seq<byte>) returns (ps: seq<Piece>)
    requires ReadChars(s).Ok?
    ensures PiecesText(ps) == ReadChars(s).value.value
    ensures s == PiecesBytes(ps) + ([QUOTE] + ReadChars(s).value.rest)
  {
    if s[0] == QUOTE {
      ps := [];
    } else {
      var p: Piece := if s[0] == BACKSLASH then Escaped(s[1]) else Raw(s[0]);
      var tail := s[|PieceBytes(p)|..];
      var qs := ReadCharsSplit(tail);
      ps := [p] + qs;
      assert ps[1..] == qs;
      assert s == PieceBytes(p) + tail;
    }
  }

  lemma ReadStringSplit(s: seq<byte>) returns (ps: seq<Piece>)
    requires ReadString(s).Ok?
    ensures PiecesText(ps) == ReadString(s).value.value
    ensures s == StringBytes(ps) + ReadString(s).value.rest
  {
    ps := ReadCharsSplit(s[1..]);
    assert s == [QUOTE] + (PiecesBytes(ps) + ([QUOTE] + ReadString(s).value.rest));
  }

  lemma {:induction false} DigitRunOver(digits: seq<byte>, rest: seq<byte>)
    requires AllDigits(digits)
    requires rest != [] ==> !IsDigit(rest[0])
    ensures DigitRun(digits + rest) == |digits|
  {
    if digits == [] {
      assert digits + rest == rest;
    } else {
      DigitRunOver(digits[1..], rest);
      assert (digits + rest)[1..] == digits[1..] + rest;
    }
  }

  lemma {:induction false} DecimalValueOfDecimal(n: nat)
    ensures DecimalValue(Decimal(n)) == n
  {
    if n >= 10 {
      DecimalValueOfDecimal(n / 10);
      assert Decimal(n)[..|Decimal(n)| - 1] == Decimal(n / 10);
    }
  }

  lemma {:induction false} DecimalOfDecimalValue(digits: seq<byte>)
    requires AllDigits(digits) && digits != [] && (|digits| > 1 ==> digits[0] != 0x30)
    ensures Decimal(DecimalValue(digits)) == digits
    ensures |digits| > 1 ==> DecimalValue(digits) >= 10
    ensures digits != [0x30] ==> DecimalValue(digits) > 0
  {
    var init, last := digits[..|digits| - 1], digits[|digits| - 1];
    assert digits == init + [last];
    if init != [] {
      DecimalOfDecimalValue(init);
      assert DecimalValue(digits) / 10 == DecimalValue(init);
    }
  }

  lemma ReadNumberOver(n: u64, rest: seq<byte>)
    requires rest != [] ==> !IsDigit(rest[0])
    ensures ReadNumber(Decimal(n) + rest) == Ok(Token(n, rest))
  {
    DigitRunOver(Decimal(n), rest);
    DecimalValueOfDecimal(n);
    assert (Decimal(n) + rest)[..|Decimal(n)|] == Decimal(n);
  }

  lemma ReadNumberSplit(s: seq<byte>)
    requires ReadNumber(s).Ok?
    ensures s == Decimal(ReadNumber(s).value.value) + ReadNumber(s).value.rest
  {
    DecimalOfDecimalValue(s[..DigitRun(s)]);
  }

  // ---------------------------------------------------------------- completeness

  /** What reading a derivation's text leaves, given what evaluating the derivation gives. */
  function Followed<T>(r: Result<Counted<T>>, rest: seq<byte>): Result<Parsed<T>> {
    match r
    case Ok(c) => Ok(Parsed(c.value, rest, c.nodes))
    case Err(e) => Err(e)
  }

  lemma YieldStart(t: Syntax)
    ensures Yield(t) != [] && !IsWs(Yield(t)[0])
    ensures IsDigit(Yield(t)[0]) <==> t.NumberToken?
    ensures Yield(t)[0] != CLOSE_BRACKET && Yield(t)[0] != CLOSE_BRACE
  {
  }

  /** Which branch `parse_value` takes on a container. */
  lemma ReadContainer(w: Ws, s: seq<byte>, depth: nat, nodes: nat)
    requires StartsWith(s, OPEN_BRACE) || StartsWith(s, OPEN_BRACKET)
    requires depth <= MAX_JSON_DEPTH && nodes < MAX_JSON_NODES
    ensures ReadValue(w + s, depth, nodes)
         == if s[0] == OPEN_BRACE then ReadObject(s, depth + 1, nodes + 1) else ReadArray(s, depth + 1, nodes + 1)
  {
    SkipWsOver(w, s);
  }

  lemma ReadTokenOver(w: Ws, t: Syntax, rest: seq<byte>, depth: nat, nodes: nat)
    requires t.StringToken? || t.NumberToken? || t.TrueToken? || t.FalseToken? || t.NullToken?
    requires t.NumberToken? && rest != [] ==> !IsDigit(rest[0])
    requires depth <= MAX_JSON_DEPTH && nodes < MAX_JSON_NODES
    ensures ReadValue(w + (Yield(t) + rest), depth, nodes) == Ok(Parsed(Value(t), rest, nodes + 1))
  {
    var s := Yield(t) + rest;
    YieldStart(t);
    SkipWsOver(w, s);
    match t
    case StringToken(ps) => ReadStringOver(ps, rest);
    case NumberToken(n) => ReadNumberOver(n, rest);
    case TrueToken => assert s[|TRUE_TEXT|..] == rest;
    case FalseToken => assert s[|FALSE_TEXT|..] == rest;
    case NullToken => assert s[|NULL_TEXT|..] == rest;
  }

  /** Reading the text of any derivation, whatever its white space, evaluates the derivation. */
  lemma {:induction false} ReadValueOver(w: Ws, t: Syntax, rest: seq<byte>, depth: nat, nodes: nat)
    requires t.NumberToken? && rest != [] ==> !IsDigit(rest[0])
    ensures ReadValue(w + (Yield(t) + rest), depth, nodes) == Followed(Eval(t, depth, nodes), rest)
    decreases t, 0
  {
    if depth > MAX_JSON_DEPTH || nodes >= MAX_JSON_NODES {
      return;
    }
    match t
    case EmptyObject(_) => ReadEmptyOver(w, t, rest, depth, nodes);
    case EmptyArray(_) => ReadEmptyOver(w, t, rest, depth, nodes);
    case ObjectOf(_) => ReadObjectOver(w, t, rest, depth, nodes);
    case ArrayOf(_) => ReadArrayOver(w, t, rest, depth, nodes);
    case _ => ReadTokenOver(w, t, rest, depth, nodes);
  }

  lemma ReadEmptyOver(w: Ws, t: Syntax, rest: seq<byte>, depth: nat, nodes: nat)
    requires t.EmptyObject? || t.EmptyArray?
    requires depth <= MAX_JSON_DEPTH && nodes < MAX_JSON_NODES
    ensures ReadValue(w + (Yield(t) + rest), depth, nodes) == Ok(Parsed(Value(t), rest, nodes + 1))
  {
    var close := if t.EmptyObject? then CLOSE_BRACE else CLOSE_BRACKET;
    var s := Yield(t) + rest;
    ReadContainer(w, s, depth, nodes);
    assert s[1..] == t.gap + ([close] + rest);
    SkipWsOver(t.gap, [close] + rest);
  }

  lemma {:induction false} ReadObjectOver(w: Ws, t: Syntax, rest: seq<byte>, depth: nat, nodes: nat)
    requires t.ObjectOf? && depth <= MAX_JSON_DEPTH && nodes < MAX_JSON_NODES
    ensures ReadValue(w + (Yield(t) + rest), depth, nodes) == Followed(Eval(t, depth, nodes), rest)
    decreases t.members, 3
  {
    hide ReadMembers, EvalMembers, YieldMembers;
    var ms := t.members;
    var s := YieldMembers(ms) + rest;
    assert Yield(t) + rest == [OPEN_BRACE] + s;
    ReadContainer(w, [OPEN_BRACE] + s, depth, nodes);
    assert ([OPEN_BRACE] + s)[1..] == s;
    MembersStart(ms, rest);
    ReadMembersOver(map[], ms, SkipWs(s), rest, depth + 1, nodes + 1);
  }

  /** What follows a member's key when `end` follows the member. */
  function AfterKey(m: Member, end: seq<byte>): seq<byte> {
    m.beforeColon + ([COLON] + (m.beforeValue + (Yield(m.value) + end)))
  }

  lemma MemberText(m: Member, end: seq<byte>)
    ensures YieldMember(m) + end == m.before + (StringBytes(m.key) + AfterKey(m, end))
  {
    var v := Yield(m.value);
    assert (m.beforeValue + v) + end == m.beforeValue + (v + end);
    assert ([COLON] + (m.beforeValue + v)) + end == [COLON] + (m.beforeValue + (v + end));
  }

  /** Skipping leading white space ends at the first key's quote. */
  lemma MembersStart(ms: Members, rest: seq<byte>)
    ensures
      var body := SkipWs(YieldMembers(ms) + rest);
      StartsWith(body, QUOTE) && YieldMembers(ms) + rest == ms.member.before + body
  {
    var m, end := ms.member, MembersEnd(ms, rest);
    MemberText(m, end);
    SkipWsOver(m.before, StringBytes(m.key) + AfterKey(m, end));
  }

  /** What follows the first member's value. */
  function MembersEnd(ms: Members, rest: seq<byte>): (end: seq<byte>)
    ensures YieldMembers(ms) + rest == YieldMember(ms.member) + end
    ensures end != [] && !IsDigit(end[0])
  {
    match ms
    case LastMember(_, after) => after + ([CLOSE_BRACE] + rest)
    case NextMember(_, after, more) => after + ([COMMA] + (YieldMembers(more) + rest))
  }

  lemma {:induction false} ReadMemberOver(
    fields: map<string, JsonValue>, m: Member, s: seq<byte>, end: seq<byte>, depth: nat, nodes: nat)
    requires s == YieldMember(m) + end || m.before + s == YieldMember(m) + end
    requires StartsWith(s, QUOTE) || s == YieldMember(m) + end
    requires end != [] ==> !IsDigit(end[0])
    ensures ReadMember(fields, s, depth, nodes) == Followed(EvalMember(fields, m, depth, nodes), end)
    decreases m, 1
  {
    hide ReadValue, Eval, Yield, ReadString;
    var afterColon := m.beforeValue + (Yield(m.value) + end);
    var afterKey := m.beforeColon + ([COLON] + afterColon);
    var keyAndOn := StringBytes(m.key) + afterKey;
    MemberText(m, end);
    SkipWsOver(m.before, keyAndOn);
    assert SkipWs(s) == keyAndOn by {
      if s != YieldMember(m) + end {
        assert s == (m.before + s)[|m.before|..] == keyAndOn;
      }
    }
    ReadStringOver(m.key, afterKey);
    SkipWsOver(m.beforeColon, [COLON] + afterColon);
    assert ([COLON] + afterColon)[1..] == afterColon;
    ReadValueOver(m.beforeValue, m.value, end, depth, nodes);
  }

  lemma {:induction false} ReadMembersOver(
    fields: map<string, JsonValue>, ms: Members, s: seq<byte>, rest: seq<byte>, depth: nat, nodes: nat)
    requires
      || s == YieldMembers(ms) + rest
      || (StartsWith(s, QUOTE) && ms.member.before + s == YieldMembers(ms) + rest)
    ensures ReadMembers(fields, s, depth, nodes) == Followed(EvalMembers(fields, ms, depth, nodes), rest)
    decreases ms, 2
  {
    hide ReadMember, EvalMember, YieldMember, SkipWs;
    var end := MembersEnd(ms, rest);
    ReadMemberOver(fields, ms.member, s, end, depth, nodes);
    var c := EvalMember(fields, ms.member, depth, nodes);
    if c.Ok? {
      match ms
      case LastMember(_, after) => SkipWsOver(after, [CLOSE_BRACE] + rest);
      case NextMember(_, after, more) =>
        var on := YieldMembers(more) + rest;
        SkipWsOver(after, [COMMA] + on);
        assert ([COMMA] + on)[1..] == on;
        ReadMembersOver(c.value.value, more, on, rest, depth, c.value.nodes);
    }
  }

  lemma {:induction false} ReadArrayOver(w: Ws, t: Syntax, rest: seq<byte>, depth: nat, nodes: nat)
    requires t.ArrayOf? && depth <= MAX_JSON_DEPTH && nodes < MAX_JSON_NODES
    ensures ReadValue(w + (Yield(t) + rest), depth, nodes) == Followed(Eval(t, depth, nodes), rest)
    decreases t.elements, 3
  {
    hide ReadElements, EvalElements;
    var es := t.elements;
    var s := YieldElements(es) + rest;
    var on := Yield(es.value) + ElementsEnd(es, rest);
    assert Yield(t) + rest == [OPEN_BRACKET] + s;
    ReadContainer(w, [OPEN_BRACKET] + s, depth, nodes);
    assert ([OPEN_BRACKET] + s)[1..] == s;
    YieldStart(es.value);
    SkipWsOver(es.before, on);
    assert [] + on == on;
    ReadElementsOver([], es, [], rest, depth + 1, nodes + 1);
  }

  /** What follows the first element's value. */
  function ElementsEnd(es: Elements, rest: seq<byte>): (end: seq<byte>)
    ensures YieldElements(es) + rest == es.before + (Yield(es.value) + end)
    ensures end != [] && !IsDigit(end[0])
  {
    match es
    case LastElement(_, _, after) => after + ([CLOSE_BRACKET] + rest)
    case NextElement(_, _, after, more) => after + ([COMMA] + (YieldElements(more) + rest))
  }

  /** `before` is the white space still unread: all of it, or none when `[` has already been followed up. */
  lemma {:induction false} ReadElementsOver(
    items: seq<JsonValue>, es: Elements, before: Ws, rest: seq<byte>, depth: nat, nodes: nat)
    ensures ReadElements(items, before + (Yield(es.value) + ElementsEnd(es, rest)), depth, nodes)
         == Followed(EvalElements(items, es, depth, nodes), rest)
    decreases es, 2
  {
    hide ReadValue, Eval, Yield, SkipWs;
    ReadValueOver(before, es.value, ElementsEnd(es, rest), depth, nodes);
    var v := Eval(es.value, depth, nodes);
    if v.Ok? {
      match es
      case LastElement(_, _, after) => SkipWsOver(after, [CLOSE_BRACKET] + rest);
      case NextElement(_, _, after, more) =>
        var on := YieldElements(more) + rest;
        SkipWsOver(after, [COMMA] + on);
        assert ([COMMA] + on)[1..] == on;
        ReadElementsOver(items + [v.value.value], more, more.before, rest, depth, v.value.nodes);
    }
  }

  /** Parsing the text of a derivation evaluates it, on success and on failure. */
  lemma ParseDocument(d: Document)
    ensures Parse(YieldDocument(d)) ==
      match Eval(d.root, 0, 0)
      case Ok(c) => Ok(c.value)
      case Err(e) => Err(e)
  {
    if d.root.NumberToken? && d.after != [] {
      assert !IsDigit(d.after[0]);
    }
    ReadValueOver(d.before, d.root, d.after, 0, 0);
    SkipWsOver(d.after, []);
    assert d.after + [] == d.after;
  }

  // ---------------------------------------------------------------- soundness

  /** Whatever is read has a derivation that evaluates to it. */
  lemma {:induction false} ReadValueSplit(input: seq<byte>, depth: nat, nodes: nat) returns (w: Ws, t: Syntax)
    requires ReadValue(input, depth, nodes).Ok?
    ensures input == w + (Yield(t) + ReadValue(input, depth, nodes).value.rest)
    ensures ReadValue(input, depth, nodes) == Followed(Eval(t, depth, nodes), ReadValue(input, depth, nodes).value.rest)
    decreases |input|, 2
  {
    hide YieldMembers, YieldElements, ReadObject, ReadArray, ReadNumber, Decimal;
    w := SkipWsSplit(input);
    var s := SkipWs(input);
    var rest := ReadValue(input, depth, nodes).value.rest;
    if s[0] == OPEN_BRACE {
      t := ReadObjectSplit(s, depth, nodes);
    } else if s[0] == OPEN_BRACKET {
      t := ReadArraySplit(s, depth, nodes);
    } else if s[0] == QUOTE {
      var ps := ReadStringSplit(s);
      t := StringToken(ps);
    } else if s[0] == 0x74 {
      t := TrueToken;
    } else if s[0] == 0x66 {
      t := FalseToken;
    } else if s[0] == 0x6e {
      t := NullToken;
    } else {
      ReadNumberSplit(s);
      t := NumberToken(ReadNumber(s).value.value);
    }
  }

  lemma {:induction false} ReadObjectSplit(s: seq<byte>, depth: nat, nodes: nat) returns (t: Syntax)
    requires depth <= MAX_JSON_DEPTH && nodes < MAX_JSON_NODES
    requires ReadObject(s, depth + 1, nodes + 1).Ok?
    ensures s == Yield(t) + ReadObject(s, depth + 1, nodes + 1).value.rest
    ensures ReadObject(s, depth + 1, nodes + 1)
         == Followed(Eval(t, depth, nodes), ReadObject(s, depth + 1, nodes + 1).value.rest)
    decreases |s|, 1
  {
    hide YieldMembers, ReadMembers, EvalMembers, SkipWs;
    var gap := SkipWsSplit(s[1..]);
    var body := SkipWs(s[1..]);
    var rest := ReadObject(s, depth + 1, nodes + 1).value.rest;
    assert s == [OPEN_BRACE] + (gap + body);
    if StartsWith(body, CLOSE_BRACE) {
      t := EmptyObject(gap);
      assert body == [CLOSE_BRACE] + rest;
    } else {
      var ms := ReadMembersSplit(map[], body, depth + 1, nodes + 1);
      var widened := WidenMembers(gap, ms, depth + 1, nodes + 1);
      t := ObjectOf(widened);
    }
  }

  /** White space put before the first key changes the text only there, and the value not at all. */
  lemma WidenMembers(gap: Ws, ms: Members, depth: nat, nodes: nat) returns (widened: Members)
    ensures YieldMembers(widened) == gap + YieldMembers(ms)
    ensures EvalMembers(map[], widened, depth, nodes) == EvalMembers(map[], ms, depth, nodes)
  {
    hide Yield, Eval;
    var space: Ws := gap + ms.member.before;
    var m := ms.member.(before := space);
    assert YieldMember(m) == gap + YieldMember(ms.member);
    match ms
    case LastMember(_, after) => widened := LastMember(m, after);
    case NextMember(_, after, rest) => widened := NextMember(m, after, rest);
  }

  lemma {:induction false} ReadMemberSplit(fields: map<string, JsonValue>, s: seq<byte>, depth: nat, nodes: nat)
    returns (m: Member)
    requires ReadMember(fields, s, depth, nodes).Ok?
    ensures s == YieldMember(m) + ReadMember(fields, s, depth, nodes).value.rest
    ensures ReadMember(fields, s, depth, nodes)
         == Followed(EvalMember(fields, m, depth, nodes), ReadMember(fields, s, depth, nodes).value.rest)
    decreases |s|, 3
  {
    hide YieldMembers, ReadValue, Eval, Yield, SkipWs, ReadString;
    var before := SkipWsSplit(s);
    var pieces := ReadStringSplit(SkipWs(s));
    var key := ReadString(SkipWs(s)).value;
    var beforeColon := SkipWsSplit(key.rest);
    var afterColon := Expect(SkipWs(key.rest), COLON).value;
    var beforeValue, value := ReadValueSplit(afterColon, depth, nodes);
    var rest := ReadValue(afterColon, depth, nodes).value.rest;
    m := Member(before, pieces, beforeColon, beforeValue, value);
    MemberText(m, rest);
  }

  lemma {:induction false} ReadMembersSplit(fields: map<string, JsonValue>, s: seq<byte>, depth: nat, nodes: nat)
    returns (ms: Members)
    requires ReadMembers(fields, s, depth, nodes).Ok?
    ensures s == YieldMembers(ms) + ReadMembers(fields, s, depth, nodes).value.rest
    ensures ReadMembers(fields, s, depth, nodes)
         == Followed(EvalMembers(fields, ms, depth, nodes), ReadMembers(fields, s, depth, nodes).value.rest)
    decreases |s|, 4
  {
    hide YieldMember, ReadMember, EvalMember, SkipWs;
    var rest := ReadMembers(fields, s, depth, nodes).value.rest;
    var m := ReadMemberSplit(fields, s, depth, nodes);
    var read := ReadMember(fields, s, depth, nodes).value;
    var after := SkipWsSplit(read.rest);
    var next := SkipWs(read.rest);
    if StartsWith(next, CLOSE_BRACE) {
      ms := LastMember(m, after);
      assert next == [CLOSE_BRACE] + rest;
      assert s == YieldMember(m) + (after + ([CLOSE_BRACE] + rest));
    } else {
      var more := Expect(next, COMMA).value;
      var tail := ReadMembersSplit(read.value, more, depth, read.nodes);
      ms := NextMember(m, after, tail);
      assert s == YieldMember(m) + (after + ([COMMA] + (YieldMembers(tail) + rest)));
    }
  }

  lemma {:induction false} ReadArraySplit(s: seq<byte>, depth: nat, nodes: nat) returns (t: Syntax)
    requires depth <= MAX_JSON_DEPTH && nodes < MAX_JSON_NODES
    requires ReadArray(s, depth + 1, nodes + 1).Ok?
    ensures s == Yield(t) + ReadArray(s, depth + 1, nodes + 1).value.rest
    ensures ReadArray(s, depth + 1, nodes + 1)
         == Followed(Eval(t, depth, nodes), ReadArray(s, depth + 1, nodes + 1).value.rest)
    decreases |s|, 1
  {
    hide YieldElements, ReadElements, EvalElements, SkipWs;
    var gap := SkipWsSplit(s[1..]);
    var body := SkipWs(s[1..]);
    var rest := ReadArray(s, depth + 1, nodes + 1).value.rest;
    assert s == [OPEN_BRACKET] + (gap + body);
    if StartsWith(body, CLOSE_BRACKET) {
      t := EmptyArray(gap);
      assert body == [CLOSE_BRACKET] + rest;
    } else {
      var es := ReadElementsSplit([], body, depth + 1, nodes + 1);
      var widened := WidenElements(gap, es, depth + 1, nodes + 1);
      t := ArrayOf(widened);
    }
  }

  lemma WidenElements(gap: Ws, es: Elements, depth: nat, nodes: nat) returns (widened: Elements)
    ensures YieldElements(widened) == gap + YieldElements(es)
    ensures EvalElements([], widened, depth, nodes) == EvalElements([], es, depth, nodes)
  {
    hide Yield, Eval;
    var space: Ws := gap + es.before;
    match es
    case LastElement(_, v, after) => widened := LastElement(space, v, after);
    case NextElement(_, v, after, rest) => widened := NextElement(space, v, after, rest);
  }

  lemma {:induction false} ReadElementsSplit(items: seq<JsonValue>, s: seq<byte>, depth: nat, nodes: nat)
    returns (es: Elements)
    requires ReadElements(items, s, depth, nodes).Ok?
    ensures s == YieldElements(es) + ReadElements(items, s, depth, nodes).value.rest
    ensures ReadElements(items, s, depth, nodes)
         == Followed(EvalElements(items, es, depth, nodes), ReadElements(items, s, depth, nodes).value.rest)
    decreases |s|, 3
  {
    hide ReadValue, Eval, Yield, SkipWs;
    var rest := ReadElements(items, s, depth, nodes).value.rest;
    var before, value := ReadValueSplit(s, depth, nodes);
    var v := ReadValue(s, depth, nodes).value;
    var after := SkipWsSplit(v.rest);
    var next := SkipWs(v.rest);
    if StartsWith(next, CLOSE_BRACKET) {
      es := LastElement(before, value, after);
      assert next == [CLOSE_BRACKET] + rest;
      assert s == before + (Yield(value) + (after + ([CLOSE_BRACKET] + rest)));
    } else {
      var more := Expect(next, COMMA).value;
      var tail := ReadElementsSplit(items + [v.value], more, depth, v.nodes);
      es := NextElement(before, value, after, tail);
      assert s == before + (Yield(value) + (after + ([COMMA] + (YieldElements(tail) + rest))));
    }
  }

  // ---------------------------------------------------------------- the exact language

  /** The derivations that justify accepting an input with a given value. */
  ghost predicate Derives(d: Document, input: seq<byte>, v: JsonValue) {
    YieldDocument(d) == input && Admissible(d.root) && Value(d.root) == v
  }

  /** The parser returns a value exactly when the grammar derives it from the whole input within the limits. */
  lemma ExactLanguage(input: seq<byte>, v: JsonValue)
    ensures Parse(input) == Ok(v) <==> exists d :: Derives(d, input, v)
  {
    if Parse(input) == Ok(v) {
      var before, root := ReadValueSplit(input, 0, 0);
      var rest := ReadValue(input, 0, 0).value.rest;
      var after := SkipWsSplit(rest);
      assert after + [] == after;
      EvalIsValue(root, 0, 0);
      assert Derives(Document(before, root, after), input, v);
    }
    forall d | Derives(d, input, v)
      ensures Parse(input) == Ok(v)
    {
      ParseDocument(d);
      EvalIsValue(d.root, 0, 0);
    }
  }

  /** The node counter of a successful run is the number of values in the text, and the depth budget bounds its height. */
  lemma ReadResources(input: seq<byte>)
    requires ReadValue(input, 0, 0).Ok?
    ensures exists w: Ws, t: Syntax ::
      && input == w + (Yield(t) + ReadValue(input, 0, 0).value.rest)
      && ReadValue(input, 0, 0).value.nodes == Nodes(t) <= MAX_JSON_NODES
      && Height(t) <= MAX_JSON_DEPTH
  {
    var w, t := ReadValueSplit(input, 0, 0);
    EvalIsValue(t, 0, 0);
  }

  /** Texts with the same tokens parse alike, value or error, however the white space between tokens differs. */
  lemma WhiteSpaceIsInsignificant(d: Document, e: Document)
    requires Compact(d.root) == Compact(e.root)
    ensures Parse(YieldDocument(d)) == Parse(YieldDocument(e))
  {
    ParseDocument(d);
    ParseDocument(e);
    EvalIgnoresSpace(d.root, 0, 0);
    EvalIgnoresSpace(e.root, 0, 0);
  }
}
