/** The recursive-descent parser of src/config.rs as written: one object whose cursor and node counter move in place. */
module JsonParsing {
  import opened Kernel
  import opened JsonSyntax
  import opened JsonReader

  class JsonParser {
    const input: seq<byte>
    var offset: nat
    var nodes: nat

    ghost predicate Valid()
      reads this
    {
      offset <= |input|
    }

    /** The unread input. */
    ghost function Rest(): seq<byte>
      requires Valid()
      reads this
    {
      input[offset..]
    }

    /** What a reading method that started at `from` promises: the cursor moved forward, and outcome and state are the specified ones. */
    ghost predicate Did<T>(from: nat, r: Result<T>, spec: Result<Parsed<T>>)
      reads this
    {
      && Valid()
      && from <= offset
      && match r
         case Ok(v) => from < offset && spec == Ok(Parsed(v, Rest(), nodes))
         case Err(e) => spec == Err(e)
    }

    constructor (bytes: seq<byte>)
      ensures Valid() && input == bytes && Rest() == bytes && nodes == 0
    {
      input := bytes;
      offset := 0;
      nodes := 0;
      new;
      assert bytes[0..] == bytes;
    }

    method ParseAll() returns (r: Result<JsonValue>)
      requires Valid() && offset == 0 && nodes == 0
      modifies this
      ensures Valid() && r == Parse(input)
    {
      assert input[0..] == input;
      var value :- ParseValue(0);
      SkipSpace();
      if offset != |input| {
        return Err(ParseError);
      }
      return Ok(value);
    }

    method ParseValue(depth: nat) returns (r: Result<JsonValue>)
      requires Valid()
      modifies this
      ensures Did(old(offset), r, ReadValue(old(Rest()), depth, old(nodes)))
      decreases |input| - offset, 2
    {
      if depth > MAX_JSON_DEPTH || nodes >= MAX_JSON_NODES {
        return Err(LengthOverflow);
      }
      nodes := nodes + 1;
      SkipSpace();
      if offset == |input| {
        return Err(ParseError);
      }
      var b := input[offset];
      if b == OPEN_BRACE {
        r := ParseObject(depth + 1);
      } else if b == OPEN_BRACKET {
        r := ParseArray(depth + 1);
      } else if b == QUOTE {
        var text :- ParseString();
        r := Ok(JsonString(text));
      } else if b == 0x74 {
        r := ExpectLiteral(TRUE_TEXT, JsonBool(true));
      } else if b == 0x66 {
        r := ExpectLiteral(FALSE_TEXT, JsonBool(false));
      } else if b == 0x6e {
        r := ExpectLiteral(NULL_TEXT, JsonNull);
      } else if IsDigit(b) {
        var n :- ParseNumber();
        r := Ok(JsonNumber(n));
      } else {
        r := Err(ParseError);
      }
    }

    method ParseObject(depth: nat) returns (r: Result<JsonValue>)
      requires Valid()
      modifies this
      ensures Did(old(offset), r, ReadObject(old(Rest()), depth, old(nodes)))
      decreases |input| - offset, 1
    {
      var fields: map<string, JsonValue> := map[];
      :- ExpectByte(OPEN_BRACE);
      SkipSpace();
      var closed := ConsumeIf(CLOSE_BRACE);
      if closed {
        return Ok(JsonObject(fields));
      }
      ghost var spec := ReadMembers(fields, Rest(), depth, nodes);
      while true
        invariant Valid() && old(offset) < offset
        invariant spec == ReadMembers(fields, Rest(), depth, nodes)
        decreases |input| - offset
      {
        SkipSpace();
        var key :- ParseString();
        SkipSpace();
        :- ExpectByte(COLON);
        var value :- ParseValue(depth);
        if key in fields {
          return Err(InvalidProfile);
        }
        fields := fields[key := value];
        SkipSpace();
        closed := ConsumeIf(CLOSE_BRACE);
        if closed {
          break;
        }
        :- ExpectByte(COMMA);
      }
      return Ok(JsonObject(fields));
    }

    method ParseArray(depth: nat) returns (r: Result<JsonValue>)
      requires Valid()
      modifies this
      ensures Did(old(offset), r, ReadArray(old(Rest()), depth, old(nodes)))
      decreases |input| - offset, 1
    {
      var items: seq<JsonValue> := [];
      :- ExpectByte(OPEN_BRACKET);
      SkipSpace();
      var closed := ConsumeIf(CLOSE_BRACKET);
      if closed {
        return Ok(JsonArray(items));
      }
      ghost var spec := ReadElements(items, Rest(), depth, nodes);
      while true
        invariant Valid() && old(offset) < offset
        invariant spec == ReadElements(items, Rest(), depth, nodes)
        decreases |input| - offset
      {
        var value :- ParseValue(depth);
        items := items + [value];
        SkipSpace();
        closed := ConsumeIf(CLOSE_BRACKET);
        if closed {
          break;
        }
        :- ExpectByte(COMMA);
      }
      return Ok(JsonArray(items));
    }

    method ParseString() returns (r: Result<string>)
      requires Valid()
      modifies this`offset
      ensures Valid() && old(offset) <= offset
      ensures match r
              case Ok(text) => old(offset) < offset && ReadString(old(Rest())) == Ok(Token(text, Rest()))
              case Err(e) => ReadString(old(Rest())) == Err(e)
    {
      var out := "";
      :- ExpectByte(QUOTE);
      ghost var spec := ReadChars(Rest());
      assert spec.Ok? ==> "" + spec.value.value == spec.value.value;
      while offset < |input|
        invariant Valid() && old(offset) < offset
        invariant spec == Prepend(out, ReadChars(Rest()))
        decreases |input| - offset
      {
        var b := input[offset];
        ghost var rest := Rest();
        offset := offset + 1;
        assert Rest() == rest[1..];
        if b == QUOTE {
          assert out + "" == out;
          return Ok(out);
        } else if b == BACKSLASH {
          if offset == |input| {
            return Err(ParseError);
          }
          var escaped := input[offset];
          offset := offset + 1;
          assert Rest() == rest[2..];
          match Unescape(escaped)
          case None => return Err(ParseError);
          case Some(c) =>
            PrependStep(out, c, ReadChars(Rest()));
            out := out + [c];
        } else if b < 0x20 {
          return Err(ParseError);
        } else {
          PrependStep(out, b as char, ReadChars(Rest()));
          out := out + [b as char];
        }
      }
      return Err(ParseError);
    }

    method ParseNumber() returns (r: Result<u64>)
      requires Valid()
      modifies this`offset
      ensures Valid() && old(offset) <= offset
      ensures match r
              case Ok(n) => old(offset) < offset && ReadNumber(old(Rest())) == Ok(Token(n, Rest()))
              case Err(e) => ReadNumber(old(Rest())) == Err(e)
    {
      var start := offset;
      ghost var s := Rest();
      while offset < |input| && IsDigit(input[offset])
        invariant Valid() && start <= offset
        invariant DigitRun(s) == (offset - start) + DigitRun(Rest())
      {
        ghost var rest := Rest();
        offset := offset + 1;
        assert Rest() == rest[1..];
      }
      var digits := input[start..offset];
      assert digits == s[..offset - start] && Rest() == s[offset - start..];
      if digits == [] || (|digits| > 1 && digits[0] == 0x30) {
        return Err(ParseError);
      }
      var n := DecimalValue(digits);
      return if n < U64_LIMIT then Ok(n) else Err(ParseError);
    }

    method ExpectLiteral(literal: seq<byte>, value: JsonValue) returns (r: Result<JsonValue>)
      requires Valid() && literal != []
      modifies this`offset
      ensures Valid() && old(offset) <= offset
      ensures match r
              case Ok(v) => v == value && old(offset) < offset && ReadLiteral(old(Rest()), literal) == Ok(Rest())
              case Err(e) => ReadLiteral(old(Rest()), literal) == Err(e)
    {
      assert |literal| <= |Rest()| ==> Rest()[..|literal|] == input[offset..offset + |literal|];
      if offset + |literal| <= |input| && input[offset..offset + |literal|] == literal {
        offset := offset + |literal|;
        return Ok(value);
      }
      return Err(ParseError);
    }

    method SkipSpace()
      requires Valid()
      modifies this`offset
      ensures Valid() && old(offset) <= offset && Rest() == SkipWs(old(Rest()))
    {
      while offset < |input| && IsWs(input[offset])
        invariant Valid() && old(offset) <= offset
        invariant SkipWs(old(Rest())) == SkipWs(Rest())
      {
        ghost var rest := Rest();
        offset := offset + 1;
        assert Rest() == rest[1..];
      }
    }

    method ExpectByte(expected: byte) returns (r: Outcome)
      requires Valid()
      modifies this`offset
      ensures Valid() && old(offset) <= offset
      ensures match r
              case Pass => old(offset) < offset && Expect(old(Rest()), expected) == Ok(Rest())
              case Fail(e) => Expect(old(Rest()), expected) == Err(e)
    {
      if offset == |input| {
        return Fail(ParseError);
      }
      var b := input[offset];
      offset := offset + 1;
      return Check(b == expected, ParseError);
    }

    method ConsumeIf(expected: byte) returns (consumed: bool)
      requires Valid()
      modifies this`offset
      ensures Valid() && consumed == StartsWith(old(Rest()), expected)
      ensures offset == if consumed then old(offset) + 1 else old(offset)
    {
      consumed := offset < |input| && input[offset] == expected;
      if consumed {
        offset := offset + 1;
      }
    }
  }

  function Prepend(out: string, r: Result<Token<string>>): Result<Token<string>> {
    match r
    case Ok(t) => Ok(Token(out + t.value, t.rest))
    case Err(e) => Err(e)
  }

  lemma PrependStep(out: string, c: char, r: Result<Token<string>>)
    ensures Prepend(out, Prepend([c], r)) == Prepend(out + [c], r)
  {
    if r.Ok? {
      assert out + ([c] + r.value.value) == (out + [c]) + r.value.value;
    }
  }
}
