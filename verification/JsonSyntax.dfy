/**
 The JSON subset of src/config.rs as an explicit grammar.

 A value of `Syntax` is a derivation: it fixes every token and every run of insignificant white space,
 `Yield` is the text it derives, and `Eval` is the value the grammar gives it under the parser's depth
 and node budgets. Nothing here reads text; JsonReader does.
 */
module JsonSyntax {
  import opened Kernel

  const MAX_JSON_DEPTH: nat := 24
  const MAX_JSON_NODES: nat := 4096

  const QUOTE: byte := 0x22
  const COMMA: byte := 0x2c
  const COLON: byte := 0x3a
  const OPEN_BRACKET: byte := 0x5b
  const BACKSLASH: byte := 0x5c
  const CLOSE_BRACKET: byte := 0x5d
  const OPEN_BRACE: byte := 0x7b
  const CLOSE_BRACE: byte := 0x7d

  const TRUE_TEXT: seq<byte> := [0x74, 0x72, 0x75, 0x65]
  const FALSE_TEXT: seq<byte> := [0x66, 0x61, 0x6c, 0x73, 0x65]
  const NULL_TEXT: seq<byte> := [0x6e, 0x75, 0x6c, 0x6c]

  /** The parsed value (`JsonValue`); an object is a map, as `BTreeMap` is. */
  datatype JsonValue =
    | JsonObject(fields: map<string, JsonValue>)
    | JsonArray(items: seq<JsonValue>)
    | JsonString(text: string)
    | JsonNumber(number: u64)
    | JsonBool(flag: bool)
    | JsonNull

  // ---------------------------------------------------------------- tokens

  predicate IsWs(b: byte) {
    b == 0x20 || b == 0x0a || b == 0x0d || b == 0x09
  }

  /** Insignificant white space (section 2 of RFC 8259). */
  type Ws = w: seq<byte> | forall i | 0 <= i < |w| :: IsWs(w[i])

  predicate IsDigit(b: byte) {
    0x30 <= b <= 0x39
  }

  /** The character a simple escape stands for (section 7 of RFC 8259, without \u). */
  function Unescape(b: byte): Option<char> {
    if b == QUOTE then Some('\"')
    else if b == BACKSLASH then Some('\\')
    else if b == 0x2f then Some('/')
    else if b == 0x62 then Some(8 as char)
    else if b == 0x66 then Some(12 as char)
    else if b == 0x6e then Some('\n')
    else if b == 0x72 then Some('\r')
    else if b == 0x74 then Some('\t')
    else None
  }

  /** One character of a string token: a literal byte or a simple escape. */
  datatype PieceShape = Raw(b: byte) | Escaped(b: byte)

  type Piece = p: PieceShape |
    match p
    case Raw(b) => b >= 0x20 && b != QUOTE && b != BACKSLASH
    case Escaped(b) => Unescape(b).Some?
    witness Raw(0x61)

  function PieceBytes(p: Piece): seq<byte> {
    match p
    case Raw(b) => [b]
    case Escaped(b) => [BACKSLASH, b]
  }

  /** A literal byte is read as the character with that code, whatever its encoding was. */
  function PieceChar(p: Piece): char {
    match p
    case Raw(b) => b as char
    case Escaped(b) => Unescape(b).value
  }

  function PiecesBytes(ps: seq<Piece>): seq<byte> {
    if ps == [] then [] else PieceBytes(ps[0]) + PiecesBytes(ps[1..])
  }

  function PiecesText(ps: seq<Piece>): (text: string)
    ensures |text| == |ps|
  {
    if ps == [] then "" else [PieceChar(ps[0])] + PiecesText(ps[1..])
  }

  function StringBytes(ps: seq<Piece>): seq<byte> {
    [QUOTE] + PiecesBytes(ps) + [QUOTE]
  }

  /** The decimal digits of a number without leading zeros. */
  function Decimal(n: nat): (digits: seq<byte>)
    ensures |digits| > 0 && forall i | 0 <= i < |digits| :: IsDigit(digits[i])
    ensures n > 0 ==> digits[0] != 0x30
    ensures n < 10 ==> digits == [0x30 + n]
  {
    if n < 10 then [0x30 + n] else Decimal(n / 10) + [0x30 + n % 10]
  }

  // ---------------------------------------------------------------- derivations

  datatype Syntax =
    | StringToken(pieces: seq<Piece>)
    | NumberToken(number: u64)
    | TrueToken
    | FalseToken
    | NullToken
    | EmptyObject(gap: Ws)
    | ObjectOf(members: Members)
    | EmptyArray(gap: Ws)
    | ArrayOf(elements: Elements)

  datatype Member = Member(before: Ws, key: seq<Piece>, beforeColon: Ws, beforeValue: Ws, value: Syntax)

  datatype Members =
    | LastMember(member: Member, after: Ws)
    | NextMember(member: Member, after: Ws, rest: Members)

  datatype Elements =
    | LastElement(before: Ws, value: Syntax, after: Ws)
    | NextElement(before: Ws, value: Syntax, after: Ws, rest: Elements)

  function Yield(t: Syntax): seq<byte> {
    match t
    case StringToken(ps) => StringBytes(ps)
    case NumberToken(n) => Decimal(n)
    case TrueToken => TRUE_TEXT
    case FalseToken => FALSE_TEXT
    case NullToken => NULL_TEXT
    case EmptyObject(gap) => [OPEN_BRACE] + (gap + [CLOSE_BRACE])
    case ObjectOf(ms) => [OPEN_BRACE] + YieldMembers(ms)
    case EmptyArray(gap) => [OPEN_BRACKET] + (gap + [CLOSE_BRACKET])
    case ArrayOf(es) => [OPEN_BRACKET] + YieldElements(es)
  }

  function YieldMember(m: Member): seq<byte> {
    m.before + (StringBytes(m.key) + (m.beforeColon + ([COLON] + (m.beforeValue + Yield(m.value)))))
  }

  function YieldMembers(ms: Members): seq<byte> {
    match ms
    case LastMember(m, after) => YieldMember(m) + (after + [CLOSE_BRACE])
    case NextMember(m, after, rest) => YieldMember(m) + (after + ([COMMA] + YieldMembers(rest)))
  }

  function YieldElements(es: Elements): seq<byte> {
    match es
    case LastElement(before, v, after) => before + (Yield(v) + (after + [CLOSE_BRACKET]))
    case NextElement(before, v, after, rest) => before + (Yield(v) + (after + ([COMMA] + YieldElements(rest))))
  }

  /** A whole JSON text: white space, a value, white space. */
  datatype Document = Document(before: Ws, root: Syntax, after: Ws)

  function YieldDocument(d: Document): seq<byte> {
    d.before + (Yield(d.root) + d.after)
  }

  // ---------------------------------------------------------------- meaning and budgets

  function Value(t: Syntax): JsonValue
    decreases t, 0
  {
    match t
    case StringToken(ps) => JsonString(PiecesText(ps))
    case NumberToken(n) => JsonNumber(n)
    case TrueToken => JsonBool(true)
    case FalseToken => JsonBool(false)
    case NullToken => JsonNull
    case EmptyObject(_) => JsonObject(map[])
    case ObjectOf(ms) => JsonObject(AddMembers(map[], ms))
    case EmptyArray(_) => JsonArray([])
    case ArrayOf(es) => JsonArray(Items(es))
  }

  function AddMembers(fields: map<string, JsonValue>, ms: Members): map<string, JsonValue>
    decreases ms, 1
  {
    var added := fields[PiecesText(ms.member.key) := Value(ms.member.value)];
    match ms
    case LastMember(_, _) => added
    case NextMember(_, _, rest) => AddMembers(added, rest)
  }

  function Items(es: Elements): seq<JsonValue>
    decreases es, 1
  {
    match es
    case LastElement(_, v, _) => [Value(v)]
    case NextElement(_, v, _, rest) => [Value(v)] + Items(rest)
  }

  /** How many values the derivation contains, itself included. */
  function Nodes(t: Syntax): (n: nat)
    ensures n >= 1
    decreases t, 0
  {
    match t
    case ObjectOf(ms) => 1 + MemberNodes(ms)
    case ArrayOf(es) => 1 + ElementNodes(es)
    case _ => 1
  }

  function MemberNodes(ms: Members): (n: nat)
    ensures n >= 1
    decreases ms, 1
  {
    Nodes(ms.member.value) + if ms.NextMember? then MemberNodes(ms.rest) else 0
  }

  function ElementNodes(es: Elements): (n: nat)
    ensures n >= 1
    decreases es, 1
  {
    Nodes(es.value) + if es.NextElement? then ElementNodes(es.rest) else 0
  }

  /** Edges on the longest path from the root to a value inside it. */
  function Height(t: Syntax): nat
    decreases t, 0
  {
    match t
    case ObjectOf(ms) => 1 + MembersHeight(ms)
    case ArrayOf(es) => 1 + ElementsHeight(es)
    case _ => 0
  }

  function MembersHeight(ms: Members): nat
    decreases ms, 1
  {
    Max(Height(ms.member.value), if ms.NextMember? then MembersHeight(ms.rest) else 0)
  }

  function ElementsHeight(es: Elements): nat
    decreases es, 1
  {
    Max(Height(es.value), if es.NextElement? then ElementsHeight(es.rest) else 0)
  }

  /** No object in the derivation names a key twice. */
  predicate UniqueKeys(t: Syntax)
    decreases t, 0
  {
    match t
    case ObjectOf(ms) => UniqueMemberKeys({}, ms)
    case ArrayOf(es) => UniqueElementKeys(es)
    case _ => true
  }

  predicate UniqueMemberKeys(seen: set<string>, ms: Members)
    decreases ms, 1
  {
    var key := PiecesText(ms.member.key);
    && key !in seen
    && UniqueKeys(ms.member.value)
    && (ms.NextMember? ==> UniqueMemberKeys(seen + {key}, ms.rest))
  }

  predicate UniqueElementKeys(es: Elements)
    decreases es, 1
  {
    UniqueKeys(es.value) && (es.NextElement? ==> UniqueElementKeys(es.rest))
  }

  /** What the parser may accept: unique keys, depth at most 24, at most 4096 values. */
  predicate Admissible(t: Syntax) {
    UniqueKeys(t) && Height(t) <= MAX_JSON_DEPTH && Nodes(t) <= MAX_JSON_NODES
  }

  /**
   Evaluation in document order with the parser's budgets: a derivation that breaks a rule evaluates to
   the error of the first rule it breaks. `Counted` carries the running node counter.
   */
  datatype Counted<+T> = Counted(value: T, nodes: nat)

  function Eval(t: Syntax, depth: nat, nodes: nat): Result<Counted<JsonValue>>
    decreases t, 0
  {
    if depth > MAX_JSON_DEPTH || nodes >= MAX_JSON_NODES then Err(LengthOverflow)
    else match t
      case ObjectOf(ms) =>
        var fields :- EvalMembers(map[], ms, depth + 1, nodes + 1);
        Ok(Counted(JsonObject(fields.value), fields.nodes))
      case ArrayOf(es) =>
        var items :- EvalElements([], es, depth + 1, nodes + 1);
        Ok(Counted(JsonArray(items.value), items.nodes))
      case _ => Ok(Counted(Value(t), nodes + 1))
  }

  function EvalMember(fields: map<string, JsonValue>, m: Member, depth: nat, nodes: nat)
    : Result<Counted<map<string, JsonValue>>>
    decreases m, 1
  {
    var v :- Eval(m.value, depth, nodes);
    var key := PiecesText(m.key);
    :- Check(key !in fields, InvalidProfile);
    Ok(Counted(fields[key := v.value], v.nodes))
  }

  function EvalMembers(fields: map<string, JsonValue>, ms: Members, depth: nat, nodes: nat)
    : Result<Counted<map<string, JsonValue>>>
    decreases ms, 2
  {
    var c :- EvalMember(fields, ms.member, depth, nodes);
    match ms
    case LastMember(_, _) => Ok(c)
    case NextMember(_, _, rest) => EvalMembers(c.value, rest, depth, c.nodes)
  }

  function EvalElements(items: seq<JsonValue>, es: Elements, depth: nat, nodes: nat)
    : Result<Counted<seq<JsonValue>>>
    decreases es, 1
  {
    var v :- Eval(es.value, depth, nodes);
    match es
    case LastElement(_, _, _) => Ok(Counted(items + [v.value], v.nodes))
    case NextElement(_, _, _, rest) => EvalElements(items + [v.value], rest, depth, v.nodes)
  }

  /** Evaluation succeeds exactly on admissible derivations, and then yields their value and node count. */
  lemma {:induction false} EvalIsValue(t: Syntax, depth: nat, nodes: nat)
    ensures Eval(t, depth, nodes).Ok? <==>
      UniqueKeys(t) && depth + Height(t) <= MAX_JSON_DEPTH && nodes + Nodes(t) <= MAX_JSON_NODES
    ensures Eval(t, depth, nodes).Ok? ==> Eval(t, depth, nodes).value == Counted(Value(t), nodes + Nodes(t))
    ensures UniqueKeys(t) && Eval(t, depth, nodes).Err? ==> Eval(t, depth, nodes).error == LengthOverflow
    decreases t, 0
  {
    match t
    case ObjectOf(ms) =>
      var none: map<string, JsonValue> := map[];
      assert none.Keys == {};
      EvalMembersIsValue(none, ms, depth + 1, nodes + 1);
    case ArrayOf(es) =>
      EvalElementsIsValue([], es, depth + 1, nodes + 1);
      assert [] + Items(es) == Items(es);
    case _ =>
  }

  lemma {:induction false} EvalMembersIsValue(fields: map<string, JsonValue>, ms: Members, depth: nat, nodes: nat)
    ensures EvalMembers(fields, ms, depth, nodes).Ok? <==>
      && UniqueMemberKeys(fields.Keys, ms)
      && depth + MembersHeight(ms) <= MAX_JSON_DEPTH
      && nodes + MemberNodes(ms) <= MAX_JSON_NODES
    ensures EvalMembers(fields, ms, depth, nodes).Ok? ==>
      EvalMembers(fields, ms, depth, nodes).value == Counted(AddMembers(fields, ms), nodes + MemberNodes(ms))
    ensures UniqueMemberKeys(fields.Keys, ms) && EvalMembers(fields, ms, depth, nodes).Err? ==>
      EvalMembers(fields, ms, depth, nodes).error == LengthOverflow
    decreases ms, 1
  {
    EvalIsValue(ms.member.value, depth, nodes);
    var key := PiecesText(ms.member.key);
    var added := fields[key := Value(ms.member.value)];
    var c := EvalMember(fields, ms.member, depth, nodes);
    if ms.NextMember? {
      assert added.Keys == fields.Keys + {key};
      EvalMembersIsValue(added, ms.rest, depth, nodes + Nodes(ms.member.value));
      if c.Ok? {
        assert c.value == Counted(added, nodes + Nodes(ms.member.value));
      }
    }
  }

  lemma {:induction false} EvalElementsIsValue(items: seq<JsonValue>, es: Elements, depth: nat, nodes: nat)
    ensures EvalElements(items, es, depth, nodes).Ok? <==>
      && UniqueElementKeys(es)
      && depth + ElementsHeight(es) <= MAX_JSON_DEPTH
      && nodes + ElementNodes(es) <= MAX_JSON_NODES
    ensures EvalElements(items, es, depth, nodes).Ok? ==>
      EvalElements(items, es, depth, nodes).value == Counted(items + Items(es), nodes + ElementNodes(es))
    ensures UniqueElementKeys(es) && EvalElements(items, es, depth, nodes).Err? ==>
      EvalElements(items, es, depth, nodes).error == LengthOverflow
    decreases es, 1
  {
    if depth <= MAX_JSON_DEPTH && nodes < MAX_JSON_NODES {
      EvalIsValue(es.value, depth, nodes);
      if es.NextElement? {
        EvalElementsIsValue(items + [Value(es.value)], es.rest, depth, nodes + Nodes(es.value));
        assert items + [Value(es.value)] + Items(es.rest) == items + Items(es);
      }
    }
  }

  // ---------------------------------------------------------------- white space

  /** The same tokens with every run of white space removed. */
  function Compact(t: Syntax): Syntax
    decreases t, 0
  {
    match t
    case EmptyObject(_) => EmptyObject([])
    case ObjectOf(ms) => ObjectOf(CompactMembers(ms))
    case EmptyArray(_) => EmptyArray([])
    case ArrayOf(es) => ArrayOf(CompactElements(es))
    case _ => t
  }

  function CompactMembers(ms: Members): Members
    decreases ms, 1
  {
    var m := Member([], ms.member.key, [], [], Compact(ms.member.value));
    match ms
    case LastMember(_, _) => LastMember(m, [])
    case NextMember(_, _, rest) => NextMember(m, [], CompactMembers(rest))
  }

  function CompactElements(es: Elements): Elements
    decreases es, 1
  {
    match es
    case LastElement(_, v, _) => LastElement([], Compact(v), [])
    case NextElement(_, v, _, rest) => NextElement([], Compact(v), [], CompactElements(rest))
  }

  lemma {:induction false} EvalIgnoresSpace(t: Syntax, depth: nat, nodes: nat)
    ensures Eval(Compact(t), depth, nodes) == Eval(t, depth, nodes)
    decreases t, 0
  {
    match t
    case ObjectOf(ms) => EvalMembersIgnoresSpace(map[], ms, depth + 1, nodes + 1);
    case ArrayOf(es) => EvalElementsIgnoresSpace([], es, depth + 1, nodes + 1);
    case _ =>
  }

  lemma {:induction false} EvalMembersIgnoresSpace(fields: map<string, JsonValue>, ms: Members, depth: nat, nodes: nat)
    ensures EvalMembers(fields, CompactMembers(ms), depth, nodes) == EvalMembers(fields, ms, depth, nodes)
    decreases ms, 1
  {
    EvalIgnoresSpace(ms.member.value, depth, nodes);
    var v := Eval(ms.member.value, depth, nodes);
    if v.Ok? && ms.NextMember? {
      EvalMembersIgnoresSpace(fields[PiecesText(ms.member.key) := v.value.value], ms.rest, depth, v.value.nodes);
    }
  }

  lemma {:induction false} EvalElementsIgnoresSpace(items: seq<JsonValue>, es: Elements, depth: nat, nodes: nat)
    ensures EvalElements(items, CompactElements(es), depth, nodes) == EvalElements(items, es, depth, nodes)
    decreases es, 1
  {
    EvalIgnoresSpace(es.value, depth, nodes);
    var v := Eval(es.value, depth, nodes);
    if v.Ok? && es.NextElement? {
      EvalElementsIgnoresSpace(items + [v.value.value], es.rest, depth, v.value.nodes);
    }
  }
}
