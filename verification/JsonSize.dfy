/** A parsed value has one size: any sound document denoting it has the nodes and height of the text it came from. */
module JsonSize {
  import opened Kernel
  import opened JsonSyntax
  import opened JsonReader
  import opened JsonDoc

  function Without(fields: seq<Field>, i: nat): (rest: seq<Field>)
    requires i < |fields|
    ensures |rest| == |fields| - 1
  {
    fields[..i] + fields[i + 1..]
  }

  lemma WithoutTail(fields: seq<Field>, i: nat)
    requires 0 < i < |fields|
    ensures Without(fields, i) == [fields[0]] + Without(fields[1..], i - 1)
  {
  }

  /** Field order does not matter to the value: any field may be added first. */
  lemma {:induction false} AddedFirst(seen: map<string, JsonValue>, fields: seq<Field>, i: nat)
    requires DistinctKeys(fields) && i < |fields|
    ensures FieldMap(seen, fields)
         == FieldMap(seen[fields[i].key := DocValue(fields[i].doc)], Without(fields, i))
    decreases i
  {
    hide DocValue;
    if i == 0 {
      assert Without(fields, 0) == fields[1..];
    } else {
      var first, f := fields[0], fields[i];
      var tail := fields[1..];
      assert tail[i - 1] == f;
      AddedFirst(seen[first.key := DocValue(first.doc)], tail, i - 1);
      WithoutTail(fields, i);
      var rest := Without(fields, i);
      assert rest[0] == first && rest[1..] == Without(tail, i - 1);
      assert seen[first.key := DocValue(first.doc)][f.key := DocValue(f.doc)]
          == seen[f.key := DocValue(f.doc)][first.key := DocValue(first.doc)];
    }
  }

  lemma {:induction false} SizeWithout(fields: seq<Field>, i: nat)
    requires i < |fields|
    ensures FieldNodes(fields) == DocNodes(fields[i].doc) + FieldNodes(Without(fields, i))
    ensures FieldsHeight(fields) == Max(DocHeight(fields[i].doc), FieldsHeight(Without(fields, i)))
    decreases i
  {
    hide DocNodes, DocHeight;
    if i == 0 {
      assert Without(fields, 0) == fields[1..];
    } else {
      SizeWithout(fields[1..], i - 1);
      WithoutTail(fields, i);
      var rest := Without(fields, i);
      assert rest[0] == fields[0] && rest[1..] == Without(fields[1..], i - 1);
    }
  }

  lemma {:induction false} MemberLookup(seen: map<string, JsonValue>, ms: Members)
    requires UniqueMemberKeys(seen.Keys, ms)
    ensures
      var m := AddMembers(seen, ms);
      && PiecesText(ms.member.key) in m && m[PiecesText(ms.member.key)] == Value(ms.member.value)
      && forall k | k in seen :: k in m && m[k] == seen[k]
    decreases ms
  {
    hide Value, PiecesText;
    var key := PiecesText(ms.member.key);
    var added := seen[key := Value(ms.member.value)];
    assert added.Keys == seen.Keys + {key};
    if ms.NextMember? {
      MemberLookup(added, ms.rest);
    }
  }

  lemma {:induction false} SameSize(t: Syntax, d: Doc)
    requires UniqueKeys(t) && Keyed(d) && Value(t) == DocValue(d)
    ensures Nodes(t) == DocNodes(d) && Height(t) == DocHeight(d)
    decreases t, 0
  {
    match t
    case ObjectOf(ms) =>
      var none: map<string, JsonValue> := map[];
      assert none.Keys == {};
      SameMembers(none, ms, d.fields);
    case EmptyObject(_) => FieldLookup(map[], d.fields);
    case ArrayOf(es) => SameElements(es, d.items);
    case _ =>
  }

  lemma {:induction false} SameElements(es: Elements, items: seq<Doc>)
    requires UniqueElementKeys(es) && (forall i | 0 <= i < |items| :: Keyed(items[i]))
    requires Items(es) == ItemValues(items)
    ensures items != [] && ElementNodes(es) == ItemNodes(items) && ElementsHeight(es) == ItemsHeight(items)
    decreases es, 1
  {
    var values := ItemValues(items);
    assert values != [];
    SameSize(es.value, items[0]);
    match es
    case LastElement(_, _, _) => assert |items| == 1;
    case NextElement(_, v, _, rest) =>
      assert Items(rest) == Items(es)[1..] == ItemValues(items[1..]);
      SameElements(rest, items[1..]);
  }

  lemma FindField(seen: map<string, JsonValue>, ms: Members, fields: seq<Field>) returns (i: nat)
    requires UniqueMemberKeys(seen.Keys, ms) && DistinctKeys(fields)
    requires forall i | 0 <= i < |fields| :: fields[i].key !in seen
    requires AddMembers(seen, ms) == FieldMap(seen, fields)
    ensures i < |fields| && fields[i].key == PiecesText(ms.member.key)
    ensures DocValue(fields[i].doc) == Value(ms.member.value)
  {
    hide Value, DocValue, PiecesText, UniqueKeys, AddMembers, FieldMap;
    MemberLookup(seen, ms);
    FieldLookup(seen, fields);
    i :| 0 <= i < |fields| && fields[i].key == PiecesText(ms.member.key);
  }

  lemma RemainingKeys(seen: map<string, JsonValue>, v: JsonValue, fields: seq<Field>, i: nat)
    requires DistinctKeys(fields) && i < |fields|
    requires forall j | 0 <= j < |fields| :: fields[j].key !in seen
    ensures DistinctKeys(Without(fields, i))
    ensures
      var rest := Without(fields, i);
      forall j | 0 <= j < |rest| :: rest[j] in fields && rest[j].key !in seen[fields[i].key := v]
  {
    var rest := Without(fields, i);
    forall j | 0 <= j < |rest|
      ensures rest[j] == fields[if j < i then j else j + 1]
    {
    }
  }

  lemma SomethingAdded(seen: map<string, JsonValue>, fields: seq<Field>)
    requires DistinctKeys(fields) && fields != []
    requires forall j | 0 <= j < |fields| :: fields[j].key !in seen
    ensures FieldMap(seen, fields) != seen
  {
    hide DocValue, FieldMap;
    FieldLookup(seen, fields);
    assert fields[0].key in FieldMap(seen, fields).Keys;
  }

  lemma {:induction false} SameMembers(seen: map<string, JsonValue>, ms: Members, fields: seq<Field>)
    requires UniqueMemberKeys(seen.Keys, ms) && DistinctKeys(fields)
    requires forall i | 0 <= i < |fields| :: Keyed(fields[i].doc) && fields[i].key !in seen
    requires AddMembers(seen, ms) == FieldMap(seen, fields)
    ensures fields != [] && MemberNodes(ms) == FieldNodes(fields) && MembersHeight(ms) == FieldsHeight(fields)
    decreases ms, 1
  {
    hide Value, DocValue, PiecesText, Keyed, UniqueKeys, Nodes, Height, DocNodes, DocHeight, FieldMap, FieldNodes,
      FieldsHeight, DistinctKeys, Without;
    var i := FindField(seen, ms, fields);
    SameSize(ms.member.value, fields[i].doc);
    AddedFirst(seen, fields, i);
    SizeWithout(fields, i);
    RemainingKeys(seen, Value(ms.member.value), fields, i);
    var added, rest := seen[fields[i].key := Value(ms.member.value)], Without(fields, i);
    assert added.Keys == seen.Keys + {fields[i].key};
    if ms.NextMember? {
      SameMembers(added, ms.rest, rest);
    } else {
      if rest != [] {
        SomethingAdded(added, rest);
      }
      NoFields();
    }
  }

  lemma NoFields()
    ensures FieldNodes([]) == 0 && FieldsHeight([]) == 0
  {
  }

  /** Whatever text a document's value was parsed from, the document itself fits the parser's limits. */
  lemma ParsedFits(input: seq<byte>, d: Doc)
    requires Keyed(d) && Parse(input) == Ok(DocValue(d))
    ensures FitsLimits(d)
  {
    ExactLanguage(input, DocValue(d));
    var tree :| Derives(tree, input, DocValue(d));
    SameSize(tree.root, d);
  }
}
