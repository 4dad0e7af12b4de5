/**
 What it means that an object's named field holds a value (src/config.rs), and the proof that each field reader of
 Profile returns exactly the value its field holds.
 */
module ProfileFields {
  import opened Kernel
  import opened Text
  import opened Hex
  import opened Dates
  import opened JsonSyntax
  import opened JsonFields
  import opened TextFacts
  import opened Profile

  predicate OnlyKeys(o: Fields, keys: seq<string>) {
    forall k | k in o.Keys :: k in keys
  }

  predicate HoldsString(o: Fields, key: string, text: string) {
    key in o && o[key] == JsonString(text)
  }

  predicate HoldsNumber(o: Fields, key: string, n: u64) {
    key in o && o[key] == JsonNumber(n)
  }

  predicate HoldsBool(o: Fields, key: string, flag: bool) {
    key in o && o[key] == JsonBool(flag)
  }

  predicate HoldsArray(o: Fields, key: string, items: seq<JsonValue>) {
    key in o && o[key] == JsonArray(items)
  }

  /** A text that says it stands in for the real value. */
  predicate IsPlaceholder(text: string) {
    var upper := AsciiUpper(text);
    || Contains(upper, "...") || Contains(upper, "PLACEHOLDER") || Contains(upper, "EXAMPLE_NOT")
    || Contains(upper, "DUMMY") || Contains(upper, "TEST_ONLY")
  }

  /** The bytes in hexadecimal, in either letter case. */
  predicate IsHexText(text: string, bytes: seq<byte>) {
    bytes != [] && AsciiLower(text) == ToHex(bytes)
  }

  predicate HoldsHex(o: Fields, key: string, bytes: seq<byte>) {
    key in o && o[key].JsonString? && !IsPlaceholder(o[key].text) && IsHexText(o[key].text, bytes)
  }

  /** An absent field is an absent limit; a present one is a 16-bit number. */
  predicate HoldsLimit(o: Fields, key: string, limit: Option<nat>) {
    match limit
    case None => key !in o
    case Some(n) => n <= 65_535 && HoldsNumber(o, key, n)
  }

  lemma UnknownFieldsIff(o: Fields, keys: seq<string>)
    ensures RejectUnknownFields(o, keys) == if OnlyKeys(o, keys) then Pass else Fail(InvalidProfile)
  {
  }

  lemma StringIff(o: Fields, key: string, text: string)
    ensures RequiredString(o, key) == Ok(text) <==> HoldsString(o, key, text)
  {
  }

  lemma NumberIff(o: Fields, key: string, n: u64)
    ensures RequiredU64(o, key) == Ok(n) <==> HoldsNumber(o, key, n)
  {
  }

  lemma ByteIff(o: Fields, key: string, n: byte)
    ensures ByteNumber(o, key) == Ok(n) <==> HoldsNumber(o, key, n)
  {
  }

  lemma BoolIff(o: Fields, key: string, flag: bool)
    ensures RequiredBool(o, key) == Ok(flag) <==> HoldsBool(o, key, flag)
  {
  }

  lemma ArrayIff(o: Fields, key: string, items: seq<JsonValue>)
    ensures RequiredArray(o, key) == Ok(items) <==> HoldsArray(o, key, items)
  {
  }

  lemma LimitIff(o: Fields, key: string, limit: Option<nat>)
    ensures OptionalU16(o, key) == Ok(limit) <==> HoldsLimit(o, key, limit)
  {
  }

  lemma PlaceholderIff(text: string)
    ensures RejectPlaceholder(text) == if IsPlaceholder(text) then Fail(InvalidProfile) else Pass
  {
    hide Contains, AsciiUpper;
    var words := ["...", "PLACEHOLDER", "EXAMPLE_NOT", "DUMMY", "TEST_ONLY"];
    var upper := AsciiUpper(text);
    assert (forall i | 0 <= i < |words| :: !Contains(upper, words[i])) <==>
      !Contains(upper, words[0]) && !Contains(upper, words[1]) && !Contains(upper, words[2])
      && !Contains(upper, words[3]) && !Contains(upper, words[4]);
  }

  lemma HexIff(o: Fields, key: string, bytes: seq<byte>)
    ensures HexField(o, key) == Ok(bytes) <==> HoldsHex(o, key, bytes)
  {
    hide RejectPlaceholder, IsPlaceholder, DecodeHex, AsciiLower, ToHex;
    if key in o && o[key].JsonString? {
      PlaceholderIff(o[key].text);
      DecodeHexIff(o[key].text, bytes);
    }
  }

  lemma FixedHexIff(o: Fields, key: string, n: nat, bytes: seq<byte>)
    ensures FixedHexField(o, key, n) == Ok(bytes) <==> HoldsHex(o, key, bytes) && |bytes| == n
  {
    hide HexField, HoldsHex;
    HexIff(o, key, bytes);
  }

  // ---------------------------------------------------------------- lists

  /** An array of strings. */
  predicate HoldsStrings(o: Fields, key: string, texts: seq<string>) {
    && key in o && o[key].JsonArray? && |o[key].items| == |texts|
    && forall i | 0 <= i < |texts| :: o[key].items[i] == JsonString(texts[i])
  }

  predicate IsInterface(name: string) {
    name == "contact" || name == "contactless"
  }

  lemma InterfaceNames(names: seq<string>)
    ensures (forall i | 0 <= i < |names| :: names[i] in ["contact", "contactless"])
      <==> (forall i | 0 <= i < |names| :: IsInterface(names[i]))
  {
  }

  lemma StringsIff(items: seq<JsonValue>, texts: seq<string>)
    ensures StringsOf(items) == Ok(texts)
      <==> |items| == |texts| && forall i | 0 <= i < |texts| :: items[i] == JsonString(texts[i])
  {
    MapResultIs(AsString, items, texts);
  }

  lemma InterfacesIff(o: Fields, names: seq<string>)
    ensures ParseInterfaces(o) == Ok(names) <==>
      && HoldsStrings(o, "interfaces", names) && names != [] && NoDuplicates(names)
      && forall i | 0 <= i < |names| :: IsInterface(names[i])
  {
    hide StringsOf, IsInterface, NoDuplicates;
    InterfaceNames(names);
    if "interfaces" in o && o["interfaces"].JsonArray? {
      StringsIff(o["interfaces"].items, names);
    }
  }

  /** An absent field is an empty list; a present one is an array of two-digit hexadecimal texts. */
  predicate HoldsByteList(o: Fields, key: string, bytes: seq<byte>) {
    if key !in o then bytes == []
    else
      && o[key].JsonArray? && |o[key].items| == |bytes|
      && forall i | 0 <= i < |bytes| :: o[key].items[i].JsonString? && IsHexText(o[key].items[i].text, [bytes[i]])
  }

  lemma SingleByteIff(v: JsonValue, b: byte)
    ensures SingleHexByte(v) == Ok(b) <==> v.JsonString? && IsHexText(v.text, [b])
  {
    hide DecodeHex, AsciiLower, ToHex;
    if v.JsonString? {
      DecodeHexIff(v.text, [b]);
      if DecodeHex(v.text).Ok? && |DecodeHex(v.text).value| == 1 {
        assert DecodeHex(v.text).value == [DecodeHex(v.text).value[0]];
      }
    }
  }

  lemma ByteListIff(o: Fields, key: string, bytes: seq<byte>)
    ensures OptionalHexByteArray(o, key) == Ok(bytes) <==> HoldsByteList(o, key, bytes) && NoDuplicates(bytes)
  {
    hide SingleHexByte, IsHexText;
    if key in o && o[key].JsonArray? {
      var items := o[key].items;
      MapResultIs(SingleHexByte, items, bytes);
      forall i | 0 <= i < |items| && i < |bytes|
        ensures SingleHexByte(items[i]) == Ok(bytes[i]) <==> items[i].JsonString? && IsHexText(items[i].text, [bytes[i]])
      {
        SingleByteIff(items[i], bytes[i]);
      }
    }
  }
}
