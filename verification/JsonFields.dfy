/** The typed accessors over parsed objects that src/config.rs and src/cert_bundle.rs share. */
module JsonFields {
  import opened Kernel
  import opened Text
  import opened JsonSyntax

  type Fields = map<string, JsonValue>

  function AsObject(v: JsonValue): Result<Fields> {
    if v.JsonObject? then Ok(v.fields) else Err(ParseError)
  }

  function AsArray(v: JsonValue): Result<seq<JsonValue>> {
    if v.JsonArray? then Ok(v.items) else Err(ParseError)
  }

  function AsString(v: JsonValue): Result<string> {
    if v.JsonString? then Ok(v.text) else Err(ParseError)
  }

  function AsU64(v: JsonValue): Result<u64> {
    if v.JsonNumber? then Ok(v.number) else Err(ParseError)
  }

  function AsBool(v: JsonValue): Result<bool> {
    if v.JsonBool? then Ok(v.flag) else Err(ParseError)
  }

  /** `get(key).ok_or(InvalidProfile)`. */
  function Required(o: Fields, key: string): Result<JsonValue> {
    if key in o then Ok(o[key]) else Err(InvalidProfile)
  }

  function RequiredObject(o: Fields, key: string): Result<Fields> {
    var v :- Required(o, key);
    AsObject(v)
  }

  function RequiredArray(o: Fields, key: string): Result<seq<JsonValue>> {
    var v :- Required(o, key);
    AsArray(v)
  }

  function RequiredString(o: Fields, key: string): Result<string> {
    var v :- Required(o, key);
    AsString(v)
  }

  function RequiredU64(o: Fields, key: string): Result<u64> {
    var v :- Required(o, key);
    AsU64(v)
  }

  function RequiredBool(o: Fields, key: string): Result<bool> {
    var v :- Required(o, key);
    AsBool(v)
  }

  /** `reject_unknown_fields`. */
  function RejectUnknownFields(o: Fields, allowed: seq<string>): Outcome {
    Check(forall k | k in o.Keys :: k in allowed, InvalidProfile)
  }

  /** The words `reject_placeholder` looks for. */
  function RejectWords(value: string, words: seq<string>): Outcome {
    var upper := AsciiUpper(value);
    Check(forall i | 0 <= i < |words| :: !Contains(upper, words[i]), InvalidProfile)
  }

  /** `trim().is_empty()`. */
  predicate IsBlank(value: string) {
    Trim(value) == ""
  }
}
