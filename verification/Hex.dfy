/** Hexadecimal text: `decode_hex` (src/config.rs) and `to_hex` (src/provenance.rs). */
module Hex {
  import opened Kernel
  import opened Text

  /** `hex_nibble`. */
  function HexNibble(b: byte): (r: Result<byte>)
    ensures r.Ok? ==> r.value < 16 && b < 0x80
  {
    if 0x30 <= b <= 0x39 then Ok(b - 0x30)
    else if 0x61 <= b <= 0x66 then Ok(b - 0x61 + 10)
    else if 0x41 <= b <= 0x46 then Ok(b - 0x41 + 10)
    else Err(ParseError)
  }

  function DecodePairs(bytes: seq<byte>): (r: Result<seq<byte>>)
    requires |bytes| % 2 == 0
    ensures r.Ok? ==> |r.value| == |bytes| / 2
    ensures r.Err? ==> r.error == ParseError
  {
    if bytes == [] then Ok([])
    else
      var high :- HexNibble(bytes[0]);
      var low :- HexNibble(bytes[1]);
      var rest :- DecodePairs(bytes[2..]);
      Ok([high * 16 + low] + rest)
  }

  /** `decode_hex`: a non-empty even number of hexadecimal digits of either case. */
  function DecodeHex(input: string): (r: Result<seq<byte>>)
    ensures r.Ok? ==> r.value != [] && |Utf8(input)| == 2 * |r.value|
    ensures r.Err? ==> r.error == ParseError
  {
    var bytes := Utf8(input);
    if bytes == [] || |bytes| % 2 != 0 then Err(ParseError) else DecodePairs(bytes)
  }

  /** `validate_hex_len`. */
  function ValidateHexLen(value: string, expected: nat): Outcome {
    match DecodeHex(value)
    case Ok(bytes) => Check(|bytes| == expected, InvalidProfile)
    case Err(e) => Fail(e)
  }

  function LowerHexDigit(n: nat): (c: char)
    requires n < 16
    ensures c as int < 0x80
  {
    if n < 10 then (0x30 + n) as char else (0x61 + n - 10) as char
  }

  /** `to_hex`: two lower-case digits a byte. */
  function ToHex(bytes: seq<byte>): (text: string)
    ensures |text| == 2 * |bytes|
    ensures forall i | 0 <= i < |text| :: '0' <= text[i] <= '9' || 'a' <= text[i] <= 'f'
  {
    if bytes == [] then ""
    else [LowerHexDigit(bytes[0] / 16), LowerHexDigit(bytes[0] % 16)] + ToHex(bytes[1..])
  }

  lemma NibbleRoundTrip(n: nat)
    requires n < 16
    ensures HexNibble(LowerHexDigit(n) as int) == Ok(n)
  {
  }

  lemma {:induction false} DecodeToHex(bytes: seq<byte>)
    ensures |Utf8(ToHex(bytes))| == 2 * |bytes|
    ensures DecodePairs(Utf8(ToHex(bytes))) == Ok(bytes)
  {
    hide Utf8Char, HexNibble, LowerHexDigit;
    if bytes != [] {
      var rest := Utf8(ToHex(bytes[1..]));
      DecodeToHex(bytes[1..]);
      var high, low := LowerHexDigit(bytes[0] / 16), LowerHexDigit(bytes[0] % 16);
      NibbleRoundTrip(bytes[0] / 16);
      NibbleRoundTrip(bytes[0] % 16);
      Utf8Concat([high, low], ToHex(bytes[1..]));
      Utf8Pair(high, low);
      assert (high as int) < 0x80 && (low as int) < 0x80;
      var all := Utf8(ToHex(bytes));
      assert all == [high as int, low as int] + rest;
      assert all[2..] == rest && all[0] == high as int && all[1] == low as int;
      assert bytes == [bytes[0]] + bytes[1..];
    }
  }

  /** Decoding what `to_hex` wrote gives the bytes back. */
  lemma HexRoundTrip(bytes: seq<byte>)
    requires bytes != []
    ensures DecodeHex(ToHex(bytes)) == Ok(bytes)
    ensures ValidateHexLen(ToHex(bytes), |bytes|) == Pass
  {
    DecodeToHex(bytes);
  }

  /** `to_hex` never writes one text for two byte strings. */
  lemma ToHexInjective(a: seq<byte>, b: seq<byte>)
    requires ToHex(a) == ToHex(b)
    ensures a == b
  {
    DecodeToHex(a);
    DecodeToHex(b);
  }
}
