/**
 Exactly which JSON values `load_profile_set` (src/config.rs) admits, and as what: the parser returns a profile set
 exactly when every named field of the document holds the corresponding part of it and every check passes.
 */
module ProfileReader {
  import opened Kernel
  import opened Text
  import opened Hex
  import opened Dates
  import opened JsonSyntax
  import opened JsonFields
  import opened TextFacts
  import opened Profile
  import opened ProfileFields
  import JsonReader
  import Apdu
  import Sha1Arithmetic
  import Sha1Spec

  // ---------------------------------------------------------------- data object lists

  /** One entry of a DOL: a tag and the length wanted. */
  datatype DolEntry = DolEntry(tag: seq<byte>, length: byte)

  /** A BER tag of one byte, or of two to four with the continuation bit set on all middle bytes. */
  predicate IsTag(tag: seq<byte>) {
    && 1 <= |tag| <= 4 && tag[0] != 0x00 && tag[0] != 0xff
    && (|tag| == 1 <==> tag[0] % 0x20 != 0x1f)
    && (|tag| > 1 ==> tag[1] % 0x80 != 0 && tag[|tag| - 1] < 0x80)
    && (forall i | 1 <= i < |tag| - 1 :: tag[i] >= 0x80)
  }

  predicate AreDolEntries(entries: seq<DolEntry>) {
    forall i | 0 <= i < |entries| :: IsTag(entries[i].tag)
  }

  function DolBytes(entries: seq<DolEntry>): seq<byte> {
    if entries == [] then [] else entries[0].tag + ([entries[0].length] + DolBytes(entries[1..]))
  }

  /** The tag a list starts with. */
  lemma TagEnd(tag: seq<byte>, on: seq<byte>)
    requires IsTag(tag) && |tag| > 1
    ensures HighTagEnd(tag + on, 1) == Ok(|tag|)
  {
    var s := tag + on;
    assert forall i | 0 <= i < |tag| :: s[i] == tag[i];
    if |tag| == 4 {
      assert HighTagEnd(s, 3) == Ok(4);
      assert HighTagEnd(s, 2) == Ok(4);
    } else if |tag| == 3 {
      assert HighTagEnd(s, 2) == Ok(3);
    }
  }

  lemma {:induction false} ReadsEntries(entries: seq<DolEntry>, n: nat)
    requires AreDolEntries(entries)
    ensures CheckDol(DolBytes(entries), n) == if entries == [] || n + |entries| <= 128 then Pass else Fail(LengthOverflow)
  {
    hide IsTag, HighTagEnd;
    if entries != [] {
      var tag, on := entries[0].tag, [entries[0].length] + DolBytes(entries[1..]);
      ReadsEntries(entries[1..], n + 1);
      assert IsTag(tag);
      TagStarts(tag);
      if |tag| > 1 {
        TagEnd(tag, on);
      }
      var s := DolBytes(entries);
      assert s[0] == tag[0];
      assert s[|tag| + 1..] == DolBytes(entries[1..]);
    }
  }

  lemma TagStarts(tag: seq<byte>)
    requires IsTag(tag)
    ensures 1 <= |tag| && tag[0] != 0x00 && tag[0] != 0xff && (|tag| == 1 <==> tag[0] % 0x20 != 0x1f)
  {
  }

  lemma HighTagIs(s: seq<byte>)
    requires s != [] && s[0] != 0x00 && s[0] != 0xff && s[0] % 0x20 == 0x1f
    requires HighTagEnd(s, 1).Ok?
    ensures HighTagEnd(s, 1).value <= |s| && IsTag(s[..HighTagEnd(s, 1).value])
  {
    var end := HighTagEnd(s, 1).value;
    if s[1] >= 0x80 {
      assert HighTagEnd(s, 1) == HighTagEnd(s, 2);
      if s[2] >= 0x80 {
        assert HighTagEnd(s, 2) == HighTagEnd(s, 3);
        assert HighTagEnd(s, 4).Err?;
        assert end == 4;
      } else {
        assert end == 3;
      }
    } else {
      assert end == 2;
    }
    var tag := s[..end];
    assert tag[0] == s[0] && tag[1] == s[1];
  }

  lemma FirstTag(input: seq<byte>, n: nat) returns (tag: seq<byte>)
    requires CheckDol(input, n).Pass? && input != []
    ensures IsTag(tag) && 0 < |tag| < |input| && input[..|tag|] == tag
    ensures CheckDol(input[|tag| + 1..], n + 1).Pass?
  {
    hide IsTag, HighTagEnd;
    if input[0] % 0x20 == 0x1f {
      HighTagIs(input);
      tag := input[..HighTagEnd(input, 1).value];
    } else {
      ShortTagIs(input[0]);
      tag := [input[0]];
    }
    TagStarts(tag);
  }

  lemma {:induction false} EntriesOf(input: seq<byte>, n: nat) returns (entries: seq<DolEntry>)
    requires CheckDol(input, n).Pass?
    ensures AreDolEntries(entries) && DolBytes(entries) == input
    decreases |input|
  {
    hide IsTag, CheckDol;
    entries := [];
    if input != [] {
      var tag := FirstTag(input, n);
      var rest := EntriesOf(input[|tag| + 1..], n + 1);
      entries := [DolEntry(tag, input[|tag|])] + rest;
      assert entries[1..] == rest;
      assert input == tag + ([input[|tag|]] + input[|tag| + 1..]);
    }
  }

  lemma ShortTagIs(b: byte)
    requires b != 0x00 && b != 0xff && b % 0x20 != 0x1f
    ensures IsTag([b])
  {
  }

  /** A list of at most 128 tags and lengths. */
  ghost predicate IsDol(input: seq<byte>) {
    exists entries :: AreDolEntries(entries) && |entries| <= 128 && DolBytes(entries) == input
  }

  lemma DolLanguage(input: seq<byte>)
    ensures CheckDol(input, 0).Pass? <==> IsDol(input)
  {
    if CheckDol(input, 0).Pass? {
      var entries := EntriesOf(input, 0);
      ReadsEntries(entries, 0);
    }
    forall entries | AreDolEntries(entries) && |entries| <= 128 && DolBytes(entries) == input
      ensures CheckDol(input, 0).Pass?
    {
      ReadsEntries(entries, 0);
    }
  }

  // ---------------------------------------------------------------- parts of an AID

  predicate HoldsActionCodes(o: Fields, online: string, denial: string, default: string, codes: ActionCodes) {
    && HoldsHex(o, online, codes.online) && |codes.online| == 5
    && HoldsHex(o, denial, codes.denial) && |codes.denial| == 5
    && HoldsHex(o, default, codes.default) && |codes.default| == 5
  }

  lemma ActionCodesIff(o: Fields, online: string, denial: string, default: string, codes: ActionCodes)
    ensures ParseActionCodes(o, online, denial, default) == Ok(codes)
      <==> HoldsActionCodes(o, online, denial, default, codes)
  {
    hide FixedHexField, HoldsHex;
    FixedHexIff(o, online, 5, codes.online);
    FixedHexIff(o, denial, 5, codes.denial);
    FixedHexIff(o, default, 5, codes.default);
  }

  predicate IsFloorLimit(v: JsonValue, l: FloorLimit) {
    && v.JsonObject? && OnlyKeys(v.fields, ["transaction_type", "floor_limit"])
    && HoldsHex(v.fields, "transaction_type", [l.transactionType])
    && HoldsNumber(v.fields, "floor_limit", l.limit)
  }

  /** No more than sixteen limits, each for a transaction type of its own; none when the field is absent. */
  predicate HoldsFloorLimits(o: Fields, limits: seq<FloorLimit>) {
    && |limits| <= 16
    && (forall i, j | 0 <= i < j < |limits| :: limits[i].transactionType != limits[j].transactionType)
    && if "transaction_type_floor_limits" !in o then limits == []
       else
         var v := o["transaction_type_floor_limits"];
         v.JsonArray? && |v.items| == |limits| && forall i | 0 <= i < |limits| :: IsFloorLimit(v.items[i], limits[i])
  }

  lemma FloorLimitIff(v: JsonValue, l: FloorLimit)
    ensures ParseFloorLimit(v) == Ok(l) <==> IsFloorLimit(v, l)
  {
    hide FixedHexField, HoldsHex, RequiredU64, HoldsNumber, RejectUnknownFields, OnlyKeys;
    if v.JsonObject? {
      UnknownFieldsIff(v.fields, ["transaction_type", "floor_limit"]);
      FixedHexIff(v.fields, "transaction_type", 1, [l.transactionType]);
      NumberIff(v.fields, "floor_limit", l.limit);
      var read := FixedHexField(v.fields, "transaction_type", 1);
      if read.Ok? {
        FixedHexIff(v.fields, "transaction_type", 1, read.value);
        assert read.value == [read.value[0]];
      }
    }
  }

  lemma FloorLimitsIff(o: Fields, limits: seq<FloorLimit>)
    ensures ParseFloorLimits(o) == Ok(limits) <==> HoldsFloorLimits(o, limits)
  {
    hide ParseFloorLimit, IsFloorLimit;
    if "transaction_type_floor_limits" in o && o["transaction_type_floor_limits"].JsonArray? {
      var items := o["transaction_type_floor_limits"].items;
      MapResultIs(ParseFloorLimit, items, limits);
      forall i | 0 <= i < |items| && i < |limits|
        ensures ParseFloorLimit(items[i]) == Ok(limits[i]) <==> IsFloorLimit(items[i], limits[i])
      {
        FloorLimitIff(items[i], limits[i]);
      }
    }
  }

  ghost predicate HoldsCdol(o: Fields, cdol: Option<seq<byte>>) {
    match cdol
    case None => "default_cdol1" !in o
    case Some(bytes) => HoldsHex(o, "default_cdol1", bytes) && IsDol(bytes)
  }

  lemma CdolIff(o: Fields, cdol: Option<seq<byte>>)
    ensures ParseDefaultCdol1(o) == Ok(cdol) <==> HoldsCdol(o, cdol)
  {
    hide HoldsHex, CheckDol, IsDol, RejectPlaceholder, DecodeHex;
    if cdol.Some? {
      HexIff(o, "default_cdol1", cdol.value);
      DolLanguage(cdol.value);
    }
    if "default_cdol1" in o && o["default_cdol1"].JsonString? && ParseDefaultCdol1(o).Ok? {
      DolLanguage(ParseDefaultCdol1(o).value.value);
    }
  }

  function OutcomeText(outcome: Apdu.RelayResistanceFailureOutcome): string {
    match outcome
    case TryAgain => "try_again"
    case AlternateInterface => "alternate_interface"
    case Terminate => "terminate"
  }

  const RELAY_FIELDS: seq<string> :=
    ["required", "command_apdu_hex", "max_round_trip_ms", "success_response_hex", "failure_outcome"]

  /** The bytes of some short command. */
  ghost predicate IsShortCommand(bytes: seq<byte>) {
    exists c: Apdu.CommandApdu :: |c.data| <= 255 && Apdu.Encoding(c) == bytes
  }

  /** A relay object that is required: its command encodes a short command, its limit and response are in range. */
  ghost predicate IsRelay(o: Fields, r: Apdu.RelayResistanceProfile) {
    && HoldsBool(o, "required", true)
    && HoldsHex(o, "command_apdu_hex", r.commandApdu)
    && 1 <= r.maxRoundTripMs <= 65_535 && HoldsNumber(o, "max_round_trip_ms", r.maxRoundTripMs)
    && HoldsHex(o, "success_response_hex", r.successResponse) && 2 <= |r.successResponse| <= 258
    && HoldsString(o, "failure_outcome", OutcomeText(r.failureOutcome))
    && IsShortCommand(r.commandApdu)
  }

  /** A relay object that is not required counts for nothing, like an absent one. */
  ghost predicate HoldsRelay(o: Fields, relay: Option<Apdu.RelayResistanceProfile>) {
    if "relay_resistance" !in o then relay == None
    else
      var v := o["relay_resistance"];
      && v.JsonObject? && OnlyKeys(v.fields, RELAY_FIELDS)
      && match relay
         case None => HoldsBool(v.fields, "required", false)
         case Some(r) => IsRelay(v.fields, r)
  }

  lemma OutcomeIff(text: string, outcome: Apdu.RelayResistanceFailureOutcome)
    ensures ParseFailureOutcome(text) == Ok(outcome) <==> text == OutcomeText(outcome)
  {
    assert "try_again"[0] == 't' && "try_again"[1] == 'r' && "alternate_interface"[0] == 'a';
    assert "terminate"[0] == 't' && "terminate"[1] == 'e';
  }

  lemma RelayCommandIff(r: Apdu.RelayResistanceProfile)
    requires 2 <= |r.successResponse| <= 258 && r.maxRoundTripMs >= 1
    ensures Apdu.NewRelayProfile(r.commandApdu, r.maxRoundTripMs, r.successResponse, r.failureOutcome) == Ok(r)
      <==> IsShortCommand(r.commandApdu)
  {
    Apdu.RelayCommandsAreEncodings(r.commandApdu, r.maxRoundTripMs, r.successResponse, r.failureOutcome);
  }

  lemma RelayFields(o: Fields)
    ensures RejectUnknownFields(
      o, ["required", "command_apdu_hex", "max_round_trip_ms", "success_response_hex", "failure_outcome"])
      == if OnlyKeys(o, RELAY_FIELDS) then Pass else Fail(InvalidProfile)
  {
    UnknownFieldsIff(o, RELAY_FIELDS);
  }

  lemma RelayIff(o: Fields, relay: Option<Apdu.RelayResistanceProfile>)
    ensures ParseRelayResistance(o) == Ok(relay) <==> HoldsRelay(o, relay)
  {
    hide RejectUnknownFields, OnlyKeys, HexField, HoldsHex, RequiredBool, HoldsBool, RequiredU64, HoldsNumber, RequiredString,
      HoldsString, ParseFailureOutcome, OutcomeText, IsShortCommand, Apdu.ValidateRelayCommand;
    if "relay_resistance" in o && o["relay_resistance"].JsonObject? {
      var f := o["relay_resistance"].fields;
      RelayFields(f);
      BoolIff(f, "required", true);
      BoolIff(f, "required", false);
      if relay.Some? {
        var r := relay.value;
        HexIff(f, "command_apdu_hex", r.commandApdu);
        HexIff(f, "success_response_hex", r.successResponse);
        if r.maxRoundTripMs <= 65_535 {
          NumberIff(f, "max_round_trip_ms", r.maxRoundTripMs);
        }
        StringIff(f, "failure_outcome", OutcomeText(r.failureOutcome));
        if RequiredString(f, "failure_outcome").Ok? {
          OutcomeIff(RequiredString(f, "failure_outcome").value, r.failureOutcome);
          StringIff(f, "failure_outcome", RequiredString(f, "failure_outcome").value);
        }
        OutcomeIff(OutcomeText(r.failureOutcome), r.failureOutcome);
        if 2 <= |r.successResponse| <= 258 && r.maxRoundTripMs >= 1 {
          RelayCommandIff(r);
        }
      }
    }
  }

  // ---------------------------------------------------------------- CDA controls

  predicate IsCdaEncoding(text: string, encoding: CdaRequestEncoding) {
    match encoding
    case InCdolData => text == "CDOL1_bit"
    case P1LowBits(bits) => 0 < bits < 0x40 && |text| == 16 && text[..14] == "P1_low_bits_0x" && IsHexText(text[14..], [bits])
  }

  /** The text of a field that counts only when it is a string. */
  function TextOf(o: Fields, key: string): Option<string> {
    if key in o && o[key].JsonString? then Some(o[key].text) else None
  }

  /** CDA is supported exactly when a request encoding is given, and only then may signed data include the number 9F4C. */
  predicate HoldsCda(
    o: Fields, supported: bool, encoding: Option<CdaRequestEncoding>, authentication: CdaAuthenticationData)
  {
    && HoldsBool(o, "cda_supported", supported)
    && (match TextOf(o, "cda_request_encoding")
        case None => encoding == None
        case Some(text) => encoding.Some? && IsCdaEncoding(text, encoding.value))
    && (match TextOf(o, "cda_authentication_data")
        case None => authentication == ApplicationCryptogram
        case Some(text) => text == match authentication
          case ApplicationCryptogram => "application_cryptogram"
          case ApplicationCryptogramAndIccDynamicNumber => "application_cryptogram_9f4c")
    && (supported <==> encoding.Some?)
    && (supported || authentication == ApplicationCryptogram)
  }

  lemma TwoByteHex(hex: string, bits: byte)
    ensures |Utf8(hex)| == 2 && DecodeHex(hex) == Ok([bits]) <==> |hex| == 2 && IsHexText(hex, [bits])
  {
    hide AsciiLower, ToHex;
    DecodeHexIff(hex, [bits]);
    if IsHexText(hex, [bits]) {
      assert |hex| == |AsciiLower(hex)| by { SameLength(hex); }
    }
  }

  lemma SameLength(text: string)
    ensures |AsciiLower(text)| == |text|
  {
  }

  lemma CdaEncodingIff(text: string, encoding: CdaRequestEncoding)
    ensures ParseCdaRequestEncoding(text) == Ok(encoding) <==> IsCdaEncoding(text, encoding)
  {
    hide DecodeHex, IsHexText, Utf8;
    var prefix := "P1_low_bits_0x";
    assert |prefix| == 14;
    assert "CDOL1_bit"[0] == 'C' && prefix[0] == 'P';
    if prefix <= text {
      var hex := text[14..];
      assert text[..14] == prefix;
      assert text[0] == 'P';
      if DecodeHex(hex).Ok? {
        TwoByteHex(hex, DecodeHex(hex).value[0]);
      }
      if encoding.P1LowBits? {
        TwoByteHex(hex, encoding.bits);
      }
      if |Utf8(hex)| == 2 && DecodeHex(hex).Ok? {
        assert DecodeHex(hex).value == [DecodeHex(hex).value[0]];
      }
    } else if |text| == 16 {
      assert text[..14] != prefix;
    }
  }

  lemma CdaAuthenticationIff(text: string, data: CdaAuthenticationData)
    ensures ParseCdaAuthenticationData(text) == Ok(data) <==>
      text == match data
        case ApplicationCryptogram => "application_cryptogram"
        case ApplicationCryptogramAndIccDynamicNumber => "application_cryptogram_9f4c"
  {
    assert |"application_cryptogram"| != |"application_cryptogram_9f4c"|;
  }

  lemma CdaIff(o: Fields, p: CdaPolicy)
    ensures ParseCda(o) == Ok(p) <==> HoldsCda(o, p.supported, p.encoding, p.authentication)
  {
    hide RequiredBool, HoldsBool, ParseCdaRequestEncoding, IsCdaEncoding, ParseCdaAuthenticationData;
    BoolIff(o, "cda_supported", p.supported);
    if TextOf(o, "cda_request_encoding").Some? && p.encoding.Some? {
      CdaEncodingIff(o["cda_request_encoding"].text, p.encoding.value);
    }
    if TextOf(o, "cda_authentication_data").Some? {
      CdaAuthenticationIff(o["cda_authentication_data"].text, p.authentication);
    }
  }

  // ---------------------------------------------------------------- AIDs

  /** Bytes that are not all zero and not all ones. */
  predicate IsReal(bytes: seq<byte>) {
    (exists i | 0 <= i < |bytes| :: bytes[i] != 0) && (exists i | 0 <= i < |bytes| :: bytes[i] != 0xff)
  }

  lemma DummyIff(bytes: seq<byte>)
    ensures IsDummy(bytes) <==> !IsReal(bytes)
  {
  }

  const AID_FIELDS: seq<string> := [
    "aid", "priority", "partial_selection", "interfaces", "tac_online", "tac_denial", "tac_default", "iac_online",
    "iac_denial", "iac_default", "floor_limit", "transaction_type_floor_limits", "cvm_limit_contact",
    "random_selection_percent", "lower_consecutive_offline_limit", "upper_consecutive_offline_limit",
    "contactless_transaction_limit", "contactless_cvm_limit", "cdcvm_supported", "cda_supported",
    "cda_request_encoding", "cda_authentication_data", "default_cdol1", "critical_issuer_script_ins",
    "relay_resistance"]

  lemma AidFields(o: Fields)
    ensures RejectUnknownFields(o, AID_KEYS) == if OnlyKeys(o, AID_FIELDS) then Pass else Fail(InvalidProfile)
  {
    assert AID_KEYS == AID_FIELDS;
  }

  /** The identity and the limits of an AID, each under its own key and in range. */
  predicate HoldsAidLimits(o: Fields, a: AidProfile) {
    && HoldsHex(o, "aid", a.aid) && 5 <= |a.aid| <= 16 && IsReal(a.aid)
    && HoldsNumber(o, "priority", a.priority)
    && HoldsStrings(o, "interfaces", a.interfaces) && a.interfaces != [] && NoDuplicates(a.interfaces)
    && (forall i | 0 <= i < |a.interfaces| :: IsInterface(a.interfaces[i]))
    && HoldsNumber(o, "random_selection_percent", a.randomSelectionPercent) && a.randomSelectionPercent <= 100
    && HoldsLimit(o, "lower_consecutive_offline_limit", a.lowerConsecutiveOfflineLimit)
    && HoldsLimit(o, "upper_consecutive_offline_limit", a.upperConsecutiveOfflineLimit)
    && (a.lowerConsecutiveOfflineLimit.Some? && a.upperConsecutiveOfflineLimit.Some? ==>
          a.lowerConsecutiveOfflineLimit.value <= a.upperConsecutiveOfflineLimit.value)
    && HoldsNumber(o, "contactless_transaction_limit", a.contactlessTransactionLimit)
    && HoldsNumber(o, "contactless_cvm_limit", a.contactlessCvmLimit)
    && (a.contactlessCvmLimit <= a.contactlessTransactionLimit || a.contactlessTransactionLimit == 0)
  }

  /** What else an AID carries, each under its own key. */
  ghost predicate HoldsAidDetails(o: Fields, a: AidProfile) {
    && HoldsBool(o, "partial_selection", a.partialSelection)
    && HoldsActionCodes(o, "tac_online", "tac_denial", "tac_default", a.actionCodes)
    && HoldsActionCodes(o, "iac_online", "iac_denial", "iac_default", a.issuerActionCodes)
    && HoldsNumber(o, "floor_limit", a.floorLimit)
    && HoldsFloorLimits(o, a.transactionTypeFloorLimits)
    && HoldsNumber(o, "cvm_limit_contact", a.cvmLimitContact)
    && HoldsBool(o, "cdcvm_supported", a.cdcvmSupported)
    && HoldsCdol(o, a.defaultCdol1)
    && HoldsByteList(o, "critical_issuer_script_ins", a.criticalIssuerScriptIns) && NoDuplicates(a.criticalIssuerScriptIns)
    && HoldsRelay(o, a.relayResistance)
  }

  /** The object denotes the AID. */
  ghost predicate IsAid(v: JsonValue, a: AidProfile) {
    && v.JsonObject? && OnlyKeys(v.fields, AID_FIELDS)
    && HoldsAidLimits(v.fields, a)
    && HoldsCda(v.fields, a.cdaSupported, a.cdaRequestEncoding, a.cdaAuthenticationData)
    && HoldsAidDetails(v.fields, a)
  }

  lemma AidBytesIff(o: Fields, aid: seq<byte>)
    ensures ParseAidBytes(o) == Ok(aid) <==> HoldsHex(o, "aid", aid) && 5 <= |aid| <= 16 && IsReal(aid)
  {
    hide HexField, HoldsHex, IsReal, IsDummy;
    HexIff(o, "aid", aid);
    DummyIff(aid);
  }

  lemma SelectionIff(o: Fields, l: SelectionLimits)
    ensures ParseSelectionLimits(o) == Ok(l) <==>
      && HoldsNumber(o, "random_selection_percent", l.percent) && l.percent <= 100
      && HoldsLimit(o, "lower_consecutive_offline_limit", l.lower)
      && HoldsLimit(o, "upper_consecutive_offline_limit", l.upper)
      && (l.lower.Some? && l.upper.Some? ==> l.lower.value <= l.upper.value)
  {
    hide ByteNumber, OptionalU16, HoldsNumber, HoldsLimit;
    ByteIff(o, "random_selection_percent", l.percent);
    LimitIff(o, "lower_consecutive_offline_limit", l.lower);
    LimitIff(o, "upper_consecutive_offline_limit", l.upper);
  }

  lemma ContactlessIff(o: Fields, transaction: u64, cvm: u64)
    ensures ParseContactlessLimits(o) == Ok((transaction, cvm)) <==>
      && HoldsNumber(o, "contactless_transaction_limit", transaction)
      && HoldsNumber(o, "contactless_cvm_limit", cvm)
      && (cvm <= transaction || transaction == 0)
  {
    hide RequiredU64, HoldsNumber;
    NumberIff(o, "contactless_transaction_limit", transaction);
    NumberIff(o, "contactless_cvm_limit", cvm);
  }

  lemma AidDetailsIff(
    o: Fields, aid: seq<byte>, priority: byte, interfaces: seq<string>, selection: SelectionLimits, limits: (u64, u64),
    cda: CdaPolicy, a: AidProfile)
    requires 5 <= |aid| <= 16 && !IsDummy(aid) && SoundInterfaces(interfaces) && SoundSelection(selection)
    requires (limits.0 != 0 ==> limits.1 <= limits.0) && SoundCda(cda)
    ensures ParseAidRest(o, aid, priority, interfaces, selection, limits, cda) == Ok(a) <==>
      && HoldsAidDetails(o, a)
      && a.aid == aid && a.priority == priority && a.interfaces == interfaces
      && SelectionLimits(a.randomSelectionPercent, a.lowerConsecutiveOfflineLimit, a.upperConsecutiveOfflineLimit) == selection
      && (a.contactlessTransactionLimit, a.contactlessCvmLimit) == limits
      && CdaPolicy(a.cdaSupported, a.cdaRequestEncoding, a.cdaAuthenticationData) == cda
  {
    hide RequiredBool, RequiredU64, ParseActionCodes, ParseFloorLimits, ParseDefaultCdol1, OptionalHexByteArray,
      ParseRelayResistance, HoldsBool, HoldsNumber, HoldsActionCodes, HoldsFloorLimits, HoldsCdol, HoldsByteList,
      HoldsRelay, NoDuplicates, IsDummy, SoundInterfaces, SoundSelection, SoundCda;
    BoolIff(o, "partial_selection", a.partialSelection);
    ActionCodesIff(o, "tac_online", "tac_denial", "tac_default", a.actionCodes);
    ActionCodesIff(o, "iac_online", "iac_denial", "iac_default", a.issuerActionCodes);
    NumberIff(o, "floor_limit", a.floorLimit);
    FloorLimitsIff(o, a.transactionTypeFloorLimits);
    NumberIff(o, "cvm_limit_contact", a.cvmLimitContact);
    BoolIff(o, "cdcvm_supported", a.cdcvmSupported);
    CdolIff(o, a.defaultCdol1);
    ByteListIff(o, "critical_issuer_script_ins", a.criticalIssuerScriptIns);
    RelayIff(o, a.relayResistance);
  }

  /** An AID is read from exactly the objects that denote it. */
  lemma AidIff(v: JsonValue, a: AidProfile)
    ensures ParseAid(v) == Ok(a) <==> IsAid(v, a)
  {
    hide RejectUnknownFields, OnlyKeys, ParseAidBytes, ByteNumber, ParseInterfaces, ParseSelectionLimits,
      ParseContactlessLimits, ParseCda, ParseAidRest, HoldsHex, HoldsNumber, HoldsStrings, HoldsLimit, HoldsCda,
      HoldsAidDetails, IsInterface, NoDuplicates, IsReal, IsDummy, SoundInterfaces, SoundSelection, SoundCda, SoundAid;
    if v.JsonObject? {
      var o := v.fields;
      var selection := SelectionLimits(
        a.randomSelectionPercent, a.lowerConsecutiveOfflineLimit, a.upperConsecutiveOfflineLimit);
      var limits := (a.contactlessTransactionLimit, a.contactlessCvmLimit);
      var cda := CdaPolicy(a.cdaSupported, a.cdaRequestEncoding, a.cdaAuthenticationData);
      AidFields(o);
      AidBytesIff(o, a.aid);
      ByteIff(o, "priority", a.priority);
      InterfacesIff(o, a.interfaces);
      SelectionIff(o, selection);
      ContactlessIff(o, limits.0, limits.1);
      CdaIff(o, cda);
      if ParseAidBytes(o).Ok? && ByteNumber(o, "priority").Ok? && ParseInterfaces(o).Ok? && ParseSelectionLimits(o).Ok?
         && ParseContactlessLimits(o).Ok? && ParseCda(o).Ok? {
        AidTail(o, a);
      }
    }
  }

  /** The last step of `parse_aid`, on whatever the steps before it returned. */
  lemma AidTail(o: Fields, a: AidProfile)
    requires
      && ParseAidBytes(o).Ok? && ByteNumber(o, "priority").Ok? && ParseInterfaces(o).Ok? && ParseSelectionLimits(o).Ok?
      && ParseContactlessLimits(o).Ok? && ParseCda(o).Ok?
    ensures
      ParseAidRest(o, ParseAidBytes(o).value, ByteNumber(o, "priority").value, ParseInterfaces(o).value,
        ParseSelectionLimits(o).value, ParseContactlessLimits(o).value, ParseCda(o).value) == Ok(a) <==>
      && HoldsAidDetails(o, a)
      && ParseAidBytes(o) == Ok(a.aid) && ByteNumber(o, "priority") == Ok(a.priority)
      && ParseInterfaces(o) == Ok(a.interfaces)
      && ParseSelectionLimits(o)
         == Ok(SelectionLimits(a.randomSelectionPercent, a.lowerConsecutiveOfflineLimit, a.upperConsecutiveOfflineLimit))
      && ParseContactlessLimits(o) == Ok((a.contactlessTransactionLimit, a.contactlessCvmLimit))
      && ParseCda(o) == Ok(CdaPolicy(a.cdaSupported, a.cdaRequestEncoding, a.cdaAuthenticationData))
  {
    hide ParseAidBytes, ByteNumber, ParseInterfaces, ParseSelectionLimits, ParseContactlessLimits, ParseCda, ParseAidRest,
      HoldsAidDetails, IsDummy, SoundInterfaces, SoundSelection, SoundCda;
    AidDetailsIff(o, ParseAidBytes(o).value, ByteNumber(o, "priority").value, ParseInterfaces(o).value,
      ParseSelectionLimits(o).value, ParseContactlessLimits(o).value, ParseCda(o).value, a);
  }
}
