/**
 Admission of a scheme profile set (src/config.rs): every reader and check of `load_profile_set`, and the global
 invariants that the local duplicate checks add up to.
 */
module Profile {
  import opened Kernel
  import opened Text
  import opened Hex
  import opened Dates
  import opened JsonSyntax
  import opened JsonFields
  import JsonReader
  import opened Sha1Spec
  import Apdu

  const MAX_CAPK_RSA_MODULUS_BYTES: nat := 256
  const MAX_CAPK_RSA_EXPONENT_BYTES: nat := 3
  const MAX_TRANSACTION_TYPE_FLOOR_LIMITS: nat := 16
  const MAX_DOL_ENTRIES: nat := 128
  const CAPK_CHECKSUM_ALGORITHM := "sha1(rid || key_index || modulus || exponent)"
  const CAPK_CHECKSUM_SCOPE: seq<string> := ["rid", "key_index", "modulus_hex", "exponent_hex"]
  const PROFILE_STATUS_FIXTURE_PENDING := "certification_format_fixture_pending_lab_signature"
  const PROFILE_STATUS_LAB_SIGNED := "lab_signed_certification_profile"
  const CAPK_STATUS_FIXTURE_PENDING := "deterministic_public_fixture_values_must_be_replaced_by_lab_signed_capks"
  const CAPK_STATUS_LAB_SIGNED := "lab_signed_capks"

  datatype BuildMode = Test | CertificationMode | Production

  datatype SignatureStatus = NotPresent | Invalid | Verified

  datatype ProfileClass = CertificationClass | ExampleOnly

  datatype ConfigLoadPolicy = ConfigLoadPolicy(
    mode: BuildMode, signatureStatus: SignatureStatus, installedVersion: u64, candidateVersion: u64,
    evaluationDate: EmvDate)

  datatype ProfileSource =
    ProfileSource(owner: string, document: string, version: string, retrieved: Option<EmvDate>, verification: string)

  datatype TerminalAction = Aac | Tc | Arqc

  datatype ActionCodes = ActionCodes(online: seq<byte>, denial: seq<byte>, default: seq<byte>)

  datatype FloorLimit = FloorLimit(transactionType: byte, limit: u64)

  datatype CdaRequestEncoding = InCdolData | P1LowBits(bits: byte)

  datatype CdaAuthenticationData = ApplicationCryptogram | ApplicationCryptogramAndIccDynamicNumber

  datatype AidProfile = AidProfile(
    aid: seq<byte>, priority: byte, partialSelection: bool, interfaces: seq<string>,
    actionCodes: ActionCodes, issuerActionCodes: ActionCodes,
    floorLimit: u64, transactionTypeFloorLimits: seq<FloorLimit>, cvmLimitContact: u64, randomSelectionPercent: byte,
    lowerConsecutiveOfflineLimit: Option<nat>, upperConsecutiveOfflineLimit: Option<nat>,
    contactlessTransactionLimit: u64, contactlessCvmLimit: u64, cdcvmSupported: bool,
    cdaSupported: bool, cdaRequestEncoding: Option<CdaRequestEncoding>, cdaAuthenticationData: CdaAuthenticationData,
    defaultCdol1: Option<seq<byte>>, criticalIssuerScriptIns: seq<byte>,
    relayResistance: Option<Apdu.RelayResistanceProfile>)

  datatype Capk = Capk(
    rid: seq<byte>, keyIndex: byte, modulus: seq<byte>, exponent: seq<byte>, expiry: EmvDate, checksum: seq<byte>,
    source: ProfileSource)

  datatype SchemeProfile = SchemeProfile(
    schemeName: string, rid: seq<byte>, kernelType: string, contactKernelType: Option<string>,
    taa: (TerminalAction, TerminalAction, TerminalAction), aids: seq<AidProfile>, capks: seq<Capk>)

  datatype ProfileSet =
    ProfileSet(version: u64, profileClass: ProfileClass, profileSource: ProfileSource, schemes: seq<SchemeProfile>)

  // ---------------------------------------------------------------- value checks

  /** `reject_placeholder`. */
  function RejectPlaceholder(value: string): Outcome {
    RejectWords(value, ["...", "PLACEHOLDER", "EXAMPLE_NOT", "DUMMY", "TEST_ONLY"])
  }

  predicate IsDummy(bytes: seq<byte>) {
    (forall i | 0 <= i < |bytes| :: bytes[i] == 0) || (forall i | 0 <= i < |bytes| :: bytes[i] == 0xff)
  }

  /** `parse_hex_field`. */
  function HexField(o: Fields, key: string): Result<seq<byte>> {
    var value :- RequiredString(o, key);
    :- RejectPlaceholder(value);
    DecodeHex(value)
  }

  /** `fixed_vec` after `parse_hex_field`. */
  function FixedHexField(o: Fields, key: string, n: nat): Result<seq<byte>> {
    var bytes :- HexField(o, key);
    :- Check(|bytes| == n, InvalidProfile);
    Ok(bytes)
  }

  function OptionalU16(o: Fields, key: string): Result<Option<nat>> {
    if key !in o then Ok(None)
    else
      var n :- AsU64(o[key]);
      :- Check(n <= 0xffff, InvalidProfile);
      Ok(Some(n))
  }

  function ByteNumber(o: Fields, key: string): Result<byte> {
    var n :- RequiredU64(o, key);
    if n <= 0xff then Ok(n) else Err(InvalidProfile)
  }

  function StringsOf(values: seq<JsonValue>): Result<seq<string>> {
    MapResult(AsString, values)
  }

  /** One element of `required_string_set`: trimmed, not blank, no placeholder. */
  function SetElement(v: JsonValue): Result<string> {
    var value :- AsString(v);
    :- RejectPlaceholder(value);
    :- Check(!IsBlank(value), InvalidProfile);
    Ok(Trim(value))
  }

  /** `required_string_set`. */
  function RequiredStringSet(o: Fields, key: string, mustBeNonEmpty: bool): (r: Result<seq<string>>)
    ensures r.Ok? ==> NoDuplicates(r.value)
  {
    var items :- RequiredArray(o, key);
    var values :- MapResult(SetElement, items);
    :- Check(!(mustBeNonEmpty && values == []), InvalidProfile);
    :- Check(NoDuplicates(values), InvalidProfile);
    Ok(values)
  }

  function AllowedString(o: Fields, key: string, allowed: seq<string>): Result<string> {
    var value :- RequiredString(o, key);
    :- Check(value in allowed, InvalidProfile);
    Ok(value)
  }

  // ---------------------------------------------------------------- profile-level fields

  function ValidateSchemaVersion(o: Fields, mode: BuildMode): Result<()> {
    if "schema_version" !in o then if mode == Test then Ok(()) else Err(InvalidProfile)
    else
      var value :- AsString(o["schema_version"]);
      :- Check(value == "1.0", InvalidProfile);
      Ok(())
  }

  function ParseProfileClass(o: Fields, mode: BuildMode): (r: Result<ProfileClass>)
    ensures r == Ok(ExampleOnly) ==> mode == Test
  {
    if "profile_class" !in o then if mode == Test then Ok(ExampleOnly) else Err(InvalidProfile)
    else
      var value :- AsString(o["profile_class"]);
      if value == "CERTIFICATION" then Ok(CertificationClass)
      else if value == "EXAMPLE_ONLY" && mode == Test then Ok(ExampleOnly)
      else Err(InvalidProfile)
  }

  function OptionalRetrievedDate(o: Fields): Result<Option<EmvDate>> {
    if "retrieved" !in o then Ok(None)
    else
      var value :- AsString(o["retrieved"]);
      :- RejectPlaceholder(value);
      :- Check(!IsBlank(value), InvalidProfile);
      var date :- ParseIsoDate(value);
      Ok(Some(date))
  }

  /** `reject_untrimmed_or_blank`. */
  function RejectUntrimmedOrBlank(value: string): Outcome {
    var trimmed := Trim(value);
    Check(trimmed != "" && |trimmed| == |value|, InvalidProfile)
  }

  function ParseSourceObject(o: Fields, class_: ProfileClass, today: EmvDate): Result<ProfileSource> {
    var known := RejectUnknownFields(o, ["owner", "document", "version", "retrieved", "verification"]);
    :- known;
    var owner :- RequiredString(o, "owner");
    var document :- RequiredString(o, "document");
    var version :- RequiredString(o, "version");
    var retrieved :- OptionalRetrievedDate(o);
    var verification :- RequiredString(o, "verification");
    var source := ProfileSource(owner, document, version, retrieved, verification);
    if class_ == ExampleOnly then Ok(source)
    else
      :- RejectPlaceholder(owner);
      :- RejectPlaceholder(document);
      :- RejectPlaceholder(version);
      :- RejectPlaceholder(verification);
      :- RejectUntrimmedOrBlank(owner);
      :- RejectUntrimmedOrBlank(document);
      :- RejectUntrimmedOrBlank(version);
      :- Check(retrieved.Some? && !today.Before(retrieved.value), InvalidProfile);
      :- Check(verification == "external_signature_required", InvalidProfile);
      Ok(source)
  }

  function TestOnlySource(owner: string): ProfileSource {
    ProfileSource(owner, "inline_test_fixture", "0", None, "test_only")
  }

  /** A source object, or the built-in one that only test mode may fall back to. */
  function SourceOrDefault(o: Fields, key: string, owner: string, class_: ProfileClass, mode: BuildMode, today: EmvDate)
    : Result<ProfileSource>
  {
    if key in o then
      var source :- AsObject(o[key]);
      ParseSourceObject(source, class_, today)
    else if mode == Test && class_ == ExampleOnly then Ok(TestOnlySource(owner))
    else Err(InvalidProfile)
  }

  /** The declared bundled schemes of a scope object that applies. */
  function ParseScopeNames(scope: Fields, mode: BuildMode): (r: Result<seq<string>>)
    ensures r.Ok? ==> NoDuplicates(r.value)
  {
    var bundled :- RequiredStringSet(scope, "bundled_scheme_profiles", true);
    var lab :- RequiredStringSet(scope, "lab_supplied_scheme_profiles_required", false);
    :- Check(forall i | 0 <= i < |bundled| :: bundled[i] !in lab, InvalidProfile);
    var contactless :- RequiredString(scope, "contactless_kernel_profile");
    :- RejectPlaceholder(contactless);
    :- Check(!IsBlank(contactless), InvalidProfile);
    var material :- AllowedString(scope, "profile_material_status",
      [PROFILE_STATUS_FIXTURE_PENDING, PROFILE_STATUS_LAB_SIGNED]);
    var capkMaterial :- AllowedString(scope, "capk_material_status",
      [CAPK_STATUS_FIXTURE_PENDING, CAPK_STATUS_LAB_SIGNED]);
    :- Check(mode != Production || (material == PROFILE_STATUS_LAB_SIGNED && capkMaterial == CAPK_STATUS_LAB_SIGNED),
      InvalidProfile);
    var required :- RequiredBool(scope, "production_profile_bundle_required");
    :- Check(required, InvalidProfile);
    Ok(bundled)
  }

  /** `parse_certification_scope`: the declared bundled schemes, when a scope applies. */
  function ParseCertificationScope(o: Fields, class_: ProfileClass, mode: BuildMode): Result<Option<seq<string>>> {
    if "certification_scope" !in o then if class_ == CertificationClass then Err(InvalidProfile) else Ok(None)
    else
      var scope :- AsObject(o["certification_scope"]);
      :- RejectUnknownFields(scope, [
        "bundled_scheme_profiles", "lab_supplied_scheme_profiles_required", "contactless_kernel_profile",
        "profile_material_status", "capk_material_status", "production_profile_bundle_required"]);
      if class_ == ExampleOnly then Ok(None)
      else
        var bundled :- ParseScopeNames(scope, mode);
        Ok(Some(bundled))
  }

  /** A scope applies exactly to certification profiles, and declares distinct names. */
  lemma ScopeDeclaresDistinctNames(o: Fields, class_: ProfileClass, mode: BuildMode)
    requires ParseCertificationScope(o, class_, mode).Ok?
    ensures
      var scope := ParseCertificationScope(o, class_, mode).value;
      && (scope.Some? <==> class_ == CertificationClass)
      && (scope.Some? ==> NoDuplicates(scope.value))
  {
    hide RejectUnknownFields, ParseScopeNames;
  }

  // ---------------------------------------------------------------- AIDs

  /** `parse_dol` (src/dol.rs), of which only acceptance matters here. */
  function CheckDol(input: seq<byte>, entries: nat): Outcome {
    if input == [] then Pass
    else if entries >= MAX_DOL_ENTRIES then Fail(LengthOverflow)
    else if input[0] == 0x00 || input[0] == 0xff then Fail(ParseError)
    else
      var tagEnd := if input[0] % 0x20 == 0x1f then HighTagEnd(input, 1) else Ok(1);
      if tagEnd.Err? || tagEnd.value >= |input| then Fail(ParseError)
      else CheckDol(input[tagEnd.value + 1..], entries + 1)
  }

  /** The end of a tag's continuation bytes: at most three, the first with a non-zero number. */
  function HighTagEnd(input: seq<byte>, offset: nat): (r: Result<nat>)
    requires 1 <= offset
    ensures r.Ok? ==> r.value <= |input|
    decreases |input| - offset
  {
    if offset >= |input| then Err(ParseError)
    else if (offset == 1 && input[offset] % 0x80 == 0) || offset > 3 then Err(ParseError)
    else if input[offset] < 0x80 then Ok(offset + 1)
    else HighTagEnd(input, offset + 1)
  }

  function ParseDefaultCdol1(o: Fields): Result<Option<seq<byte>>> {
    if "default_cdol1" !in o then Ok(None)
    else
      var text :- AsString(o["default_cdol1"]);
      :- RejectPlaceholder(text);
      var bytes :- DecodeHex(text);
      :- CheckDol(bytes, 0);
      Ok(Some(bytes))
  }

  function ParseFloorLimit(v: JsonValue): Result<FloorLimit> {
    var entry :- AsObject(v);
    :- RejectUnknownFields(entry, ["transaction_type", "floor_limit"]);
    var transactionType :- FixedHexField(entry, "transaction_type", 1);
    var limit :- RequiredU64(entry, "floor_limit");
    Ok(FloorLimit(transactionType[0], limit))
  }

  /** At most sixteen limits, no transaction type twice. */
  predicate SoundFloorLimits(limits: seq<FloorLimit>) {
    && |limits| <= MAX_TRANSACTION_TYPE_FLOOR_LIMITS
    && forall i, j | 0 <= i < j < |limits| :: limits[i].transactionType != limits[j].transactionType
  }

  /** `parse_transaction_type_floor_limits`, with the check of `TrmProfile` (src/trm.rs). */
  function ParseFloorLimits(o: Fields): (r: Result<seq<FloorLimit>>)
    ensures r.Ok? ==> SoundFloorLimits(r.value)
  {
    if "transaction_type_floor_limits" !in o then Ok([])
    else
      var items :- AsArray(o["transaction_type_floor_limits"]);
      var limits :- MapResult(ParseFloorLimit, items);
      :- Check(|limits| <= MAX_TRANSACTION_TYPE_FLOOR_LIMITS, InvalidProfile);
      :- Check(forall i, j | 0 <= i < j < |limits| :: limits[i].transactionType != limits[j].transactionType,
        InvalidProfile);
      Ok(limits)
  }

  function ParseFailureOutcome(input: string): Result<Apdu.RelayResistanceFailureOutcome> {
    if input == "try_again" then Ok(Apdu.TryAgain)
    else if input == "alternate_interface" then Ok(Apdu.AlternateInterface)
    else if input == "terminate" then Ok(Apdu.Terminate)
    else Err(InvalidProfile)
  }

  /** The relay command is one the short-command decoder accepts. */
  predicate SoundRelay(relay: Option<Apdu.RelayResistanceProfile>) {
    relay.Some? ==> Apdu.ShortForm(relay.value.commandApdu).Accepted? && 1 <= relay.value.maxRoundTripMs <= 0xffff
  }

  function ParseRelayResistance(o: Fields): (r: Result<Option<Apdu.RelayResistanceProfile>>)
    ensures r.Ok? ==> SoundRelay(r.value)
  {
    if "relay_resistance" !in o then Ok(None)
    else
      var relay :- AsObject(o["relay_resistance"]);
      :- RejectUnknownFields(relay,
        ["required", "command_apdu_hex", "max_round_trip_ms", "success_response_hex", "failure_outcome"]);
      var required :- RequiredBool(relay, "required");
      if !required then Ok(None)
      else
        var ms :- RequiredU64(relay, "max_round_trip_ms");
        :- Check(ms <= 0xffff, InvalidProfile);
        var command :- HexField(relay, "command_apdu_hex");
        var response :- HexField(relay, "success_response_hex");
        var outcomeText :- RequiredString(relay, "failure_outcome");
        var outcome :- ParseFailureOutcome(outcomeText);
        var profile :- Apdu.NewRelayProfile(command, ms, response, outcome);
        Ok(Some(profile))
  }

  function ParseCdaRequestEncoding(input: string): Result<CdaRequestEncoding> {
    var prefix := "P1_low_bits_0x";
    if input == "CDOL1_bit" then Ok(InCdolData)
    else if !(prefix <= input) then Err(InvalidProfile)
    else
      var hex := input[|prefix|..];
      :- Check(|Utf8(hex)| == 2, InvalidProfile);
      var bytes :- DecodeHex(hex);
      :- Check(bytes[0] != 0 && bytes[0] < 0x40, InvalidProfile);
      Ok(P1LowBits(bytes[0]))
  }

  function ParseCdaAuthenticationData(input: string): Result<CdaAuthenticationData> {
    if input == "application_cryptogram" then Ok(ApplicationCryptogram)
    else if input == "application_cryptogram_9f4c" then Ok(ApplicationCryptogramAndIccDynamicNumber)
    else Err(InvalidProfile)
  }

  /** A present field that is not a string reads as absent (`as_string_opt`). */
  function OptionalCdaRequestEncoding(o: Fields): Result<Option<CdaRequestEncoding>> {
    if "cda_request_encoding" in o && o["cda_request_encoding"].JsonString? then
      var encoding :- ParseCdaRequestEncoding(o["cda_request_encoding"].text);
      Ok(Some(encoding))
    else Ok(None)
  }

  function CdaAuthenticationDataOrDefault(o: Fields): Result<CdaAuthenticationData> {
    if "cda_authentication_data" in o && o["cda_authentication_data"].JsonString?
    then ParseCdaAuthenticationData(o["cda_authentication_data"].text)
    else Ok(ApplicationCryptogram)
  }

  predicate SoundInterfaces(interfaces: seq<string>) {
    && interfaces != [] && NoDuplicates(interfaces)
    && forall i | 0 <= i < |interfaces| :: interfaces[i] in ["contact", "contactless"]
  }

  function ParseInterfaces(o: Fields): (r: Result<seq<string>>)
    ensures r.Ok? ==> SoundInterfaces(r.value)
  {
    var items :- RequiredArray(o, "interfaces");
    var interfaces :- StringsOf(items);
    :- Check(interfaces != [] && (forall i | 0 <= i < |interfaces| :: interfaces[i] in ["contact", "contactless"]),
      InvalidProfile);
    :- Check(NoDuplicates(interfaces), InvalidProfile);
    Ok(interfaces)
  }

  function SingleHexByte(v: JsonValue): Result<byte> {
    var text :- AsString(v);
    var bytes :- DecodeHex(text);
    if |bytes| == 1 then Ok(bytes[0]) else Err(InvalidProfile)
  }

  function OptionalHexByteArray(o: Fields, key: string): (r: Result<seq<byte>>)
    ensures r.Ok? ==> NoDuplicates(r.value)
  {
    if key !in o then Ok([])
    else
      var items :- AsArray(o[key]);
      var bytes :- MapResult(SingleHexByte, items);
      :- Check(NoDuplicates(bytes), InvalidProfile);
      Ok(bytes)
  }

  predicate SoundActionCodes(codes: ActionCodes) {
    |codes.online| == 5 && |codes.denial| == 5 && |codes.default| == 5
  }

  function ParseActionCodes(o: Fields, online: string, denial: string, default: string): (r: Result<ActionCodes>)
    ensures r.Ok? ==> SoundActionCodes(r.value)
  {
    var onlineCode :- FixedHexField(o, online, 5);
    var denialCode :- FixedHexField(o, denial, 5);
    var defaultCode :- FixedHexField(o, default, 5);
    Ok(ActionCodes(onlineCode, denialCode, defaultCode))
  }

  function ParseAidBytes(o: Fields): (r: Result<seq<byte>>)
    ensures r.Ok? ==> 5 <= |r.value| <= 16 && !IsDummy(r.value)
  {
    var aid :- HexField(o, "aid");
    :- Check(5 <= |aid| <= 16, InvalidProfile);
    :- Check(!IsDummy(aid), InvalidProfile);
    Ok(aid)
  }

  /** What admission guarantees of one AID by itself. */
  predicate SoundAid(a: AidProfile) {
    && 5 <= |a.aid| <= 16 && !IsDummy(a.aid)
    && SoundInterfaces(a.interfaces)
    && a.randomSelectionPercent <= 100
    && (a.lowerConsecutiveOfflineLimit.Some? && a.upperConsecutiveOfflineLimit.Some? ==>
          a.lowerConsecutiveOfflineLimit.value <= a.upperConsecutiveOfflineLimit.value)
    && (a.contactlessTransactionLimit != 0 ==> a.contactlessCvmLimit <= a.contactlessTransactionLimit)
    && a.cdaSupported == a.cdaRequestEncoding.Some?
    && (a.cdaSupported || a.cdaAuthenticationData == ApplicationCryptogram)
    && SoundActionCodes(a.actionCodes) && SoundActionCodes(a.issuerActionCodes)
    && SoundFloorLimits(a.transactionTypeFloorLimits)
    && NoDuplicates(a.criticalIssuerScriptIns)
    && SoundRelay(a.relayResistance)
  }

  const AID_KEYS: seq<string> := [
    "aid", "priority", "partial_selection", "interfaces", "tac_online", "tac_denial", "tac_default", "iac_online",
    "iac_denial", "iac_default", "floor_limit", "transaction_type_floor_limits", "cvm_limit_contact",
    "random_selection_percent", "lower_consecutive_offline_limit", "upper_consecutive_offline_limit",
    "contactless_transaction_limit", "contactless_cvm_limit", "cdcvm_supported", "cda_supported",
    "cda_request_encoding", "cda_authentication_data", "default_cdol1", "critical_issuer_script_ins",
    "relay_resistance"]

  /** The offline counters of an AID and its random selection. */
  datatype SelectionLimits = SelectionLimits(percent: byte, lower: Option<nat>, upper: Option<nat>)

  predicate SoundSelection(l: SelectionLimits) {
    && l.percent <= 100
    && (l.lower.Some? && l.upper.Some? ==> l.lower.value <= l.upper.value)
  }

  function ParseSelectionLimits(o: Fields): (r: Result<SelectionLimits>)
    ensures r.Ok? ==> SoundSelection(r.value)
  {
    hide ByteNumber, OptionalU16;
    var percent :- ByteNumber(o, "random_selection_percent");
    :- Check(percent <= 100, InvalidProfile);
    var lower :- OptionalU16(o, "lower_consecutive_offline_limit");
    var upper :- OptionalU16(o, "upper_consecutive_offline_limit");
    :- Check(!(lower.Some? && upper.Some? && lower.value > upper.value), InvalidProfile);
    Ok(SelectionLimits(percent, lower, upper))
  }

  /** The contactless limits, transaction and CVM. */
  function ParseContactlessLimits(o: Fields): (r: Result<(u64, u64)>)
    ensures r.Ok? ==> r.value.0 != 0 ==> r.value.1 <= r.value.0
  {
    hide RequiredU64;
    var transactionLimit :- RequiredU64(o, "contactless_transaction_limit");
    var cvmLimit :- RequiredU64(o, "contactless_cvm_limit");
    :- Check(!(transactionLimit != 0 && cvmLimit > transactionLimit), InvalidProfile);
    Ok((transactionLimit, cvmLimit))
  }

  datatype CdaPolicy =
    CdaPolicy(supported: bool, encoding: Option<CdaRequestEncoding>, authentication: CdaAuthenticationData)

  predicate SoundCda(p: CdaPolicy) {
    p.supported == p.encoding.Some? && (p.supported || p.authentication == ApplicationCryptogram)
  }

  function ParseCda(o: Fields): (r: Result<CdaPolicy>)
    ensures r.Ok? ==> SoundCda(r.value)
  {
    hide RequiredBool, OptionalCdaRequestEncoding, CdaAuthenticationDataOrDefault;
    var supported :- RequiredBool(o, "cda_supported");
    var encoding :- OptionalCdaRequestEncoding(o);
    var authentication :- CdaAuthenticationDataOrDefault(o);
    :- Check(supported == encoding.Some?, InvalidProfile);
    :- Check(supported || authentication == ApplicationCryptogram, InvalidProfile);
    Ok(CdaPolicy(supported, encoding, authentication))
  }

  /** `parse_aid` after the checks that come before it builds its result. */
  function ParseAidRest(
    o: Fields, aid: seq<byte>, priority: byte, interfaces: seq<string>, selection: SelectionLimits, limits: (u64, u64),
    cda: CdaPolicy): (r: Result<AidProfile>)
    requires 5 <= |aid| <= 16 && !IsDummy(aid) && SoundInterfaces(interfaces) && SoundSelection(selection)
    requires (limits.0 != 0 ==> limits.1 <= limits.0) && SoundCda(cda)
    ensures r.Ok? ==> SoundAid(r.value) && r.value.aid == aid
  {
    hide ParseActionCodes, ParseFloorLimits, ParseDefaultCdol1, OptionalHexByteArray, ParseRelayResistance, RequiredBool,
      RequiredU64, IsDummy, SoundInterfaces, SoundActionCodes, SoundFloorLimits, SoundRelay, NoDuplicates;
    var partial :- RequiredBool(o, "partial_selection");
    var tac :- ParseActionCodes(o, "tac_online", "tac_denial", "tac_default");
    var iac :- ParseActionCodes(o, "iac_online", "iac_denial", "iac_default");
    var floorLimit :- RequiredU64(o, "floor_limit");
    var floorLimits :- ParseFloorLimits(o);
    var cvmContact :- RequiredU64(o, "cvm_limit_contact");
    var cdcvm :- RequiredBool(o, "cdcvm_supported");
    var cdol1 :- ParseDefaultCdol1(o);
    var scripts :- OptionalHexByteArray(o, "critical_issuer_script_ins");
    var relay :- ParseRelayResistance(o);
    Ok(AidProfile(aid, priority, partial, interfaces, tac, iac, floorLimit, floorLimits, cvmContact,
      selection.percent, selection.lower, selection.upper, limits.0, limits.1, cdcvm,
      cda.supported, cda.encoding, cda.authentication, cdol1, scripts, relay))
  }

  /** `parse_aid`. */
  function ParseAid(v: JsonValue): (r: Result<AidProfile>)
    ensures r.Ok? ==> SoundAid(r.value)
  {
    hide ParseAidBytes, ParseInterfaces, ByteNumber, ParseSelectionLimits, ParseContactlessLimits, ParseCda, ParseAidRest,
      RejectUnknownFields, SoundAid, IsDummy, SoundInterfaces, SoundSelection, SoundCda;
    var o :- AsObject(v);
    :- RejectUnknownFields(o, AID_KEYS);
    var aid :- ParseAidBytes(o);
    var priority :- ByteNumber(o, "priority");
    var interfaces :- ParseInterfaces(o);
    var selection :- ParseSelectionLimits(o);
    var limits :- ParseContactlessLimits(o);
    var cda :- ParseCda(o);
    ParseAidRest(o, aid, priority, interfaces, selection, limits, cda)
  }

  // ---------------------------------------------------------------- CAPKs

  function ExponentValue(exponent: seq<byte>): nat {
    if exponent == [] then 0 else ExponentValue(exponent[..|exponent| - 1]) * 256 + exponent[|exponent| - 1]
  }

  /** `validate_capk_public_key_components`. */
  predicate ValidKeyComponents(modulus: seq<byte>, exponent: seq<byte>) {
    && 64 <= |modulus| <= MAX_CAPK_RSA_MODULUS_BYTES && modulus[0] != 0 && !IsDummy(modulus)
    && 1 <= |exponent| <= MAX_CAPK_RSA_EXPONENT_BYTES && exponent[0] != 0 && !IsDummy(exponent)
    && ExponentValue(exponent) >= 3 && ExponentValue(exponent) % 2 == 1
  }

  function ValidateChecksumMetadata(o: Fields): Result<()> {
    var algorithm :- RequiredString(o, "checksum_algorithm");
    :- Check(algorithm == CAPK_CHECKSUM_ALGORITHM, InvalidProfile);
    var scope :- RequiredArray(o, "checksum_scope");
    :- Check(|scope| == |CAPK_CHECKSUM_SCOPE|, InvalidProfile);
    MatchInOrder(scope, CAPK_CHECKSUM_SCOPE)
  }

  function MatchInOrder(actual: seq<JsonValue>, expected: seq<string>): Result<()>
    requires |actual| == |expected|
  {
    if actual == [] then Ok(())
    else
      var text :- AsString(actual[0]);
      :- Check(text == expected[0], InvalidProfile);
      MatchInOrder(actual[1..], expected[1..])
  }

  /** The message whose SHA-1 the checksum field must be. */
  function ChecksumMessage(rid: seq<byte>, keyIndex: byte, modulus: seq<byte>, exponent: seq<byte>): seq<byte> {
    rid + [keyIndex] + modulus + exponent
  }

  /** What admission guarantees of one CAPK of a scheme. */
  predicate SoundCapk(k: Capk, rid: seq<byte>, today: EmvDate, class_: ProfileClass) {
    && k.rid == rid
    && ValidKeyComponents(k.modulus, k.exponent)
    && !k.expiry.Before(today)
    && (class_ == CertificationClass ==>
          k.checksum == Digest(ChecksumMessage(k.rid, k.keyIndex, k.modulus, k.exponent)))
  }

  /** `parse_capk`. */
  function ParseCapk(v: JsonValue, rid: seq<byte>, today: EmvDate, class_: ProfileClass, mode: BuildMode)
    : (r: Result<Capk>)
    ensures r.Ok? ==> SoundCapk(r.value, rid, today, class_)
  {
    var o :- AsObject(v);
    :- RejectUnknownFields(o, ["key_index", "modulus_hex", "exponent_hex", "expiry", "checksum_hex",
      "checksum_algorithm", "checksum_scope", "source"]);
    var keyIndex :- ByteNumber(o, "key_index");
    var modulus :- HexField(o, "modulus_hex");
    var exponent :- HexField(o, "exponent_hex");
    var checksum :- HexField(o, "checksum_hex");
    :- Check(|checksum| >= 16, InvalidProfile);
    :- Check(ValidKeyComponents(modulus, exponent), InvalidProfile);
    :- Check(!IsDummy(checksum), InvalidProfile);
    var metadata :- if class_ == CertificationClass then ValidateChecksumMetadata(o) else Ok(());
    :- Check(class_ == CertificationClass ==>
        checksum == Digest(ChecksumMessage(rid, keyIndex, modulus, exponent)), InvalidProfile);
    var expiryText :- RequiredString(o, "expiry");
    var expiry :- ParseIsoDate(expiryText);
    :- Check(!expiry.Before(today), InvalidProfile);
    var source :- SourceOrDefault(o, "source", "unspecified_test_capk", class_, mode, today);
    Ok(Capk(rid, keyIndex, modulus, exponent, expiry, checksum, source))
  }

  // ---------------------------------------------------------------- schemes

  function ParseAction(input: string): Result<TerminalAction> {
    if input == "AAC" then Ok(Aac) else if input == "TC" then Ok(Tc) else if input == "ARQC" then Ok(Arqc)
    else Err(InvalidProfile)
  }

  /** The three default actions, with the check of `TaaProfile::new` (src/taa.rs). */
  function ParseTaa(o: Fields): Result<(TerminalAction, TerminalAction, TerminalAction)> {
    var fallbackText :- RequiredString(o, "taa_fallback_when_offline_unable_online");
    var onlineText :- RequiredString(o, "taa_no_match_default_when_online_capable");
    var offlineText :- RequiredString(o, "taa_no_match_default_when_offline_only");
    var fallback :- ParseAction(fallbackText);
    var online :- ParseAction(onlineText);
    var offline :- ParseAction(offlineText);
    :- Check(fallback != Arqc && online != Aac && offline != Arqc, InvalidProfile);
    Ok((fallback, online, offline))
  }

  function ParseContactKernelType(o: Fields): Result<Option<string>> {
    if "contact_kernel_type" !in o then Ok(None)
    else
      var value :- AsString(o["contact_kernel_type"]);
      :- RejectPlaceholder(value);
      :- Check(!IsBlank(value) && value != "c8_contactless", InvalidProfile);
      Ok(Some(value))
  }

  predicate ServesInterface(aids: seq<AidProfile>, name: string) {
    exists i | 0 <= i < |aids| :: name in aids[i].interfaces
  }

  /** `validate_scheme_interface_kernel_mapping`. */
  function ValidateKernelMapping(
    kernelType: string, contact: Option<string>, aids: seq<AidProfile>, class_: ProfileClass, mode: BuildMode): Outcome
  {
    if mode == Test && class_ == ExampleOnly then Pass
    else if RejectPlaceholder(kernelType).Fail? then RejectPlaceholder(kernelType)
    else Check(
      && !IsBlank(kernelType)
      && (ServesInterface(aids, "contactless") ==> kernelType == "c8_contactless")
      && (ServesInterface(aids, "contact") ==> contact.Some?),
      InvalidProfile)
  }

  /** `starts_with`. */
  predicate HasPrefix(aid: seq<byte>, rid: seq<byte>) {
    rid <= aid
  }

  predicate DistinctAids(aids: seq<AidProfile>) {
    forall i, j | 0 <= i < j < |aids| :: aids[i].aid != aids[j].aid
  }

  predicate DistinctCapks(capks: seq<Capk>) {
    forall i, j | 0 <= i < j < |capks| :: !(capks[i].rid == capks[j].rid && capks[i].keyIndex == capks[j].keyIndex)
  }

  /** What admission guarantees of one scheme by itself. */
  predicate SoundScheme(s: SchemeProfile, today: EmvDate, class_: ProfileClass) {
    && |s.rid| == 5 && !IsDummy(s.rid)
    && s.aids != [] && DistinctAids(s.aids)
    && (forall i | 0 <= i < |s.aids| :: SoundAid(s.aids[i]) && HasPrefix(s.aids[i].aid, s.rid))
    && s.capks != [] && DistinctCapks(s.capks)
    && (forall i | 0 <= i < |s.capks| :: SoundCapk(s.capks[i], s.rid, today, class_))
  }

  function ParseAids(o: Fields, rid: seq<byte>): (r: Result<seq<AidProfile>>)
    ensures r.Ok? ==> r.value != [] && DistinctAids(r.value)
    ensures r.Ok? ==> forall i | 0 <= i < |r.value| :: SoundAid(r.value[i]) && HasPrefix(r.value[i].aid, rid)
  {
    hide ParseAid, SoundAid;
    var items :- RequiredArray(o, "aids");
    :- Check(items != [], InvalidProfile);
    var aids :- MapResult(ParseAid, items);
    :- Check(forall i | 0 <= i < |aids| :: HasPrefix(aids[i].aid, rid), InvalidProfile);
    :- Check(DistinctAids(aids), InvalidProfile);
    Ok(aids)
  }

  function ParseCapks(o: Fields, rid: seq<byte>, today: EmvDate, class_: ProfileClass, mode: BuildMode)
    : (r: Result<seq<Capk>>)
    ensures r.Ok? ==> r.value != [] && DistinctCapks(r.value)
    ensures r.Ok? ==> forall i | 0 <= i < |r.value| :: SoundCapk(r.value[i], rid, today, class_)
  {
    var items :- RequiredArray(o, "capks");
    :- Check(items != [], InvalidProfile);
    var capks :- MapResult(v => ParseCapk(v, rid, today, class_, mode), items);
    :- Check(DistinctCapks(capks), InvalidProfile);
    Ok(capks)
  }

  function ParseRid(o: Fields): (r: Result<seq<byte>>)
    ensures r.Ok? ==> |r.value| == 5 && !IsDummy(r.value)
  {
    var rid :- FixedHexField(o, "rid", 5);
    :- Check(!IsDummy(rid), InvalidProfile);
    Ok(rid)
  }

  /** `parse_scheme`. */
  function ParseScheme(v: JsonValue, today: EmvDate, class_: ProfileClass, mode: BuildMode): (r: Result<SchemeProfile>)
    ensures r.Ok? ==> SoundScheme(r.value, today, class_)
  {
    var o :- AsObject(v);
    :- RejectUnknownFields(o, ["scheme_name", "rid", "kernel_type", "contact_kernel_type",
      "taa_fallback_when_offline_unable_online", "taa_no_match_default_when_online_capable",
      "taa_no_match_default_when_offline_only", "aids", "capks"]);
    var name :- RequiredString(o, "scheme_name");
    :- RejectPlaceholder(name);
    :- Check(!IsBlank(name), InvalidProfile);
    var rid :- ParseRid(o);
    var kernelType :- RequiredString(o, "kernel_type");
    var contact :- ParseContactKernelType(o);
    var taa :- ParseTaa(o);
    var aids :- ParseAids(o, rid);
    :- ValidateKernelMapping(kernelType, contact, aids, class_, mode);
    var capks :- ParseCapks(o, rid, today, class_, mode);
    Ok(SchemeProfile(name, rid, kernelType, contact, taa, aids, capks))
  }

  // ---------------------------------------------------------------- the profile set

  predicate DistinctRids(schemes: seq<SchemeProfile>) {
    forall i, j | 0 <= i < j < |schemes| :: schemes[i].rid != schemes[j].rid
  }

  function NamesOf(schemes: seq<SchemeProfile>): seq<string> {
    seq(|schemes|, i requires 0 <= i < |schemes| => schemes[i].schemeName)
  }

  /** `validate_certification_scope_scheme_profiles`: equal counts, and each side's names occur on the other side. */
  predicate MatchesScope(bundled: seq<string>, schemes: seq<SchemeProfile>) {
    && |bundled| == |schemes|
    && (forall i | 0 <= i < |schemes| :: schemes[i].schemeName in bundled)
    && (forall i | 0 <= i < |bundled| :: bundled[i] in NamesOf(schemes))
  }

  /** `load_profile_set` once the text is parsed and its keys are known. */
  function LoadFields(o: Fields, policy: ConfigLoadPolicy): Result<ProfileSet> {
    hide ValidateSchemaVersion, ParseProfileClass, ParseCertificationScope, SourceOrDefault, RequiredArray, ParseScheme;
    var version :- ValidateSchemaVersion(o, policy.mode);
    var class_ :- ParseProfileClass(o, policy.mode);
    var scope :- ParseCertificationScope(o, class_, policy.mode);
    var source :- SourceOrDefault(
      o, "profile_source", "unspecified_test_profile", class_, policy.mode, policy.evaluationDate);
    var items :- RequiredArray(o, "scheme_profiles");
    :- Check(items != [], InvalidProfile);
    var schemes :- MapResult(v => ParseScheme(v, policy.evaluationDate, class_, policy.mode), items);
    :- Check(DistinctRids(schemes), InvalidProfile);
    :- Check(scope.Some? ==> MatchesScope(scope.value, schemes), InvalidProfile);
    Ok(ProfileSet(policy.candidateVersion, class_, source, schemes))
  }

  /** `load_profile_set`. */
  function LoadProfileSet(json: seq<byte>, policy: ConfigLoadPolicy): Result<ProfileSet> {
    hide LoadFields, JsonReader.Parse;
    if (policy.mode == CertificationMode || policy.mode == Production) && policy.signatureStatus != Verified
    then Err(InvalidProfile)
    else if policy.candidateVersion <= policy.installedVersion then Err(InvalidProfile)
    else
      var root :- JsonReader.Parse(json);
      var o :- AsObject(root);
      :- RejectUnknownFields(o,
        ["schema_version", "profile_class", "profile_source", "certification_scope", "scheme_profiles"]);
      LoadFields(o, policy)
  }

  /** What the checks establish one by one. */
  lemma LoadedLocally(json: seq<byte>, policy: ConfigLoadPolicy, ps: ProfileSet)
    requires LoadProfileSet(json, policy) == Ok(ps)
    ensures
      && ps.version == policy.candidateVersion > policy.installedVersion
      && ps.schemes != []
      && DistinctRids(ps.schemes)
      && (forall i | 0 <= i < |ps.schemes| :: SoundScheme(ps.schemes[i], policy.evaluationDate, ps.profileClass))
      && (policy.mode != Test ==> policy.signatureStatus == Verified && ps.profileClass == CertificationClass)
      && (ps.profileClass == CertificationClass ==>
            exists bundled :: DeclaredScope(json, policy, bundled) && NoDuplicates(bundled) && MatchesScope(bundled, ps.schemes))
  {
    hide RejectUnknownFields, ParseScheme, SoundScheme, ParseCertificationScope, SourceOrDefault,
      ValidateSchemaVersion, MatchesScope, JsonReader.Parse;
    var o := JsonReader.Parse(json).value.fields;
    var class_ := ParseProfileClass(o, policy.mode).value;
    ScopeDeclaresDistinctNames(o, class_, policy.mode);
    if class_ == CertificationClass {
      assert DeclaredScope(json, policy, ParseCertificationScope(o, class_, policy.mode).value.value);
    }
  }

  /** The scheme names the document's certification scope declares. */
  ghost predicate DeclaredScope(json: seq<byte>, policy: ConfigLoadPolicy, bundled: seq<string>) {
    match JsonReader.Parse(json)
    case Ok(JsonObject(o)) => ParseCertificationScope(o, CertificationClass, policy.mode) == Ok(Some(bundled))
    case _ => false
  }

  // ---------------------------------------------------------------- global invariants

  /** Every AID of every scheme, in order. */
  function AllAids(schemes: seq<SchemeProfile>): seq<seq<byte>> {
    if schemes == [] then [] else AllAids(schemes[..|schemes| - 1]) + AidsOf(schemes[|schemes| - 1].aids)
  }

  function AidsOf(aids: seq<AidProfile>): seq<seq<byte>> {
    seq(|aids|, i requires 0 <= i < |aids| => aids[i].aid)
  }

  /** The identity (RID, index) of every CAPK of every scheme, in order. */
  function AllCapkIds(schemes: seq<SchemeProfile>): seq<(seq<byte>, byte)> {
    if schemes == [] then [] else AllCapkIds(schemes[..|schemes| - 1]) + CapkIdsOf(schemes[|schemes| - 1].capks)
  }

  function CapkIdsOf(capks: seq<Capk>): seq<(seq<byte>, byte)> {
    seq(|capks|, i requires 0 <= i < |capks| => (capks[i].rid, capks[i].keyIndex))
  }

  lemma NoDuplicatesConcat<T>(a: seq<T>, b: seq<T>)
    requires NoDuplicates(a) && NoDuplicates(b)
    requires forall x | x in a :: x !in b
    ensures NoDuplicates(a + b)
  {
    var ab := a + b;
    forall i, j | 0 <= i < j < |ab|
      ensures ab[i] != ab[j]
    {
      if i < |a| <= j {
        assert ab[i] in a && ab[j] in b;
      }
    }
  }

  /** Each AID in the concatenation carries some scheme's RID as its first five bytes. */
  lemma {:induction false} AidOrigin(schemes: seq<SchemeProfile>, today: EmvDate, class_: ProfileClass, aid: seq<byte>)
    requires forall i | 0 <= i < |schemes| :: SoundScheme(schemes[i], today, class_)
    requires aid in AllAids(schemes)
    ensures |aid| >= 5 && exists i | 0 <= i < |schemes| :: schemes[i].rid == aid[..5]
  {
    hide SoundAid, IsDummy, ValidKeyComponents, Digest, ChecksumMessage, SoundCapk;
    var n := |schemes| - 1;
    var s := schemes[n];
    if aid in AidsOf(s.aids) {
      var k :| 0 <= k < |s.aids| && s.aids[k].aid == aid;
      assert HasPrefix(s.aids[k].aid, s.rid);
    } else {
      AidOrigin(schemes[..n], today, class_, aid);
      var i :| 0 <= i < n && schemes[..n][i].rid == aid[..5];
      assert schemes[i] == schemes[..n][i];
    }
  }

  lemma {:induction false} AidsAreDistinct(schemes: seq<SchemeProfile>, today: EmvDate, class_: ProfileClass)
    requires DistinctRids(schemes)
    requires forall i | 0 <= i < |schemes| :: SoundScheme(schemes[i], today, class_)
    ensures NoDuplicates(AllAids(schemes))
  {
    hide SoundAid, IsDummy, ValidKeyComponents, Digest, ChecksumMessage, SoundCapk;
    if schemes != [] {
      var n := |schemes| - 1;
      var init, s := schemes[..n], schemes[n];
      AidsAreDistinct(init, today, class_);
      forall aid | aid in AllAids(init)
        ensures aid !in AidsOf(s.aids)
      {
        AidOrigin(init, today, class_, aid);
        var i :| 0 <= i < |init| && init[i].rid == aid[..5];
        assert schemes[i].rid != schemes[n].rid;
        assert forall k | 0 <= k < |s.aids| :: HasPrefix(s.aids[k].aid, s.rid) && s.aids[k].aid[..5] == s.rid;
      }
      NoDuplicatesConcat(AllAids(init), AidsOf(s.aids));
    }
  }

  lemma {:induction false} CapkOrigin(schemes: seq<SchemeProfile>, today: EmvDate, class_: ProfileClass, id: (seq<byte>, byte))
    requires forall i | 0 <= i < |schemes| :: SoundScheme(schemes[i], today, class_)
    requires id in AllCapkIds(schemes)
    ensures exists i | 0 <= i < |schemes| :: schemes[i].rid == id.0
  {
    hide SoundAid, IsDummy, ValidKeyComponents, Digest, ChecksumMessage;
    var n := |schemes| - 1;
    var s := schemes[n];
    if id in CapkIdsOf(s.capks) {
      var k :| 0 <= k < |s.capks| && (s.capks[k].rid, s.capks[k].keyIndex) == id;
      assert SoundCapk(s.capks[k], s.rid, today, class_);
    } else {
      CapkOrigin(schemes[..n], today, class_, id);
      var i :| 0 <= i < n && schemes[..n][i].rid == id.0;
      assert schemes[i] == schemes[..n][i];
    }
  }

  lemma {:induction false} CapksAreDistinct(schemes: seq<SchemeProfile>, today: EmvDate, class_: ProfileClass)
    requires DistinctRids(schemes)
    requires forall i | 0 <= i < |schemes| :: SoundScheme(schemes[i], today, class_)
    ensures NoDuplicates(AllCapkIds(schemes))
  {
    hide SoundAid, IsDummy, ValidKeyComponents, Digest, ChecksumMessage;
    if schemes != [] {
      var n := |schemes| - 1;
      var init, s := schemes[..n], schemes[n];
      CapksAreDistinct(init, today, class_);
      forall id | id in AllCapkIds(init)
        ensures id !in CapkIdsOf(s.capks)
      {
        CapkOrigin(init, today, class_, id);
        var i :| 0 <= i < |init| && init[i].rid == id.0;
        assert schemes[i].rid != schemes[n].rid;
        assert forall k | 0 <= k < |s.capks| :: SoundCapk(s.capks[k], s.rid, today, class_);
      }
      NoDuplicatesConcat(AllCapkIds(init), CapkIdsOf(s.capks));
    }
  }

  function SetOf<T>(s: seq<T>): set<T> {
    set x | x in s
  }

  lemma {:induction false} SetSize<T>(s: seq<T>)
    ensures |SetOf(s)| <= |s|
    ensures |SetOf(s)| == |s| <==> NoDuplicates(s)
  {
    if s != [] {
      var n := |s| - 1;
      var init := s[..n];
      SetSize(init);
      assert s == init + [s[n]];
      assert SetOf(s) == SetOf(init) + {s[n]};
      assert s[n] in init <==> s[n] in SetOf(init);
      if NoDuplicates(init) && s[n] !in init {
        assert forall i | 0 <= i < n :: s[i] == init[i] && s[i] in init;
      }
      if NoDuplicates(s) {
        assert forall i | 0 <= i < n :: init[i] == s[i];
        assert s[n] !in init;
      }
    }
  }

  /** Counting: as many schemes as distinct declared names, all of them named, leaves no room for a repeated name. */
  lemma NamesAreTheDeclaredSet(bundled: seq<string>, schemes: seq<SchemeProfile>)
    requires NoDuplicates(bundled) && MatchesScope(bundled, schemes)
    ensures NoDuplicates(NamesOf(schemes))
    ensures SetOf(NamesOf(schemes)) == SetOf(bundled)
  {
    var names := NamesOf(schemes);
    assert SetOf(names) == SetOf(bundled) by {
      forall x | x in names
        ensures x in bundled
      {
        var i :| 0 <= i < |schemes| && schemes[i].schemeName == x;
      }
    }
    SetSize(bundled);
    SetSize(names);
  }

  /**
   Every admitted profile set: no AID and no CAPK identity occurs twice anywhere in it, every AID's limits and CDA
   controls are consistent and its relay command is a short command, each certification CAPK carries
   the SHA-1 of its own components, and under a certification scope the scheme names are pairwise distinct and are
   exactly the declared ones.
   */
  lemma AdmittedSetsAreConsistent(json: seq<byte>, policy: ConfigLoadPolicy, ps: ProfileSet)
    requires LoadProfileSet(json, policy) == Ok(ps)
    ensures
      && NoDuplicates(AllAids(ps.schemes))
      && NoDuplicates(AllCapkIds(ps.schemes))
      && (forall i, k | 0 <= i < |ps.schemes| && 0 <= k < |ps.schemes[i].aids| :: SoundAid(ps.schemes[i].aids[k]))
      && (forall i, k | 0 <= i < |ps.schemes| && 0 <= k < |ps.schemes[i].capks| ::
            SoundCapk(ps.schemes[i].capks[k], ps.schemes[i].rid, policy.evaluationDate, ps.profileClass))
      && (ps.profileClass == CertificationClass ==>
            exists bundled :: DeclaredScope(json, policy, bundled)
              && NoDuplicates(NamesOf(ps.schemes)) && SetOf(NamesOf(ps.schemes)) == SetOf(bundled))
  {
    hide LoadProfileSet;
    LoadedLocally(json, policy, ps);
    AidsAreDistinct(ps.schemes, policy.evaluationDate, ps.profileClass);
    CapksAreDistinct(ps.schemes, policy.evaluationDate, ps.profileClass);
    if ps.profileClass == CertificationClass {
      var bundled :| DeclaredScope(json, policy, bundled) && NoDuplicates(bundled) && MatchesScope(bundled, ps.schemes);
      NamesAreTheDeclaredSet(bundled, ps.schemes);
    }
  }
}
