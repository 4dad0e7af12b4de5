/** Creating a signed bundle and its trust anchor from provisioning inputs (src/cert_bundle.rs). */
module BundleProvision {
  import opened Kernel
  import opened Text
  import opened Hex
  import opened Dates
  import opened JsonDoc
  import opened BundleRecords
  import opened BundleReader
  import opened BundleTrust
  import opened BundleWriter

  const FIXTURE_HALF := "00112233445566778899aabbccddeeff"
  const DEFAULT_FIXTURE_SIGNING_PRIVATE_KEY_HEX := FIXTURE_HALF + FIXTURE_HALF

  // The fixed texts of a created payload, word group by word group.

  const OFFLINE_COUNTER_PERSISTENCE := "terminal" + "-nonvolatile" + "-counter" + "-required"
  const TRACE_MASKING_POLICY := "mask-pan-track" + "-equivalent" + "-cryptogram" + "-pin-and" + "-sensitive-tlv"
  const BASELINE_CVM_RULE := "baseline-cvm" + "-extension-data"
  const BASELINE_CVM_MEANING := "signature-or" + "-cdcvm-as" + "-authority" + "-profiled"
  const BASELINE_OUTCOME := "bundle-loads" + "-and-profile" + "-validates"
  const BASELINE_TRACE := "masked-apdu" + "-trace" + "-required" + "-for" + "-submission"
  const PROFILE_ARTIFACT := "scheme_profile" + "_set_json"
  const VECTOR_ARTIFACT := "vector_bundle" + "_json"

  datatype ProvisioningInput = ProvisioningInput(
    bundleId: string, bundleVersion: u64, rollbackCounter: u64, bundleClass: BundleClass, created: EmvDate,
    productName: string, productVersion: string, certificationTarget: string, interfaces: string, authorities: string,
    emvContactVersion: string, emvContactlessKernel: string, bulletinsIncluded: string, bulletinsExcluded: string,
    terminalType: string, deviceModel: string, firmwareVersion: string, l1ApprovalReference: string,
    pciPtsReference: string, kernelProfileId: string, kernelInterface: string, kernelAlgorithm: string,
    c8Package: string, schemeScope: string, vectorClass: string, signerId: string,
    signingPrivateKeyHex: Option<string>, trustNotAfter: Option<EmvDate>, callbackTimeouts: Option<CallbackTimeouts>,
    schemeProfileSetJson: string, vectorBundleJson: string)

  // ---------------------------------------------------------------- comma-separated lists

  /** `split(',')`. */
  function SplitCommas(s: string): (pieces: seq<string>)
    ensures pieces != []
  {
    if s == "" then [""]
    else
      var rest := SplitCommas(s[1..]);
      if s[0] == ',' then [""] + rest else [[s[0]] + rest[0]] + rest[1..]
  }

  /** The trimmed pieces that are not empty. */
  function TrimmedItems(pieces: seq<string>): seq<string> {
    if pieces == [] then []
    else
      var item := Trim(pieces[0]);
      (if item == "" then [] else [item]) + TrimmedItems(pieces[1..])
  }

  function CsvItems(s: string): seq<string> {
    TrimmedItems(SplitCommas(s))
  }

  /** `split_csv`. */
  function SplitCsv(s: string): Result<seq<string>> {
    var items := CsvItems(s);
    :- Check(NonEmptySet(items), InvalidProfile);
    Ok(items)
  }

  /** `split_csv_allow_empty`. */
  function SplitCsvAllowEmpty(s: string): Result<seq<string>> {
    var items := CsvItems(s);
    :- Check(NoDuplicates(items), InvalidProfile);
    Ok(items)
  }

  function JoinCommas(items: seq<string>): string {
    if items == [] then ""
    else if |items| == 1 then items[0]
    else items[0] + ("," + JoinCommas(items[1..]))
  }

  /** What an item of a comma-separated input can be. */
  predicate IsCsvItem(item: string) {
    item != "" && Trim(item) == item && ',' !in item
  }

  lemma {:induction false} SplitFirst(item: string, rest: string)
    requires ',' !in item
    ensures SplitCommas(item) == [item]
    ensures SplitCommas(item + ("," + rest)) == [item] + SplitCommas(rest)
  {
    var s := item + ("," + rest);
    if item == "" {
      assert s == "," + rest && s[1..] == rest;
    } else {
      SplitFirst(item[1..], rest);
      assert s[0] == item[0] && s[1..] == item[1..] + ("," + rest);
      assert item == [item[0]] + item[1..];
    }
  }

  /** Joining items with commas and splitting them again is the identity, also for no items. */
  lemma {:induction false} CsvRoundTrip(items: seq<string>)
    requires forall i | 0 <= i < |items| :: IsCsvItem(items[i])
    ensures CsvItems(JoinCommas(items)) == items
  {
    hide SplitCommas, Trim;
    if items == [] {
      BlankIsDropped();
    } else {
      var rest := JoinCommas(items[1..]);
      SplitFirst(items[0], rest);
      assert ([items[0]] + SplitCommas(rest))[1..] == SplitCommas(rest);
      if |items| > 1 {
        CsvRoundTrip(items[1..]);
      } else {
        assert [items[0]][1..] == [];
        assert TrimmedItems([items[0]]) == [items[0]] + TrimmedItems([]);
        assert items == [items[0]];
      }
    }
  }

  lemma BlankIsDropped()
    ensures SplitCommas("") == [""] && TrimmedItems([""]) == []
  {
    assert [""][1..] == [];
  }

  datatype InputLists = InputLists(
    interfaces: seq<string>, authorities: seq<string>, bulletinsIncluded: seq<string>, bulletinsExcluded: seq<string>,
    schemeScope: seq<string>)

  function ListsOf(input: ProvisioningInput): Result<InputLists> {
    var interfaces :- SplitCsv(input.interfaces);
    var authorities :- SplitCsv(input.authorities);
    var bulletinsIncluded :- SplitCsv(input.bulletinsIncluded);
    var bulletinsExcluded :- SplitCsvAllowEmpty(input.bulletinsExcluded);
    var schemeScope :- SplitCsv(input.schemeScope);
    Ok(InputLists(interfaces, authorities, bulletinsIncluded, bulletinsExcluded, schemeScope))
  }

  // ---------------------------------------------------------------- the payload

  function TimeoutsOf(input: ProvisioningInput): CallbackTimeouts {
    match input.callbackTimeouts
    case Some(timeouts) => timeouts
    case None => CallbackTimeouts(500, 30_000, 30_000, 5_000)
  }

  function ScopeOf(input: ProvisioningInput, lists: InputLists): SubmissionScope {
    SubmissionScope(
      input.productName, input.productVersion, input.certificationTarget, lists.interfaces, lists.authorities)
  }

  function StandardsOf(input: ProvisioningInput, lists: InputLists): StandardsTarget {
    StandardsTarget(
      input.emvContactVersion, input.emvContactlessKernel, lists.bulletinsIncluded, lists.bulletinsExcluded)
  }

  function TerminalOf(input: ProvisioningInput, lists: InputLists): TerminalProfile {
    TerminalProfile(input.terminalType, input.deviceModel, input.firmwareVersion, input.l1ApprovalReference,
      input.pciPtsReference, lists.interfaces)
  }

  function RuntimeOf(input: ProvisioningInput): RuntimePolicy {
    RuntimePolicy(TimeoutsOf(input), OFFLINE_COUNTER_PERSISTENCE, TRACE_MASKING_POLICY)
  }

  function KernelOf(input: ProvisioningInput, lists: InputLists): KernelRegistration {
    KernelRegistration(input.kernelProfileId, input.kernelInterface, input.kernelAlgorithm, input.c8Package, lists.schemeScope)
  }

  function BaselineCvm(lists: InputLists): CvmExtension {
    CvmExtension(BASELINE_CVM_RULE, lists.schemeScope, "1E", BASELINE_CVM_MEANING, "0000000000", true)
  }

  function TestCaseOf(input: ProvisioningInput): TestCase {
    TestCase("CERT-DATA-0001", input.vectorClass, BASELINE_OUTCOME, BASELINE_TRACE)
  }

  function ProfileArtifact(c: Crypto, input: ProvisioningInput): ArtifactHash {
    ArtifactHash(PROFILE_ARTIFACT, "scheme-profile", ToHex(c.sha256(Utf8(input.schemeProfileSetJson))),
      ["CERT-OPEN-002", "CERT-OPEN-003"])
  }

  function VectorArtifact(c: Crypto, input: ProvisioningInput): ArtifactHash {
    ArtifactHash(VECTOR_ARTIFACT, "test-vectors", ToHex(c.sha256(Utf8(input.vectorBundleJson))),
      ["CERT-OPEN-004", "CERT-OPEN-012"])
  }

  function PayloadOf(c: Crypto, input: ProvisioningInput, lists: InputLists): Payload {
    Payload(ScopeOf(input, lists), StandardsOf(input, lists), TerminalOf(input, lists), RuntimeOf(input),
      [KernelOf(input, lists)], [BaselineCvm(lists)], [TestCaseOf(input)],
      [ProfileArtifact(c, input), VectorArtifact(c, input)],
      input.schemeProfileSetJson, input.vectorBundleJson)
  }

  // ---------------------------------------------------------------- signing

  function SecretHex(input: ProvisioningInput): string {
    match input.signingPrivateKeyHex
    case Some(hex) => hex
    case None => DEFAULT_FIXTURE_SIGNING_PRIVATE_KEY_HEX
  }

  /** `signing_key_from_hex` of text already known to be 32 bytes. */
  function SecretBytes(hex: string): Bytes32
    requires ValidateHexLen(hex, 32).Pass?
  {
    DecodeHex(hex).value
  }

  function SignatureOf(c: Crypto, signerId: string, secret: Bytes32, payloadHash: Bytes32): BundleSignature {
    var fingerprint := ToHex(c.sha256(c.publicKey(secret)));
    var signatureHex := ToHex(c.sign(secret, SignatureMessage(signerId, fingerprint, payloadHash)));
    BundleSignature(SIGNATURE_ALGORITHM, signerId, fingerprint, ToHex(payloadHash), signatureHex,
      ToHex(c.sha256(Utf8(signatureHex))))
  }

  function SignedBundle(c: Crypto, input: ProvisioningInput, payload: Payload, secret: Bytes32): Bundle {
    Bundle(BUNDLE_SCHEMA_VERSION, input.bundleId, input.bundleVersion, input.rollbackCounter, input.bundleClass,
      input.created, payload, SignatureOf(c, input.signerId, secret, PayloadHash(c, payload)))
  }

  function AnchorFor(c: Crypto, input: ProvisioningInput, payload: Payload, secret: Bytes32): TrustAnchor {
    TrustAnchor(input.signerId, ToHex(c.sha256(c.publicKey(secret))), ToHex(c.publicKey(secret)),
      ToHex(PayloadHash(c, payload)), input.trustNotAfter)
  }

  /** `create_bundle_from_inputs`, as records: the bundle and its trust anchor. */
  function CreateBundle(c: Crypto, input: ProvisioningInput): Result<(Bundle, TrustAnchor)> {
    hide ValidatePayload, PayloadOf, IsIdentifier;
    var named := IsIdentifier(input.bundleId);
    :- Check(named, InvalidProfile);
    :- Check(GoodTimeouts(TimeoutsOf(input)), InvalidProfile);
    :- ValidateHexLen(SecretHex(input), 32);
    var lists :- ListsOf(input);
    var payload := PayloadOf(c, input, lists);
    var checked :- ValidatePayload(payload);
    var secret := SecretBytes(SecretHex(input));
    Ok((SignedBundle(c, input, payload, secret), AnchorFor(c, input, payload, secret)))
  }

  /** Creation succeeds exactly when the identifier, timeouts, secret, lists and payload pass their checks. */
  lemma CreateIff(c: Crypto, input: ProvisioningInput)
    ensures CreateBundle(c, input).Ok? <==>
      && IsIdentifier(input.bundleId) && GoodTimeouts(TimeoutsOf(input)) && ValidateHexLen(SecretHex(input), 32).Pass?
      && ListsOf(input).Ok? && ValidatePayload(PayloadOf(c, input, ListsOf(input).value)).Ok?
  {
    hide ValidatePayload, PayloadOf, IsIdentifier, GoodTimeouts, ListsOf, SignedBundle, AnchorFor, ValidateHexLen,
      SecretBytes;
  }

  /** `create_bundle_from_inputs`: the two printed files. */
  method CreateBundleFromInputs(c: Crypto, input: ProvisioningInput) returns (r: Result<(seq<byte>, seq<byte>)>)
    ensures r == match CreateBundle(c, input)
                 case Ok(created) => Ok((FileText(BundleDoc(created.0)), FileText(AnchorsDoc([created.1]))))
                 case Err(e) => Err(e)
  {
    hide ValidatePayload, PayloadOf, IsIdentifier, BundleDoc, AnchorsDoc, FileText, ListsOf, ToHex, PayloadDoc,
      SignatureMessage,
      GoodTimeouts, ValidateHexLen, SecretBytes, DocText;
    if !IsIdentifier(input.bundleId) {
      return Err(InvalidProfile);
    }
    if !GoodTimeouts(TimeoutsOf(input)) {
      return Err(InvalidProfile);
    }
    var hexCheck := ValidateHexLen(SecretHex(input), 32);
    if hexCheck.Fail? {
      return Err(hexCheck.error);
    }
    var listsResult := ListsOf(input);
    if listsResult.Err? {
      return Err(listsResult.error);
    }
    var payload := PayloadOf(c, input, listsResult.value);
    var checked := ValidatePayload(payload);
    if checked.Err? {
      return Err(checked.error);
    }
    var secret := SecretBytes(SecretHex(input));
    var payloadJson := PayloadCanonicalJson(payload);
    var payloadHash := c.sha256(payloadJson);
    var verificationPublicKey := c.publicKey(secret);
    var fingerprint := ToHex(c.sha256(verificationPublicKey));
    var signature := SignatureOf(c, input.signerId, secret, payloadHash);
    var bundle := Bundle(BUNDLE_SCHEMA_VERSION, input.bundleId, input.bundleVersion, input.rollbackCounter,
      input.bundleClass, input.created, payload, signature);
    var anchor := TrustAnchor(input.signerId, fingerprint, ToHex(verificationPublicKey), ToHex(payloadHash), input.trustNotAfter);
    var bundleJson := CertificationBundleJson(bundle);
    var anchorsJson := TrustAnchorsJson([anchor]);
    r := Ok((bundleJson, anchorsJson));
  }
}
