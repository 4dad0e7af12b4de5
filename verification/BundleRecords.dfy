/** The certification bundle's records (src/cert_bundle.rs) and the ordered JSON document each one prints as. */
module BundleRecords {
  import opened Kernel
  import opened Dates
  import opened JsonSyntax
  import opened JsonDoc

  datatype BundleClass = Testing | Certification

  datatype SubmissionScope = SubmissionScope(
    productName: string, productVersion: string, certificationTarget: string,
    interfaces: seq<string>, authorities: seq<string>)

  datatype StandardsTarget = StandardsTarget(
    emvContactVersion: string, emvContactlessKernel: string,
    bulletinsIncluded: seq<string>, bulletinsExcluded: seq<string>)

  datatype TerminalProfile = TerminalProfile(
    terminalType: string, deviceModel: string, firmwareVersion: string,
    l1ApprovalReference: string, pciPtsReference: string, supportedInterfaces: seq<string>)

  /** A 32-bit signed integer. */
  type i32 = n: int | -0x8000_0000 <= n < 0x8000_0000

  datatype CallbackTimeouts = CallbackTimeouts(apduTransport: i32, hostAuthorization: i32, pinEntry: i32, contactlessUi: i32)

  datatype RuntimePolicy =
    RuntimePolicy(callbackTimeouts: CallbackTimeouts, offlineCounterPersistence: string, traceMaskingPolicy: string)

  datatype KernelRegistration = KernelRegistration(
    kernelProfileId: string, iface: string, algorithm: string, c8Package: string, schemeScope: seq<string>)

  datatype CvmExtension = CvmExtension(
    ruleId: string, schemeScope: seq<string>, cvmCodeHex: string, meaning: string, tvrOnFailureHex: string,
    continueOnFailure: bool)

  datatype TestCase = TestCase(caseId: string, vectorClass: string, expectedOutcome: string, traceRequirement: string)

  datatype ArtifactHash =
    ArtifactHash(artifactId: string, artifactKind: string, sha256Hex: string, bindsOpenIssues: seq<string>)

  datatype Payload = Payload(
    submissionScope: SubmissionScope, standardsTarget: StandardsTarget, terminalProfile: TerminalProfile,
    runtimePolicy: RuntimePolicy, kernelRegistry: seq<KernelRegistration>, cvmExtensions: seq<CvmExtension>,
    testPlan: seq<TestCase>, artifactHashes: seq<ArtifactHash>, schemeProfileSetJson: string, vectorBundleJson: string)

  datatype BundleSignature = BundleSignature(
    algorithm: string, signerId: string, signingKeyFingerprint: string, payloadSha256: string,
    signatureHex: string, signatureArtifactSha256: string)

  datatype Bundle = Bundle(
    schemaVersion: string, bundleId: string, bundleVersion: u64, rollbackCounter: u64, bundleClass: BundleClass,
    created: EmvDate, payload: Payload, signature: BundleSignature)

  datatype TrustAnchor = TrustAnchor(
    signerId: string, signingKeyFingerprint: string, verificationPublicKeyHex: string, allowedPayloadSha256: string,
    notAfter: Option<EmvDate>)

  // ---------------------------------------------------------------- documents

  function StringsDoc(values: seq<string>): Doc {
    DocArray(seq(|values|, i requires 0 <= i < |values| => DocString(values[i])))
  }

  function Str(key: string, value: string): Field {
    Field(key, DocString(value))
  }

  function Strs(key: string, values: seq<string>): Field {
    Field(key, StringsDoc(values))
  }

  function ClassText(c: BundleClass): string {
    match c
    case Testing => "TESTING"
    case Certification => "CERTIFICATION"
  }

  /** `as u64` on a 32-bit signed integer. */
  function TimeoutNumber(n: i32): u64 {
    if n < 0 then U64_LIMIT + n else n
  }

  function ScopeFields(v: SubmissionScope): seq<Field> {
    [Str("product_name", v.productName), Str("product_version", v.productVersion),
     Str("certification_target", v.certificationTarget), Strs("interfaces", v.interfaces),
     Strs("authorities", v.authorities)]
  }

  function StandardsFields(v: StandardsTarget): seq<Field> {
    [Str("emv_contact_version", v.emvContactVersion), Str("emv_contactless_kernel", v.emvContactlessKernel),
     Strs("bulletins_included", v.bulletinsIncluded), Strs("bulletins_excluded", v.bulletinsExcluded)]
  }

  function TerminalFields(v: TerminalProfile): seq<Field> {
    [Str("terminal_type", v.terminalType), Str("device_model", v.deviceModel),
     Str("firmware_version", v.firmwareVersion), Str("l1_approval_reference", v.l1ApprovalReference),
     Str("pci_pts_reference", v.pciPtsReference), Strs("supported_interfaces", v.supportedInterfaces)]
  }

  function TimeoutFields(v: CallbackTimeouts): seq<Field> {
    [Field("apdu_transport_timeout_ms", DocNumber(TimeoutNumber(v.apduTransport))),
     Field("host_authorization_timeout_ms", DocNumber(TimeoutNumber(v.hostAuthorization))),
     Field("pin_entry_timeout_ms", DocNumber(TimeoutNumber(v.pinEntry))),
     Field("contactless_ui_timeout_ms", DocNumber(TimeoutNumber(v.contactlessUi)))]
  }

  function RuntimeFields(v: RuntimePolicy): seq<Field> {
    [Field("callback_timeouts", DocObject(TimeoutFields(v.callbackTimeouts))),
     Str("offline_counter_persistence", v.offlineCounterPersistence),
     Str("trace_masking_policy", v.traceMaskingPolicy)]
  }

  function KernelFields(v: KernelRegistration): seq<Field> {
    [Str("kernel_profile_id", v.kernelProfileId), Str("interface", v.iface), Str("algorithm", v.algorithm),
     Str("c8_package", v.c8Package), Strs("scheme_scope", v.schemeScope)]
  }

  function CvmFields(v: CvmExtension): seq<Field> {
    [Str("rule_id", v.ruleId), Strs("scheme_scope", v.schemeScope), Str("cvm_code_hex", v.cvmCodeHex),
     Str("meaning", v.meaning), Str("tvr_on_failure_hex", v.tvrOnFailureHex),
     Field("continue_on_failure", DocBool(v.continueOnFailure))]
  }

  function TestCaseFields(v: TestCase): seq<Field> {
    [Str("case_id", v.caseId), Str("vector_class", v.vectorClass), Str("expected_outcome", v.expectedOutcome),
     Str("trace_requirement", v.traceRequirement)]
  }

  function ArtifactFields(v: ArtifactHash): seq<Field> {
    [Str("artifact_id", v.artifactId), Str("artifact_kind", v.artifactKind), Str("sha256_hex", v.sha256Hex),
     Strs("binds_open_issues", v.bindsOpenIssues)]
  }

  function KernelsDoc(vs: seq<KernelRegistration>): Doc {
    DocArray(seq(|vs|, i requires 0 <= i < |vs| => DocObject(KernelFields(vs[i]))))
  }

  function CvmsDoc(vs: seq<CvmExtension>): Doc {
    DocArray(seq(|vs|, i requires 0 <= i < |vs| => DocObject(CvmFields(vs[i]))))
  }

  function TestCasesDoc(vs: seq<TestCase>): Doc {
    DocArray(seq(|vs|, i requires 0 <= i < |vs| => DocObject(TestCaseFields(vs[i]))))
  }

  function ArtifactsDoc(vs: seq<ArtifactHash>): Doc {
    DocArray(seq(|vs|, i requires 0 <= i < |vs| => DocObject(ArtifactFields(vs[i]))))
  }

  function RecordFields(v: Payload): seq<Field> {
    [Field("submission_scope", DocObject(ScopeFields(v.submissionScope))),
     Field("standards_target", DocObject(StandardsFields(v.standardsTarget))),
     Field("terminal_profile", DocObject(TerminalFields(v.terminalProfile))),
     Field("runtime_policy", DocObject(RuntimeFields(v.runtimePolicy)))]
  }

  function ListFields(v: Payload): seq<Field> {
    [Field("kernel_registry", KernelsDoc(v.kernelRegistry)),
     Field("cvm_extensions", CvmsDoc(v.cvmExtensions)),
     Field("test_plan", TestCasesDoc(v.testPlan)),
     Field("artifact_hashes", ArtifactsDoc(v.artifactHashes))]
  }

  function PayloadFields(v: Payload): seq<Field> {
    RecordFields(v) + ListFields(v)
    + [Str("scheme_profile_set_json", v.schemeProfileSetJson), Str("vector_bundle_json", v.vectorBundleJson)]
  }

  function PayloadDoc(v: Payload): Doc {
    DocObject(PayloadFields(v))
  }

  function SignatureFields(v: BundleSignature): seq<Field> {
    [Str("algorithm", v.algorithm), Str("signer_id", v.signerId),
     Str("signing_key_fingerprint", v.signingKeyFingerprint), Str("payload_sha256", v.payloadSha256),
     Str("signature_hex", v.signatureHex), Str("signature_artifact_sha256", v.signatureArtifactSha256)]
  }

  function BundleFields(v: Bundle): seq<Field> {
    [Str("schema_version", v.schemaVersion), Str("bundle_id", v.bundleId),
     Field("bundle_version", DocNumber(v.bundleVersion)), Field("rollback_counter", DocNumber(v.rollbackCounter)),
     Str("bundle_class", ClassText(v.bundleClass)), Str("created", FormatDate(v.created)),
     Field("payload", PayloadDoc(v.payload)), Field("signature", DocObject(SignatureFields(v.signature)))]
  }

  function BundleDoc(v: Bundle): Doc {
    DocObject(BundleFields(v))
  }

  function AnchorFields(v: TrustAnchor): seq<Field> {
    [Str("signer_id", v.signerId), Str("signing_key_fingerprint", v.signingKeyFingerprint),
     Str("verification_public_key_hex", v.verificationPublicKeyHex),
     Str("allowed_payload_sha256", v.allowedPayloadSha256)]
    + if v.notAfter.Some? then [Str("not_after", FormatDate(v.notAfter.value))] else []
  }

  function AnchorListDoc(vs: seq<TrustAnchor>): Doc {
    DocArray(seq(|vs|, i requires 0 <= i < |vs| => DocObject(AnchorFields(vs[i]))))
  }

  const ANCHORS_SCHEMA_VERSION := "hyperion-certification" + "-trust-anchors-1.0"

  function AnchorsDoc(vs: seq<TrustAnchor>): Doc {
    DocObject([Str("schema_version", ANCHORS_SCHEMA_VERSION), Field("trust_anchors", AnchorListDoc(vs))])
  }

  /** A document followed by a line feed, as both top-level printers end. */
  function FileText(d: Doc): seq<byte> {
    DocText(d) + [0x0a]
  }
}
