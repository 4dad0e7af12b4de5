/**
 The compile report of a certification bundle (src/cert_bundle.rs): lint findings, capability coverage and the final
 status. Paths and capabilities are named rather than spelled, and the prose of a finding is left out.
 */
module CompileReport {
  import opened Kernel
  import opened Text
  import opened Hex
  import opened Dates
  import opened JsonSyntax
  import opened JsonFields
  import opened BundleRecords
  import opened BundleReader
  import opened BundleTrust
  import opened BundleProvision
  import JsonReader
  import Profile

  datatype Severity = Info | Warning | Error

  datatype FieldPath =
    | BundleJson
    | AnchorsJson
    | WholeBundle
    | ClassPath
    | RollbackPath
    | CreatedPath
    | AlgorithmPath
    | TargetPath
    | DevicePath
    | FirmwarePath
    | L1Path
    | PciPath
    | AuthorityPath(index: nat)
    | BulletinsPath
    | MaskingPath
    | ArtifactsPath
    | VectorPath
    | AnchorListPath
    | AnchorKeyPath(index: nat)
    | AnchorExpiryPath(index: nat)

  datatype Finding = Finding(severity: Severity, path: FieldPath)

  datatype CoverageStatus = Covered | Incomplete | ExternalRequired | Weak

  datatype Capability =
    | Selection | ContactL2 | ContactlessC8 | CapkAuthority | OdaVectors | CvmPin | Trm | Taa | IssuerScripts
    | RelayResistance | RuntimeAbi | SecurityTrust | DeviceL1 | PciPed | StandardsBulletins | EvidenceFreeze | TracePrivacy

  datatype Coverage = Coverage(id: Capability, status: CoverageStatus)

  datatype CompileStatus = StatusPass | StatusWarn | StatusFail

  // ---------------------------------------------------------------- lints

  function Add(findings: seq<Finding>, condition: bool, severity: Severity, path: FieldPath): seq<Finding> {
    if condition then findings + [Finding(severity, path)] else findings
  }

  /** The words that mark evidence as still to come. */
  predicate IsPending(value: string) {
    var lower := AsciiLower(value);
    Contains(lower, "pending") || Contains(lower, "external-") || Contains(lower, "required")
  }

  predicate MasksTraces(b: Bundle) {
    Contains(AsciiLower(b.payload.runtimePolicy.traceMaskingPolicy), "mask")
  }

  function ArraySizeAt(o: Fields, key: string): nat {
    if key in o && o[key].JsonArray? then |o[key].items| else 0
  }

  /** `certification_vector_bundle_status`. */
  function VectorStatus(json: string): CoverageStatus {
    match JsonReader.Parse(Utf8(json))
    case Err(_) => Incomplete
    case Ok(root) =>
      if !root.JsonObject? then Incomplete
      else match RequiredString(root.fields, "vector_class")
        case Err(_) => Incomplete
        case Ok(vectorClass) =>
          var lower := AsciiLower(json);
          if vectorClass != "CERTIFICATION" || Contains(lower, "fixture") || Contains(lower, "pending")
            || Contains(lower, "placeholder")
          then ExternalRequired
          else if ArraySizeAt(root.fields, "cases") == 0 && ArraySizeAt(root.fields, "test_vectors") == 0
          then ExternalRequired
          else if Contains(lower, "sda") && Contains(lower, "dda") && Contains(lower, "cda") then Covered
          else ExternalRequired
  }

  function LintAuthorities(findings: seq<Finding>, authorities: seq<string>, n: nat): seq<Finding>
    requires n <= |authorities|
  {
    if n == 0 then findings
    else Add(LintAuthorities(findings, authorities, n - 1), IsPending(authorities[n - 1]), Warning, AuthorityPath(n - 1))
  }

  function LintPolicy(findings: seq<Finding>, b: Bundle, policy: LoadPolicy): seq<Finding> {
    var f1 := Add(findings, b.bundleClass == Testing && policy.mode != Profile.Test, Error, ClassPath);
    var f2 := Add(f1, b.rollbackCounter <= policy.installedRollbackCounter, Error, RollbackPath);
    var f3 := Add(f2, policy.evaluationDate.Before(b.created), Error, CreatedPath);
    Add(f3, b.signature.algorithm == TEST_ALGORITHM, Warning, AlgorithmPath)
  }

  function LintReferences(findings: seq<Finding>, p: Payload): seq<Finding> {
    var f1 := Add(findings, IsPending(p.submissionScope.certificationTarget), Warning, TargetPath);
    var f2 := Add(f1, IsPending(p.terminalProfile.deviceModel), Warning, DevicePath);
    var f3 := Add(f2, IsPending(p.terminalProfile.firmwareVersion), Warning, FirmwarePath);
    var f4 := Add(f3, IsPending(p.terminalProfile.l1ApprovalReference), Warning, L1Path);
    var f5 := Add(f4, IsPending(p.terminalProfile.pciPtsReference), Warning, PciPath);
    LintAuthorities(f5, p.submissionScope.authorities, |p.submissionScope.authorities|)
  }

  function LintContents(findings: seq<Finding>, b: Bundle): seq<Finding> {
    var p := b.payload;
    var f1 := Add(findings, p.standardsTarget.bulletinsIncluded == [], Error, BulletinsPath);
    var f2 := Add(f1, !MasksTraces(b), Error, MaskingPath);
    var f3 := Add(f2, |p.artifactHashes| < 2, Warning, ArtifactsPath);
    match VectorStatus(p.vectorBundleJson)
    case Covered => f3
    case ExternalRequired => Add(f3, true, Warning, VectorPath)
    case _ => Add(f3, true, Error, VectorPath)
  }

  /** `lint_parsed_bundle`. */
  function LintBundle(findings: seq<Finding>, b: Bundle, policy: LoadPolicy): seq<Finding> {
    LintContents(LintReferences(LintPolicy(findings, b, policy), b.payload), b)
  }

  /** `default_fixture_public_key_hex`. */
  function FixturePublicKeyHex(c: Crypto): string {
    hide DecodeExactly, DecodeHex, ToHex;
    match DecodeExactly(DEFAULT_FIXTURE_SIGNING_PRIVATE_KEY_HEX, 32)
    case Ok(secret) => ToHex(c.publicKey(secret))
    case Err(_) => ""
  }

  function LintAnchor(c: Crypto, findings: seq<Finding>, anchor: TrustAnchor, i: nat, today: EmvDate): seq<Finding> {
    Add(Add(findings, anchor.verificationPublicKeyHex == FixturePublicKeyHex(c), Warning, AnchorKeyPath(i)),
      IsExpired(anchor, today), Error, AnchorExpiryPath(i))
  }

  function LintAnchorsUpTo(c: Crypto, findings: seq<Finding>, anchors: seq<TrustAnchor>, today: EmvDate, n: nat): seq<Finding>
    requires n <= |anchors|
  {
    if n == 0 then findings
    else LintAnchor(c, LintAnchorsUpTo(c, findings, anchors, today, n - 1), anchors[n - 1], n - 1, today)
  }

  /** `lint_trust_anchors`. */
  function LintAnchors(c: Crypto, findings: seq<Finding>, anchors: seq<TrustAnchor>, today: EmvDate): seq<Finding> {
    LintAnchorsUpTo(c, Add(findings, anchors == [], Error, AnchorListPath), anchors, today, |anchors|)
  }

  // ---------------------------------------------------------------- coverage

  function Item(id: Capability, covered: bool): Coverage {
    Coverage(id, if covered then Covered else Incomplete)
  }

  /** `external_reference_status`. */
  function ReferenceStatus(value: string): CoverageStatus {
    if IsPending(value) then ExternalRequired else Covered
  }

  predicate SomeAid(ps: Profile.ProfileSet, test: Profile.AidProfile -> bool) {
    exists i, k | 0 <= i < |ps.schemes| && 0 <= k < |ps.schemes[i].aids| :: test(ps.schemes[i].aids[k])
  }

  predicate SomeScheme(ps: Profile.ProfileSet, test: Profile.SchemeProfile -> bool) {
    exists i | 0 <= i < |ps.schemes| :: test(ps.schemes[i])
  }

  predicate ManagesRisk(a: Profile.AidProfile) {
    || a.floorLimit > 0 || a.randomSelectionPercent > 0 || a.lowerConsecutiveOfflineLimit.Some?
    || a.upperConsecutiveOfflineLimit.Some? || a.transactionTypeFloorLimits != []
  }

  predicate BindsArtifact(b: Bundle, id: string) {
    exists i | 0 <= i < |b.payload.artifactHashes| :: b.payload.artifactHashes[i].artifactId == id
  }

  /** `emv_capability_coverage`. */
  function CapabilityCoverage(l: LoadedBundle): seq<Coverage> {
    var b, ps := l.bundle, l.profileSet;
    var p := b.payload;
    var interfaces := p.submissionScope.interfaces;
    var hasVectors := BindsArtifact(b, VECTOR_ARTIFACT);
    [Item(Selection, SomeScheme(ps, (s: Profile.SchemeProfile) => s.aids != [])),
     Item(ContactL2, "contact" in interfaces && SomeAid(ps, (a: Profile.AidProfile) => "contact" in a.interfaces)
       && SomeScheme(ps, (s: Profile.SchemeProfile) => s.contactKernelType.Some?)),
     Item(ContactlessC8, NamesContactless(p) && SomeAid(ps, (a: Profile.AidProfile) => "contactless" in a.interfaces)
       && RegistersContactless(p)),
     Item(CapkAuthority, SomeScheme(ps, (s: Profile.SchemeProfile) => s.capks != [])),
     Coverage(OdaVectors,
       if SomeAid(ps, (a: Profile.AidProfile) => a.cdaSupported && a.cdaRequestEncoding.Some?) && hasVectors
       then VectorStatus(p.vectorBundleJson) else Incomplete),
     Item(CvmPin, p.cvmExtensions != [] || SomeAid(ps, (a: Profile.AidProfile) =>
       a.cvmLimitContact > 0 || a.contactlessCvmLimit > 0 || a.cdcvmSupported)),
     Item(Trm, SomeAid(ps, (a: Profile.AidProfile) => ManagesRisk(a))),
     Item(Taa, ps.schemes != []),
     Item(IssuerScripts, SomeAid(ps, (a: Profile.AidProfile) => a.criticalIssuerScriptIns != [])),
     Coverage(RelayResistance, if SomeAid(ps, (a: Profile.AidProfile) => a.relayResistance.Some?) then Covered else Weak),
     Item(RuntimeAbi, true),
     Item(SecurityTrust, l.verificationStatus == TrustAnchorVerified),
     Coverage(DeviceL1, ReferenceStatus(p.terminalProfile.l1ApprovalReference)),
     Coverage(PciPed, ReferenceStatus(p.terminalProfile.pciPtsReference)),
     Item(StandardsBulletins, p.standardsTarget.bulletinsIncluded != []),
     Item(EvidenceFreeze, p.testPlan != [] && BindsArtifact(b, PROFILE_ARTIFACT) && hasVectors),
     Item(TracePrivacy, MasksTraces(b))]
  }

  /** `payload_capability_coverage`. */
  function PayloadCoverage(b: Bundle): seq<Coverage> {
    [Item(Selection, true),
     Item(ContactL2, "contact" in b.payload.submissionScope.interfaces),
     Item(ContactlessC8, NamesContactless(b.payload) && RegistersContactless(b.payload)),
     Item(SecurityTrust, false)]
  }

  // ---------------------------------------------------------------- the report

  predicate HasFinding(findings: seq<Finding>, severity: Severity) {
    exists i | 0 <= i < |findings| :: findings[i].severity == severity
  }

  predicate HasCoverage(coverage: seq<Coverage>, status: CoverageStatus) {
    exists i | 0 <= i < |coverage| :: coverage[i].status == status
  }

  /** `finalize_compile_status`. */
  function FinalStatus(findings: seq<Finding>, coverage: seq<Coverage>): CompileStatus {
    if HasFinding(findings, Error) || HasCoverage(coverage, Incomplete) then StatusFail
    else if HasFinding(findings, Warning) || HasCoverage(coverage, ExternalRequired) then StatusWarn
    else StatusPass
  }

  /** What the parsers and the loader make of the two files: a loader result only when both parse. */
  datatype Inputs = Inputs(bundle: Result<Bundle>, anchors: Result<seq<TrustAnchor>>, loaded: Option<Result<LoadedBundle>>)

  /** The loader runs on the parsed anchors, and only when both files parse. */
  function LoadIfParsed(
    c: Crypto, bundleJson: seq<byte>, policy: LoadPolicy, bundle: Result<Bundle>, anchors: Result<seq<TrustAnchor>>)
    : Option<Result<LoadedBundle>>
  {
    hide LoadCertificationBundle;
    if bundle.Ok? && anchors.Ok?
    then Some(LoadCertificationBundle(c, bundleJson, policy.(trustAnchors := anchors.value))) else None
  }

  function ReadInputs(c: Crypto, bundleJson: seq<byte>, anchorsJson: seq<byte>, policy: LoadPolicy): Inputs {
    Inputs(ParseCertificationBundle(bundleJson), ParseTrustAnchors(anchorsJson),
      LoadIfParsed(c, bundleJson, policy, ParseCertificationBundle(bundleJson), ParseTrustAnchors(anchorsJson)))
  }

  function ReportFindings(c: Crypto, noBundle: bool, noAnchors: bool, inputs: Inputs, policy: LoadPolicy): seq<Finding> {
    var f1 := Add([], noBundle, Error, BundleJson);
    var f2 := Add(f1, noAnchors, Error, AnchorsJson);
    var f3 := match inputs.bundle
      case Ok(b) => LintBundle(f2, b, policy)
      case Err(_) => Add(f2, true, Error, BundleJson);
    var f4 := match inputs.anchors
      case Ok(anchors) => LintAnchors(c, f3, anchors, policy.evaluationDate)
      case Err(_) => Add(f3, true, Error, AnchorsJson);
    match inputs.loaded
    case None => f4
    case Some(Ok(_)) => Add(f4, true, Info, WholeBundle)
    case Some(Err(_)) => Add(f4, true, Error, WholeBundle)
  }

  function ReportCoverage(inputs: Inputs): seq<Coverage> {
    match inputs
    case Inputs(_, _, Some(Ok(l))) => CapabilityCoverage(l)
    case Inputs(Ok(b), _, _) => PayloadCoverage(b)
    case _ => []
  }

  /** A report's contents; `hashes` are those of the bundle, its payload, the profile set and the vectors. */
  datatype ReportValue = ReportValue(
    mode: Profile.BuildMode, status: CompileStatus, findings: seq<Finding>, coverage: seq<Coverage>,
    hashes: seq<Option<string>>, verificationStatus: Option<VerificationStatus>)

  function Compiled(c: Crypto, noBundle: bool, noAnchors: bool, inputs: Inputs, policy: LoadPolicy): ReportValue {
    var findings, coverage := ReportFindings(c, noBundle, noAnchors, inputs, policy), ReportCoverage(inputs);
    var status := FinalStatus(findings, coverage);
    match inputs.loaded
    case Some(Ok(l)) =>
      ReportValue(policy.mode, status, findings, coverage,
        [Some(ToHex(l.bundleSha256)), Some(ToHex(l.payloadSha256)), Some(ToHex(l.schemeProfileSha256)),
         Some(ToHex(l.vectorBundleSha256))],
        Some(l.verificationStatus))
    case _ => ReportValue(policy.mode, status, findings, coverage, [None, None, None, None], None)
  }

  class Report {
    const mode: Profile.BuildMode
    var status: CompileStatus
    var findings: seq<Finding>
    var coverage: seq<Coverage>
    var bundleSha256: Option<string>
    var payloadSha256: Option<string>
    var schemeProfileSha256: Option<string>
    var vectorBundleSha256: Option<string>
    var verificationStatus: Option<VerificationStatus>

    constructor (mode: Profile.BuildMode)
      ensures this.mode == mode && status == StatusPass && findings == [] && coverage == []
      ensures bundleSha256 == payloadSha256 == schemeProfileSha256 == vectorBundleSha256 == None
      ensures verificationStatus == None
    {
      this.mode := mode;
      status, findings, coverage := StatusPass, [], [];
      bundleSha256, payloadSha256, schemeProfileSha256, vectorBundleSha256 := None, None, None, None;
      verificationStatus := None;
    }

    /** The report as a value, as the compiler hands it out. */
    function Value(): ReportValue
      reads this
    {
      ReportValue(mode, status, findings, coverage,
        [bundleSha256, payloadSha256, schemeProfileSha256, vectorBundleSha256], verificationStatus)
    }

    /** `push_finding`. */
    method PushFinding(severity: Severity, path: FieldPath)
      modifies this`findings
      ensures findings == Add(old(findings), true, severity, path)
    {
      findings := findings + [Finding(severity, path)];
    }

    /** `lint_pending_text`. */
    method LintPendingText(path: FieldPath, value: string)
      modifies this`findings
      ensures findings == Add(old(findings), IsPending(value), Warning, path)
    {
      hide IsPending;
      if IsPending(value) {
        PushFinding(Warning, path);
      }
    }

    method LintPolicyChecks(b: Bundle, policy: LoadPolicy)
      modifies this`findings
      ensures findings == LintPolicy(old(findings), b, policy)
    {
      if b.bundleClass == Testing && policy.mode != Profile.Test {
        PushFinding(Error, ClassPath);
      }
      if b.rollbackCounter <= policy.installedRollbackCounter {
        PushFinding(Error, RollbackPath);
      }
      if policy.evaluationDate.Before(b.created) {
        PushFinding(Error, CreatedPath);
      }
      if b.signature.algorithm == TEST_ALGORITHM {
        PushFinding(Warning, AlgorithmPath);
      }
    }

    method LintReferenceTexts(p: Payload)
      modifies this`findings
      ensures findings == LintReferences(old(findings), p)
    {
      hide IsPending, Add;
      LintPendingText(TargetPath, p.submissionScope.certificationTarget);
      LintPendingText(DevicePath, p.terminalProfile.deviceModel);
      LintPendingText(FirmwarePath, p.terminalProfile.firmwareVersion);
      LintPendingText(L1Path, p.terminalProfile.l1ApprovalReference);
      LintPendingText(PciPath, p.terminalProfile.pciPtsReference);
      ghost var start := findings;
      for i := 0 to |p.submissionScope.authorities|
        invariant findings == LintAuthorities(start, p.submissionScope.authorities, i)
      {
        LintPendingText(AuthorityPath(i), p.submissionScope.authorities[i]);
      }
    }

    method LintPayloadContents(b: Bundle)
      modifies this`findings
      ensures findings == LintContents(old(findings), b)
    {
      hide VectorStatus, MasksTraces;
      if b.payload.standardsTarget.bulletinsIncluded == [] {
        PushFinding(Error, BulletinsPath);
      }
      if !MasksTraces(b) {
        PushFinding(Error, MaskingPath);
      }
      if |b.payload.artifactHashes| < 2 {
        PushFinding(Warning, ArtifactsPath);
      }
      match VectorStatus(b.payload.vectorBundleJson)
      case Covered =>
      case ExternalRequired => PushFinding(Warning, VectorPath);
      case _ => PushFinding(Error, VectorPath);
    }

    /** `lint_parsed_bundle`. */
    method LintParsedBundle(b: Bundle, policy: LoadPolicy)
      modifies this`findings
      ensures findings == LintBundle(old(findings), b, policy)
    {
      hide LintPolicy, LintReferences, LintContents;
      LintPolicyChecks(b, policy);
      LintReferenceTexts(b.payload);
      LintPayloadContents(b);
    }

    /** `lint_trust_anchors`. */
    method LintTrustAnchors(c: Crypto, anchors: seq<TrustAnchor>, policy: LoadPolicy)
      modifies this`findings
      ensures findings == LintAnchors(c, old(findings), anchors, policy.evaluationDate)
    {
      hide FixturePublicKeyHex, IsExpired;
      if anchors == [] {
        PushFinding(Error, AnchorListPath);
      }
      ghost var start := findings;
      for i := 0 to |anchors|
        invariant findings == LintAnchorsUpTo(c, start, anchors, policy.evaluationDate, i)
      {
        if anchors[i].verificationPublicKeyHex == FixturePublicKeyHex(c) {
          PushFinding(Warning, AnchorKeyPath(i));
        }
        if IsExpired(anchors[i], policy.evaluationDate) {
          PushFinding(Error, AnchorExpiryPath(i));
        }
      }
    }

    method RecordLoaded(l: LoadedBundle)
      modifies this`bundleSha256, this`payloadSha256, this`schemeProfileSha256, this`vectorBundleSha256,
        this`verificationStatus
      ensures bundleSha256 == Some(ToHex(l.bundleSha256)) && payloadSha256 == Some(ToHex(l.payloadSha256))
      ensures schemeProfileSha256 == Some(ToHex(l.schemeProfileSha256))
      ensures vectorBundleSha256 == Some(ToHex(l.vectorBundleSha256))
      ensures verificationStatus == Some(l.verificationStatus)
    {
      hide ToHex;
      bundleSha256 := Some(ToHex(l.bundleSha256));
      payloadSha256 := Some(ToHex(l.payloadSha256));
      schemeProfileSha256 := Some(ToHex(l.schemeProfileSha256));
      vectorBundleSha256 := Some(ToHex(l.vectorBundleSha256));
      verificationStatus := Some(l.verificationStatus);
    }

    /** `finalize_compile_status`. */
    method FinalizeCompileStatus()
      modifies this`status
      ensures status == FinalStatus(findings, coverage)
    {
      status := FinalStatus(findings, coverage);
    }
  }

  /** `certification_bundle_compile_report`. */
  method CompileBundle(c: Crypto, bundleJson: seq<byte>, anchorsJson: seq<byte>, policy: LoadPolicy)
    returns (contents: ReportValue)
    ensures contents
      == Compiled(c, bundleJson == [], anchorsJson == [], ReadInputs(c, bundleJson, anchorsJson, policy), policy)
  {
    hide ParseCertificationBundle, ParseTrustAnchors, LoadCertificationBundle, LintBundle, LintAnchors,
      CapabilityCoverage,
      PayloadCoverage, FinalStatus, ToHex;
    var report := new Report(policy.mode);
    if bundleJson == [] {
      report.PushFinding(Error, BundleJson);
    }
    if anchorsJson == [] {
      report.PushFinding(Error, AnchorsJson);
    }
    var bundle := ParseCertificationBundle(bundleJson);
    match bundle {
      case Ok(b) => report.LintParsedBundle(b, policy);
      case Err(_) => report.PushFinding(Error, BundleJson);
    }
    var anchors := ParseTrustAnchors(anchorsJson);
    match anchors {
      case Ok(list) => report.LintTrustAnchors(c, list, policy);
      case Err(_) => report.PushFinding(Error, AnchorsJson);
    }
    if bundle.Ok? && anchors.Ok? {
      match LoadCertificationBundle(c, bundleJson, policy.(trustAnchors := anchors.value)) {
        case Ok(l) =>
          report.RecordLoaded(l);
          report.PushFinding(Info, WholeBundle);
          report.coverage := CapabilityCoverage(l);
        case Err(_) =>
          report.PushFinding(Error, WholeBundle);
          report.coverage := PayloadCoverage(bundle.value);
      }
    } else if bundle.Ok? {
      report.coverage := PayloadCoverage(bundle.value);
    }
    report.FinalizeCompileStatus();
    contents := report.Value();
  }

  // ---------------------------------------------------------------- what a report means

  lemma AddHas(findings: seq<Finding>, condition: bool, severity: Severity, path: FieldPath)
    ensures forall f :: f in Add(findings, condition, severity, path) <==> f in findings || (condition && f == Finding(severity, path))
  {
  }

  /** Where the findings of one severity point. */
  ghost function Paths(findings: seq<Finding>, severity: Severity): set<FieldPath> {
    set f | f in findings && f.severity == severity :: f.path
  }

  function PathIf(condition: bool, path: FieldPath): set<FieldPath> {
    if condition then {path} else {}
  }

  lemma AddPaths(findings: seq<Finding>, condition: bool, severity: Severity, path: FieldPath, s: Severity)
    ensures Paths(Add(findings, condition, severity, path), s) == Paths(findings, s) + PathIf(condition && severity == s, path)
  {
    AddHas(findings, condition, severity, path);
    var more := Add(findings, condition, severity, path);
    forall p
      ensures p in Paths(more, s) <==> p in Paths(findings, s) + PathIf(condition && severity == s, path)
    {
      if p in Paths(findings, s) {
        assert Finding(s, p) in findings && Finding(s, p) in more;
      }
      if condition && severity == s && p == path {
        assert Finding(s, p) in more;
      }
    }
  }

  lemma FindingsDecide(findings: seq<Finding>, s: Severity)
    ensures HasFinding(findings, s) <==> Paths(findings, s) != {}
  {
    if HasFinding(findings, s) {
      var i :| 0 <= i < |findings| && findings[i].severity == s;
      assert findings[i] in findings && findings[i].path in Paths(findings, s);
    }
    if Paths(findings, s) != {} {
      var p :| p in Paths(findings, s);
      var f :| f in findings && f.severity == s && f.path == p;
      var i :| 0 <= i < |findings| && findings[i] == f;
    }
  }

  lemma NoFindingsYet(s: Severity)
    ensures Paths([], s) == {}
  {
  }

  // ---------------------------------------------------------------- the findings of a parsed bundle

  function PolicyPaths(b: Bundle, policy: LoadPolicy, s: Severity): set<FieldPath> {
    match s
    case Error =>
      PathIf(b.bundleClass == Testing && policy.mode != Profile.Test, ClassPath)
      + PathIf(b.rollbackCounter <= policy.installedRollbackCounter, RollbackPath)
      + PathIf(policy.evaluationDate.Before(b.created), CreatedPath)
    case Warning => PathIf(b.signature.algorithm == TEST_ALGORITHM, AlgorithmPath)
    case Info => {}
  }

  function PendingAuthorities(authorities: seq<string>, n: nat): set<FieldPath>
    requires n <= |authorities|
  {
    set i | 0 <= i < n && IsPending(authorities[i]) :: AuthorityPath(i)
  }

  function ReferencePaths(p: Payload, s: Severity): set<FieldPath> {
    if s != Warning then {}
    else
      PathIf(IsPending(p.submissionScope.certificationTarget), TargetPath)
      + PathIf(IsPending(p.terminalProfile.deviceModel), DevicePath)
      + PathIf(IsPending(p.terminalProfile.firmwareVersion), FirmwarePath)
      + PathIf(IsPending(p.terminalProfile.l1ApprovalReference), L1Path)
      + PathIf(IsPending(p.terminalProfile.pciPtsReference), PciPath)
      + PendingAuthorities(p.submissionScope.authorities, |p.submissionScope.authorities|)
  }

  function ContentPaths(b: Bundle, s: Severity): set<FieldPath> {
    match s
    case Error =>
      PathIf(b.payload.standardsTarget.bulletinsIncluded == [], BulletinsPath)
      + PathIf(!MasksTraces(b), MaskingPath)
      + PathIf(VectorStatus(b.payload.vectorBundleJson) == Incomplete, VectorPath)
    case Warning =>
      PathIf(|b.payload.artifactHashes| < 2, ArtifactsPath)
      + PathIf(VectorStatus(b.payload.vectorBundleJson) == ExternalRequired, VectorPath)
    case Info => {}
  }

  /** Where the lints of a parsed bundle point. */
  ghost function BundlePaths(b: Bundle, policy: LoadPolicy, s: Severity): set<FieldPath> {
    PolicyPaths(b, policy, s) + ReferencePaths(b.payload, s) + ContentPaths(b, s)
  }

  lemma PolicyFindings(findings: seq<Finding>, b: Bundle, policy: LoadPolicy, s: Severity)
    ensures Paths(LintPolicy(findings, b, policy), s) == Paths(findings, s) + PolicyPaths(b, policy, s)
  {
    hide Paths, Add;
    var f1 := Add(findings, b.bundleClass == Testing && policy.mode != Profile.Test, Error, ClassPath);
    var f2 := Add(f1, b.rollbackCounter <= policy.installedRollbackCounter, Error, RollbackPath);
    var f3 := Add(f2, policy.evaluationDate.Before(b.created), Error, CreatedPath);
    AddPaths(findings, b.bundleClass == Testing && policy.mode != Profile.Test, Error, ClassPath, s);
    AddPaths(f1, b.rollbackCounter <= policy.installedRollbackCounter, Error, RollbackPath, s);
    AddPaths(f2, policy.evaluationDate.Before(b.created), Error, CreatedPath, s);
    AddPaths(f3, b.signature.algorithm == TEST_ALGORITHM, Warning, AlgorithmPath, s);
  }

  lemma {:induction false} AuthorityFindings(findings: seq<Finding>, authorities: seq<string>, n: nat, s: Severity)
    requires n <= |authorities|
    ensures Paths(LintAuthorities(findings, authorities, n), s)
      == Paths(findings, s) + if s == Warning then PendingAuthorities(authorities, n) else {}
  {
    hide Paths, Add, IsPending;
    if n > 0 {
      AuthorityFindings(findings, authorities, n - 1, s);
      AddPaths(LintAuthorities(findings, authorities, n - 1), IsPending(authorities[n - 1]), Warning, AuthorityPath(n - 1), s);
      assert PendingAuthorities(authorities, n)
          == PendingAuthorities(authorities, n - 1) + PathIf(IsPending(authorities[n - 1]), AuthorityPath(n - 1));
    }
  }

  lemma ReferenceFindings(findings: seq<Finding>, p: Payload, s: Severity)
    ensures Paths(LintReferences(findings, p), s) == Paths(findings, s) + ReferencePaths(p, s)
  {
    hide Paths, Add, IsPending, LintAuthorities, PendingAuthorities;
    var f1 := Add(findings, IsPending(p.submissionScope.certificationTarget), Warning, TargetPath);
    var f2 := Add(f1, IsPending(p.terminalProfile.deviceModel), Warning, DevicePath);
    var f3 := Add(f2, IsPending(p.terminalProfile.firmwareVersion), Warning, FirmwarePath);
    var f4 := Add(f3, IsPending(p.terminalProfile.l1ApprovalReference), Warning, L1Path);
    var f5 := Add(f4, IsPending(p.terminalProfile.pciPtsReference), Warning, PciPath);
    AddPaths(findings, IsPending(p.submissionScope.certificationTarget), Warning, TargetPath, s);
    AddPaths(f1, IsPending(p.terminalProfile.deviceModel), Warning, DevicePath, s);
    AddPaths(f2, IsPending(p.terminalProfile.firmwareVersion), Warning, FirmwarePath, s);
    AddPaths(f3, IsPending(p.terminalProfile.l1ApprovalReference), Warning, L1Path, s);
    AddPaths(f4, IsPending(p.terminalProfile.pciPtsReference), Warning, PciPath, s);
    AuthorityFindings(f5, p.submissionScope.authorities, |p.submissionScope.authorities|, s);
  }

  lemma ContentFindings(findings: seq<Finding>, b: Bundle, s: Severity)
    ensures Paths(LintContents(findings, b), s) == Paths(findings, s) + ContentPaths(b, s)
  {
    hide Paths, Add, MasksTraces;
    var p := b.payload;
    var f1 := Add(findings, p.standardsTarget.bulletinsIncluded == [], Error, BulletinsPath);
    var f2 := Add(f1, !MasksTraces(b), Error, MaskingPath);
    var f3 := Add(f2, |p.artifactHashes| < 2, Warning, ArtifactsPath);
    AddPaths(findings, p.standardsTarget.bulletinsIncluded == [], Error, BulletinsPath, s);
    AddPaths(f1, !MasksTraces(b), Error, MaskingPath, s);
    AddPaths(f2, |p.artifactHashes| < 2, Warning, ArtifactsPath, s);
    AddPaths(f3, true, Warning, VectorPath, s);
    AddPaths(f3, true, Error, VectorPath, s);
  }

  lemma BundleFindings(findings: seq<Finding>, b: Bundle, policy: LoadPolicy, s: Severity)
    ensures Paths(LintBundle(findings, b, policy), s) == Paths(findings, s) + BundlePaths(b, policy, s)
  {
    hide Paths, Add, LintPolicy, LintReferences, LintContents, PolicyPaths, ReferencePaths, ContentPaths;
    var g1 := LintPolicy(findings, b, policy);
    PolicyFindings(findings, b, policy, s);
    ReferenceFindings(g1, b.payload, s);
    ContentFindings(LintReferences(g1, b.payload), b, s);
  }

  // ---------------------------------------------------------------- the findings of parsed anchors

  function ExpiredPaths(anchors: seq<TrustAnchor>, today: EmvDate, n: nat): set<FieldPath>
    requires n <= |anchors|
  {
    set i | 0 <= i < n && IsExpired(anchors[i], today) :: AnchorExpiryPath(i)
  }

  function AllExpiredPaths(anchors: seq<TrustAnchor>, today: EmvDate): set<FieldPath> {
    ExpiredPaths(anchors, today, |anchors|)
  }

  predicate HoldsFixtureKey(c: Crypto, anchor: TrustAnchor) {
    anchor.verificationPublicKeyHex == FixturePublicKeyHex(c)
  }

  function FixturePaths(c: Crypto, anchors: seq<TrustAnchor>, n: nat): set<FieldPath>
    requires n <= |anchors|
  {
    set i | 0 <= i < n && HoldsFixtureKey(c, anchors[i]) :: AnchorKeyPath(i)
  }

  function AnchorPathsUpTo(c: Crypto, anchors: seq<TrustAnchor>, today: EmvDate, n: nat, s: Severity): set<FieldPath>
    requires n <= |anchors|
  {
    match s
    case Error => ExpiredPaths(anchors, today, n)
    case Warning => FixturePaths(c, anchors, n)
    case Info => {}
  }

  /** Where the lints of parsed anchors point. */
  ghost function AnchorPaths(c: Crypto, anchors: seq<TrustAnchor>, today: EmvDate, s: Severity): set<FieldPath> {
    PathIf(anchors == [] && s == Error, AnchorListPath) + AnchorPathsUpTo(c, anchors, today, |anchors|, s)
  }

  lemma {:induction false} AnchorFindingsUpTo(
    c: Crypto, findings: seq<Finding>, anchors: seq<TrustAnchor>, today: EmvDate, n: nat, s: Severity)
    requires n <= |anchors|
    ensures Paths(LintAnchorsUpTo(c, findings, anchors, today, n), s)
      == Paths(findings, s) + AnchorPathsUpTo(c, anchors, today, n, s)
  {
    hide Paths, Add, IsExpired, FixturePublicKeyHex;
    if n > 0 {
      var before := LintAnchorsUpTo(c, findings, anchors, today, n - 1);
      var anchor := anchors[n - 1];
      var fixture := HoldsFixtureKey(c, anchor);
      AnchorFindingsUpTo(c, findings, anchors, today, n - 1, s);
      AddPaths(before, fixture, Warning, AnchorKeyPath(n - 1), s);
      AddPaths(Add(before, fixture, Warning, AnchorKeyPath(n - 1)), IsExpired(anchor, today), Error, AnchorExpiryPath(n - 1), s);
      assert ExpiredPaths(anchors, today, n)
          == ExpiredPaths(anchors, today, n - 1) + PathIf(IsExpired(anchor, today), AnchorExpiryPath(n - 1));
      assert FixturePaths(c, anchors, n) == FixturePaths(c, anchors, n - 1) + PathIf(fixture, AnchorKeyPath(n - 1));
    }
  }

  lemma AnchorFindings(c: Crypto, findings: seq<Finding>, anchors: seq<TrustAnchor>, today: EmvDate, s: Severity)
    ensures Paths(LintAnchors(c, findings, anchors, today), s) == Paths(findings, s) + AnchorPaths(c, anchors, today, s)
  {
    hide Paths, Add, LintAnchorsUpTo, AnchorPathsUpTo;
    AddPaths(findings, anchors == [], Error, AnchorListPath, s);
    AnchorFindingsUpTo(c, Add(findings, anchors == [], Error, AnchorListPath), anchors, today, |anchors|, s);
  }

  /** Where the errors, and where the warnings, of a report on two files that parse point. */
  lemma ParsedFindings(c: Crypto, noBundle: bool, noAnchors: bool, inputs: Inputs, policy: LoadPolicy, s: Severity)
    requires inputs.bundle.Ok? && inputs.anchors.Ok? && inputs.loaded.Some?
    requires s != Info
    ensures Paths(ReportFindings(c, noBundle, noAnchors, inputs, policy), s)
      == PathIf(noBundle && s == Error, BundleJson) + PathIf(noAnchors && s == Error, AnchorsJson)
       + BundlePaths(inputs.bundle.value, policy, s) + AnchorPaths(c, inputs.anchors.value, policy.evaluationDate, s)
       + PathIf(inputs.loaded.value.Err? && s == Error, WholeBundle)
  {
    hide Paths, Add, LintBundle, LintAnchors, BundlePaths, AnchorPaths;
    var f1 := Add([], noBundle, Error, BundleJson);
    var f2 := Add(f1, noAnchors, Error, AnchorsJson);
    var f3 := LintBundle(f2, inputs.bundle.value, policy);
    var f4 := LintAnchors(c, f3, inputs.anchors.value, policy.evaluationDate);
    NoFindingsYet(s);
    AddPaths([], noBundle, Error, BundleJson, s);
    AddPaths(f1, noAnchors, Error, AnchorsJson, s);
    BundleFindings(f2, inputs.bundle.value, policy, s);
    AnchorFindings(c, f3, inputs.anchors.value, policy.evaluationDate, s);
    AddPaths(f4, true, Info, WholeBundle, s);
    AddPaths(f4, true, Error, WholeBundle, s);
  }

  predicate NoneExpired(anchors: seq<TrustAnchor>, today: EmvDate) {
    forall i | 0 <= i < |anchors| :: !IsExpired(anchors[i], today)
  }

  lemma ExpiryErrors(anchors: seq<TrustAnchor>, today: EmvDate)
    ensures AllExpiredPaths(anchors, today) == {} <==> NoneExpired(anchors, today)
  {
    hide IsExpired;
    if !NoneExpired(anchors, today) {
      var i :| 0 <= i < |anchors| && IsExpired(anchors[i], today);
      assert AnchorExpiryPath(i) in AllExpiredPaths(anchors, today);
    }
  }

  /** The capabilities a bundle must have for its coverage to hold nothing incomplete. */
  predicate IsComplete(l: LoadedBundle) {
    var b, ps := l.bundle, l.profileSet;
    var p := b.payload;
    && l.verificationStatus == TrustAnchorVerified && MasksTraces(b)
    && "contact" in p.submissionScope.interfaces && NamesContactless(p) && RegistersContactless(p)
    && p.standardsTarget.bulletinsIncluded != [] && p.testPlan != [] && ps.schemes != []
    && BindsArtifact(b, PROFILE_ARTIFACT) && BindsArtifact(b, VECTOR_ARTIFACT)
    && VectorStatus(p.vectorBundleJson) != Incomplete
    && SomeScheme(ps, (s: Profile.SchemeProfile) => s.aids != [])
    && SomeScheme(ps, (s: Profile.SchemeProfile) => s.contactKernelType.Some?)
    && SomeScheme(ps, (s: Profile.SchemeProfile) => s.capks != [])
    && SomeAid(ps, (a: Profile.AidProfile) => "contact" in a.interfaces)
    && SomeAid(ps, (a: Profile.AidProfile) => "contactless" in a.interfaces)
    && SomeAid(ps, (a: Profile.AidProfile) => a.cdaSupported && a.cdaRequestEncoding.Some?)
    && SomeAid(ps, (a: Profile.AidProfile) => ManagesRisk(a))
    && SomeAid(ps, (a: Profile.AidProfile) => a.criticalIssuerScriptIns != [])
    && (p.cvmExtensions != [] || SomeAid(ps, (a: Profile.AidProfile) =>
          a.cvmLimitContact > 0 || a.contactlessCvmLimit > 0 || a.cdcvmSupported))
  }

  lemma CompleteCoverage(l: LoadedBundle)
    ensures !HasCoverage(CapabilityCoverage(l), Incomplete) <==> IsComplete(l)
  {
    hide VectorStatus, MasksTraces, BindsArtifact, NamesContactless, RegistersContactless, SomeAid, SomeScheme,
      IsPending;
    var items := CapabilityCoverage(l);
    assert |items| == 17;
    assert !HasCoverage(items, Incomplete) <==>
      && items[0].status != Incomplete && items[1].status != Incomplete && items[2].status != Incomplete
      && items[3].status != Incomplete && items[4].status != Incomplete && items[5].status != Incomplete
      && items[6].status != Incomplete && items[7].status != Incomplete && items[8].status != Incomplete
      && items[9].status != Incomplete && items[10].status != Incomplete && items[11].status != Incomplete
      && items[12].status != Incomplete && items[13].status != Incomplete && items[14].status != Incomplete
      && items[15].status != Incomplete && items[16].status != Incomplete;
  }

  // ---------------------------------------------------------------- soundness of the status

  /** What a loader that accepts knows of its inputs. */
  ghost predicate AcceptedFacts(b: Bundle, anchors: seq<TrustAnchor>, policy: LoadPolicy, l: LoadedBundle) {
    && l.bundle == b && anchors != [] && b.payload.standardsTarget.bulletinsIncluded != []
    && !policy.evaluationDate.Before(b.created) && policy.installedRollbackCounter < b.rollbackCounter
    && (policy.mode != Profile.Test ==> b.bundleClass == Certification)
  }

  lemma LoaderKnows(c: Crypto, bundleJson: seq<byte>, anchorsJson: seq<byte>, policy: LoadPolicy, anchors: seq<TrustAnchor>,
      l: LoadedBundle)
    requires ParseTrustAnchors(anchorsJson) == Ok(anchors)
    requires LoadCertificationBundle(c, bundleJson, policy.(trustAnchors := anchors)) == Ok(l)
    ensures bundleJson != [] && anchorsJson != [] && ParseCertificationBundle(bundleJson) == Ok(l.bundle)
    ensures AcceptedFacts(l.bundle, anchors, policy, l)
  {
    hide ParseCertificationBundle, LoadParsed, ParseAnchorsValue, JsonReader.Parse, Authentic, GoodHead, GoodSignature;
    AcceptedLoad(c, bundleJson, policy.(trustAnchors := anchors), l);
    ParsedBulletins(bundleJson, l.bundle);
    AnchorsIff(JsonReader.Parse(anchorsJson).value, anchors);
  }

  lemma ParsedBulletins(input: seq<byte>, b: Bundle)
    requires ParseCertificationBundle(input) == Ok(b)
    ensures b.payload.standardsTarget.bulletinsIncluded != []
  {
    hide ParseCertificationBundle, GoodHead, GoodSignature, ValidatePayload, GoodScope, GoodTerminal, GoodRuntime,
      GoodKernels,
      GoodCvms, GoodTestCases, GoodArtifacts, CleanList, CleanString;
    ParsedIsGood(input, b);
  }

  /** The status rule on inputs that are what the parsers and the loader made of some files. */
  lemma StatusOfInputs(c: Crypto, noBundle: bool, noAnchors: bool, inputs: Inputs, policy: LoadPolicy)
    requires inputs.loaded.Some? <==> inputs.bundle.Ok? && inputs.anchors.Ok?
    requires inputs.loaded.Some? && inputs.loaded.value.Ok? ==>
      !noBundle && !noAnchors && AcceptedFacts(inputs.bundle.value, inputs.anchors.value, policy, inputs.loaded.value.value)
    ensures Compiled(c, noBundle, noAnchors, inputs, policy).status != StatusFail <==>
      && inputs.loaded.Some? && inputs.loaded.value.Ok?
      && IsComplete(inputs.loaded.value.value) && NoneExpired(inputs.anchors.value, policy.evaluationDate)
  {
    hide LintBundle, LintAnchors, IsComplete, CapabilityCoverage, PayloadCoverage, NoneExpired, Paths, ToHex,
      MasksTraces, VectorStatus, ExpiredPaths, HoldsFixtureKey, IsPending;
    var findings := ReportFindings(c, noBundle, noAnchors, inputs, policy);
    FindingsDecide(findings, Error);
    if inputs.loaded.Some? {
      ParsedFindings(c, noBundle, noAnchors, inputs, policy, Error);
      if inputs.loaded.value.Ok? {
        var l := inputs.loaded.value.value;
        CompleteCoverage(l);
        ExpiryErrors(inputs.anchors.value, policy.evaluationDate);
        CompleteMasks(l);
      } else {
        assert WholeBundle in Paths(findings, Error);
      }
    } else {
      UnparsedFails(c, noBundle, noAnchors, inputs, policy);
    }
  }

  lemma CompleteMasks(l: LoadedBundle)
    ensures IsComplete(l) ==> MasksTraces(l.bundle) && VectorStatus(l.bundle.payload.vectorBundleJson) != Incomplete
  {
    hide MasksTraces, VectorStatus;
  }

  lemma UnparsedFails(c: Crypto, noBundle: bool, noAnchors: bool, inputs: Inputs, policy: LoadPolicy)
    requires inputs.loaded.None? && (inputs.bundle.Err? || inputs.anchors.Err?)
    ensures HasFinding(ReportFindings(c, noBundle, noAnchors, inputs, policy), Error)
  {
    hide LintBundle, LintAnchors, Paths, Add;
    var f2 := Add(Add([], noBundle, Error, BundleJson), noAnchors, Error, AnchorsJson);
    var f3 := if inputs.bundle.Ok? then LintBundle(f2, inputs.bundle.value, policy) else Add(f2, true, Error, BundleJson);
    AddPaths(f2, true, Error, BundleJson, Error);
    AddPaths(f3, true, Error, AnchorsJson, Error);
    if inputs.anchors.Ok? {
      AnchorFindings(c, f3, inputs.anchors.value, policy.evaluationDate, Error);
    }
    FindingsDecide(ReportFindings(c, noBundle, noAnchors, inputs, policy), Error);
  }

  /** Both files parse, the loader accepts with full coverage, and no provisioned anchor has expired. */
  ghost predicate Compiles(c: Crypto, bundleJson: seq<byte>, anchorsJson: seq<byte>, policy: LoadPolicy) {
    exists anchors, l ::
      && ParseTrustAnchors(anchorsJson) == Ok(anchors)
      && LoadCertificationBundle(c, bundleJson, policy.(trustAnchors := anchors)) == Ok(l)
      && IsComplete(l) && NoneExpired(anchors, policy.evaluationDate)
  }

  function CompiledStatus(c: Crypto, bundleJson: seq<byte>, anchorsJson: seq<byte>, policy: LoadPolicy): CompileStatus {
    Compiled(c, bundleJson == [], anchorsJson == [], ReadInputs(c, bundleJson, anchorsJson, policy), policy).status
  }

  /**
   A report's status is other than "fail" exactly when both files parse, the loader accepts the bundle, its coverage is
   complete (which includes being trust-anchor-verified) and no anchor in the file has expired.
   */
  lemma StatusIsSound(c: Crypto, bundleJson: seq<byte>, anchorsJson: seq<byte>, policy: LoadPolicy)
    ensures CompiledStatus(c, bundleJson, anchorsJson, policy) != StatusFail
      <==> Compiles(c, bundleJson, anchorsJson, policy)
  {
    hide ParseCertificationBundle, ParseTrustAnchors, LoadCertificationBundle, Compiled, IsComplete, NoneExpired,
      AcceptedFacts;
    var inputs := ReadInputs(c, bundleJson, anchorsJson, policy);
    forall anchors, l |
        && ParseTrustAnchors(anchorsJson) == Ok(anchors)
        && LoadCertificationBundle(c, bundleJson, policy.(trustAnchors := anchors)) == Ok(l)
      ensures bundleJson != [] && anchorsJson != [] && ParseCertificationBundle(bundleJson) == Ok(l.bundle)
      ensures AcceptedFacts(l.bundle, anchors, policy, l)
    {
      LoaderKnows(c, bundleJson, anchorsJson, policy, anchors, l);
    }
    StatusOfInputs(c, bundleJson == [], anchorsJson == [], inputs, policy);
    if inputs.loaded.Some? && inputs.loaded.value.Ok? {
      assert LoadCertificationBundle(c, bundleJson, policy.(trustAnchors := inputs.anchors.value)) == Ok(inputs.loaded.value.value);
    }
  }

  /** When the loader accepts, the class, rollback, creation-date, bulletin and empty-list lints have found no error. */
  lemma AcceptedMeansNoPolicyErrors(c: Crypto, bundleJson: seq<byte>, anchorsJson: seq<byte>, policy: LoadPolicy,
      anchors: seq<TrustAnchor>, l: LoadedBundle, findings: seq<Finding>)
    requires ParseTrustAnchors(anchorsJson) == Ok(anchors)
    requires LoadCertificationBundle(c, bundleJson, policy.(trustAnchors := anchors)) == Ok(l)
    requires findings
      == Compiled(c, bundleJson == [], anchorsJson == [], ReadInputs(c, bundleJson, anchorsJson, policy), policy).findings
    ensures Paths(findings, Error)
      == PathIf(!MasksTraces(l.bundle), MaskingPath)
       + PathIf(VectorStatus(l.bundle.payload.vectorBundleJson) == Incomplete, VectorPath)
       + AllExpiredPaths(anchors, policy.evaluationDate)
  {
    hide ParseCertificationBundle, ParseTrustAnchors, LoadCertificationBundle, ReportFindings, ReportCoverage, Paths,
      MasksTraces, VectorStatus, ExpiredPaths, ToHex, HoldsFixtureKey, IsPending;
    LoaderKnows(c, bundleJson, anchorsJson, policy, anchors, l);
    ParsedFindings(c, bundleJson == [], anchorsJson == [], ReadInputs(c, bundleJson, anchorsJson, policy), policy, Error);
  }

  // ---------------------------------------------------------------- warnings

  /** No evidence the bundle refers to is still to come. */
  predicate ReferencesSettled(p: Payload) {
    && !IsPending(p.submissionScope.certificationTarget)
    && !IsPending(p.terminalProfile.deviceModel) && !IsPending(p.terminalProfile.firmwareVersion)
    && !IsPending(p.terminalProfile.l1ApprovalReference) && !IsPending(p.terminalProfile.pciPtsReference)
    && (forall i | 0 <= i < |p.submissionScope.authorities| :: !IsPending(p.submissionScope.authorities[i]))
  }

  predicate NoFixtureKey(c: Crypto, anchors: seq<TrustAnchor>) {
    forall i | 0 <= i < |anchors| :: !HoldsFixtureKey(c, anchors[i])
  }

  /** Nothing that compiles with a warning only: evidence, vectors and keys are the final ones. */
  predicate Settled(c: Crypto, b: Bundle, anchors: seq<TrustAnchor>) {
    ReferencesSettled(b.payload) && VectorStatus(b.payload.vectorBundleJson) == Covered && NoFixtureKey(c, anchors)
  }

  lemma ReferenceWarnings(p: Payload)
    ensures ReferencePaths(p, Warning) == {} <==> ReferencesSettled(p)
  {
    hide IsPending;
    var authorities := p.submissionScope.authorities;
    if !ReferencesSettled(p) && exists i | 0 <= i < |authorities| :: IsPending(authorities[i]) {
      var i :| 0 <= i < |authorities| && IsPending(authorities[i]);
      assert AuthorityPath(i) in PendingAuthorities(authorities, |authorities|);
    }
    if ReferencesSettled(p) {
      assert PendingAuthorities(authorities, |authorities|) == {};
    }
  }

  lemma AnchorWarnings(c: Crypto, anchors: seq<TrustAnchor>, today: EmvDate)
    ensures AnchorPaths(c, anchors, today, Warning) == {} <==> NoFixtureKey(c, anchors)
  {
    hide HoldsFixtureKey;
    if !NoFixtureKey(c, anchors) {
      var i :| 0 <= i < |anchors| && HoldsFixtureKey(c, anchors[i]);
      assert AnchorKeyPath(i) in FixturePaths(c, anchors, |anchors|);
    }
  }

  /** A bundle that binds both embedded files lists at least two artifacts. */
  lemma CompleteBindsTwo(b: Bundle)
    requires BindsArtifact(b, PROFILE_ARTIFACT) && BindsArtifact(b, VECTOR_ARTIFACT)
    ensures |b.payload.artifactHashes| >= 2
  {
    assert PROFILE_ARTIFACT[0] == 's' && VECTOR_ARTIFACT[0] == 'v';
    var i :| 0 <= i < |b.payload.artifactHashes| && b.payload.artifactHashes[i].artifactId == PROFILE_ARTIFACT;
    var k :| 0 <= k < |b.payload.artifactHashes| && b.payload.artifactHashes[k].artifactId == VECTOR_ARTIFACT;
    assert i != k;
  }

  /** On a complete bundle what is left external are vectors and the two approval references. */
  lemma ExternalCoverage(l: LoadedBundle)
    requires IsComplete(l)
    ensures HasCoverage(CapabilityCoverage(l), ExternalRequired) <==>
      || VectorStatus(l.bundle.payload.vectorBundleJson) == ExternalRequired
      || IsPending(l.bundle.payload.terminalProfile.l1ApprovalReference)
      || IsPending(l.bundle.payload.terminalProfile.pciPtsReference)
  {
    hide VectorStatus, MasksTraces, BindsArtifact, NamesContactless, RegistersContactless, SomeAid, SomeScheme,
      IsPending;
    var items := CapabilityCoverage(l);
    assert |items| == 17;
    assert items[4].status == VectorStatus(l.bundle.payload.vectorBundleJson);
    assert items[12].status == ReferenceStatus(l.bundle.payload.terminalProfile.l1ApprovalReference);
    assert items[13].status == ReferenceStatus(l.bundle.payload.terminalProfile.pciPtsReference);
    assert forall i | 0 <= i < 17 && i != 4 && i != 12 && i != 13 :: items[i].status != ExternalRequired;
  }

  lemma VectorKinds(json: string)
    ensures VectorStatus(json) in [Covered, Incomplete, ExternalRequired]
  {
    hide Contains, AsciiLower, JsonReader.Parse, RequiredString, ArraySizeAt;
  }

  /** What separates "pass" from "warn" once a report does not fail. */
  lemma WarningsOfInputs(c: Crypto, noBundle: bool, noAnchors: bool, inputs: Inputs, policy: LoadPolicy)
    requires inputs.bundle.Ok? && inputs.anchors.Ok? && inputs.loaded.Some? && inputs.loaded.value.Ok?
    requires inputs.loaded.value.value.bundle == inputs.bundle.value
    requires inputs.bundle.value.signature.algorithm != TEST_ALGORITHM
    requires IsComplete(inputs.loaded.value.value)
    requires Compiled(c, noBundle, noAnchors, inputs, policy).status != StatusFail
    ensures Compiled(c, noBundle, noAnchors, inputs, policy).status == StatusPass
      <==> Settled(c, inputs.bundle.value, inputs.anchors.value)
  {
    hide LintBundle, LintAnchors, CapabilityCoverage, PayloadCoverage, Paths, ToHex, MasksTraces,
      VectorStatus, ReferencePaths, AnchorPaths, HoldsFixtureKey, ReferencesSettled, NoFixtureKey, IsPending, BindsArtifact,
      SomeAid, SomeScheme, ManagesRisk;
    var b := inputs.bundle.value;
    FindingsDecide(ReportFindings(c, noBundle, noAnchors, inputs, policy), Warning);
    ParsedFindings(c, noBundle, noAnchors, inputs, policy, Warning);
    ReferenceWarnings(b.payload);
    AnchorWarnings(c, inputs.anchors.value, policy.evaluationDate);
    CompleteBindsTwo(b);
    VectorKinds(b.payload.vectorBundleJson);
    ExternalCoverage(inputs.loaded.value.value);
    SettledApprovals(b.payload);
  }

  lemma SettledApprovals(p: Payload)
    ensures ReferencesSettled(p) ==>
      !IsPending(p.terminalProfile.l1ApprovalReference) && !IsPending(p.terminalProfile.pciPtsReference)
  {
  }

  /** A bundle verified against an anchor is not signed with the test algorithm. */
  lemma VerifiedAlgorithm(c: Crypto, bundleJson: seq<byte>, policy: LoadPolicy, l: LoadedBundle)
    requires LoadCertificationBundle(c, bundleJson, policy) == Ok(l) && l.verificationStatus == TrustAnchorVerified
    ensures l.bundle.signature.algorithm != TEST_ALGORITHM
  {
    hide ParseCertificationBundle, LoadCertificationBundle, Vouches;
    AcceptedLoad(c, bundleJson, policy, l);
    assert SIGNATURE_ALGORITHM[9] == 'e' && TEST_ALGORITHM[9] == 's';
  }

  /** The files compile and nothing in them is provisional. */
  ghost predicate CompilesCleanly(c: Crypto, bundleJson: seq<byte>, anchorsJson: seq<byte>, policy: LoadPolicy) {
    exists anchors, l ::
      && ParseTrustAnchors(anchorsJson) == Ok(anchors)
      && LoadCertificationBundle(c, bundleJson, policy.(trustAnchors := anchors)) == Ok(l)
      && IsComplete(l) && NoneExpired(anchors, policy.evaluationDate) && Settled(c, l.bundle, anchors)
  }

  /**
   The status is "pass" exactly when the files compile and, beyond that, no reference is pending, the vectors are
   certification vectors and no anchor holds the fixture key; every other file that compiles is a "warn".
   */
  lemma PassIsClean(c: Crypto, bundleJson: seq<byte>, anchorsJson: seq<byte>, policy: LoadPolicy)
    ensures CompiledStatus(c, bundleJson, anchorsJson, policy) == StatusPass
      <==> CompilesCleanly(c, bundleJson, anchorsJson, policy)
    ensures CompiledStatus(c, bundleJson, anchorsJson, policy) == StatusWarn
      <==> Compiles(c, bundleJson, anchorsJson, policy) && !CompilesCleanly(c, bundleJson, anchorsJson, policy)
  {
    hide ParseCertificationBundle, ParseTrustAnchors, LoadCertificationBundle, Compiled, IsComplete, NoneExpired, Settled,
      AcceptedFacts;
    StatusIsSound(c, bundleJson, anchorsJson, policy);
    var inputs := ReadInputs(c, bundleJson, anchorsJson, policy);
    if Compiles(c, bundleJson, anchorsJson, policy) {
      var anchors, l :|
        && ParseTrustAnchors(anchorsJson) == Ok(anchors)
        && LoadCertificationBundle(c, bundleJson, policy.(trustAnchors := anchors)) == Ok(l)
        && IsComplete(l) && NoneExpired(anchors, policy.evaluationDate);
      LoaderKnows(c, bundleJson, anchorsJson, policy, anchors, l);
      assert inputs.loaded == Some(Ok(l)) && inputs.bundle == Ok(l.bundle) && inputs.anchors == Ok(anchors);
      CompleteIsVerified(l);
      VerifiedAlgorithm(c, bundleJson, policy.(trustAnchors := anchors), l);
      WarningsOfInputs(c, bundleJson == [], anchorsJson == [], inputs, policy);
    }
  }

  lemma CompleteIsVerified(l: LoadedBundle)
    requires IsComplete(l)
    ensures l.verificationStatus == TrustAnchorVerified
  {
    hide SomeAid, SomeScheme, MasksTraces, VectorStatus;
  }
}
