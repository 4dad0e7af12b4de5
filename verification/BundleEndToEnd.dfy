/**
 What `create_bundle_from_inputs` makes, `load_certification_bundle` accepts (src/cert_bundle.rs), under a correct
 signature scheme.
 */
module BundleEndToEnd {
  import opened Kernel
  import opened Text
  import opened Hex
  import opened Dates
  import opened JsonSyntax
  import opened JsonDoc
  import opened BundleRecords
  import opened BundleReader
  import opened BundleRoundTrip
  import opened BundleTrust
  import opened BundleProvision
  import opened CleanText
  import opened CreatedRecords
  import opened Canonical
  import JsonReader
  import Profile

  lemma CreatedIsSound(c: Crypto, input: ProvisioningInput, b: Bundle, anchor: TrustAnchor)
    returns (lists: InputLists, secret: Bytes32)
    requires CreateBundle(c, input) == Ok((b, anchor)) && PrintableInput(input)
    ensures b == SignedBundle(c, input, b.payload, secret) && anchor == AnchorFor(c, input, b.payload, secret)
    ensures b.payload.schemeProfileSetJson == input.schemeProfileSetJson
    ensures GoodBundle(b) && PlainStrings(BundleDoc(b)) && FitsLimits(BundleDoc(b))
    ensures GoodAnchors([anchor]) && PlainStrings(AnchorsDoc([anchor])) && FitsLimits(AnchorsDoc([anchor]))
  {
    hide CreateBundle, ValidatePayload, IsIdentifier, GoodTimeouts, ListsOf, CleanSet, CleanList, Printable,
      PrintableLists,
      PlainLists, GoodPayload, GoodSignature, PayloadDoc, SignatureFields, BundleDoc, AnchorsDoc, FitsLimits, PlainStrings,
      SignatureOf, DocNodes, DocHeight;
    lists, secret := CreateSteps(c, input, b, anchor);
    ListsAreGood(input, lists);
    assert BoundedLists(lists) by { GoodListsAreBounded(lists); }
    PayloadIsGood(c, input, lists);
    PayloadIsPlain(c, input, lists);
    PayloadFits(c, input, lists);
    SignatureIsGood(c, input.signerId, secret, PayloadHash(c, b.payload));
    SignatureIsPlain(c, input.signerId, secret, PayloadHash(c, b.payload));
    BundleIsPlain(b);
    BundleFits(b);
    AnchorIsGood(c, input, b.payload, secret);
    AnchorIsPlain(c, input, b.payload, secret);
    AnchorFits(anchor);
  }

  /** Every input reaches the record field it is for, and the artifact hashes bind the two embedded files. */
  lemma CreatedCarriesInputs(c: Crypto, input: ProvisioningInput, b: Bundle, anchor: TrustAnchor)
    requires CreateBundle(c, input) == Ok((b, anchor))
    ensures b.bundleId == input.bundleId && b.bundleVersion == input.bundleVersion
    ensures b.rollbackCounter == input.rollbackCounter && b.bundleClass == input.bundleClass && b.created == input.created
    ensures
      var s := b.payload.submissionScope;
      && s.productName == input.productName && s.productVersion == input.productVersion
      && s.certificationTarget == input.certificationTarget
      && Ok(s.interfaces) == SplitCsv(input.interfaces) && Ok(s.authorities) == SplitCsv(input.authorities)
    ensures
      var s := b.payload.standardsTarget;
      && s.emvContactVersion == input.emvContactVersion && s.emvContactlessKernel == input.emvContactlessKernel
      && Ok(s.bulletinsIncluded) == SplitCsv(input.bulletinsIncluded)
      && Ok(s.bulletinsExcluded) == SplitCsvAllowEmpty(input.bulletinsExcluded)
    ensures
      var t := b.payload.terminalProfile;
      && t.terminalType == input.terminalType && t.deviceModel == input.deviceModel
      && t.firmwareVersion == input.firmwareVersion && t.l1ApprovalReference == input.l1ApprovalReference
      && t.pciPtsReference == input.pciPtsReference && Ok(t.supportedInterfaces) == SplitCsv(input.interfaces)
    ensures |b.payload.kernelRegistry| == 1 &&
      var k := b.payload.kernelRegistry[0];
      && k.kernelProfileId == input.kernelProfileId && k.iface == input.kernelInterface
      && k.algorithm == input.kernelAlgorithm && k.c8Package == input.c8Package
      && Ok(k.schemeScope) == SplitCsv(input.schemeScope)
    ensures b.payload.runtimePolicy.callbackTimeouts ==
      if input.callbackTimeouts.Some? then input.callbackTimeouts.value else CallbackTimeouts(500, 30_000, 30_000, 5_000)
    ensures |b.payload.testPlan| == 1 && b.payload.testPlan[0].vectorClass == input.vectorClass
    ensures |b.payload.cvmExtensions| == 1 && Ok(b.payload.cvmExtensions[0].schemeScope) == SplitCsv(input.schemeScope)
    ensures b.payload.schemeProfileSetJson == input.schemeProfileSetJson
    ensures b.payload.vectorBundleJson == input.vectorBundleJson
    ensures |b.payload.artifactHashes| == 2
      && b.payload.artifactHashes[0].sha256Hex == ToHex(c.sha256(Utf8(input.schemeProfileSetJson)))
      && b.payload.artifactHashes[1].sha256Hex == ToHex(c.sha256(Utf8(input.vectorBundleJson)))
    ensures b.signature.signerId == anchor.signerId == input.signerId
      && b.signature.signingKeyFingerprint == anchor.signingKeyFingerprint && anchor.notAfter == input.trustNotAfter
      && b.signature.payloadSha256 == anchor.allowedPayloadSha256 == ToHex(PayloadHash(c, b.payload))
  {
    hide CreateBundle, ValidatePayload, IsIdentifier, SplitCsv, SplitCsvAllowEmpty, ToHex, PayloadHash,
      SignatureMessage;
    var lists, secret := CreateSteps(c, input, b, anchor);
  }

  lemma MaskingPolicyText()
    ensures TRACE_MASKING_POLICY == "mask-pan-track-equivalent-cryptogram-pin-and-sensitive-tlv"
  {
    var start := "mask-pan-track-equivalent";
    assert "mask-pan-track" + "-equivalent" == start;
    assert start + "-cryptogram" == "mask-pan-track-equivalent-cryptogram";
    assert "mask-pan-track-equivalent-cryptogram" + "-pin-and" == "mask-pan-track-equivalent-cryptogram-pin-and";
  }

  lemma PersistenceText()
    ensures OFFLINE_COUNTER_PERSISTENCE == "terminal-nonvolatile-counter-required"
  {
  }

  lemma RuntimeTexts(input: ProvisioningInput)
    ensures RuntimeOf(input).offlineCounterPersistence == "terminal-nonvolatile-counter-required"
    ensures RuntimeOf(input).traceMaskingPolicy == "mask-pan-track-equivalent-cryptogram-pin-and-sensitive-tlv"
  {
    MaskingPolicyText();
    PersistenceText();
  }

  lemma BaselineTexts(lists: InputLists)
    ensures BaselineCvm(lists).ruleId == "baseline-cvm-extension-data"
    ensures BaselineCvm(lists).meaning == "signature-or-cdcvm-as-authority-profiled"
    ensures BaselineCvm(lists).cvmCodeHex == "1E" && BaselineCvm(lists).tvrOnFailureHex == "0000000000"
    ensures BaselineCvm(lists).continueOnFailure
  {
  }

  lemma TestCaseTexts(input: ProvisioningInput)
    ensures TestCaseOf(input).caseId == "CERT-DATA-0001"
    ensures TestCaseOf(input).expectedOutcome == "bundle-loads-and-profile-validates"
    ensures TestCaseOf(input).traceRequirement == "masked-apdu-trace-required-for-submission"
  {
  }

  lemma ArtifactTexts(c: Crypto, input: ProvisioningInput)
    ensures ProfileArtifact(c, input).artifactId == "scheme_profile_set_json"
    ensures ProfileArtifact(c, input).artifactKind == "scheme-profile"
    ensures ProfileArtifact(c, input).bindsOpenIssues == ["CERT-OPEN-002", "CERT-OPEN-003"]
    ensures VectorArtifact(c, input).artifactId == "vector_bundle_json"
    ensures VectorArtifact(c, input).artifactKind == "test-vectors"
    ensures VectorArtifact(c, input).bindsOpenIssues == ["CERT-OPEN-004", "CERT-OPEN-012"]
  {
    hide ToHex;
  }

  lemma HeaderTexts()
    ensures BUNDLE_SCHEMA_VERSION == "hyperion-certification-bundle-1.0"
    ensures ANCHORS_SCHEMA_VERSION == "hyperion-certification-trust-anchors-1.0"
    ensures SIGNATURE_ALGORITHM == "hyperion-ed25519-sha256-v1"
  {
  }

  lemma FixtureSecret()
    ensures DEFAULT_FIXTURE_SIGNING_PRIVATE_KEY_HEX == "00112233445566778899aabbccddeeff00112233445566778899aabbccddeeff"
  {
  }

  /** The texts of a created payload that no input reaches. */
  lemma CreatedFixedTexts(c: Crypto, input: ProvisioningInput, b: Bundle, anchor: TrustAnchor)
    requires CreateBundle(c, input) == Ok((b, anchor))
    ensures b.schemaVersion == "hyperion-certification-bundle-1.0"
    ensures b.signature.algorithm == "hyperion-ed25519-sha256-v1"
    ensures
      var r := b.payload.runtimePolicy;
      && r.offlineCounterPersistence == "terminal-nonvolatile-counter-required"
      && r.traceMaskingPolicy == "mask-pan-track-equivalent-cryptogram-pin-and-sensitive-tlv"
    ensures |b.payload.cvmExtensions| == 1 &&
      var e := b.payload.cvmExtensions[0];
      && e.ruleId == "baseline-cvm-extension-data" && e.cvmCodeHex == "1E"
      && e.meaning == "signature-or-cdcvm-as-authority-profiled" && e.tvrOnFailureHex == "0000000000"
      && e.continueOnFailure
    ensures |b.payload.testPlan| == 1 &&
      var t := b.payload.testPlan[0];
      && t.caseId == "CERT-DATA-0001" && t.expectedOutcome == "bundle-loads-and-profile-validates"
      && t.traceRequirement == "masked-apdu-trace-required-for-submission"
    ensures |b.payload.artifactHashes| == 2 &&
      var p, v := b.payload.artifactHashes[0], b.payload.artifactHashes[1];
      && p.artifactId == "scheme_profile_set_json" && p.artifactKind == "scheme-profile"
      && p.bindsOpenIssues == ["CERT-OPEN-002", "CERT-OPEN-003"]
      && v.artifactId == "vector_bundle_json" && v.artifactKind == "test-vectors"
      && v.bindsOpenIssues == ["CERT-OPEN-004", "CERT-OPEN-012"]
  {
    hide CreateBundle, ValidatePayload, IsIdentifier, SplitCsv, SplitCsvAllowEmpty, ToHex, PayloadHash,
      SignatureMessage, RuntimeOf, BaselineCvm, TestCaseOf, ProfileArtifact, VectorArtifact;
    var lists, secret := CreateSteps(c, input, b, anchor);
    HeaderTexts();
    RuntimeTexts(input);
    BaselineTexts(lists);
    TestCaseTexts(input);
    ArtifactTexts(c, input);
  }

  /** The anchor's key and the signature's fingerprint are those of the given secret, or of the built-in fixture's. */
  lemma CreatedKeys(c: Crypto, input: ProvisioningInput, b: Bundle, anchor: TrustAnchor)
    returns (secret: Bytes32)
    requires CreateBundle(c, input) == Ok((b, anchor))
    ensures DecodeHex(
      if input.signingPrivateKeyHex.Some? then input.signingPrivateKeyHex.value
      else "00112233445566778899aabbccddeeff00112233445566778899aabbccddeeff") == Ok(secret)
    ensures anchor.verificationPublicKeyHex == ToHex(c.publicKey(secret))
    ensures b.signature.signingKeyFingerprint == ToHex(c.sha256(c.publicKey(secret)))
    ensures b.signature.signatureHex == ToHex(c.sign(secret,
      SignatureMessage(input.signerId, b.signature.signingKeyFingerprint, PayloadHash(c, b.payload))))
    ensures b.signature.signatureArtifactSha256 == ToHex(c.sha256(Utf8(b.signature.signatureHex)))
  {
    hide CreateBundle, ValidatePayload, IsIdentifier, ToHex, PayloadHash, PayloadOf, SignatureMessage, DecodeHex;
    var lists: InputLists;
    lists, secret := CreateSteps(c, input, b, anchor);
    FixtureSecret();
  }

  lemma GoodListsAreBounded(lists: InputLists)
    requires GoodLists(lists)
    ensures BoundedLists(lists)
  {
    hide CleanString;
  }

  // ---------------------------------------------------------------- the anchors file

  lemma {:induction false} EscapedLength(s: string)
    requires IsPlain(s)
    ensures |Utf8(Escape(s))| <= 2 * |s|
  {
    if s != "" {
      EscapedLength(s[1..]);
      Utf8Concat(EscapeChar(s[0]), Escape(s[1..]));
      Utf8Ascii(EscapeChar(s[0]));
    }
  }

  /** A field holding a plain string of at most 4096 characters, under a key of at most 32. */
  predicate IsShort(f: Field) {
    f.doc.DocString? && IsPlain(f.doc.text) && |f.doc.text| <= 4096 && IsPlainKey(f.key) && |f.key| <= 32
  }

  lemma ShortField(f: Field)
    requires IsShort(f)
    ensures |FieldText(f)| <= 8229
  {
    hide Utf8, Escape, IsPlain;
    EscapedLength(f.doc.text);
    Utf8Ascii(f.key);
  }

  lemma {:induction false} ShortFields(fields: seq<Field>)
    requires forall i | 0 <= i < |fields| :: IsShort(fields[i])
    ensures |FieldsText(fields)| <= 8230 * |fields|
  {
    hide IsShort, FieldText;
    if fields != [] {
      ShortField(fields[0]);
      ShortFields(fields[1..]);
    }
  }

  lemma AnchorFieldsAreShort(c: Crypto, input: ProvisioningInput, payload: Payload, secret: Bytes32)
    requires Printable(input.signerId) && (input.trustNotAfter.Some? ==> IsIsoDate(input.trustNotAfter.value))
    ensures
      var fields := AnchorFields(AnchorFor(c, input, payload, secret));
      |fields| <= 5 && forall i | 0 <= i < |fields| :: IsShort(fields[i])
  {
    hide ToHex, PayloadHash, FormatDate, IsPlain, IsPlainKey, CleanString, Utf8, WellKeyed, AnchorKeyList;
    var anchor := AnchorFor(c, input, payload, secret);
    AnchorKeys(anchor);
    WellKeyedFields(AnchorFields(anchor), AnchorKeyList(anchor));
    ShortSigner(input.signerId);
    HexIsPrintable(c.sha256(c.publicKey(secret)));
    HexIsPrintable(c.publicKey(secret));
    HexIsPrintable(PayloadHash(c, payload));
    PrintableIsPlain(anchor.signingKeyFingerprint);
    PrintableIsPlain(anchor.verificationPublicKeyHex);
    PrintableIsPlain(anchor.allowedPayloadSha256);
    if anchor.notAfter.Some? {
      FormatIsPlain(anchor.notAfter.value);
      DateIsShort(anchor.notAfter.value);
    }
  }

  lemma ShortSigner(s: string)
    requires Printable(s)
    ensures IsPlain(s) && |s| <= 4096
  {
    PrintableIsPlain(s);
  }

  lemma DateIsShort(d: EmvDate)
    ensures |FormatDate(d)| <= 13
  {
  }

  lemma AnchorsAreSmall(anchor: TrustAnchor)
    requires |AnchorFields(anchor)| <= 5 && forall i | 0 <= i < |AnchorFields(anchor)| :: IsShort(AnchorFields(anchor)[i])
    ensures |FileText(AnchorsDoc([anchor]))| <= MAX_CERTIFICATION_BUNDLE_BYTES
  {
    hide IsShort, AnchorFields, FieldsText;
    var fields := AnchorFields(anchor);
    ShortFields(fields);
    var list := AnchorListDoc([anchor]);
    assert list == DocArray([DocObject(fields)]);
    assert |DocText(DocObject(fields))| <= 5 * 8230 + 2;
    assert |DocText(list)| <= 5 * 8230 + 4;
    var f, g := Str("schema_version", ANCHORS_SCHEMA_VERSION), Field("trust_anchors", list);
    TopFields(f, g);
    AnchorsTopText(f, list);
  }

  lemma TopFields(f: Field, g: Field)
    ensures |FieldsText([f, g])| == |FieldText(f)| + 1 + |FieldText(g)|
  {
    hide FieldText;
    assert [f, g][1..] == [g];
  }

  lemma AnchorsTopText(f: Field, list: Doc)
    requires f == Str("schema_version", ANCHORS_SCHEMA_VERSION)
    ensures |FieldText(f)| <= 8229
    ensures |FieldText(Field("trust_anchors", list))| <= 35 + |DocText(list)|
  {
    hide DocText, IsPlain, IsPlainKey, NoDuplicates, Utf8;
    AnchorsKeysAreSound();
    assert IsPlainKey(["schema_version", "trust_anchors"][0]) && IsPlainKey(["schema_version", "trust_anchors"][1]);
    SchemaVersionsArePlain();
    ShortField(f);
    PlainKeyLength("trust_anchors");
  }

  lemma PlainKeyLength(key: string)
    requires IsPlainKey(key)
    ensures |Utf8(key)| == |key|
  {
    Utf8Ascii(key);
  }

  lemma SignerOf(input: ProvisioningInput)
    requires PrintableInput(input)
    ensures Printable(input.signerId) && (input.trustNotAfter.Some? ==> IsIsoDate(input.trustNotAfter.value))
  {
    hide Printable, PrintableLists, IsPlain;
  }

  /** The created anchors file parses back to the created anchor. */
  lemma CreatedAnchorsParse(c: Crypto, input: ProvisioningInput, b: Bundle, anchor: TrustAnchor)
    requires CreateBundle(c, input) == Ok((b, anchor)) && PrintableInput(input)
    ensures ParseTrustAnchors(FileText(AnchorsDoc([anchor]))) == Ok([anchor])
  {
    hide CreateBundle, ParseTrustAnchors, GoodBundle, GoodAnchors, PlainStrings, FitsLimits, AnchorsDoc, BundleDoc,
      Printable,
      FileText, AnchorFields, AnchorFor, SignedBundle, PrintableTexts, PrintableLists, IsIsoDate;
    SignerOf(input);
    var lists, secret := CreatedIsSound(c, input, b, anchor);
    AnchorFieldsAreShort(c, input, b.payload, secret);
    AnchorsAreSmall(anchor);
    PrintedAnchorsParse([anchor]);
  }

  // ---------------------------------------------------------------- verification

  lemma AlgorithmsDiffer()
    ensures SIGNATURE_ALGORITHM != TEST_ALGORITHM
  {
    assert SIGNATURE_ALGORITHM[9] == 'e' && TEST_ALGORITHM[9] == 's';
  }

  /** A created signature verifies against the created anchor exactly until the anchor expires. */
  lemma CreatedSignatureVerifies(
    c: Crypto, input: ProvisioningInput, b: Bundle, anchor: TrustAnchor, secret: Bytes32, policy: LoadPolicy)
    requires Correct(c) && policy.trustAnchors == [anchor]
    requires b == SignedBundle(c, input, b.payload, secret) && anchor == AnchorFor(c, input, b.payload, secret)
    ensures b.signature.payloadSha256 == ToHex(PayloadHash(c, b.payload))
    ensures VerifyBundleSignature(c, b, PayloadHash(c, b.payload), policy)
      == if IsExpired(anchor, policy.evaluationDate) then Err(InvalidProfile) else Ok(TrustAnchorVerified)
  {
    hide ToHex, PayloadHash, SignatureMessage, DecodeHex, IsExpired;
    AlgorithmsDiffer();
    var hash, key := PayloadHash(c, b.payload), c.publicKey(secret);
    var fingerprint := ToHex(c.sha256(key));
    var message := SignatureMessage(input.signerId, fingerprint, hash);
    var signature := c.sign(secret, message);
    assert FindAnchor([anchor], b.signature) == Some(anchor);
    HexRoundTrip(key);
    HexRoundTrip(signature);
    assert c.isKey(key) && c.verify(key, message, signature);
  }

  // ---------------------------------------------------------------- the main theorem

  /** The policy admits the inputs: not from the future, newer than installed, right class, anchor not expired. */
  predicate PolicyPermits(input: ProvisioningInput, policy: LoadPolicy) {
    && !policy.evaluationDate.Before(input.created)
    && policy.installedRollbackCounter < input.rollbackCounter
    && (policy.mode != Profile.Test ==> input.bundleClass == Certification)
    && !(input.trustNotAfter.Some? && input.trustNotAfter.value.Before(policy.evaluationDate))
  }

  /** The policy under which the embedded profile set of a verified bundle must load. */
  function EmbeddedPolicy(input: ProvisioningInput, policy: LoadPolicy): Profile.ConfigLoadPolicy {
    Profile.ConfigLoadPolicy(
      if input.bundleClass == Testing then Profile.Test else policy.mode,
      Profile.Verified, policy.installedRollbackCounter, input.rollbackCounter, policy.evaluationDate)
  }

  predicate EmbeddedProfileLoads(input: ProvisioningInput, policy: LoadPolicy) {
    Profile.LoadProfileSet(Utf8(input.schemeProfileSetJson), EmbeddedPolicy(input, policy)).Ok?
  }

  ghost predicate LoadsVerified(c: Crypto, json: seq<byte>, policy: LoadPolicy, b: Bundle) {
    exists l :: LoadCertificationBundle(c, json, policy) == Ok(l) && l.bundle == b && l.verificationStatus == TrustAnchorVerified
  }

  /** After parsing, the loader accepts a created bundle exactly when the policy permits it and its profile set loads. */
  lemma CreatedLoadsParsed(c: Crypto, input: ProvisioningInput, b: Bundle, anchor: TrustAnchor, secret: Bytes32,
      hash: Bytes32, policy: LoadPolicy, l: LoadedBundle)
    requires Correct(c) && policy.trustAnchors == [anchor]
    requires b == SignedBundle(c, input, b.payload, secret) && anchor == AnchorFor(c, input, b.payload, secret)
    ensures LoadParsed(c, hash, b, policy) == Ok(l) <==>
      (&& PolicyPermits(input, policy)
       && Profile.LoadProfileSet(Utf8(b.payload.schemeProfileSetJson), ProfilePolicy(b, TrustAnchorVerified, policy))
          == Ok(l.profileSet)
       && l.verificationStatus == TrustAnchorVerified
       && l.bundle == b && l.bundleSha256 == hash && l.payloadSha256 == PayloadHash(c, b.payload)
       && l.schemeProfileSha256 == c.sha256(Utf8(b.payload.schemeProfileSetJson))
       && l.vectorBundleSha256 == c.sha256(Utf8(b.payload.vectorBundleJson)))
  {
    hide LoadParsed, Profile.LoadProfileSet, VerifyBundleSignature, ToHex, PayloadHash, ProfilePolicy, SignatureOf;
    LoadParsedIff(c, hash, b, policy, l);
    CreatedSignatureVerifies(c, input, b, anchor, secret, policy);
  }

  lemma FileIsNotEmpty(d: Doc)
    ensures FileText(d) != []
  {
  }

  /** Once the created file is known to parse back to the bundle, the policy and the profile set decide. */
  lemma ParsedCreatedLoads(
    c: Crypto, input: ProvisioningInput, b: Bundle, anchor: TrustAnchor, secret: Bytes32, text: seq<byte>, policy: LoadPolicy)
    requires Correct(c) && policy.trustAnchors == [anchor]
    requires b == SignedBundle(c, input, b.payload, secret) && anchor == AnchorFor(c, input, b.payload, secret)
    requires b.payload.schemeProfileSetJson == input.schemeProfileSetJson
    requires ParseCertificationBundle(text) == Ok(b) && 0 < |text| <= MAX_CERTIFICATION_BUNDLE_BYTES
    ensures LoadsVerified(c, text, policy, b) <==> PolicyPermits(input, policy) && EmbeddedProfileLoads(input, policy)
  {
    hide ParseCertificationBundle, LoadParsed, AnchorFor, SignedBundle, PolicyPermits, Profile.LoadProfileSet, PayloadHash;
    SameProfilePolicy(c, input, b, secret, policy);
    var json := Utf8(b.payload.schemeProfileSetJson);
    var loaded := Profile.LoadProfileSet(json, ProfilePolicy(b, TrustAnchorVerified, policy));
    if loaded.Ok? {
      var l := LoadedBundle(b, loaded.value, c.sha256(text), PayloadHash(c, b.payload), c.sha256(json),
        c.sha256(Utf8(b.payload.vectorBundleJson)), TrustAnchorVerified);
      CreatedLoadsParsed(c, input, b, anchor, secret, c.sha256(text), policy, l);
    }
    if LoadsVerified(c, text, policy, b) {
      var l :| LoadCertificationBundle(c, text, policy) == Ok(l) && l.bundle == b
        && l.verificationStatus == TrustAnchorVerified;
      CreatedLoadsParsed(c, input, b, anchor, secret, c.sha256(text), policy, l);
    }
  }

  lemma LoadedWasParsed(c: Crypto, text: seq<byte>, policy: LoadPolicy, b: Bundle)
    requires LoadsVerified(c, text, policy, b)
    ensures ParseCertificationBundle(text) == Ok(b) && 0 < |text| <= MAX_CERTIFICATION_BUNDLE_BYTES
  {
    hide ParseCertificationBundle, LoadParsed, Authentic;
    var l :| LoadCertificationBundle(c, text, policy) == Ok(l) && l.bundle == b
      && l.verificationStatus == TrustAnchorVerified;
    AcceptedLoad(c, text, policy, l);
  }

  /**
   For all inputs, whatever characters they hold: the created file loads, unchanged and as trust-anchor-verified against
   the created anchor, exactly when the bundle is valid and plain and within the parser's limits, the file fits the size
   limit, the policy permits the inputs and the embedded profile set loads.
   */
  lemma LoadsExactlyWhen(c: Crypto, input: ProvisioningInput, b: Bundle, anchor: TrustAnchor, policy: LoadPolicy)
    requires Correct(c) && CreateBundle(c, input) == Ok((b, anchor)) && policy.trustAnchors == [anchor]
    ensures LoadsVerified(c, FileText(BundleDoc(b)), policy, b) <==>
      && GoodBundle(b) && PlainStrings(BundleDoc(b)) && FitsLimits(BundleDoc(b))
      && |FileText(BundleDoc(b))| <= 4_194_304
      && PolicyPermits(input, policy) && EmbeddedProfileLoads(input, policy)
  {
    hide CreateBundle, ParseCertificationBundle, GoodBundle, PlainStrings, FitsLimits, BundleDoc, FileText, AnchorFor,
      SignedBundle, PolicyPermits, EmbeddedProfileLoads, LoadsVerified, PayloadOf, ListsOf, IsIdentifier, GoodTimeouts,
      ValidatePayload;
    var lists, secret := CreateSteps(c, input, b, anchor);
    CreatedFrom(c, input, b, anchor, lists, secret);
    var text := FileText(BundleDoc(b));
    FileIsNotEmpty(BundleDoc(b));
    PrintedBundleParses(b);
    if ParseCertificationBundle(text) == Ok(b) && |text| <= MAX_CERTIFICATION_BUNDLE_BYTES {
      ParsedCreatedLoads(c, input, b, anchor, secret, text, policy);
    }
    if LoadsVerified(c, text, policy, b) {
      LoadedWasParsed(c, text, policy, b);
    }
  }

  lemma CreatedFrom(
    c: Crypto, input: ProvisioningInput, b: Bundle, anchor: TrustAnchor, lists: InputLists, secret: Bytes32)
    requires b == SignedBundle(c, input, PayloadOf(c, input, lists), secret)
    requires anchor == AnchorFor(c, input, PayloadOf(c, input, lists), secret)
    ensures b == SignedBundle(c, input, b.payload, secret) && anchor == AnchorFor(c, input, b.payload, secret)
    ensures b.payload.schemeProfileSetJson == input.schemeProfileSetJson
  {
    hide PayloadHash, SignatureOf;
  }

  /**
   End to end: under a correct signature scheme, the two files created from printable inputs work together. Once the
   anchors file is parsed into the policy, the bundle file loads, unchanged and as trust-anchor-verified, exactly when
   it fits the size limit, the policy permits the inputs and the embedded profile set loads.
   */
  lemma CreatedBundlesLoad(c: Crypto, input: ProvisioningInput, b: Bundle, anchor: TrustAnchor, policy: LoadPolicy)
    requires Correct(c) && CreateBundle(c, input) == Ok((b, anchor)) && PrintableInput(input)
    requires ParseTrustAnchors(FileText(AnchorsDoc([anchor]))) == Ok(policy.trustAnchors)
    ensures LoadsVerified(c, FileText(BundleDoc(b)), policy, b) <==>
      && |FileText(BundleDoc(b))| <= 4_194_304
      && PolicyPermits(input, policy) && EmbeddedProfileLoads(input, policy)
  {
    hide CreateBundle, ParseTrustAnchors, GoodBundle, GoodAnchors, PlainStrings, FitsLimits, AnchorsDoc, BundleDoc, FileText,
      AnchorFor, SignedBundle, PrintableInput, PolicyPermits, EmbeddedProfileLoads, LoadsVerified;
    CreatedAnchorsParse(c, input, b, anchor);
    var lists, secret := CreatedIsSound(c, input, b, anchor);
    LoadsExactlyWhen(c, input, b, anchor, policy);
  }

  lemma SameProfilePolicy(c: Crypto, input: ProvisioningInput, b: Bundle, secret: Bytes32, policy: LoadPolicy)
    requires b == SignedBundle(c, input, b.payload, secret)
    ensures ProfilePolicy(b, TrustAnchorVerified, policy) == EmbeddedPolicy(input, policy)
  {
    hide SignatureOf, PayloadHash;
  }

  // ---------------------------------------------------------------- inputs of any characters

  lemma SameField(fields: seq<Field>, others: seq<Field>, i: nat)
    requires DistinctKeys(fields) && DistinctKeys(others) && FieldMap(map[], fields) == FieldMap(map[], others)
    requires i < |fields| && i < |others| && fields[i].key == others[i].key
    ensures DocValue(fields[i].doc) == DocValue(others[i].doc)
  {
    hide DocValue, FieldMap, DistinctKeys;
    FieldLookup(map[], fields);
    FieldLookup(map[], others);
  }

  /** Rereading keeps the keys. */
  lemma RereadKeys(fields: seq<Field>)
    requires DistinctKeys(fields)
    ensures |RereadFields(fields)| == |fields| && DistinctKeys(RereadFields(fields))
    ensures forall i | 0 <= i < |fields| :: RereadFields(fields)[i] == Field(fields[i].key, Reread(fields[i].doc))
  {
    hide Reread;
    RereadFieldShape(fields);
  }

  lemma SignatureHashSurvives(x: BundleSignature, y: BundleSignature)
    requires DocValue(DocObject(SignatureFields(y))) == DocValue(Reread(DocObject(SignatureFields(x))))
    requires IsAscii(x.payloadSha256)
    ensures y.payloadSha256 == x.payloadSha256
  {
    hide WellKeyed, FieldMap;
    var f, g := SignatureFields(x), SignatureFields(y);
    SignatureKeys(x);
    SignatureKeys(y);
    WellKeyedFields(f, SIGNATURE_KEYS);
    WellKeyedFields(g, SIGNATURE_KEYS);
    RereadKeys(f);
    assert f[3] == Str("payload_sha256", x.payloadSha256) && g[3] == Str("payload_sha256", y.payloadSha256);
    SameField(g, RereadFields(f), 3);
    ByteCharsOfUtf8(x.payloadSha256);
  }

  /** Whatever a printed bundle is parsed into, its signed payload hash is the printed one. */
  lemma HashSurvives(b: Bundle, b': Bundle)
    requires ParseCertificationBundle(FileText(BundleDoc(b))) == Ok(b')
    requires IsAscii(b.signature.payloadSha256)
    ensures b'.signature.payloadSha256 == b.signature.payloadSha256
  {
    hide JsonReader.Parse, ParseBundleValue, PayloadDoc, SignatureFields, ClassText, FormatDate, WellKeyed, FieldMap, DocText,
      ReadableDoc, GoodBundle, FitsLimits;
    var root := JsonReader.Parse(FileText(BundleDoc(b))).value;
    BundleIff(root, b');
    RereadFile(BundleDoc(b), b);
    var f, g := BundleFields(b), BundleFields(b');
    BundleKeys(b);
    BundleKeys(b');
    WellKeyedFields(f, BUNDLE_KEYS);
    WellKeyedFields(g, BUNDLE_KEYS);
    RereadKeys(f);
    assert f[7] == Field("signature", DocObject(SignatureFields(b.signature)));
    assert g[7] == Field("signature", DocObject(SignatureFields(b'.signature)));
    SameField(g, RereadFields(f), 7);
    SignatureHashSurvives(b.signature, b'.signature);
  }

  lemma RereadFile(d: Doc, b: Bundle)
    requires d == BundleDoc(b) && JsonReader.Parse(FileText(d)).Ok?
    ensures JsonReader.Parse(FileText(d)).value == DocValue(Reread(d))
  {
    hide JsonReader.Parse, DocText, BundleDoc, ReadableDoc, Reread, DocValue;
    var end: Ws := [0x0a];
    BundleKeyed(b);
    DocReadBack([], d, end);
    assert [] + (DocText(d) + end) == FileText(d);
  }

  /**
   For all inputs, whatever characters they hold, and every policy: if the created file loads at all, it loads the payload
   that was created, unless SHA-256 collides.
   */
  lemma NoOtherPayloadLoads(
    c: Crypto, input: ProvisioningInput, b: Bundle, anchor: TrustAnchor, policy: LoadPolicy, l: LoadedBundle)
    requires CreateBundle(c, input) == Ok((b, anchor))
    requires LoadCertificationBundle(c, FileText(BundleDoc(b)), policy) == Ok(l)
    ensures l.bundle.payload == b.payload
      || IsCollision(c, DocText(PayloadDoc(l.bundle.payload)), DocText(PayloadDoc(b.payload)))
  {
    hide CreateBundle, ParseCertificationBundle, LoadCertificationBundle, DocText, PayloadDoc, BundleDoc, FileText, ToHex,
      PayloadHash, IsAscii, Vouches, IsCollision;
    CreatedHash(c, input, b, anchor);
    AcceptedLoad(c, FileText(BundleDoc(b)), policy, l);
    HashSurvives(b, l.bundle);
    ToHexInjective(PayloadHash(c, b.payload), PayloadHash(c, l.bundle.payload));
    SameHash(c, l.bundle.payload, b.payload);
  }

  lemma CreatedHash(c: Crypto, input: ProvisioningInput, b: Bundle, anchor: TrustAnchor)
    requires CreateBundle(c, input) == Ok((b, anchor))
    ensures b.signature.payloadSha256 == ToHex(PayloadHash(c, b.payload)) && IsAscii(b.signature.payloadSha256)
  {
    hide CreateBundle, PayloadHash, ToHex, PayloadOf, ListsOf, IsIdentifier, GoodTimeouts, ValidatePayload, SignatureMessage;
    var lists, secret := CreateSteps(c, input, b, anchor);
  }
}
