/**
 The records `create_bundle_from_inputs` makes from printable inputs (src/cert_bundle.rs): valid, plain, and within the
 parser's limits.
 */
module CreatedRecords {
  import opened Kernel
  import opened Text
  import opened Hex
  import opened Dates
  import opened JsonDoc
  import opened JsonSyntax
  import opened BundleRecords
  import opened BundleReader
  import opened BundleRoundTrip
  import opened BundleTrust
  import opened BundleProvision
  import opened CleanText

  // ---------------------------------------------------------------- printable inputs

  predicate PrintableTexts(input: ProvisioningInput) {
    && Printable(input.productName) && Printable(input.productVersion) && Printable(input.certificationTarget)
    && Printable(input.emvContactVersion) && Printable(input.emvContactlessKernel)
    && Printable(input.terminalType) && Printable(input.deviceModel) && Printable(input.firmwareVersion)
    && Printable(input.l1ApprovalReference) && Printable(input.pciPtsReference)
    && Printable(input.kernelProfileId) && Printable(input.kernelInterface) && Printable(input.kernelAlgorithm)
    && Printable(input.c8Package) && Printable(input.vectorClass) && Printable(input.signerId)
  }

  predicate PrintableLists(input: ProvisioningInput) {
    && PrintableList(CsvItems(input.interfaces)) && PrintableList(CsvItems(input.authorities))
    && PrintableList(CsvItems(input.bulletinsIncluded)) && PrintableList(CsvItems(input.bulletinsExcluded))
    && PrintableList(CsvItems(input.schemeScope))
  }

  /**
   Inputs whose strings are clean printable ASCII, in lists of at most 128; embedded JSON may also hold line breaks and
   tabs; counters are positive and dates exist and print with two-digit years.
   */
  predicate PrintableInput(input: ProvisioningInput) {
    && PrintableTexts(input) && PrintableLists(input)
    && IsPlain(input.schemeProfileSetJson) && IsPlain(input.vectorBundleJson)
    && input.bundleVersion != 0 && input.rollbackCounter != 0
    && IsIsoDate(input.created) && (input.trustNotAfter.Some? ==> IsIsoDate(input.trustNotAfter.value))
  }

  // ---------------------------------------------------------------- the created records are valid

  lemma CreateSteps(c: Crypto, input: ProvisioningInput, b: Bundle, anchor: TrustAnchor)
    returns (lists: InputLists, secret: Bytes32)
    requires CreateBundle(c, input) == Ok((b, anchor))
    ensures IsIdentifier(input.bundleId) && GoodTimeouts(TimeoutsOf(input)) && ListsOf(input) == Ok(lists)
    ensures ValidatePayload(PayloadOf(c, input, lists)).Ok?
    ensures b == SignedBundle(c, input, PayloadOf(c, input, lists), secret)
    ensures anchor == AnchorFor(c, input, PayloadOf(c, input, lists), secret)
    ensures DecodeHex(SecretHex(input)) == Ok(secret)
  {
    hide ValidatePayload, PayloadOf, IsIdentifier, GoodTimeouts, ListsOf, SignedBundle, AnchorFor, DecodeHex;
    lists := ListsOf(input).value;
    secret := SecretBytes(SecretHex(input));
  }

  predicate GoodLists(lists: InputLists) {
    && CleanSet(lists.interfaces) && CleanSet(lists.authorities) && CleanSet(lists.bulletinsIncluded)
    && CleanList(lists.bulletinsExcluded) && CleanSet(lists.schemeScope)
  }

  predicate PlainList(values: seq<string>) {
    forall i | 0 <= i < |values| :: IsPlain(values[i])
  }

  predicate PlainLists(lists: InputLists) {
    && PlainList(lists.interfaces) && PlainList(lists.authorities) && PlainList(lists.bulletinsIncluded)
    && PlainList(lists.bulletinsExcluded) && PlainList(lists.schemeScope)
  }

  lemma PrintableListIsPlain(items: seq<string>)
    requires PrintableList(items)
    ensures PlainList(items) && forall i | 0 <= i < |items| :: CleanString(items[i])
  {
    hide CleanString;
    forall i | 0 <= i < |items|
      ensures IsPlain(items[i])
    {
      PrintableIsPlain(items[i]);
    }
  }

  lemma ListsAreGood(input: ProvisioningInput, lists: InputLists)
    requires ListsOf(input) == Ok(lists) && PrintableLists(input)
    ensures GoodLists(lists) && PlainLists(lists)
  {
    hide CsvItems, PrintableList, PlainList, CleanString;
    PrintableListIsPlain(CsvItems(input.interfaces));
    PrintableListIsPlain(CsvItems(input.authorities));
    PrintableListIsPlain(CsvItems(input.bulletinsIncluded));
    PrintableListIsPlain(CsvItems(input.bulletinsExcluded));
    PrintableListIsPlain(CsvItems(input.schemeScope));
    ListSizes(input);
  }

  lemma ListSizes(input: ProvisioningInput)
    requires PrintableLists(input)
    ensures |CsvItems(input.interfaces)| <= 128 && |CsvItems(input.authorities)| <= 128
    ensures |CsvItems(input.bulletinsIncluded)| <= 128 && |CsvItems(input.bulletinsExcluded)| <= 128
    ensures |CsvItems(input.schemeScope)| <= 128
  {
    hide CsvItems, Printable;
  }

  lemma TestCaseIsGood(input: ProvisioningInput)
    requires Printable(input.vectorClass)
    ensures GoodTestCase(TestCaseOf(input))
  {
    hide CleanString;
    CaseText();
    LongTexts();
  }

  lemma IssuesAreDistinct()
    ensures "CERT-OPEN-002" != "CERT-OPEN-003" && "CERT-OPEN-004" != "CERT-OPEN-012"
  {
    assert "CERT-OPEN-002"[12] != "CERT-OPEN-003"[12];
    assert "CERT-OPEN-004"[12] != "CERT-OPEN-012"[12];
  }

  lemma ArtifactsAreGood(c: Crypto, input: ProvisioningInput)
    ensures GoodArtifact(ProfileArtifact(c, input)) && GoodArtifact(VectorArtifact(c, input))
  {
    hide CleanString, ValidateHexLen, ToHex;
    KindTexts();
    LongTexts();
    IssueTexts();
    IssuesAreDistinct();
    HexIsPrintable(c.sha256(Utf8(input.schemeProfileSetJson)));
    HexIsPrintable(c.sha256(Utf8(input.vectorBundleJson)));
    HexRoundTrip(c.sha256(Utf8(input.schemeProfileSetJson)));
    HexRoundTrip(c.sha256(Utf8(input.vectorBundleJson)));
  }

  lemma CvmCodeLength()
    ensures ValidateHexLen("1E", 1).Pass?
  {
    assert "1E" == ['1', 'E'];
    Utf8Pair('1', 'E');
    var bytes: seq<byte> := [0x31, 0x45];
    assert Utf8("1E") == bytes;
    assert bytes[2..] == [];
    assert DecodePairs(bytes[2..]) == Ok([]);
    assert HexNibble(bytes[0]) == Ok(1) && HexNibble(bytes[1]) == Ok(14);
  }

  lemma FixedHexLengths()
    ensures ValidateHexLen("1E", 1).Pass? && ValidateHexLen("0000000000", 5).Pass?
  {
    hide ValidateHexLen, ToHex;
    CvmCodeLength();
    ZerosText();
    HexRoundTrip([0, 0, 0, 0, 0]);
  }

  lemma ZerosText()
    ensures ToHex([0, 0, 0, 0, 0]) == "0000000000"
  {
    assert ToHex([0]) == "00";
    assert [0, 0][1..] == [0];
    assert ToHex([0, 0]) == "0000";
    assert [0, 0, 0][1..] == [0, 0];
    assert ToHex([0, 0, 0]) == "000000";
    assert [0, 0, 0, 0][1..] == [0, 0, 0];
    assert ToHex([0, 0, 0, 0]) == "00000000";
    assert [0, 0, 0, 0, 0][1..] == [0, 0, 0, 0];
  }

  lemma CvmIsGood(lists: InputLists)
    requires CleanSet(lists.schemeScope)
    ensures GoodCvm(BaselineCvm(lists))
  {
    hide CleanString, ValidateHexLen, CleanSet;
    CvmTexts();
    LongTexts();
    FixedHexLengths();
  }

  lemma RecordsAreGood(input: ProvisioningInput, lists: InputLists)
    requires PrintableTexts(input) && GoodLists(lists) && GoodTimeouts(TimeoutsOf(input))
    ensures GoodScope(ScopeOf(input, lists)) && GoodStandards(StandardsOf(input, lists))
    ensures GoodTerminal(TerminalOf(input, lists)) && GoodRuntime(RuntimeOf(input))
    ensures GoodKernel(KernelOf(input, lists))
  {
    hide CleanString, CleanSet, CleanList, GoodTimeouts;
    LongTexts();
  }

  lemma PayloadIsGood(c: Crypto, input: ProvisioningInput, lists: InputLists)
    requires PrintableTexts(input) && GoodLists(lists) && GoodTimeouts(TimeoutsOf(input))
    requires ValidatePayload(PayloadOf(c, input, lists)).Ok?
    ensures GoodPayload(PayloadOf(c, input, lists))
  {
    hide ValidatePayload, GoodScope, GoodStandards, GoodTerminal, GoodRuntime, GoodKernel, GoodCvm, GoodTestCase,
      GoodArtifact,
      CleanSet, CleanList, GoodTimeouts, Printable, ScopeOf, StandardsOf, TerminalOf, RuntimeOf, KernelOf, BaselineCvm,
      TestCaseOf, ProfileArtifact, VectorArtifact;
    RecordsAreGood(input, lists);
    CvmIsGood(lists);
    TestCaseIsGood(input);
    ArtifactsAreGood(c, input);
  }

  lemma SignatureIsGood(c: Crypto, signerId: string, secret: Bytes32, payloadHash: Bytes32)
    requires Printable(signerId)
    ensures GoodSignature(SignatureOf(c, signerId, secret, payloadHash))
  {
    hide CleanString, ValidateHexLen, ToHex, SignatureMessage;
    LongTexts();
    var fingerprint := c.sha256(c.publicKey(secret));
    var signature := c.sign(secret, SignatureMessage(signerId, ToHex(fingerprint), payloadHash));
    var artifact := c.sha256(Utf8(ToHex(signature)));
    HexIsPrintable(fingerprint);
    HexIsPrintable(signature);
    HexIsPrintable(payloadHash);
    HexIsPrintable(artifact);
    HexRoundTrip(signature);
    HexRoundTrip(payloadHash);
    HexRoundTrip(artifact);
  }

  lemma AnchorIsGood(c: Crypto, input: ProvisioningInput, payload: Payload, secret: Bytes32)
    requires Printable(input.signerId) && (input.trustNotAfter.Some? ==> IsIsoDate(input.trustNotAfter.value))
    ensures GoodAnchors([AnchorFor(c, input, payload, secret)])
  {
    hide CleanString, ValidateHexLen, ToHex, PayloadHash;
    var key, hash := c.publicKey(secret), PayloadHash(c, payload);
    HexIsPrintable(c.sha256(key));
    HexIsPrintable(key);
    HexIsPrintable(hash);
    HexRoundTrip(key);
    HexRoundTrip(hash);
  }

  // ---------------------------------------------------------------- the created documents are plain

  lemma StringsArePlain(values: seq<string>)
    requires PlainList(values)
    ensures PlainStrings(StringsDoc(values))
  {
  }

  predicate PlainFields(fields: seq<Field>) {
    forall i | 0 <= i < |fields| :: PlainStrings(fields[i].doc)
  }

  lemma RecordsArePlain(input: ProvisioningInput, lists: InputLists)
    requires PrintableTexts(input) && PlainLists(lists)
    ensures PlainFields(ScopeFields(ScopeOf(input, lists))) && PlainFields(StandardsFields(StandardsOf(input, lists)))
    ensures PlainFields(TerminalFields(TerminalOf(input, lists))) && PlainFields(KernelFields(KernelOf(input, lists)))
  {
    hide IsPlain, Printable, PlainList, StringsDoc;
    TextsArePlain(input);
    StringsArePlain(lists.interfaces);
    StringsArePlain(lists.authorities);
    StringsArePlain(lists.bulletinsIncluded);
    StringsArePlain(lists.bulletinsExcluded);
    StringsArePlain(lists.schemeScope);
  }

  lemma TextsArePlain(input: ProvisioningInput)
    requires PrintableTexts(input)
    ensures IsPlain(input.productName) && IsPlain(input.productVersion) && IsPlain(input.certificationTarget)
    ensures IsPlain(input.emvContactVersion) && IsPlain(input.emvContactlessKernel)
    ensures IsPlain(input.terminalType) && IsPlain(input.deviceModel) && IsPlain(input.firmwareVersion)
    ensures IsPlain(input.l1ApprovalReference) && IsPlain(input.pciPtsReference)
    ensures IsPlain(input.kernelProfileId) && IsPlain(input.kernelInterface) && IsPlain(input.kernelAlgorithm)
    ensures IsPlain(input.c8Package) && IsPlain(input.vectorClass) && IsPlain(input.signerId)
  {
    hide IsPlain, Printable;
    PrintableIsPlain(input.productName);
    PrintableIsPlain(input.productVersion);
    PrintableIsPlain(input.certificationTarget);
    PrintableIsPlain(input.emvContactVersion);
    PrintableIsPlain(input.emvContactlessKernel);
    PrintableIsPlain(input.terminalType);
    PrintableIsPlain(input.deviceModel);
    PrintableIsPlain(input.firmwareVersion);
    PrintableIsPlain(input.l1ApprovalReference);
    PrintableIsPlain(input.pciPtsReference);
    PrintableIsPlain(input.kernelProfileId);
    PrintableIsPlain(input.kernelInterface);
    PrintableIsPlain(input.kernelAlgorithm);
    PrintableIsPlain(input.c8Package);
    PrintableIsPlain(input.vectorClass);
    PrintableIsPlain(input.signerId);
  }

  lemma FixedRecordsArePlain(c: Crypto, input: ProvisioningInput, lists: InputLists)
    requires PrintableTexts(input) && PlainLists(lists)
    ensures PlainFields(CvmFields(BaselineCvm(lists)))
    ensures PlainFields(TestCaseFields(TestCaseOf(input)))
  {
    hide IsPlain, Printable, PlainList, StringsDoc, CleanString;
    LongTexts();
    CvmTexts();
    CaseText();
    PrintableIsPlain(BASELINE_CVM_RULE);
    PrintableIsPlain(BASELINE_CVM_MEANING);
    PrintableIsPlain(BASELINE_OUTCOME);
    PrintableIsPlain(BASELINE_TRACE);
    PrintableIsPlain("1E");
    PrintableIsPlain("0000000000");
    PrintableIsPlain("CERT-DATA-0001");
    PrintableIsPlain(input.vectorClass);
    StringsArePlain(lists.schemeScope);
  }

  lemma RuntimeIsPlain(input: ProvisioningInput)
    ensures PlainFields(RuntimeFields(RuntimeOf(input)))
  {
    hide IsPlain, Printable, CleanString, TimeoutsOf;
    LongTexts();
    PrintableIsPlain(OFFLINE_COUNTER_PERSISTENCE);
    PrintableIsPlain(TRACE_MASKING_POLICY);
    assert PlainFields(TimeoutFields(TimeoutsOf(input)));
    PlainObject(TimeoutFields(TimeoutsOf(input)));
  }

  lemma PlainObject(fields: seq<Field>)
    requires PlainFields(fields)
    ensures PlainStrings(DocObject(fields)) && PlainStrings(DocArray([DocObject(fields)]))
  {
    var items := [DocObject(fields)];
    assert items[0] == DocObject(fields);
    assert PlainStrings(items[0]);
  }

  lemma PlainPair(fields: seq<Field>, more: seq<Field>)
    requires PlainFields(fields) && PlainFields(more)
    ensures PlainStrings(DocArray([DocObject(fields), DocObject(more)]))
  {
    PlainObject(fields);
    PlainObject(more);
  }

  lemma ArtifactsArePlain(c: Crypto, input: ProvisioningInput)
    ensures PlainFields(ArtifactFields(ProfileArtifact(c, input))) && PlainFields(ArtifactFields(VectorArtifact(c, input)))
  {
    hide IsPlain, Printable, ToHex, StringsDoc;
    LongTexts();
    KindTexts();
    IssuesArePlain();
    HexIsPrintable(c.sha256(Utf8(input.schemeProfileSetJson)));
    HexIsPrintable(c.sha256(Utf8(input.vectorBundleJson)));
    PrintableIsPlain(PROFILE_ARTIFACT);
    PrintableIsPlain(VECTOR_ARTIFACT);
    PrintableIsPlain("scheme-profile");
    PrintableIsPlain("test-vectors");
    PrintableIsPlain(ToHex(c.sha256(Utf8(input.schemeProfileSetJson))));
    PrintableIsPlain(ToHex(c.sha256(Utf8(input.vectorBundleJson))));
  }

  lemma IssuesArePlain()
    ensures PlainStrings(StringsDoc(["CERT-OPEN-002", "CERT-OPEN-003"]))
    ensures PlainStrings(StringsDoc(["CERT-OPEN-004", "CERT-OPEN-012"]))
  {
    hide IsPlain, Printable;
    IssueTexts();
    PrintableIsPlain("CERT-OPEN-002");
    PrintableIsPlain("CERT-OPEN-003");
    PrintableIsPlain("CERT-OPEN-004");
    PrintableIsPlain("CERT-OPEN-012");
    StringsArePlain(["CERT-OPEN-002", "CERT-OPEN-003"]);
    StringsArePlain(["CERT-OPEN-004", "CERT-OPEN-012"]);
  }

  lemma RecordDocsArePlain(c: Crypto, input: ProvisioningInput, lists: InputLists)
    requires PrintableTexts(input) && PlainLists(lists)
    ensures PlainFields(RecordFields(PayloadOf(c, input, lists)))
  {
    hide PlainStrings, PrintableTexts, PlainLists, ScopeFields, StandardsFields, TerminalFields, RuntimeFields,
      ScopeOf, StandardsOf, TerminalOf, RuntimeOf, KernelOf, BaselineCvm, TestCaseOf, ProfileArtifact, VectorArtifact;
    RecordsArePlain(input, lists);
    RuntimeIsPlain(input);
    PlainObject(ScopeFields(ScopeOf(input, lists)));
    PlainObject(StandardsFields(StandardsOf(input, lists)));
    PlainObject(TerminalFields(TerminalOf(input, lists)));
    PlainObject(RuntimeFields(RuntimeOf(input)));
  }

  lemma CreatedLists(c: Crypto, input: ProvisioningInput, lists: InputLists)
    ensures
      var p := PayloadOf(c, input, lists);
      && KernelsDoc(p.kernelRegistry) == DocArray([DocObject(KernelFields(KernelOf(input, lists)))])
      && CvmsDoc(p.cvmExtensions) == DocArray([DocObject(CvmFields(BaselineCvm(lists)))])
      && TestCasesDoc(p.testPlan) == DocArray([DocObject(TestCaseFields(TestCaseOf(input)))])
      && ArtifactsDoc(p.artifactHashes)
         == DocArray([DocObject(ArtifactFields(ProfileArtifact(c, input))), DocObject(ArtifactFields(VectorArtifact(c, input)))])
  {
    hide ScopeOf, StandardsOf, TerminalOf, RuntimeOf, KernelOf, BaselineCvm, TestCaseOf, ProfileArtifact,
      VectorArtifact,
      KernelFields, CvmFields, TestCaseFields, ArtifactFields;
  }

  lemma ListDocsArePlain(c: Crypto, input: ProvisioningInput, lists: InputLists)
    requires PrintableTexts(input) && PlainLists(lists)
    ensures PlainFields(ListFields(PayloadOf(c, input, lists)))
  {
    hide PlainStrings, PrintableTexts, PlainLists, KernelsDoc, CvmsDoc, TestCasesDoc, ArtifactsDoc, PayloadOf;
    CreatedLists(c, input, lists);
    RecordsArePlain(input, lists);
    FixedRecordsArePlain(c, input, lists);
    ArtifactsArePlain(c, input);
    PlainObject(KernelFields(KernelOf(input, lists)));
    PlainObject(CvmFields(BaselineCvm(lists)));
    PlainObject(TestCaseFields(TestCaseOf(input)));
    PlainPair(ArtifactFields(ProfileArtifact(c, input)), ArtifactFields(VectorArtifact(c, input)));
  }

  lemma PayloadIsPlain(c: Crypto, input: ProvisioningInput, lists: InputLists)
    requires PrintableTexts(input) && PlainLists(lists)
    requires IsPlain(input.schemeProfileSetJson) && IsPlain(input.vectorBundleJson)
    ensures PlainStrings(PayloadDoc(PayloadOf(c, input, lists)))
  {
    hide IsPlain, PrintableTexts, PlainLists, RecordFields, ListFields, ScopeOf, StandardsOf, TerminalOf, RuntimeOf,
      KernelOf, BaselineCvm, TestCaseOf, ProfileArtifact, VectorArtifact;
    RecordDocsArePlain(c, input, lists);
    ListDocsArePlain(c, input, lists);
    var p := PayloadOf(c, input, lists);
    var texts := [Str("scheme_profile_set_json", p.schemeProfileSetJson), Str("vector_bundle_json", p.vectorBundleJson)];
    assert PlainFields(texts);
    var records, listed := RecordFields(p), ListFields(p);
    var all := records + listed + texts;
    assert forall i | 0 <= i < |all| :: PlainStrings(all[i].doc);
    PlainObject(all);
    assert PayloadFields(p) == all;
  }

  lemma DateAndClassArePlain(b: Bundle)
    requires IsIsoDate(b.created)
    ensures IsPlain(FormatDate(b.created)) && IsPlain(ClassText(b.bundleClass))
  {
    FormatIsPlain(b.created);
  }

  lemma FormatIsPlain(d: EmvDate)
    requires IsIsoDate(d)
    ensures IsPlain(FormatDate(d))
  {
  }

  lemma SchemaVersionsArePlain()
    ensures IsPlain(BUNDLE_SCHEMA_VERSION) && IsPlain(ANCHORS_SCHEMA_VERSION)
  {
    assert IsPlain("hyperion-certification") && IsPlain("-bundle-1.0") && IsPlain("-trust-anchors-1.0");
    PlainConcat("hyperion-certification", "-bundle-1.0");
    PlainConcat("hyperion-certification", "-trust-anchors-1.0");
  }

  lemma PlainConcat(s: string, t: string)
    requires IsPlain(s) && IsPlain(t)
    ensures IsPlain(s + t)
  {
  }

  lemma SignatureIsPlain(c: Crypto, signerId: string, secret: Bytes32, payloadHash: Bytes32)
    requires Printable(signerId)
    ensures PlainStrings(DocObject(SignatureFields(SignatureOf(c, signerId, secret, payloadHash))))
  {
    hide IsPlain, Printable, ToHex, SignatureMessage, CleanString;
    LongTexts();
    var fingerprint := c.sha256(c.publicKey(secret));
    var signature := c.sign(secret, SignatureMessage(signerId, ToHex(fingerprint), payloadHash));
    var artifact := c.sha256(Utf8(ToHex(signature)));
    HexIsPrintable(fingerprint);
    HexIsPrintable(signature);
    HexIsPrintable(payloadHash);
    HexIsPrintable(artifact);
    PrintableIsPlain(ToHex(fingerprint));
    PrintableIsPlain(ToHex(signature));
    PrintableIsPlain(ToHex(payloadHash));
    PrintableIsPlain(ToHex(artifact));
    PrintableIsPlain(signerId);
    PrintableIsPlain(SIGNATURE_ALGORITHM);
  }

  lemma BundleIsPlain(b: Bundle)
    requires b.schemaVersion == BUNDLE_SCHEMA_VERSION && IsIdentifier(b.bundleId) && IsIsoDate(b.created)
    requires PlainStrings(PayloadDoc(b.payload)) && PlainStrings(DocObject(SignatureFields(b.signature)))
    ensures PlainStrings(BundleDoc(b))
  {
    hide IsPlain, PayloadDoc, SignatureFields, ClassText, FormatDate, CleanString;
    SchemaVersionsArePlain();
    DateAndClassArePlain(b);
    IdentifierIsPlain(b.bundleId);
  }

  lemma IdentifierIsPlain(s: string)
    requires IsIdentifier(s)
    ensures IsPlain(s)
  {
    hide CleanString;
  }

  lemma AnchorIsPlain(c: Crypto, input: ProvisioningInput, payload: Payload, secret: Bytes32)
    requires Printable(input.signerId) && (input.trustNotAfter.Some? ==> IsIsoDate(input.trustNotAfter.value))
    ensures PlainStrings(AnchorsDoc([AnchorFor(c, input, payload, secret)]))
  {
    hide IsPlain, Printable, ToHex, PayloadHash, FormatDate;
    var anchor := AnchorFor(c, input, payload, secret);
    HexIsPrintable(c.sha256(c.publicKey(secret)));
    HexIsPrintable(c.publicKey(secret));
    HexIsPrintable(PayloadHash(c, payload));
    PrintableIsPlain(anchor.signerId);
    PrintableIsPlain(anchor.signingKeyFingerprint);
    PrintableIsPlain(anchor.verificationPublicKeyHex);
    PrintableIsPlain(anchor.allowedPayloadSha256);
    if anchor.notAfter.Some? {
      FormatIsPlain(anchor.notAfter.value);
    }
    SchemaVersionsArePlain();
    assert PlainFields(AnchorFields(anchor));
    PlainObject(AnchorFields(anchor));
    assert AnchorListDoc([anchor]) == DocArray([DocObject(AnchorFields(anchor))]);
    var fs := [Str("schema_version", ANCHORS_SCHEMA_VERSION), Field("trust_anchors", AnchorListDoc([anchor]))];
    assert PlainFields(fs);
    PlainObject(fs);
  }

  // ---------------------------------------------------------------- the created documents fit the limits

  lemma {:induction false} FieldsConcat(a: seq<Field>, b: seq<Field>)
    ensures FieldNodes(a + b) == FieldNodes(a) + FieldNodes(b)
    ensures FieldsHeight(a + b) == Max(FieldsHeight(a), FieldsHeight(b))
  {
    hide DocNodes, DocHeight;
    if a == [] {
      assert a + b == b;
    } else {
      FieldsConcat(a[1..], b);
      assert (a + b)[0] == a[0] && (a + b)[1..] == a[1..] + b;
    }
  }

  /** One field of at most `nodes` values and height `height`, then more fields. */
  lemma NextField(f: Field, rest: seq<Field>)
    ensures FieldNodes([f] + rest) == DocNodes(f.doc) + FieldNodes(rest)
    ensures FieldsHeight([f] + rest) == Max(DocHeight(f.doc), FieldsHeight(rest))
  {
    hide DocNodes, DocHeight;
    assert ([f] + rest)[1..] == rest;
  }

  predicate IsScalar(d: Doc) {
    !d.DocArray? && !d.DocObject?
  }

  /** A field list of scalars counts one value each. */
  lemma {:induction false} ScalarFields(fields: seq<Field>)
    requires forall i | 0 <= i < |fields| :: IsScalar(fields[i].doc)
    ensures FieldNodes(fields) == |fields| && FieldsHeight(fields) == 0
  {
    if fields != [] {
      ScalarFields(fields[1..]);
    }
  }

  lemma {:induction false} ListSize(values: seq<string>)
    ensures DocNodes(StringsDoc(values)) == 1 + |values| && DocHeight(StringsDoc(values)) <= 1
  {
    var items := StringsDoc(values).items;
    StringItemsSize(items);
  }

  lemma {:induction false} StringItemsSize(items: seq<Doc>)
    requires forall i | 0 <= i < |items| :: items[i].DocString?
    ensures ItemNodes(items) == |items| && ItemsHeight(items) == 0
  {
    if items != [] {
      StringItemsSize(items[1..]);
    }
  }

  /** Scalars followed by one or two lists of strings. */
  lemma ScalarsAndLists(scalars: seq<Field>, f: Field, g: Field, v: seq<string>, w: seq<string>)
    requires forall i | 0 <= i < |scalars| :: IsScalar(scalars[i].doc)
    requires f.doc == StringsDoc(v) && g.doc == StringsDoc(w)
    ensures FieldNodes(scalars + [f]) == |scalars| + 1 + |v| && FieldsHeight(scalars + [f]) <= 1
    ensures FieldNodes(scalars + [f, g]) == |scalars| + 2 + |v| + |w| && FieldsHeight(scalars + [f, g]) <= 1
  {
    hide StringsDoc, IsScalar;
    ScalarFields(scalars);
    ListSize(v);
    ListSize(w);
    FieldsConcat(scalars, [f]);
    FieldsConcat(scalars, [f, g]);
    assert [f] + [] == [f] && [g] + [] == [g] && [f] + [g] == [f, g];
    NextField(f, []);
    NextField(g, []);
    NextField(f, [g]);
  }

  lemma ScopeSize(v: SubmissionScope)
    ensures FieldNodes(ScopeFields(v)) == 5 + |v.interfaces| + |v.authorities| && FieldsHeight(ScopeFields(v)) <= 1
  {
    var fs := ScopeFields(v);
    assert fs == fs[..3] + [fs[3], fs[4]];
    ScalarsAndLists(fs[..3], fs[3], fs[4], v.interfaces, v.authorities);
  }

  lemma StandardsSize(v: StandardsTarget)
    ensures FieldNodes(StandardsFields(v)) == 4 + |v.bulletinsIncluded| + |v.bulletinsExcluded|
    ensures FieldsHeight(StandardsFields(v)) <= 1
  {
    var fs := StandardsFields(v);
    assert fs == fs[..2] + [fs[2], fs[3]];
    ScalarsAndLists(fs[..2], fs[2], fs[3], v.bulletinsIncluded, v.bulletinsExcluded);
  }

  lemma TerminalSize(v: TerminalProfile)
    ensures FieldNodes(TerminalFields(v)) == 6 + |v.supportedInterfaces| && FieldsHeight(TerminalFields(v)) <= 1
  {
    var fs := TerminalFields(v);
    assert fs == fs[..5] + [fs[5]];
    ScalarsAndLists(fs[..5], fs[5], fs[5], v.supportedInterfaces, v.supportedInterfaces);
  }

  lemma KernelSize(v: KernelRegistration)
    ensures FieldNodes(KernelFields(v)) == 5 + |v.schemeScope| && FieldsHeight(KernelFields(v)) <= 1
  {
    var fs := KernelFields(v);
    assert fs == fs[..4] + [fs[4]];
    ScalarsAndLists(fs[..4], fs[4], fs[4], v.schemeScope, v.schemeScope);
  }

  lemma CvmSize(v: CvmExtension)
    ensures FieldNodes(CvmFields(v)) == 6 + |v.schemeScope| && FieldsHeight(CvmFields(v)) <= 1
  {
    var fs := CvmFields(v);
    assert fs == (fs[..1] + [fs[1]]) + fs[2..];
    ScalarsAndLists(fs[..1], fs[1], fs[1], v.schemeScope, v.schemeScope);
    ScalarFields(fs[2..]);
    FieldsConcat(fs[..1] + [fs[1]], fs[2..]);
  }

  lemma ArtifactSize(v: ArtifactHash)
    ensures FieldNodes(ArtifactFields(v)) == 4 + |v.bindsOpenIssues| && FieldsHeight(ArtifactFields(v)) <= 1
  {
    var fs := ArtifactFields(v);
    assert fs == fs[..3] + [fs[3]];
    ScalarsAndLists(fs[..3], fs[3], fs[3], v.bindsOpenIssues, v.bindsOpenIssues);
  }

  lemma RuntimeSize(v: RuntimePolicy)
    ensures FieldNodes(RuntimeFields(v)) == 7 && FieldsHeight(RuntimeFields(v)) <= 1
  {
    hide TimeoutNumber;
    var fs := RuntimeFields(v);
    ScalarFields(TimeoutFields(v.callbackTimeouts));
    ObjectSize(TimeoutFields(v.callbackTimeouts));
    ScalarFields(fs[1..]);
    assert fs == [fs[0]] + fs[1..];
    NextField(fs[0], fs[1..]);
  }

  lemma ArraySize(items: seq<Doc>)
    requires items != []
    ensures DocNodes(DocArray(items)) == 1 + ItemNodes(items) && DocHeight(DocArray(items)) == 1 + ItemsHeight(items)
  {
  }

  lemma FirstItem(d: Doc, rest: seq<Doc>)
    ensures ItemNodes([d] + rest) == DocNodes(d) + ItemNodes(rest)
    ensures ItemsHeight([d] + rest) == Max(DocHeight(d), ItemsHeight(rest))
  {
    hide DocNodes, DocHeight;
    assert ([d] + rest)[1..] == rest;
  }

  lemma SingletonSize(fields: seq<Field>)
    requires fields != []
    ensures DocNodes(DocArray([DocObject(fields)])) == 2 + FieldNodes(fields)
    ensures DocHeight(DocArray([DocObject(fields)])) == 2 + FieldsHeight(fields)
  {
    hide FieldNodes, FieldsHeight;
    ObjectSize(fields);
    ArraySize([DocObject(fields)]);
    FirstItem(DocObject(fields), []);
    assert [DocObject(fields)] + [] == [DocObject(fields)];
  }

  lemma PairSize(fields: seq<Field>, more: seq<Field>)
    requires fields != [] && more != []
    ensures DocNodes(DocArray([DocObject(fields), DocObject(more)])) == 3 + FieldNodes(fields) + FieldNodes(more)
    ensures DocHeight(DocArray([DocObject(fields), DocObject(more)])) == 2 + Max(FieldsHeight(fields), FieldsHeight(more))
  {
    hide FieldNodes, FieldsHeight;
    ObjectSize(fields);
    ObjectSize(more);
    ArraySize([DocObject(fields), DocObject(more)]);
    FirstItem(DocObject(fields), [DocObject(more)]);
    FirstItem(DocObject(more), []);
    assert [DocObject(fields)] + [DocObject(more)] == [DocObject(fields), DocObject(more)];
    assert [DocObject(more)] + [] == [DocObject(more)];
  }

  predicate BoundedLists(lists: InputLists) {
    && |lists.interfaces| <= 128 && |lists.authorities| <= 128 && |lists.bulletinsIncluded| <= 128
    && |lists.bulletinsExcluded| <= 128 && |lists.schemeScope| <= 128
  }

  lemma FourFields(a: Field, b: Field, c: Field, d: Field)
    ensures FieldNodes([a, b, c, d]) == DocNodes(a.doc) + DocNodes(b.doc) + DocNodes(c.doc) + DocNodes(d.doc)
    ensures FieldsHeight([a, b, c, d])
      == Max(DocHeight(a.doc), Max(DocHeight(b.doc), Max(DocHeight(c.doc), DocHeight(d.doc))))
  {
    hide DocNodes, DocHeight;
    NextField(a, [b, c, d]);
    NextField(b, [c, d]);
    NextField(c, [d]);
    NextField(d, []);
    assert [a] + [b, c, d] == [a, b, c, d] && [b] + [c, d] == [b, c, d] && [c] + [d] == [c, d] && [d] + [] == [d];
  }

  lemma RecordDocsFit(c: Crypto, input: ProvisioningInput, lists: InputLists)
    requires BoundedLists(lists)
    ensures FieldNodes(RecordFields(PayloadOf(c, input, lists))) <= 666
    ensures FieldsHeight(RecordFields(PayloadOf(c, input, lists))) <= 2
  {
    hide DocNodes, DocHeight, FieldNodes, FieldsHeight, TimeoutsOf;
    var p := PayloadOf(c, input, lists);
    ScopeSize(p.submissionScope);
    StandardsSize(p.standardsTarget);
    TerminalSize(p.terminalProfile);
    RuntimeSize(p.runtimePolicy);
    ObjectSize(ScopeFields(p.submissionScope));
    ObjectSize(StandardsFields(p.standardsTarget));
    ObjectSize(TerminalFields(p.terminalProfile));
    ObjectSize(RuntimeFields(p.runtimePolicy));
    var fs := RecordFields(p);
    FourFields(fs[0], fs[1], fs[2], fs[3]);
    assert fs == [fs[0], fs[1], fs[2], fs[3]];
  }

  lemma ListDocsFit(c: Crypto, input: ProvisioningInput, lists: InputLists)
    requires BoundedLists(lists)
    ensures FieldNodes(ListFields(PayloadOf(c, input, lists))) <= 292
    ensures FieldsHeight(ListFields(PayloadOf(c, input, lists))) <= 3
  {
    hide DocNodes, DocHeight, FieldNodes, FieldsHeight, KernelsDoc, CvmsDoc, TestCasesDoc, ArtifactsDoc;
    var p := PayloadOf(c, input, lists);
    CreatedLists(c, input, lists);
    KernelSize(KernelOf(input, lists));
    CvmSize(BaselineCvm(lists));
    ScalarFields(TestCaseFields(TestCaseOf(input)));
    ArtifactSize(ProfileArtifact(c, input));
    ArtifactSize(VectorArtifact(c, input));
    SingletonSize(KernelFields(KernelOf(input, lists)));
    SingletonSize(CvmFields(BaselineCvm(lists)));
    SingletonSize(TestCaseFields(TestCaseOf(input)));
    PairSize(ArtifactFields(ProfileArtifact(c, input)), ArtifactFields(VectorArtifact(c, input)));
    var fs := ListFields(p);
    FourFields(fs[0], fs[1], fs[2], fs[3]);
    assert fs == [fs[0], fs[1], fs[2], fs[3]];
  }

  lemma PayloadFits(c: Crypto, input: ProvisioningInput, lists: InputLists)
    requires BoundedLists(lists)
    ensures DocNodes(PayloadDoc(PayloadOf(c, input, lists))) <= 961
    ensures DocHeight(PayloadDoc(PayloadOf(c, input, lists))) <= 4
  {
    hide DocNodes, DocHeight, FieldNodes, FieldsHeight, RecordFields, ListFields;
    var p := PayloadOf(c, input, lists);
    var texts := [Str("scheme_profile_set_json", p.schemeProfileSetJson), Str("vector_bundle_json", p.vectorBundleJson)];
    RecordDocsFit(c, input, lists);
    ListDocsFit(c, input, lists);
    ScalarFields(texts);
    FieldsConcat(RecordFields(p), ListFields(p));
    FieldsConcat(RecordFields(p) + ListFields(p), texts);
    assert PayloadFields(p) == RecordFields(p) + ListFields(p) + texts;
    ObjectSize(PayloadFields(p));
  }

  /** However long the texts, a created bundle has fewer than a thousand JSON values and nests five deep. */
  lemma BundleFits(b: Bundle)
    requires DocNodes(PayloadDoc(b.payload)) <= 961 && DocHeight(PayloadDoc(b.payload)) <= 4
    ensures FitsLimits(BundleDoc(b))
  {
    hide DocNodes, DocHeight, FieldNodes, FieldsHeight, PayloadDoc, ClassText, FormatDate;
    var fs := BundleFields(b);
    var signature := SignatureFields(b.signature);
    ScalarFields(signature);
    ObjectSize(signature);
    ScalarFields(fs[..6]);
    NextField(fs[6], [fs[7]]);
    NextField(fs[7], []);
    FieldsConcat(fs[..6], [fs[6], fs[7]]);
    assert [fs[6]] + [fs[7]] == [fs[6], fs[7]] && [fs[7]] + [] == [fs[7]];
    assert fs == fs[..6] + [fs[6], fs[7]];
    ScalarFields([]);
    ObjectSize(fs);
  }

  lemma AnchorFits(anchor: TrustAnchor)
    ensures FitsLimits(AnchorsDoc([anchor]))
  {
    hide DocNodes, DocHeight, FieldNodes, FieldsHeight, FormatDate;
    var fields := AnchorFields(anchor);
    ScalarFields(fields);
    SingletonSize(fields);
    assert AnchorListDoc([anchor]) == DocArray([DocObject(fields)]);
    var f, g := Str("schema_version", ANCHORS_SCHEMA_VERSION), Field("trust_anchors", AnchorListDoc([anchor]));
    ScalarFields([f]);
    ScalarFields([]);
    NextField(g, []);
    FieldsConcat([f], [g]);
    assert [g] + [] == [g] && [f] + [g] == [f, g];
    ObjectSize([f, g]);
  }
}
