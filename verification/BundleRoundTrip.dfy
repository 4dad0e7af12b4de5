/**
 Printing a bundle and parsing it back (src/cert_bundle.rs): exactly which bundles survive, and why equal canonical
 texts mean equal payloads.
 */
module BundleRoundTrip {
  import opened Kernel
  import opened Text
  import opened JsonSyntax
  import opened JsonFields
  import opened JsonDoc
  import opened BundleRecords
  import opened BundleReader
  import JsonReader
  import opened JsonSize

  // ---------------------------------------------------------------- every record prints sound keys

  /** A string, number, boolean or list of strings. */
  predicate IsFlat(d: Doc) {
    match d
    case DocArray(items) => forall i | 0 <= i < |items| :: items[i].DocString?
    case DocObject(_) => false
    case _ => true
  }

  lemma KeyedObject(fields: seq<Field>, keys: seq<string>)
    requires WellKeyed(fields, keys)
    requires forall i | 0 <= i < |fields| :: IsFlat(fields[i].doc) || Keyed(fields[i].doc)
    ensures Keyed(DocObject(fields))
  {
    hide WellKeyed, IsPlainKey;
    WellKeyedFields(fields, keys);
    forall i | 0 <= i < |fields|
      ensures Keyed(fields[i].doc)
    {
    }
  }

  lemma ScopeKeyed(x: SubmissionScope)
    ensures Keyed(DocObject(ScopeFields(x)))
  {
    hide WellKeyed, Keyed;
    ScopeKeys(x);
    KeyedObject(ScopeFields(x), SCOPE_KEYS);
  }

  lemma StandardsKeyed(x: StandardsTarget)
    ensures Keyed(DocObject(StandardsFields(x)))
  {
    hide WellKeyed, Keyed;
    StandardsKeys(x);
    KeyedObject(StandardsFields(x), STANDARDS_KEYS);
  }

  lemma TerminalKeyed(x: TerminalProfile)
    ensures Keyed(DocObject(TerminalFields(x)))
  {
    hide WellKeyed, Keyed;
    TerminalKeys(x);
    KeyedObject(TerminalFields(x), TERMINAL_KEYS);
  }

  lemma RuntimeKeyed(x: RuntimePolicy)
    ensures Keyed(DocObject(RuntimeFields(x)))
  {
    hide WellKeyed, Keyed;
    TimeoutKeys(x.callbackTimeouts);
    KeyedObject(TimeoutFields(x.callbackTimeouts), TIMEOUT_KEYS);
    RuntimeKeys(x);
    KeyedObject(RuntimeFields(x), RUNTIME_KEYS);
  }

  lemma KernelsKeyed(xs: seq<KernelRegistration>)
    ensures Keyed(KernelsDoc(xs))
  {
    hide WellKeyed;
    forall i | 0 <= i < |xs|
      ensures Keyed(DocObject(KernelFields(xs[i])))
    {
      KernelKeys(xs[i]);
      KeyedObject(KernelFields(xs[i]), KERNEL_KEYS);
    }
  }

  lemma CvmsKeyed(xs: seq<CvmExtension>)
    ensures Keyed(CvmsDoc(xs))
  {
    hide WellKeyed;
    forall i | 0 <= i < |xs|
      ensures Keyed(DocObject(CvmFields(xs[i])))
    {
      CvmKeys(xs[i]);
      KeyedObject(CvmFields(xs[i]), CVM_KEYS);
    }
  }

  lemma TestCasesKeyed(xs: seq<TestCase>)
    ensures Keyed(TestCasesDoc(xs))
  {
    hide WellKeyed;
    forall i | 0 <= i < |xs|
      ensures Keyed(DocObject(TestCaseFields(xs[i])))
    {
      TestCaseKeys(xs[i]);
      KeyedObject(TestCaseFields(xs[i]), TESTCASE_KEYS);
    }
  }

  lemma ArtifactsKeyed(xs: seq<ArtifactHash>)
    ensures Keyed(ArtifactsDoc(xs))
  {
    hide WellKeyed;
    forall i | 0 <= i < |xs|
      ensures Keyed(DocObject(ArtifactFields(xs[i])))
    {
      ArtifactKeys(xs[i]);
      KeyedObject(ArtifactFields(xs[i]), ARTIFACT_KEYS);
    }
  }

  lemma PayloadKeyed(x: Payload)
    ensures Keyed(PayloadDoc(x))
  {
    hide WellKeyed, Keyed, ScopeFields, StandardsFields, TerminalFields, RuntimeFields, KernelsDoc, CvmsDoc,
      TestCasesDoc, ArtifactsDoc;
    ScopeKeyed(x.submissionScope);
    StandardsKeyed(x.standardsTarget);
    TerminalKeyed(x.terminalProfile);
    RuntimeKeyed(x.runtimePolicy);
    KernelsKeyed(x.kernelRegistry);
    CvmsKeyed(x.cvmExtensions);
    TestCasesKeyed(x.testPlan);
    ArtifactsKeyed(x.artifactHashes);
    PayloadKeys(x);
    KeyedObject(PayloadFields(x), PAYLOAD_KEYS);
  }

  lemma BundleKeyed(x: Bundle)
    ensures Keyed(BundleDoc(x))
  {
    hide WellKeyed, Keyed, PayloadDoc, SignatureFields;
    PayloadKeyed(x.payload);
    SignatureKeyed(x.signature);
    BundleKeys(x);
    KeyedObject(BundleFields(x), BUNDLE_KEYS);
  }

  lemma SignatureKeyed(x: BundleSignature)
    ensures Keyed(DocObject(SignatureFields(x)))
  {
    hide WellKeyed, Keyed;
    SignatureKeys(x);
    KeyedObject(SignatureFields(x), SIGNATURE_KEYS);
  }

  lemma AnchorListKeyed(xs: seq<TrustAnchor>)
    ensures Keyed(AnchorListDoc(xs))
  {
    hide WellKeyed, AnchorKeyList;
    forall i | 0 <= i < |xs|
      ensures Keyed(DocObject(AnchorFields(xs[i])))
    {
      AnchorKeys(xs[i]);
      KeyedObject(AnchorFields(xs[i]), AnchorKeyList(xs[i]));
    }
  }

  lemma AnchorsKeyed(xs: seq<TrustAnchor>)
    ensures Keyed(AnchorsDoc(xs))
  {
    hide Keyed, SoundKeys, AnchorListDoc;
    var fs := [Str("schema_version", ANCHORS_SCHEMA_VERSION), Field("trust_anchors", AnchorListDoc(xs))];
    AnchorListKeyed(xs);
    AnchorsKeysAreSound();
    assert KeysOf(fs) == ["schema_version", "trust_anchors"];
    KeyedObject(fs, ["schema_version", "trust_anchors"]);
  }

  // ---------------------------------------------------------------- round trips

  lemma FileRoundTrip(d: Doc)
    requires Keyed(d)
    ensures JsonReader.Parse(FileText(d)) == Ok(DocValue(d)) <==> PlainStrings(d) && FitsLimits(d)
  {
    hide JsonReader.Parse, DocText, DocValue;
    var end: Ws := [0x0a];
    DocRoundTrip([], d, end);
    assert [] + (DocText(d) + end) == FileText(d);
  }

  /**
   A bundle's printed form parses back to the bundle exactly when the bundle is valid, all its strings are plain and it
   fits the parser's limits.
   */
  lemma PrintedBundleParses(b: Bundle)
    ensures ParseCertificationBundle(FileText(BundleDoc(b))) == Ok(b) <==>
      GoodBundle(b) && PlainStrings(BundleDoc(b)) && FitsLimits(BundleDoc(b))
  {
    hide JsonReader.Parse, ParseBundleValue, GoodBundle, BundleDoc, FileText;
    BundleKeyed(b);
    FileRoundTrip(BundleDoc(b));
    var r := JsonReader.Parse(FileText(BundleDoc(b)));
    if r.Ok? {
      BundleIff(r.value, b);
    }
    BundleIff(DocValue(BundleDoc(b)), b);
  }

  /** The same for a list of trust anchors, which must also not be empty nor exceed the file size limit. */
  lemma PrintedAnchorsParse(xs: seq<TrustAnchor>)
    ensures ParseTrustAnchors(FileText(AnchorsDoc(xs))) == Ok(xs) <==>
      && |FileText(AnchorsDoc(xs))| <= 4_194_304
      && xs != [] && GoodAnchors(xs) && PlainStrings(AnchorsDoc(xs)) && FitsLimits(AnchorsDoc(xs))
  {
    hide JsonReader.Parse, ParseAnchorsValue, GoodAnchors, AnchorsDoc;
    AnchorsKeyed(xs);
    FileRoundTrip(AnchorsDoc(xs));
    var r := JsonReader.Parse(FileText(AnchorsDoc(xs)));
    if r.Ok? {
      AnchorsIff(r.value, xs);
    }
    AnchorsIff(DocValue(AnchorsDoc(xs)), xs);
  }

  /** A bundle that was parsed from any text survives being printed and parsed again exactly when its strings are plain. */
  lemma ReprintedBundle(input: seq<byte>, b: Bundle)
    requires ParseCertificationBundle(input) == Ok(b)
    ensures GoodBundle(b) && FitsLimits(BundleDoc(b))
    ensures ParseCertificationBundle(FileText(BundleDoc(b))) == Ok(b) <==> PlainStrings(BundleDoc(b))
  {
    hide JsonReader.Parse, ParseBundleValue, GoodBundle, BundleDoc, FileText, FitsLimits;
    BundleIff(JsonReader.Parse(input).value, b);
    BundleKeyed(b);
    ParsedFits(input, BundleDoc(b));
    PrintedBundleParses(b);
  }

  lemma ObjectSize(fields: seq<Field>)
    requires fields != []
    ensures DocNodes(DocObject(fields)) == 1 + FieldNodes(fields)
    ensures DocHeight(DocObject(fields)) == 1 + FieldsHeight(fields)
  {
  }
}
