/**
 The readers of src/cert_bundle.rs, and the proof that each accepts exactly the values its record's document denotes:
 reading and printing are inverse on values.
 */
module BundleReader {
  import opened Kernel
  import opened Text
  import opened Hex
  import opened Dates
  import opened JsonSyntax
  import opened JsonFields
  import opened JsonDoc
  import opened BundleRecords
  import JsonReader

  const MAX_EMBEDDED_PROFILE_BYTES: nat := 1024 * 1024
  const MAX_BUNDLE_STRING_BYTES: nat := 4096
  const MAX_BUNDLE_COLLECTION_ITEMS: nat := 128
  const BUNDLE_SCHEMA_VERSION := "hyperion-certification" + "-bundle-1.0"
  const SIGNATURE_ALGORITHM := "hyperion" + "-ed25519" + "-sha256-v1"

  // ---------------------------------------------------------------- strings and lists

  /** `validate_clean_string`. */
  predicate CleanString(value: string) {
    && value != "" && |Utf8(value)| <= MAX_BUNDLE_STRING_BYTES
    && |Trim(value)| == |value|
    && (forall i | 0 <= i < |value| :: !IsControl(value[i]))
    && RejectWords(value, ["PLACEHOLDER", "...", "DUMMY"]).Pass?
  }

  predicate IsIdentifierChar(c: char) {
    'a' <= c <= 'z' || 'A' <= c <= 'Z' || '0' <= c <= '9' || c == '.' || c == '_' || c == '-'
  }

  /** `validate_identifier`. */
  predicate IsIdentifier(value: string) {
    CleanString(value) && forall i | 0 <= i < |value| :: IsIdentifierChar(value[i])
  }

  predicate IsHexOf(value: string, n: nat) {
    ValidateHexLen(value, n).Pass?
  }

  function RequiredCleanString(o: Fields, key: string): Result<string> {
    var value :- RequiredString(o, key);
    :- Check(CleanString(value), InvalidProfile);
    Ok(value)
  }

  function CleanElement(v: JsonValue): Result<string> {
    var value :- AsString(v);
    :- Check(CleanString(value), InvalidProfile);
    Ok(value)
  }

  /** `required_string_array_allow_empty`. */
  function RequiredStringList(o: Fields, key: string): Result<seq<string>> {
    var items :- RequiredArray(o, key);
    :- Check(|items| <= MAX_BUNDLE_COLLECTION_ITEMS, LengthOverflow);
    var values :- MapResult(CleanElement, items);
    :- Check(NoDuplicates(values), InvalidProfile);
    Ok(values)
  }

  /** `required_string_array`. */
  function RequiredStringArray(o: Fields, key: string): Result<seq<string>> {
    var items :- RequiredArray(o, key);
    :- Check(|items| <= MAX_BUNDLE_COLLECTION_ITEMS, LengthOverflow);
    :- Check(items != [], InvalidProfile);
    var values :- MapResult(CleanElement, items);
    :- Check(NoDuplicates(values), InvalidProfile);
    Ok(values)
  }

  /** A list of at most 128 distinct clean strings. */
  predicate CleanList(values: seq<string>) {
    && |values| <= MAX_BUNDLE_COLLECTION_ITEMS
    && NoDuplicates(values)
    && forall i | 0 <= i < |values| :: CleanString(values[i])
  }

  predicate CleanSet(values: seq<string>) {
    values != [] && CleanList(values)
  }

  /** `parse_array`. */
  function ParseArray<T>(o: Fields, key: string, parser: JsonValue -> Result<T>): Result<seq<T>> {
    var items :- RequiredArray(o, key);
    :- Check(|items| <= MAX_BUNDLE_COLLECTION_ITEMS, LengthOverflow);
    MapResult(parser, items)
  }

  // ---------------------------------------------------------------- reading maps built from fields

  function KeysOf(fields: seq<Field>): seq<string> {
    seq(|fields|, i requires 0 <= i < |fields| => fields[i].key)
  }

  /** The fields carry exactly these keys, which are distinct and need no escaping. */
  predicate WellKeyed(fields: seq<Field>, keys: seq<string>) {
    KeysOf(fields) == keys && SoundKeys(keys)
  }

  predicate SoundKeys(keys: seq<string>) {
    NoDuplicates(keys) && PlainKeys(keys)
  }

  predicate PlainKeys(keys: seq<string>) {
    forall i | 0 <= i < |keys| :: IsPlainKey(keys[i])
  }

  lemma WellKeyedFields(fields: seq<Field>, keys: seq<string>)
    requires WellKeyed(fields, keys)
    ensures DistinctKeys(fields) && forall i | 0 <= i < |fields| :: IsPlainKey(fields[i].key)
  {
    assert forall i | 0 <= i < |fields| :: fields[i].key == keys[i];
  }

  predicate Has(o: Fields, f: Field) {
    f.key in o && o[f.key] == DocValue(f.doc)
  }

  lemma FieldKeys(fields: seq<Field>, m: Fields)
    requires DistinctKeys(fields) && m == FieldMap(map[], fields)
    ensures forall k :: k in m <==> k in KeysOf(fields)
    ensures forall i | 0 <= i < |fields| :: Has(m, fields[i])
  {
    hide DocValue, FieldMap;
    FieldLookup(map[], fields);
    forall k
      ensures k in m <==> k in KeysOf(fields)
    {
      if k in KeysOf(fields) {
        var i :| 0 <= i < |fields| && KeysOf(fields)[i] == k;
        assert fields[i].key == k;
      }
      if k in m {
        var i :| 0 <= i < |fields| && fields[i].key == k;
        assert KeysOf(fields)[i] == k;
      }
    }
  }

  /** A map is the value of an object document exactly when it has its fields and no other key. */
  lemma MapIsFields(o: Fields, fields: seq<Field>)
    requires DistinctKeys(fields)
    ensures o == FieldMap(map[], fields) <==>
      (forall k | k in o.Keys :: k in KeysOf(fields)) && (forall i | 0 <= i < |fields| :: Has(o, fields[i]))
  {
    hide DocValue, FieldMap, DistinctKeys;
    var m := FieldMap(map[], fields);
    FieldKeys(fields, m);
    if (forall k | k in o.Keys :: k in KeysOf(fields)) && (forall i | 0 <= i < |fields| :: Has(o, fields[i])) {
      forall k | k in KeysOf(fields)
        ensures k in o && k in m && o[k] == m[k]
      {
        var i :| 0 <= i < |fields| && KeysOf(fields)[i] == k;
        assert Has(o, fields[i]) && Has(m, fields[i]);
      }
      assert o.Keys == m.Keys;
      assert o == m;
    }
  }

  lemma MatchFields(o: Fields, fields: seq<Field>, keys: seq<string>)
    requires WellKeyed(fields, keys)
    ensures o == FieldMap(map[], fields) <==>
      RejectUnknownFields(o, keys).Pass? && (forall i | 0 <= i < |fields| :: Has(o, fields[i]))
  {
    hide DocValue, FieldMap, Has;
    WellKeyedFields(fields, keys);
    MapIsFields(o, fields);
  }

  lemma StringListIff(o: Fields, key: string, values: seq<string>)
    ensures RequiredStringList(o, key) == Ok(values) <==> CleanList(values) && Has(o, Strs(key, values))
    ensures RequiredStringArray(o, key) == Ok(values) <==> CleanSet(values) && Has(o, Strs(key, values))
  {
    hide CleanString;
    if RequiredArray(o, key).Ok? {
      var items := o[key].items;
      MapResultIs(CleanElement, items, values);
      var printed := ItemValues(StringsDoc(values).items);
      assert forall i | 0 <= i < |values| :: printed[i] == JsonString(values[i]);
      if items == printed {
        assert forall i | 0 <= i < |values| :: CleanString(values[i]) ==> CleanElement(items[i]) == Ok(values[i]);
      }
      if |items| == |values| && forall i | 0 <= i < |items| :: CleanElement(items[i]) == Ok(values[i]) {
        assert forall i | 0 <= i < |values| :: items[i] == printed[i];
        assert items == printed;
      }
    }
  }

  lemma CleanStringIff(o: Fields, key: string, value: string)
    ensures RequiredCleanString(o, key) == Ok(value) <==> CleanString(value) && Has(o, Str(key, value))
  {
    hide CleanString;
  }

  lemma StringIff(o: Fields, key: string, value: string)
    ensures RequiredString(o, key) == Ok(value) <==> Has(o, Str(key, value))
  {
  }

  lemma NumberIff(o: Fields, key: string, value: u64)
    ensures RequiredU64(o, key) == Ok(value) <==> Has(o, Field(key, DocNumber(value)))
  {
  }

  lemma BoolIff(o: Fields, key: string, value: bool)
    ensures RequiredBool(o, key) == Ok(value) <==> Has(o, Field(key, DocBool(value)))
  {
  }

  lemma ObjectIff(o: Fields, key: string, fields: seq<Field>)
    ensures RequiredObject(o, key) == Ok(FieldMap(map[], fields)) <==> Has(o, Field(key, DocObject(fields)))
  {
    hide FieldMap;
  }

  // ---------------------------------------------------------------- records

  const SCOPE_KEYS: seq<string> :=
    ["product_name", "product_version", "certification_target", "interfaces", "authorities"]

  /** `parse_submission_scope`. */
  function ParseScope(o: Fields): Result<SubmissionScope> {
    var known := RejectUnknownFields(o, SCOPE_KEYS);
    :- known;
    var productName :- RequiredCleanString(o, "product_name");
    var productVersion :- RequiredCleanString(o, "product_version");
    var certificationTarget :- RequiredCleanString(o, "certification_target");
    var interfaces :- RequiredStringArray(o, "interfaces");
    var authorities :- RequiredStringArray(o, "authorities");
    Ok(SubmissionScope(productName, productVersion, certificationTarget, interfaces, authorities))
  }

  predicate GoodScope(v: SubmissionScope) {
    && CleanString(v.productName) && CleanString(v.productVersion) && CleanString(v.certificationTarget)
    && CleanSet(v.interfaces) && CleanSet(v.authorities)
  }

  lemma ScopeKeysAreDistinct()
    ensures NoDuplicates(SCOPE_KEYS)
  {
  }

  lemma ScopeKeysAreSound()
    ensures SoundKeys(SCOPE_KEYS)
  {
    hide NoDuplicates;
    ScopeKeysAreDistinct();
  }

  lemma ScopeKeys(x: SubmissionScope)
    ensures WellKeyed(ScopeFields(x), SCOPE_KEYS)
  {
    hide SoundKeys;
    ScopeKeysAreSound();
  }

  lemma ScopeIff(o: Fields, x: SubmissionScope)
    ensures ParseScope(o) == Ok(x) <==> GoodScope(x) && o == FieldMap(map[], ScopeFields(x))
  {
    hide RejectUnknownFields, RequiredCleanString, RequiredStringArray, RequiredStringList, RequiredString,
      RequiredU64, RequiredBool, RequiredObject, CleanString, CleanList, CleanSet, Has, WellKeyed, FieldMap, DocValue;
    var fs := ScopeFields(x);
    ScopeKeys(x);
    MatchFields(o, fs, SCOPE_KEYS);
    CleanStringIff(o, "product_name", x.productName);
    CleanStringIff(o, "product_version", x.productVersion);
    CleanStringIff(o, "certification_target", x.certificationTarget);
    StringListIff(o, "interfaces", x.interfaces);
    StringListIff(o, "authorities", x.authorities);
    assert fs[0] == Str("product_name", x.productName);
    assert fs[1] == Str("product_version", x.productVersion);
    assert fs[2] == Str("certification_target", x.certificationTarget);
    assert fs[3] == Strs("interfaces", x.interfaces);
    assert fs[4] == Strs("authorities", x.authorities);
  }

  const STANDARDS_KEYS: seq<string> :=
    ["emv_contact_version", "emv_contactless_kernel", "bulletins_included", "bulletins_excluded"]

  /** `parse_standards_target`. */
  function ParseStandards(o: Fields): Result<StandardsTarget> {
    var known := RejectUnknownFields(o, STANDARDS_KEYS);
    :- known;
    var emvContactVersion :- RequiredCleanString(o, "emv_contact_version");
    var emvContactlessKernel :- RequiredCleanString(o, "emv_contactless_kernel");
    var bulletinsIncluded :- RequiredStringArray(o, "bulletins_included");
    var bulletinsExcluded :- RequiredStringList(o, "bulletins_excluded");
    Ok(StandardsTarget(emvContactVersion, emvContactlessKernel, bulletinsIncluded, bulletinsExcluded))
  }

  predicate GoodStandards(v: StandardsTarget) {
    && CleanString(v.emvContactVersion) && CleanString(v.emvContactlessKernel) && CleanSet(v.bulletinsIncluded)
    && CleanList(v.bulletinsExcluded)
  }

  lemma StandardsKeysAreDistinct()
    ensures NoDuplicates(STANDARDS_KEYS)
  {
  }

  lemma StandardsKeysArePlain1()
    ensures IsPlainKey(STANDARDS_KEYS[0]) && IsPlainKey(STANDARDS_KEYS[1])
  {
  }

  lemma StandardsKeysArePlain2()
    ensures IsPlainKey(STANDARDS_KEYS[2]) && IsPlainKey(STANDARDS_KEYS[3])
  {
  }

  lemma StandardsKeysAreSound()
    ensures SoundKeys(STANDARDS_KEYS)
  {
    hide NoDuplicates, IsPlainKey;
    StandardsKeysAreDistinct();
    StandardsKeysArePlain1();
    StandardsKeysArePlain2();
  }

  lemma StandardsKeys(x: StandardsTarget)
    ensures WellKeyed(StandardsFields(x), STANDARDS_KEYS)
  {
    hide SoundKeys;
    StandardsKeysAreSound();
  }

  lemma StandardsIff(o: Fields, x: StandardsTarget)
    ensures ParseStandards(o) == Ok(x) <==> GoodStandards(x) && o == FieldMap(map[], StandardsFields(x))
  {
    hide RejectUnknownFields, RequiredCleanString, RequiredStringArray, RequiredStringList, RequiredString,
      RequiredU64, RequiredBool, RequiredObject, CleanString, CleanList, CleanSet, Has, WellKeyed, FieldMap, DocValue;
    var fs := StandardsFields(x);
    StandardsKeys(x);
    MatchFields(o, fs, STANDARDS_KEYS);
    CleanStringIff(o, "emv_contact_version", x.emvContactVersion);
    CleanStringIff(o, "emv_contactless_kernel", x.emvContactlessKernel);
    StringListIff(o, "bulletins_included", x.bulletinsIncluded);
    StringListIff(o, "bulletins_excluded", x.bulletinsExcluded);
    assert fs[0] == Str("emv_contact_version", x.emvContactVersion);
    assert fs[1] == Str("emv_contactless_kernel", x.emvContactlessKernel);
    assert fs[2] == Strs("bulletins_included", x.bulletinsIncluded);
    assert fs[3] == Strs("bulletins_excluded", x.bulletinsExcluded);
  }

  const TERMINAL_KEYS: seq<string> :=
    ["terminal_type", "device_model", "firmware_version", "l1_approval_reference", "pci_pts_reference",
     "supported_interfaces"]

  /** `parse_terminal_profile`. */
  function ParseTerminal(o: Fields): Result<TerminalProfile> {
    var known := RejectUnknownFields(o, TERMINAL_KEYS);
    :- known;
    var terminalType :- RequiredCleanString(o, "terminal_type");
    var deviceModel :- RequiredCleanString(o, "device_model");
    var firmwareVersion :- RequiredCleanString(o, "firmware_version");
    var l1ApprovalReference :- RequiredCleanString(o, "l1_approval_reference");
    var pciPtsReference :- RequiredCleanString(o, "pci_pts_reference");
    var supportedInterfaces :- RequiredStringArray(o, "supported_interfaces");
    Ok(TerminalProfile(terminalType, deviceModel, firmwareVersion, l1ApprovalReference, pciPtsReference, supportedInterfaces))
  }

  predicate GoodTerminal(v: TerminalProfile) {
    && CleanString(v.terminalType) && CleanString(v.deviceModel) && CleanString(v.firmwareVersion)
    && CleanString(v.l1ApprovalReference) && CleanString(v.pciPtsReference) && CleanSet(v.supportedInterfaces)
  }

  lemma TerminalKeysAreDistinct()
    ensures NoDuplicates(TERMINAL_KEYS)
  {
  }

  lemma TerminalKeysArePlain1()
    ensures IsPlainKey(TERMINAL_KEYS[0]) && IsPlainKey(TERMINAL_KEYS[1]) && IsPlainKey(TERMINAL_KEYS[2])
  {
  }

  lemma TerminalKeysArePlain2()
    ensures IsPlainKey(TERMINAL_KEYS[3]) && IsPlainKey(TERMINAL_KEYS[4]) && IsPlainKey(TERMINAL_KEYS[5])
  {
  }

  lemma TerminalKeysAreSound()
    ensures SoundKeys(TERMINAL_KEYS)
  {
    hide NoDuplicates, IsPlainKey;
    TerminalKeysAreDistinct();
    TerminalKeysArePlain1();
    TerminalKeysArePlain2();
  }

  lemma TerminalKeys(x: TerminalProfile)
    ensures WellKeyed(TerminalFields(x), TERMINAL_KEYS)
  {
    hide SoundKeys;
    TerminalKeysAreSound();
  }

  lemma TerminalIff(o: Fields, x: TerminalProfile)
    ensures ParseTerminal(o) == Ok(x) <==> GoodTerminal(x) && o == FieldMap(map[], TerminalFields(x))
  {
    hide RejectUnknownFields, RequiredCleanString, RequiredStringArray, RequiredStringList, RequiredString,
      RequiredU64, RequiredBool, RequiredObject, CleanString, CleanList, CleanSet, Has, WellKeyed, FieldMap, DocValue;
    var fs := TerminalFields(x);
    TerminalKeys(x);
    MatchFields(o, fs, TERMINAL_KEYS);
    CleanStringIff(o, "terminal_type", x.terminalType);
    CleanStringIff(o, "device_model", x.deviceModel);
    CleanStringIff(o, "firmware_version", x.firmwareVersion);
    CleanStringIff(o, "l1_approval_reference", x.l1ApprovalReference);
    CleanStringIff(o, "pci_pts_reference", x.pciPtsReference);
    StringListIff(o, "supported_interfaces", x.supportedInterfaces);
    assert fs[0] == Str("terminal_type", x.terminalType);
    assert fs[1] == Str("device_model", x.deviceModel);
    assert fs[2] == Str("firmware_version", x.firmwareVersion);
    assert fs[3] == Str("l1_approval_reference", x.l1ApprovalReference);
    assert fs[4] == Str("pci_pts_reference", x.pciPtsReference);
    assert fs[5] == Strs("supported_interfaces", x.supportedInterfaces);
  }

  const KERNEL_KEYS: seq<string> := ["kernel_profile_id", "interface", "algorithm", "c8_package", "scheme_scope"]

  /** `parse_kernel_registration`. */
  function ParseKernel(o: Fields): Result<KernelRegistration> {
    var known := RejectUnknownFields(o, KERNEL_KEYS);
    :- known;
    var kernelProfileId :- RequiredCleanString(o, "kernel_profile_id");
    var iface :- RequiredCleanString(o, "interface");
    var algorithm :- RequiredCleanString(o, "algorithm");
    var c8Package :- RequiredCleanString(o, "c8_package");
    var schemeScope :- RequiredStringArray(o, "scheme_scope");
    Ok(KernelRegistration(kernelProfileId, iface, algorithm, c8Package, schemeScope))
  }

  predicate GoodKernel(v: KernelRegistration) {
    && CleanString(v.kernelProfileId) && CleanString(v.iface) && CleanString(v.algorithm)
    && CleanString(v.c8Package) && CleanSet(v.schemeScope)
  }

  lemma KernelKeysAreDistinct()
    ensures NoDuplicates(KERNEL_KEYS)
  {
  }

  lemma KernelKeysArePlain1()
    ensures IsPlainKey(KERNEL_KEYS[0]) && IsPlainKey(KERNEL_KEYS[1]) && IsPlainKey(KERNEL_KEYS[2])
  {
  }

  lemma KernelKeysArePlain2()
    ensures IsPlainKey(KERNEL_KEYS[3]) && IsPlainKey(KERNEL_KEYS[4])
  {
  }

  lemma KernelKeysAreSound()
    ensures SoundKeys(KERNEL_KEYS)
  {
    hide NoDuplicates, IsPlainKey;
    KernelKeysAreDistinct();
    KernelKeysArePlain1();
    KernelKeysArePlain2();
  }

  lemma KernelKeys(x: KernelRegistration)
    ensures WellKeyed(KernelFields(x), KERNEL_KEYS)
  {
    hide SoundKeys;
    KernelKeysAreSound();
  }

  lemma KernelIff(o: Fields, x: KernelRegistration)
    ensures ParseKernel(o) == Ok(x) <==> GoodKernel(x) && o == FieldMap(map[], KernelFields(x))
  {
    hide RejectUnknownFields, RequiredCleanString, RequiredStringArray, RequiredStringList, RequiredString,
      RequiredU64, RequiredBool, RequiredObject, CleanString, CleanList, CleanSet, Has, WellKeyed, FieldMap, DocValue;
    var fs := KernelFields(x);
    KernelKeys(x);
    MatchFields(o, fs, KERNEL_KEYS);
    CleanStringIff(o, "kernel_profile_id", x.kernelProfileId);
    CleanStringIff(o, "interface", x.iface);
    CleanStringIff(o, "algorithm", x.algorithm);
    CleanStringIff(o, "c8_package", x.c8Package);
    StringListIff(o, "scheme_scope", x.schemeScope);
    assert fs[0] == Str("kernel_profile_id", x.kernelProfileId);
    assert fs[1] == Str("interface", x.iface);
    assert fs[2] == Str("algorithm", x.algorithm);
    assert fs[3] == Str("c8_package", x.c8Package);
    assert fs[4] == Strs("scheme_scope", x.schemeScope);
  }

  const TESTCASE_KEYS: seq<string> := ["case_id", "vector_class", "expected_outcome", "trace_requirement"]

  /** `parse_test_case`. */
  function ParseTestCase(o: Fields): Result<TestCase> {
    var known := RejectUnknownFields(o, TESTCASE_KEYS);
    :- known;
    var caseId :- RequiredCleanString(o, "case_id");
    :- Check(IsIdentifier(caseId), InvalidProfile);
    var vectorClass :- RequiredCleanString(o, "vector_class");
    var expectedOutcome :- RequiredCleanString(o, "expected_outcome");
    var traceRequirement :- RequiredCleanString(o, "trace_requirement");
    Ok(TestCase(caseId, vectorClass, expectedOutcome, traceRequirement))
  }

  predicate GoodTestCase(v: TestCase) {
    && CleanString(v.caseId) && Check(IsIdentifier(v.caseId), InvalidProfile).Pass? && CleanString(v.vectorClass)
    && CleanString(v.expectedOutcome) && CleanString(v.traceRequirement)
  }

  lemma TestCaseKeysAreDistinct()
    ensures NoDuplicates(TESTCASE_KEYS)
  {
  }

  lemma TestCaseKeysAreSound()
    ensures SoundKeys(TESTCASE_KEYS)
  {
    hide NoDuplicates;
    TestCaseKeysAreDistinct();
  }

  lemma TestCaseKeys(x: TestCase)
    ensures WellKeyed(TestCaseFields(x), TESTCASE_KEYS)
  {
    hide SoundKeys;
    TestCaseKeysAreSound();
  }

  lemma TestCaseIff(o: Fields, x: TestCase)
    ensures ParseTestCase(o) == Ok(x) <==> GoodTestCase(x) && o == FieldMap(map[], TestCaseFields(x))
  {
    hide RejectUnknownFields, RequiredCleanString, RequiredStringArray, RequiredStringList, RequiredString,
      RequiredU64, RequiredBool, RequiredObject, CleanString, CleanList, CleanSet, Has, WellKeyed, FieldMap, DocValue,
      ValidateHexLen, IsIdentifier;
    var fs := TestCaseFields(x);
    TestCaseKeys(x);
    MatchFields(o, fs, TESTCASE_KEYS);
    CleanStringIff(o, "case_id", x.caseId);
    CleanStringIff(o, "vector_class", x.vectorClass);
    CleanStringIff(o, "expected_outcome", x.expectedOutcome);
    CleanStringIff(o, "trace_requirement", x.traceRequirement);
    assert fs[0] == Str("case_id", x.caseId);
    assert fs[1] == Str("vector_class", x.vectorClass);
    assert fs[2] == Str("expected_outcome", x.expectedOutcome);
    assert fs[3] == Str("trace_requirement", x.traceRequirement);
  }

  const CVM_KEYS: seq<string> :=
    ["rule_id", "scheme_scope", "cvm_code_hex", "meaning", "tvr_on_failure_hex", "continue_on_failure"]

  /** `parse_cvm_extension`. */
  function ParseCvm(o: Fields): Result<CvmExtension> {
    var known := RejectUnknownFields(o, CVM_KEYS);
    :- known;
    var ruleId :- RequiredCleanString(o, "rule_id");
    var schemeScope :- RequiredStringArray(o, "scheme_scope");
    var cvmCodeHex :- RequiredCleanString(o, "cvm_code_hex");
    :- ValidateHexLen(cvmCodeHex, 1);
    var meaning :- RequiredCleanString(o, "meaning");
    var tvrOnFailureHex :- RequiredCleanString(o, "tvr_on_failure_hex");
    :- ValidateHexLen(tvrOnFailureHex, 5);
    var continueOnFailure :- RequiredBool(o, "continue_on_failure");
    Ok(CvmExtension(ruleId, schemeScope, cvmCodeHex, meaning, tvrOnFailureHex, continueOnFailure))
  }

  predicate GoodCvm(v: CvmExtension) {
    && CleanString(v.ruleId) && CleanSet(v.schemeScope) && CleanString(v.cvmCodeHex)
    && ValidateHexLen(v.cvmCodeHex, 1).Pass? && CleanString(v.meaning) && CleanString(v.tvrOnFailureHex)
    && ValidateHexLen(v.tvrOnFailureHex, 5).Pass?
  }

  lemma CvmKeysAreDistinct()
    ensures NoDuplicates(CVM_KEYS)
  {
  }

  lemma CvmKeysArePlain1()
    ensures IsPlainKey(CVM_KEYS[0]) && IsPlainKey(CVM_KEYS[1]) && IsPlainKey(CVM_KEYS[2])
  {
  }

  lemma CvmKeysArePlain2()
    ensures IsPlainKey(CVM_KEYS[3]) && IsPlainKey(CVM_KEYS[4]) && IsPlainKey(CVM_KEYS[5])
  {
  }

  lemma CvmKeysAreSound()
    ensures SoundKeys(CVM_KEYS)
  {
    hide NoDuplicates, IsPlainKey;
    CvmKeysAreDistinct();
    CvmKeysArePlain1();
    CvmKeysArePlain2();
  }

  lemma CvmKeys(x: CvmExtension)
    ensures WellKeyed(CvmFields(x), CVM_KEYS)
  {
    hide SoundKeys;
    CvmKeysAreSound();
  }

  lemma CvmIff(o: Fields, x: CvmExtension)
    ensures ParseCvm(o) == Ok(x) <==> GoodCvm(x) && o == FieldMap(map[], CvmFields(x))
  {
    hide RejectUnknownFields, RequiredCleanString, RequiredStringArray, RequiredStringList, RequiredString,
      RequiredU64, RequiredBool, RequiredObject, CleanString, CleanList, CleanSet, Has, WellKeyed, FieldMap, DocValue,
      ValidateHexLen, IsIdentifier;
    var fs := CvmFields(x);
    CvmKeys(x);
    MatchFields(o, fs, CVM_KEYS);
    CleanStringIff(o, "rule_id", x.ruleId);
    StringListIff(o, "scheme_scope", x.schemeScope);
    CleanStringIff(o, "cvm_code_hex", x.cvmCodeHex);
    CleanStringIff(o, "meaning", x.meaning);
    CleanStringIff(o, "tvr_on_failure_hex", x.tvrOnFailureHex);
    BoolIff(o, "continue_on_failure", x.continueOnFailure);
    assert fs[0] == Str("rule_id", x.ruleId);
    assert fs[1] == Strs("scheme_scope", x.schemeScope);
    assert fs[2] == Str("cvm_code_hex", x.cvmCodeHex);
    assert fs[3] == Str("meaning", x.meaning);
    assert fs[4] == Str("tvr_on_failure_hex", x.tvrOnFailureHex);
    assert fs[5] == Field("continue_on_failure", DocBool(x.continueOnFailure));
  }

  const ARTIFACT_KEYS: seq<string> := ["artifact_id", "artifact_kind", "sha256_hex", "binds_open_issues"]

  /** `parse_artifact_hash`. */
  function ParseArtifact(o: Fields): Result<ArtifactHash> {
    var known := RejectUnknownFields(o, ARTIFACT_KEYS);
    :- known;
    var artifactId :- RequiredCleanString(o, "artifact_id");
    var artifactKind :- RequiredCleanString(o, "artifact_kind");
    var sha256Hex :- RequiredCleanString(o, "sha256_hex");
    :- ValidateHexLen(sha256Hex, 32);
    var bindsOpenIssues :- RequiredStringArray(o, "binds_open_issues");
    Ok(ArtifactHash(artifactId, artifactKind, sha256Hex, bindsOpenIssues))
  }

  predicate GoodArtifact(v: ArtifactHash) {
    && CleanString(v.artifactId) && CleanString(v.artifactKind) && CleanString(v.sha256Hex)
    && ValidateHexLen(v.sha256Hex, 32).Pass? && CleanSet(v.bindsOpenIssues)
  }

  lemma ArtifactKeysAreDistinct()
    ensures NoDuplicates(ARTIFACT_KEYS)
  {
  }

  lemma ArtifactKeysAreSound()
    ensures SoundKeys(ARTIFACT_KEYS)
  {
    hide NoDuplicates;
    ArtifactKeysAreDistinct();
  }

  lemma ArtifactKeys(x: ArtifactHash)
    ensures WellKeyed(ArtifactFields(x), ARTIFACT_KEYS)
  {
    hide SoundKeys;
    ArtifactKeysAreSound();
  }

  lemma ArtifactIff(o: Fields, x: ArtifactHash)
    ensures ParseArtifact(o) == Ok(x) <==> GoodArtifact(x) && o == FieldMap(map[], ArtifactFields(x))
  {
    hide RejectUnknownFields, RequiredCleanString, RequiredStringArray, RequiredStringList, RequiredString,
      RequiredU64, RequiredBool, RequiredObject, CleanString, CleanList, CleanSet, Has, WellKeyed, FieldMap, DocValue,
      ValidateHexLen, IsIdentifier;
    var fs := ArtifactFields(x);
    ArtifactKeys(x);
    MatchFields(o, fs, ARTIFACT_KEYS);
    CleanStringIff(o, "artifact_id", x.artifactId);
    CleanStringIff(o, "artifact_kind", x.artifactKind);
    CleanStringIff(o, "sha256_hex", x.sha256Hex);
    StringListIff(o, "binds_open_issues", x.bindsOpenIssues);
    assert fs[0] == Str("artifact_id", x.artifactId);
    assert fs[1] == Str("artifact_kind", x.artifactKind);
    assert fs[2] == Str("sha256_hex", x.sha256Hex);
    assert fs[3] == Strs("binds_open_issues", x.bindsOpenIssues);
  }

  // ---------------------------------------------------------------- timeouts and runtime policy

  /** `required_timeout`. */
  function RequiredTimeout(o: Fields, key: string): Result<i32> {
    var value :- RequiredU64(o, key);
    if value <= 0x7fff_ffff then Ok(value) else Err(InvalidProfile)
  }

  lemma TimeoutIff(o: Fields, key: string, n: i32)
    ensures RequiredTimeout(o, key) == Ok(n) <==> 0 <= n && Has(o, Field(key, DocNumber(TimeoutNumber(n))))
  {
  }

  /** `validate_callback_timeouts`. */
  predicate GoodTimeouts(v: CallbackTimeouts) {
    && 1 <= v.apduTransport <= 60_000 && 1 <= v.hostAuthorization <= 60_000
    && 1 <= v.pinEntry <= 60_000 && 1 <= v.contactlessUi <= 60_000
  }

  const TIMEOUT_KEYS: seq<string> :=
    ["apdu_transport_timeout_ms", "host_authorization_timeout_ms", "pin_entry_timeout_ms", "contactless_ui_timeout_ms"]

  /** `parse_callback_timeouts`. */
  function ParseTimeouts(o: Fields): Result<CallbackTimeouts> {
    var known := RejectUnknownFields(o, TIMEOUT_KEYS);
    :- known;
    var apdu :- RequiredTimeout(o, "apdu_transport_timeout_ms");
    var host :- RequiredTimeout(o, "host_authorization_timeout_ms");
    var pin :- RequiredTimeout(o, "pin_entry_timeout_ms");
    var ui :- RequiredTimeout(o, "contactless_ui_timeout_ms");
    var timeouts := CallbackTimeouts(apdu, host, pin, ui);
    :- Check(GoodTimeouts(timeouts), InvalidProfile);
    Ok(timeouts)
  }

  lemma TimeoutKeysAreDistinct()
    ensures NoDuplicates(TIMEOUT_KEYS)
  {
  }

  lemma TimeoutKeysArePlain1()
    ensures IsPlainKey(TIMEOUT_KEYS[0]) && IsPlainKey(TIMEOUT_KEYS[1])
  {
  }

  lemma TimeoutKeysArePlain2()
    ensures IsPlainKey(TIMEOUT_KEYS[2]) && IsPlainKey(TIMEOUT_KEYS[3])
  {
  }

  lemma TimeoutKeysAreSound()
    ensures SoundKeys(TIMEOUT_KEYS)
  {
    hide NoDuplicates, IsPlainKey;
    TimeoutKeysAreDistinct();
    TimeoutKeysArePlain1();
    TimeoutKeysArePlain2();
  }

  lemma TimeoutKeys(x: CallbackTimeouts)
    ensures WellKeyed(TimeoutFields(x), TIMEOUT_KEYS)
  {
    hide SoundKeys;
    TimeoutKeysAreSound();
  }

  lemma TimeoutsIff(o: Fields, x: CallbackTimeouts)
    ensures ParseTimeouts(o) == Ok(x) <==> GoodTimeouts(x) && o == FieldMap(map[], TimeoutFields(x))
  {
    hide RejectUnknownFields, RequiredCleanString, RequiredStringArray, RequiredStringList, RequiredString,
      RequiredU64, RequiredBool, RequiredObject, CleanString, CleanList, CleanSet, Has, WellKeyed, FieldMap, DocValue,
      RequiredTimeout, TimeoutNumber;
    var fs := TimeoutFields(x);
    TimeoutKeys(x);
    MatchFields(o, fs, TIMEOUT_KEYS);
    TimeoutIff(o, "apdu_transport_timeout_ms", x.apduTransport);
    TimeoutIff(o, "host_authorization_timeout_ms", x.hostAuthorization);
    TimeoutIff(o, "pin_entry_timeout_ms", x.pinEntry);
    TimeoutIff(o, "contactless_ui_timeout_ms", x.contactlessUi);
    assert fs[0] == Field("apdu_transport_timeout_ms", DocNumber(TimeoutNumber(x.apduTransport)));
    assert fs[1] == Field("host_authorization_timeout_ms", DocNumber(TimeoutNumber(x.hostAuthorization)));
    assert fs[2] == Field("pin_entry_timeout_ms", DocNumber(TimeoutNumber(x.pinEntry)));
    assert fs[3] == Field("contactless_ui_timeout_ms", DocNumber(TimeoutNumber(x.contactlessUi)));
  }

  const RUNTIME_KEYS: seq<string> := ["callback_timeouts", "offline_counter_persistence", "trace_masking_policy"]

  /** `parse_runtime_policy`. */
  function ParseRuntime(o: Fields): Result<RuntimePolicy> {
    var known := RejectUnknownFields(o, RUNTIME_KEYS);
    :- known;
    var timeoutFields :- RequiredObject(o, "callback_timeouts");
    var timeouts :- ParseTimeouts(timeoutFields);
    var counter :- RequiredCleanString(o, "offline_counter_persistence");
    var masking :- RequiredCleanString(o, "trace_masking_policy");
    Ok(RuntimePolicy(timeouts, counter, masking))
  }

  predicate GoodRuntime(v: RuntimePolicy) {
    GoodTimeouts(v.callbackTimeouts) && CleanString(v.offlineCounterPersistence) && CleanString(v.traceMaskingPolicy)
  }

  lemma RuntimeKeysAreDistinct()
    ensures NoDuplicates(RUNTIME_KEYS)
  {
  }

  lemma RuntimeKeysArePlain1()
    ensures IsPlainKey(RUNTIME_KEYS[0]) && IsPlainKey(RUNTIME_KEYS[1])
  {
  }

  lemma RuntimeKeysArePlain2()
    ensures IsPlainKey(RUNTIME_KEYS[2])
  {
  }

  lemma RuntimeKeysAreSound()
    ensures SoundKeys(RUNTIME_KEYS)
  {
    hide NoDuplicates, IsPlainKey;
    RuntimeKeysAreDistinct();
    RuntimeKeysArePlain1();
    RuntimeKeysArePlain2();
  }

  lemma RuntimeKeys(x: RuntimePolicy)
    ensures WellKeyed(RuntimeFields(x), RUNTIME_KEYS)
  {
    hide SoundKeys, TimeoutFields;
    RuntimeKeysAreSound();
  }

  lemma RuntimeIff(o: Fields, x: RuntimePolicy)
    ensures ParseRuntime(o) == Ok(x) <==> GoodRuntime(x) && o == FieldMap(map[], RuntimeFields(x))
  {
    hide RejectUnknownFields, RequiredCleanString, RequiredStringArray, RequiredStringList, RequiredString,
      RequiredU64, RequiredBool, RequiredObject, CleanString, CleanList, CleanSet, Has, WellKeyed, FieldMap, DocValue,
      ParseTimeouts, GoodTimeouts, TimeoutFields;
    var fs := RuntimeFields(x);
    RuntimeKeys(x);
    MatchFields(o, fs, RUNTIME_KEYS);
    ObjectIff(o, "callback_timeouts", TimeoutFields(x.callbackTimeouts));
    if RequiredObject(o, "callback_timeouts").Ok? {
      TimeoutsIff(RequiredObject(o, "callback_timeouts").value, x.callbackTimeouts);
    }
    CleanStringIff(o, "offline_counter_persistence", x.offlineCounterPersistence);
    CleanStringIff(o, "trace_masking_policy", x.traceMaskingPolicy);
    assert fs[0] == Field("callback_timeouts", DocObject(TimeoutFields(x.callbackTimeouts)));
    assert fs[1] == Str("offline_counter_persistence", x.offlineCounterPersistence);
    assert fs[2] == Str("trace_masking_policy", x.traceMaskingPolicy);
  }

  // ---------------------------------------------------------------- lists of records

  function ParseKernelValue(v: JsonValue): Result<KernelRegistration> {
    var o :- AsObject(v);
    ParseKernel(o)
  }

  predicate GoodKernels(vs: seq<KernelRegistration>) {
    |vs| <= MAX_BUNDLE_COLLECTION_ITEMS && forall i | 0 <= i < |vs| :: GoodKernel(vs[i])
  }

  lemma KernelsIff(o: Fields, key: string, xs: seq<KernelRegistration>)
    ensures ParseArray(o, key, ParseKernelValue) == Ok(xs) <==> GoodKernels(xs) && Has(o, Field(key, KernelsDoc(xs)))
  {
    hide ParseKernel, GoodKernel, KernelFields, FieldMap;
    if RequiredArray(o, key).Ok? {
      var items := o[key].items;
      MapResultIs(ParseKernelValue, items, xs);
      var docs := KernelsDoc(xs).items;
      var printed := ItemValues(docs);
      forall i | 0 <= i < |xs|
        ensures printed[i] == JsonObject(FieldMap(map[], KernelFields(xs[i])))
      {
        assert docs[i] == DocObject(KernelFields(xs[i]));
      }
      forall i | 0 <= i < |items| && |items| == |xs|
        ensures ParseKernelValue(items[i]) == Ok(xs[i]) <==> GoodKernel(xs[i]) && items[i] == printed[i]
      {
        if items[i].JsonObject? {
          KernelIff(items[i].fields, xs[i]);
        }
      }
      assert |items| == |xs| && (forall i | 0 <= i < |items| :: items[i] == printed[i]) ==> items == printed;
    }
  }

  function ParseCvmValue(v: JsonValue): Result<CvmExtension> {
    var o :- AsObject(v);
    ParseCvm(o)
  }

  predicate GoodCvms(vs: seq<CvmExtension>) {
    |vs| <= MAX_BUNDLE_COLLECTION_ITEMS && forall i | 0 <= i < |vs| :: GoodCvm(vs[i])
  }

  lemma CvmsIff(o: Fields, key: string, xs: seq<CvmExtension>)
    ensures ParseArray(o, key, ParseCvmValue) == Ok(xs) <==> GoodCvms(xs) && Has(o, Field(key, CvmsDoc(xs)))
  {
    hide ParseCvm, GoodCvm, CvmFields, FieldMap;
    if RequiredArray(o, key).Ok? {
      var items := o[key].items;
      MapResultIs(ParseCvmValue, items, xs);
      var docs := CvmsDoc(xs).items;
      var printed := ItemValues(docs);
      forall i | 0 <= i < |xs|
        ensures printed[i] == JsonObject(FieldMap(map[], CvmFields(xs[i])))
      {
        assert docs[i] == DocObject(CvmFields(xs[i]));
      }
      forall i | 0 <= i < |items| && |items| == |xs|
        ensures ParseCvmValue(items[i]) == Ok(xs[i]) <==> GoodCvm(xs[i]) && items[i] == printed[i]
      {
        if items[i].JsonObject? {
          CvmIff(items[i].fields, xs[i]);
        }
      }
      assert |items| == |xs| && (forall i | 0 <= i < |items| :: items[i] == printed[i]) ==> items == printed;
    }
  }

  function ParseTestCaseValue(v: JsonValue): Result<TestCase> {
    var o :- AsObject(v);
    ParseTestCase(o)
  }

  predicate GoodTestCases(vs: seq<TestCase>) {
    |vs| <= MAX_BUNDLE_COLLECTION_ITEMS && forall i | 0 <= i < |vs| :: GoodTestCase(vs[i])
  }

  lemma TestCasesIff(o: Fields, key: string, xs: seq<TestCase>)
    ensures ParseArray(o, key, ParseTestCaseValue) == Ok(xs) <==> GoodTestCases(xs) && Has(o, Field(key, TestCasesDoc(xs)))
  {
    hide ParseTestCase, GoodTestCase, TestCaseFields, FieldMap;
    if RequiredArray(o, key).Ok? {
      var items := o[key].items;
      MapResultIs(ParseTestCaseValue, items, xs);
      var docs := TestCasesDoc(xs).items;
      var printed := ItemValues(docs);
      forall i | 0 <= i < |xs|
        ensures printed[i] == JsonObject(FieldMap(map[], TestCaseFields(xs[i])))
      {
        assert docs[i] == DocObject(TestCaseFields(xs[i]));
      }
      forall i | 0 <= i < |items| && |items| == |xs|
        ensures ParseTestCaseValue(items[i]) == Ok(xs[i]) <==> GoodTestCase(xs[i]) && items[i] == printed[i]
      {
        if items[i].JsonObject? {
          TestCaseIff(items[i].fields, xs[i]);
        }
      }
      assert |items| == |xs| && (forall i | 0 <= i < |items| :: items[i] == printed[i]) ==> items == printed;
    }
  }

  function ParseArtifactValue(v: JsonValue): Result<ArtifactHash> {
    var o :- AsObject(v);
    ParseArtifact(o)
  }

  predicate GoodArtifacts(vs: seq<ArtifactHash>) {
    |vs| <= MAX_BUNDLE_COLLECTION_ITEMS && forall i | 0 <= i < |vs| :: GoodArtifact(vs[i])
  }

  lemma ArtifactsIff(o: Fields, key: string, xs: seq<ArtifactHash>)
    ensures ParseArray(o, key, ParseArtifactValue) == Ok(xs) <==> GoodArtifacts(xs) && Has(o, Field(key, ArtifactsDoc(xs)))
  {
    hide ParseArtifact, GoodArtifact, ArtifactFields, FieldMap;
    if RequiredArray(o, key).Ok? {
      var items := o[key].items;
      MapResultIs(ParseArtifactValue, items, xs);
      var docs := ArtifactsDoc(xs).items;
      var printed := ItemValues(docs);
      forall i | 0 <= i < |xs|
        ensures printed[i] == JsonObject(FieldMap(map[], ArtifactFields(xs[i])))
      {
        assert docs[i] == DocObject(ArtifactFields(xs[i]));
      }
      forall i | 0 <= i < |items| && |items| == |xs|
        ensures ParseArtifactValue(items[i]) == Ok(xs[i]) <==> GoodArtifact(xs[i]) && items[i] == printed[i]
      {
        if items[i].JsonObject? {
          ArtifactIff(items[i].fields, xs[i]);
        }
      }
      assert |items| == |xs| && (forall i | 0 <= i < |items| :: items[i] == printed[i]) ==> items == printed;
    }
  }

  // ---------------------------------------------------------------- payload

  /** `validate_known_interface`. */
  predicate KnownInterface(value: string) {
    value == "contact" || value == "contactless"
  }

  predicate NonEmptySet(values: seq<string>) {
    values != [] && NoDuplicates(values)
  }

  predicate NamesContactless(p: Payload) {
    "contactless" in p.submissionScope.interfaces
  }

  predicate RegistersContactless(p: Payload) {
    exists i | 0 <= i < |p.kernelRegistry| :: p.kernelRegistry[i].iface == "contactless"
  }

  function CheckKernelEntries(entries: seq<KernelRegistration>): Result<()> {
    if entries == [] then Ok(())
    else
      var e := entries[0];
      :- Check(IsIdentifier(e.kernelProfileId), InvalidProfile);
      :- Check(KnownInterface(e.iface), InvalidProfile);
      :- Check(!IsBlank(e.algorithm), InvalidProfile);
      :- Check(!IsBlank(e.c8Package), InvalidProfile);
      :- Check(NonEmptySet(e.schemeScope), InvalidProfile);
      CheckKernelEntries(entries[1..])
  }

  function CheckArtifacts(artifacts: seq<ArtifactHash>): Result<()> {
    if artifacts == [] then Ok(())
    else
      var a := artifacts[0];
      :- Check(IsIdentifier(a.artifactId), InvalidProfile);
      :- ValidateHexLen(a.sha256Hex, 32);
      :- Check(NonEmptySet(a.bindsOpenIssues), InvalidProfile);
      CheckArtifacts(artifacts[1..])
  }

  /** `validate_payload`. */
  function ValidatePayload(p: Payload): Result<()> {
    var scope := p.submissionScope;
    :- Check(NonEmptySet(scope.interfaces), InvalidProfile);
    :- Check(NonEmptySet(scope.authorities), InvalidProfile);
    :- Check(NonEmptySet(p.terminalProfile.supportedInterfaces), InvalidProfile);
    :- Check(NonEmptySet(p.standardsTarget.bulletinsIncluded), InvalidProfile);
    :- Check(|p.kernelRegistry| <= MAX_BUNDLE_COLLECTION_ITEMS, LengthOverflow);
    :- Check(|p.cvmExtensions| <= MAX_BUNDLE_COLLECTION_ITEMS, LengthOverflow);
    :- Check(|p.testPlan| <= MAX_BUNDLE_COLLECTION_ITEMS, LengthOverflow);
    :- Check(|p.artifactHashes| <= MAX_BUNDLE_COLLECTION_ITEMS, LengthOverflow);
    :- Check(p.kernelRegistry != [] && p.testPlan != [] && p.artifactHashes != [], InvalidProfile);
    :- Check(|Utf8(p.schemeProfileSetJson)| <= MAX_EMBEDDED_PROFILE_BYTES
          && |Utf8(p.vectorBundleJson)| <= MAX_EMBEDDED_PROFILE_BYTES, LengthOverflow);
    var profile :- JsonReader.Parse(Utf8(p.schemeProfileSetJson));
    var vectors :- JsonReader.Parse(Utf8(p.vectorBundleJson));
    :- Check(GoodTimeouts(p.runtimePolicy.callbackTimeouts), InvalidProfile);
    :- Check(NamesContactless(p) ==> RegistersContactless(p), InvalidProfile);
    var kernels :- CheckKernelEntries(p.kernelRegistry);
    CheckArtifacts(p.artifactHashes)
  }

  const PAYLOAD_RECORD_KEYS: seq<string> :=
    ["submission_scope", "standards_target", "terminal_profile", "runtime_policy"]
  const PAYLOAD_LIST_KEYS: seq<string> := ["kernel_registry", "cvm_extensions", "test_plan", "artifact_hashes"]
  const PAYLOAD_TEXT_KEYS: seq<string> := ["scheme_profile_set_json", "vector_bundle_json"]
  const PAYLOAD_KEYS: seq<string> := PAYLOAD_RECORD_KEYS + PAYLOAD_LIST_KEYS + PAYLOAD_TEXT_KEYS

  function ParsePayloadRecords(o: Fields): Result<(SubmissionScope, StandardsTarget, TerminalProfile, RuntimePolicy)> {
    var scopeFields :- RequiredObject(o, "submission_scope");
    var scope :- ParseScope(scopeFields);
    var standardsFields :- RequiredObject(o, "standards_target");
    var standards :- ParseStandards(standardsFields);
    var terminalFields :- RequiredObject(o, "terminal_profile");
    var terminal :- ParseTerminal(terminalFields);
    var runtimeFields :- RequiredObject(o, "runtime_policy");
    var runtime :- ParseRuntime(runtimeFields);
    Ok((scope, standards, terminal, runtime))
  }

  function ParsePayloadLists(o: Fields)
    : Result<(seq<KernelRegistration>, seq<CvmExtension>, seq<TestCase>, seq<ArtifactHash>)>
  {
    var kernels :- ParseArray(o, "kernel_registry", ParseKernelValue);
    var cvms :- ParseArray(o, "cvm_extensions", ParseCvmValue);
    var cases :- ParseArray(o, "test_plan", ParseTestCaseValue);
    var artifacts :- ParseArray(o, "artifact_hashes", ParseArtifactValue);
    Ok((kernels, cvms, cases, artifacts))
  }

  /** `parse_payload`. */
  function ParsePayload(v: JsonValue): Result<Payload> {
    var o :- AsObject(v);
    :- RejectUnknownFields(o, PAYLOAD_KEYS);
    var r :- ParsePayloadRecords(o);
    var l :- ParsePayloadLists(o);
    var profileJson :- RequiredString(o, "scheme_profile_set_json");
    var vectorJson :- RequiredString(o, "vector_bundle_json");
    var p := Payload(r.0, r.1, r.2, r.3, l.0, l.1, l.2, l.3, profileJson, vectorJson);
    var checked :- ValidatePayload(p);
    Ok(p)
  }

  /** What reading enforces of a payload. */
  predicate GoodPayload(p: Payload) {
    && GoodScope(p.submissionScope) && GoodStandards(p.standardsTarget) && GoodTerminal(p.terminalProfile)
    && GoodRuntime(p.runtimePolicy)
    && GoodKernels(p.kernelRegistry) && GoodCvms(p.cvmExtensions) && GoodTestCases(p.testPlan)
    && GoodArtifacts(p.artifactHashes)
    && ValidatePayload(p).Ok?
  }

  lemma PayloadKeysAreDistinct()
    ensures NoDuplicates(PAYLOAD_KEYS)
  {
  }

  lemma PayloadRecordKeysArePlain()
    ensures PlainKeys(PAYLOAD_RECORD_KEYS)
  {
  }

  lemma PayloadListKeysArePlain1()
    ensures IsPlainKey(PAYLOAD_LIST_KEYS[0]) && IsPlainKey(PAYLOAD_LIST_KEYS[1])
  {
  }

  lemma PayloadListKeysArePlain2()
    ensures IsPlainKey(PAYLOAD_LIST_KEYS[2]) && IsPlainKey(PAYLOAD_LIST_KEYS[3])
  {
  }

  lemma PayloadListKeysArePlain()
    ensures PlainKeys(PAYLOAD_LIST_KEYS)
  {
    hide IsPlainKey;
    PayloadListKeysArePlain1();
    PayloadListKeysArePlain2();
  }

  lemma PayloadTextKeysArePlain()
    ensures PlainKeys(PAYLOAD_TEXT_KEYS)
  {
  }

  lemma PayloadKeysAreSound()
    ensures SoundKeys(PAYLOAD_KEYS)
  {
    hide NoDuplicates, IsPlainKey;
    PayloadKeysAreDistinct();
    PayloadRecordKeysArePlain();
    PayloadListKeysArePlain();
    PayloadTextKeysArePlain();
  }

  lemma PayloadKeys(x: Payload)
    ensures WellKeyed(PayloadFields(x), PAYLOAD_KEYS)
  {
    hide SoundKeys, ScopeFields, StandardsFields, TerminalFields, RuntimeFields, KernelsDoc, CvmsDoc, TestCasesDoc,
      ArtifactsDoc;
    PayloadKeysAreSound();
  }

  predicate HasAll(o: Fields, fields: seq<Field>) {
    forall i | 0 <= i < |fields| :: Has(o, fields[i])
  }

  lemma HasAllConcat(o: Fields, a: seq<Field>, b: seq<Field>)
    ensures HasAll(o, a + b) <==> HasAll(o, a) && HasAll(o, b)
  {
    hide Has;
    var ab := a + b;
    if HasAll(o, ab) {
      assert forall i | 0 <= i < |a| :: a[i] == ab[i];
      assert forall i | 0 <= i < |b| :: b[i] == ab[|a| + i];
    }
  }

  lemma PayloadRecordsIff(o: Fields, x: Payload)
    ensures ParsePayloadRecords(o) == Ok((x.submissionScope, x.standardsTarget, x.terminalProfile, x.runtimePolicy)) <==>
      && GoodScope(x.submissionScope) && GoodStandards(x.standardsTarget) && GoodTerminal(x.terminalProfile)
      && GoodRuntime(x.runtimePolicy)
      && HasAll(o, RecordFields(x))
  {
    hide RequiredObject, Has, FieldMap, ParseScope, ParseStandards, ParseTerminal, ParseRuntime,
      GoodScope, GoodStandards, GoodTerminal, GoodRuntime, ScopeFields, StandardsFields, TerminalFields, RuntimeFields;
    ObjectIff(o, "submission_scope", ScopeFields(x.submissionScope));
    ObjectIff(o, "standards_target", StandardsFields(x.standardsTarget));
    ObjectIff(o, "terminal_profile", TerminalFields(x.terminalProfile));
    ObjectIff(o, "runtime_policy", RuntimeFields(x.runtimePolicy));
    if RequiredObject(o, "submission_scope").Ok? {
      ScopeIff(RequiredObject(o, "submission_scope").value, x.submissionScope);
    }
    if RequiredObject(o, "standards_target").Ok? {
      StandardsIff(RequiredObject(o, "standards_target").value, x.standardsTarget);
    }
    if RequiredObject(o, "terminal_profile").Ok? {
      TerminalIff(RequiredObject(o, "terminal_profile").value, x.terminalProfile);
    }
    if RequiredObject(o, "runtime_policy").Ok? {
      RuntimeIff(RequiredObject(o, "runtime_policy").value, x.runtimePolicy);
    }
    var fs := RecordFields(x);
    assert fs[0] == Field("submission_scope", DocObject(ScopeFields(x.submissionScope)));
    assert fs[1] == Field("standards_target", DocObject(StandardsFields(x.standardsTarget)));
    assert fs[2] == Field("terminal_profile", DocObject(TerminalFields(x.terminalProfile)));
    assert fs[3] == Field("runtime_policy", DocObject(RuntimeFields(x.runtimePolicy)));
  }

  lemma PayloadListsIff(o: Fields, x: Payload)
    ensures ParsePayloadLists(o) == Ok((x.kernelRegistry, x.cvmExtensions, x.testPlan, x.artifactHashes)) <==>
      && GoodKernels(x.kernelRegistry) && GoodCvms(x.cvmExtensions) && GoodTestCases(x.testPlan)
      && GoodArtifacts(x.artifactHashes)
      && HasAll(o, ListFields(x))
  {
    hide ParseArray, Has, GoodKernels, GoodCvms, GoodTestCases, GoodArtifacts, KernelsDoc, CvmsDoc, TestCasesDoc,
      ArtifactsDoc;
    KernelsIff(o, "kernel_registry", x.kernelRegistry);
    CvmsIff(o, "cvm_extensions", x.cvmExtensions);
    TestCasesIff(o, "test_plan", x.testPlan);
    ArtifactsIff(o, "artifact_hashes", x.artifactHashes);
    var fs := ListFields(x);
    assert fs[0] == Field("kernel_registry", KernelsDoc(x.kernelRegistry));
    assert fs[1] == Field("cvm_extensions", CvmsDoc(x.cvmExtensions));
    assert fs[2] == Field("test_plan", TestCasesDoc(x.testPlan));
    assert fs[3] == Field("artifact_hashes", ArtifactsDoc(x.artifactHashes));
  }

  /** A value reads as a payload exactly when it is the value of a valid payload's document. */
  lemma PayloadIff(v: JsonValue, x: Payload)
    ensures ParsePayload(v) == Ok(x) <==> GoodPayload(x) && v == DocValue(PayloadDoc(x))
  {
    hide Has, FieldMap, RejectUnknownFields, RequiredString, ParsePayloadRecords, ParsePayloadLists, ValidatePayload,
      RecordFields, ListFields, GoodScope, GoodStandards, GoodTerminal, GoodRuntime, GoodKernels, GoodCvms, GoodTestCases,
      GoodArtifacts, WellKeyed, HasAll;
    if v.JsonObject? {
      var o, fs := v.fields, PayloadFields(x);
      var texts := [Str("scheme_profile_set_json", x.schemeProfileSetJson), Str("vector_bundle_json", x.vectorBundleJson)];
      PayloadKeys(x);
      MatchAll(o, fs, PAYLOAD_KEYS);
      HasAllConcat(o, RecordFields(x) + ListFields(x), texts);
      HasAllConcat(o, RecordFields(x), ListFields(x));
      HasTwo(o, texts[0], texts[1]);
      PayloadRecordsIff(o, x);
      PayloadListsIff(o, x);
      StringIff(o, "scheme_profile_set_json", x.schemeProfileSetJson);
      StringIff(o, "vector_bundle_json", x.vectorBundleJson);
    }
  }

  lemma HasTwo(o: Fields, a: Field, b: Field)
    ensures HasAll(o, [a, b]) <==> Has(o, a) && Has(o, b)
  {
    hide Has;
    assert [a, b][0] == a && [a, b][1] == b;
  }

  lemma MatchAll(o: Fields, fields: seq<Field>, keys: seq<string>)
    requires WellKeyed(fields, keys)
    ensures o == FieldMap(map[], fields) <==> RejectUnknownFields(o, keys).Pass? && HasAll(o, fields)
  {
    hide Has, FieldMap, RejectUnknownFields, WellKeyed;
    MatchFields(o, fields, keys);
  }

  // ---------------------------------------------------------------- signature and bundle

  const SIGNATURE_KEYS: seq<string> :=
    ["algorithm", "signer_id", "signing_key_fingerprint", "payload_sha256", "signature_hex", "signature_artifact_sha256"]

  function SignatureBytes(algorithm: string): nat {
    if algorithm == SIGNATURE_ALGORITHM then 64 else 32
  }

  /** `parse_signature`. */
  function ParseSignature(v: JsonValue): Result<BundleSignature> {
    var o :- AsObject(v);
    ParseSignatureFields(o)
  }

  function ParseSignatureFields(o: Fields): Result<BundleSignature> {
    var known := RejectUnknownFields(o, SIGNATURE_KEYS);
    :- known;
    var payloadSha256 :- RequiredCleanString(o, "payload_sha256");
    :- ValidateHexLen(payloadSha256, 32);
    var algorithm :- RequiredCleanString(o, "algorithm");
    var signatureHex :- RequiredCleanString(o, "signature_hex");
    :- ValidateHexLen(signatureHex, SignatureBytes(algorithm));
    var artifact :- RequiredCleanString(o, "signature_artifact_sha256");
    :- ValidateHexLen(artifact, 32);
    var signerId :- RequiredCleanString(o, "signer_id");
    var fingerprint :- RequiredCleanString(o, "signing_key_fingerprint");
    Ok(BundleSignature(algorithm, signerId, fingerprint, payloadSha256, signatureHex, artifact))
  }

  predicate GoodSignature(v: BundleSignature) {
    && CleanString(v.algorithm) && CleanString(v.signerId) && CleanString(v.signingKeyFingerprint)
    && CleanString(v.payloadSha256) && CleanString(v.signatureHex) && CleanString(v.signatureArtifactSha256)
    && ValidateHexLen(v.payloadSha256, 32).Pass? && ValidateHexLen(v.signatureArtifactSha256, 32).Pass?
    && ValidateHexLen(v.signatureHex, SignatureBytes(v.algorithm)).Pass?
  }

  lemma SignatureKeysAreDistinct()
    ensures NoDuplicates(SIGNATURE_KEYS)
  {
  }

  lemma SignatureKeysArePlain1()
    ensures IsPlainKey(SIGNATURE_KEYS[0]) && IsPlainKey(SIGNATURE_KEYS[1]) && IsPlainKey(SIGNATURE_KEYS[2])
  {
  }

  lemma SignatureKeysArePlain2()
    ensures IsPlainKey(SIGNATURE_KEYS[3]) && IsPlainKey(SIGNATURE_KEYS[4]) && IsPlainKey(SIGNATURE_KEYS[5])
  {
  }

  lemma SignatureKeysAreSound()
    ensures SoundKeys(SIGNATURE_KEYS)
  {
    hide NoDuplicates, IsPlainKey;
    SignatureKeysAreDistinct();
    SignatureKeysArePlain1();
    SignatureKeysArePlain2();
  }

  lemma SignatureKeys(x: BundleSignature)
    ensures WellKeyed(SignatureFields(x), SIGNATURE_KEYS)
  {
    hide SoundKeys;
    SignatureKeysAreSound();
  }

  lemma SignatureIff(v: JsonValue, x: BundleSignature)
    ensures ParseSignature(v) == Ok(x) <==> GoodSignature(x) && v == DocValue(DocObject(SignatureFields(x)))
  {
    hide RejectUnknownFields, RequiredCleanString, CleanString, Has, WellKeyed, FieldMap, ValidateHexLen,
      SignatureBytes;
    if v.JsonObject? {
      var o, fs := v.fields, SignatureFields(x);
      SignatureKeys(x);
      MatchFields(o, fs, SIGNATURE_KEYS);
      CleanStringIff(o, "algorithm", x.algorithm);
      CleanStringIff(o, "signer_id", x.signerId);
      CleanStringIff(o, "signing_key_fingerprint", x.signingKeyFingerprint);
      CleanStringIff(o, "payload_sha256", x.payloadSha256);
      CleanStringIff(o, "signature_hex", x.signatureHex);
      CleanStringIff(o, "signature_artifact_sha256", x.signatureArtifactSha256);
      assert fs[0] == Str("algorithm", x.algorithm);
      assert fs[1] == Str("signer_id", x.signerId);
      assert fs[2] == Str("signing_key_fingerprint", x.signingKeyFingerprint);
      assert fs[3] == Str("payload_sha256", x.payloadSha256);
      assert fs[4] == Str("signature_hex", x.signatureHex);
      assert fs[5] == Str("signature_artifact_sha256", x.signatureArtifactSha256);
    }
  }

  const BUNDLE_KEYS: seq<string> :=
    ["schema_version", "bundle_id", "bundle_version", "rollback_counter", "bundle_class", "created", "payload", "signature"]

  /** `parse_bundle_class`. */
  function ParseBundleClass(input: string): Result<BundleClass> {
    if input == "TESTING" then Ok(Testing) else if input == "CERTIFICATION" then Ok(Certification) else Err(InvalidProfile)
  }

  lemma ClassIff(input: string, c: BundleClass)
    ensures ParseBundleClass(input) == Ok(c) <==> input == ClassText(c)
  {
  }

  function ParseBundleHead(o: Fields): Result<(string, string, u64, u64, BundleClass, EmvDate)> {
    var schemaVersion :- RequiredString(o, "schema_version");
    :- Check(schemaVersion == BUNDLE_SCHEMA_VERSION, InvalidProfile);
    var bundleId :- RequiredCleanString(o, "bundle_id");
    :- Check(IsIdentifier(bundleId), InvalidProfile);
    var bundleVersion :- RequiredU64(o, "bundle_version");
    var rollbackCounter :- RequiredU64(o, "rollback_counter");
    :- Check(bundleVersion != 0 && rollbackCounter != 0, InvalidProfile);
    var classText :- RequiredString(o, "bundle_class");
    var bundleClass :- ParseBundleClass(classText);
    var createdText :- RequiredString(o, "created");
    var created :- ParseIsoDate(createdText);
    Ok((schemaVersion, bundleId, bundleVersion, rollbackCounter, bundleClass, created))
  }

  function ParseBundleValue(root: JsonValue): Result<Bundle> {
    var o :- AsObject(root);
    :- RejectUnknownFields(o, BUNDLE_KEYS);
    var h :- ParseBundleHead(o);
    var payloadValue :- Required(o, "payload");
    var payload :- ParsePayload(payloadValue);
    var signatureValue :- Required(o, "signature");
    var signature :- ParseSignature(signatureValue);
    Ok(Bundle(h.0, h.1, h.2, h.3, h.4, h.5, payload, signature))
  }

  /** `parse_certification_bundle`. */
  function ParseCertificationBundle(input: seq<byte>): Result<Bundle> {
    var root :- JsonReader.Parse(input);
    ParseBundleValue(root)
  }

  predicate GoodHead(b: Bundle) {
    && b.schemaVersion == BUNDLE_SCHEMA_VERSION
    && IsIdentifier(b.bundleId) && b.bundleVersion != 0 && b.rollbackCounter != 0 && IsIsoDate(b.created)
  }

  /** What reading enforces of a bundle. */
  predicate GoodBundle(b: Bundle) {
    GoodHead(b) && GoodPayload(b.payload) && GoodSignature(b.signature)
  }

  lemma BundleKeysAreDistinct()
    ensures NoDuplicates(BUNDLE_KEYS)
  {
  }

  lemma BundleKeysArePlain1()
    ensures IsPlainKey(BUNDLE_KEYS[0]) && IsPlainKey(BUNDLE_KEYS[1]) && IsPlainKey(BUNDLE_KEYS[2]) && IsPlainKey(BUNDLE_KEYS[3])
  {
  }

  lemma BundleKeysArePlain2()
    ensures IsPlainKey(BUNDLE_KEYS[4]) && IsPlainKey(BUNDLE_KEYS[5]) && IsPlainKey(BUNDLE_KEYS[6]) && IsPlainKey(BUNDLE_KEYS[7])
  {
  }

  lemma BundleKeysAreSound()
    ensures SoundKeys(BUNDLE_KEYS)
  {
    hide NoDuplicates, IsPlainKey;
    BundleKeysAreDistinct();
    BundleKeysArePlain1();
    BundleKeysArePlain2();
  }

  lemma BundleKeys(x: Bundle)
    ensures WellKeyed(BundleFields(x), BUNDLE_KEYS)
  {
    hide SoundKeys, PayloadDoc, SignatureFields, FormatDate, ClassText;
    BundleKeysAreSound();
  }

  lemma BundleHeadIff(o: Fields, x: Bundle)
    ensures ParseBundleHead(o) == Ok((x.schemaVersion, x.bundleId, x.bundleVersion, x.rollbackCounter, x.bundleClass, x.created))
      <==> GoodHead(x) && HasAll(o, BundleFields(x)[..6])
  {
    hide RequiredString, RequiredCleanString, RequiredU64, ParseBundleClass, ParseIsoDate, Has, CleanString,
      PayloadDoc, SignatureFields, FormatDate, ClassText, IsIsoDate;
    CleanStringIff(o, "bundle_id", x.bundleId);
    StringIff(o, "schema_version", x.schemaVersion);
    NumberIff(o, "bundle_version", x.bundleVersion);
    NumberIff(o, "rollback_counter", x.rollbackCounter);
    StringIff(o, "bundle_class", ClassText(x.bundleClass));
    StringIff(o, "created", FormatDate(x.created));
    if RequiredString(o, "bundle_class").Ok? {
      ClassIff(RequiredString(o, "bundle_class").value, x.bundleClass);
    }
    if RequiredString(o, "created").Ok? {
      IsoDateText(RequiredString(o, "created").value, x.created);
    }
    var fs := BundleFields(x)[..6];
    assert fs[0] == Str("schema_version", x.schemaVersion);
    assert fs[1] == Str("bundle_id", x.bundleId);
    assert fs[2] == Field("bundle_version", DocNumber(x.bundleVersion));
    assert fs[3] == Field("rollback_counter", DocNumber(x.rollbackCounter));
    assert fs[4] == Str("bundle_class", ClassText(x.bundleClass));
    assert fs[5] == Str("created", FormatDate(x.created));
  }

  lemma ValueIff(o: Fields, key: string, d: Doc)
    ensures Required(o, key) == Ok(DocValue(d)) <==> Has(o, Field(key, d))
  {
    hide DocValue;
  }

  /** A value reads as a bundle exactly when it is the value of a valid bundle's document. */
  lemma BundleIff(root: JsonValue, x: Bundle)
    ensures ParseBundleValue(root) == Ok(x) <==> GoodBundle(x) && root == DocValue(BundleDoc(x))
  {
    hide Has, FieldMap, RejectUnknownFields, Required, ParsePayload, ParseSignature, ParseBundleHead, GoodHead,
      GoodPayload,
      GoodSignature, WellKeyed, HasAll, SignatureFields, PayloadDoc, FormatDate, ClassText;
    if root.JsonObject? {
      var o, fs := root.fields, BundleFields(x);
      var payload, signature := Field("payload", PayloadDoc(x.payload)), Field("signature", DocObject(SignatureFields(x.signature)));
      BundleKeys(x);
      MatchAll(o, fs, BUNDLE_KEYS);
      assert fs == fs[..6] + [payload, signature];
      HasAllConcat(o, fs[..6], [payload, signature]);
      HasTwo(o, payload, signature);
      BundleHeadIff(o, x);
      ValueIff(o, "payload", payload.doc);
      ValueIff(o, "signature", signature.doc);
      if Required(o, "payload").Ok? {
        PayloadIff(Required(o, "payload").value, x.payload);
      }
      if Required(o, "signature").Ok? {
        SignatureIff(Required(o, "signature").value, x.signature);
      }
    }
  }

  // ---------------------------------------------------------------- trust anchors

  const MAX_CERTIFICATION_BUNDLE_BYTES: nat := 4 * 1024 * 1024
  const ANCHOR_KEYS: seq<string> :=
    ["signer_id", "signing_key_fingerprint", "verification_public_key_hex", "allowed_payload_sha256"]

  function ParseOptionalDate(o: Fields): Result<Option<EmvDate>> {
    if "not_after" !in o then Ok(None)
    else
      var text :- AsString(o["not_after"]);
      var date :- ParseIsoDate(text);
      Ok(Some(date))
  }

  function ParseAnchorFields(o: Fields): Result<TrustAnchor> {
    var known := RejectUnknownFields(o, ANCHOR_KEYS + ["not_after"]);
    :- known;
    var publicKey :- RequiredCleanString(o, "verification_public_key_hex");
    :- ValidateHexLen(publicKey, 32);
    var allowed :- RequiredCleanString(o, "allowed_payload_sha256");
    :- ValidateHexLen(allowed, 32);
    var signerId :- RequiredCleanString(o, "signer_id");
    var fingerprint :- RequiredCleanString(o, "signing_key_fingerprint");
    var notAfter :- ParseOptionalDate(o);
    Ok(TrustAnchor(signerId, fingerprint, publicKey, allowed, notAfter))
  }

  /** `parse_trust_anchor`. */
  function ParseAnchorValue(v: JsonValue): Result<TrustAnchor> {
    var o :- AsObject(v);
    ParseAnchorFields(o)
  }

  predicate GoodAnchor(v: TrustAnchor) {
    && CleanString(v.signerId) && CleanString(v.signingKeyFingerprint)
    && CleanString(v.verificationPublicKeyHex) && CleanString(v.allowedPayloadSha256)
    && ValidateHexLen(v.verificationPublicKeyHex, 32).Pass? && ValidateHexLen(v.allowedPayloadSha256, 32).Pass?
    && (v.notAfter.Some? ==> IsIsoDate(v.notAfter.value))
  }

  predicate GoodAnchors(vs: seq<TrustAnchor>) {
    |vs| <= MAX_BUNDLE_COLLECTION_ITEMS && forall i | 0 <= i < |vs| :: GoodAnchor(vs[i])
  }

  /** `parse_trust_anchors` after its size check. */
  function ParseAnchorsValue(root: JsonValue): Result<seq<TrustAnchor>> {
    var o :- AsObject(root);
    :- RejectUnknownFields(o, ["schema_version", "trust_anchors"]);
    var schemaVersion :- RequiredString(o, "schema_version");
    :- Check(schemaVersion == ANCHORS_SCHEMA_VERSION, InvalidProfile);
    var items :- RequiredArray(o, "trust_anchors");
    :- Check(|items| <= MAX_BUNDLE_COLLECTION_ITEMS, LengthOverflow);
    :- Check(items != [], InvalidProfile);
    MapResult(ParseAnchorValue, items)
  }

  /** `parse_trust_anchors`. */
  function ParseTrustAnchors(input: seq<byte>): Result<seq<TrustAnchor>> {
    var sized := input != [] && |input| <= MAX_CERTIFICATION_BUNDLE_BYTES;
    :- Check(sized, LengthOverflow);
    var root :- JsonReader.Parse(input);
    ParseAnchorsValue(root)
  }

  lemma AnchorKeysAreDistinct()
    ensures NoDuplicates(ANCHOR_KEYS)
  {
  }

  lemma AnchorKeysArePlain1()
    ensures IsPlainKey(ANCHOR_KEYS[0]) && IsPlainKey(ANCHOR_KEYS[1])
  {
  }

  lemma AnchorKeysArePlain2()
    ensures IsPlainKey(ANCHOR_KEYS[2]) && IsPlainKey(ANCHOR_KEYS[3])
  {
  }

  lemma AnchorKeysAreSound()
    ensures SoundKeys(ANCHOR_KEYS)
  {
    hide NoDuplicates, IsPlainKey;
    AnchorKeysAreDistinct();
    AnchorKeysArePlain1();
    AnchorKeysArePlain2();
  }

  lemma NotAfterIsSound()
    ensures IsPlainKey("not_after") && "not_after" !in ANCHOR_KEYS
  {
  }

  function AnchorKeyList(x: TrustAnchor): seq<string> {
    if x.notAfter.Some? then ANCHOR_KEYS + ["not_after"] else ANCHOR_KEYS
  }

  lemma AnchorKeys(x: TrustAnchor)
    ensures WellKeyed(AnchorFields(x), AnchorKeyList(x))
  {
    hide NoDuplicates, IsPlainKey, FormatDate;
    AnchorKeysAreSound();
    NotAfterIsSound();
    assert KeysOf(AnchorFields(x)) == AnchorKeyList(x);
    if x.notAfter.Some? {
      NoDuplicatesSnoc(ANCHOR_KEYS, "not_after");
    }
  }

  lemma NoDuplicatesSnoc<T>(s: seq<T>, x: T)
    requires NoDuplicates(s) && x !in s
    ensures NoDuplicates(s + [x])
  {
  }

  /** Which unknown-field check a given anchor passes. */
  lemma AnchorUnknown(o: Fields, x: TrustAnchor)
    ensures RejectUnknownFields(o, AnchorKeyList(x)).Pass? <==>
      RejectUnknownFields(o, ANCHOR_KEYS + ["not_after"]).Pass? && (x.notAfter.None? ==> "not_after" !in o)
  {
    NotAfterIsSound();
    hide IsPlainKey;
    var keys, more := ANCHOR_KEYS, ANCHOR_KEYS + ["not_after"];
    assert forall k :: k in more <==> k in keys || k == "not_after";
  }

  lemma OptionalDateIff(o: Fields, d: Option<EmvDate>)
    ensures ParseOptionalDate(o) == Ok(d) <==>
      if d.None? then "not_after" !in o
      else IsIsoDate(d.value) && Has(o, Str("not_after", FormatDate(d.value)))
  {
    hide ParseIsoDate, FormatDate, IsIsoDate;
    if d.Some? && "not_after" in o && o["not_after"].JsonString? {
      IsoDateText(o["not_after"].text, d.value);
    }
  }

  lemma AnchorFieldsIff(o: Fields, x: TrustAnchor)
    ensures ParseAnchorFields(o) == Ok(x) <==> GoodAnchor(x) && o == FieldMap(map[], AnchorFields(x))
  {
    hide RejectUnknownFields, RequiredCleanString, CleanString, Has, WellKeyed, FieldMap, ValidateHexLen,
      ParseOptionalDate,
      FormatDate, IsIsoDate;
    var fs := AnchorFields(x);
    AnchorKeys(x);
    MatchFields(o, fs, AnchorKeyList(x));
    AnchorUnknown(o, x);
    CleanStringIff(o, "signer_id", x.signerId);
    CleanStringIff(o, "signing_key_fingerprint", x.signingKeyFingerprint);
    CleanStringIff(o, "verification_public_key_hex", x.verificationPublicKeyHex);
    CleanStringIff(o, "allowed_payload_sha256", x.allowedPayloadSha256);
    OptionalDateIff(o, x.notAfter);
    assert fs[0] == Str("signer_id", x.signerId);
    assert fs[1] == Str("signing_key_fingerprint", x.signingKeyFingerprint);
    assert fs[2] == Str("verification_public_key_hex", x.verificationPublicKeyHex);
    assert fs[3] == Str("allowed_payload_sha256", x.allowedPayloadSha256);
    assert x.notAfter.Some? ==> fs[4] == Str("not_after", FormatDate(x.notAfter.value));
  }

  lemma AnchorListIff(o: Fields, xs: seq<TrustAnchor>)
    ensures ParseArray(o, "trust_anchors", ParseAnchorValue) == Ok(xs) <==>
      GoodAnchors(xs) && Has(o, Field("trust_anchors", AnchorListDoc(xs)))
  {
    hide ParseAnchorFields, GoodAnchor, AnchorFields, FieldMap;
    if RequiredArray(o, "trust_anchors").Ok? {
      var items := o["trust_anchors"].items;
      MapResultIs(ParseAnchorValue, items, xs);
      var docs := AnchorListDoc(xs).items;
      var printed := ItemValues(docs);
      forall i | 0 <= i < |xs|
        ensures printed[i] == JsonObject(FieldMap(map[], AnchorFields(xs[i])))
      {
        assert docs[i] == DocObject(AnchorFields(xs[i]));
      }
      forall i | 0 <= i < |items| && |items| == |xs|
        ensures ParseAnchorValue(items[i]) == Ok(xs[i]) <==> GoodAnchor(xs[i]) && items[i] == printed[i]
      {
        if items[i].JsonObject? {
          AnchorFieldsIff(items[i].fields, xs[i]);
        }
      }
      assert |items| == |xs| && (forall i | 0 <= i < |items| :: items[i] == printed[i]) ==> items == printed;
    }
  }

  lemma AnchorsKeysAreSound()
    ensures SoundKeys(["schema_version", "trust_anchors"])
  {
  }

  /** A value reads as a list of trust anchors exactly when it is the value of a valid non-empty list's document. */
  lemma AnchorsIff(root: JsonValue, xs: seq<TrustAnchor>)
    ensures ParseAnchorsValue(root) == Ok(xs) <==> xs != [] && GoodAnchors(xs) && root == DocValue(AnchorsDoc(xs))
  {
    hide Has, FieldMap, RejectUnknownFields, RequiredString, ParseAnchorValue, GoodAnchors, AnchorListDoc, SoundKeys;
    if root.JsonObject? {
      var o := root.fields;
      var fs := [Str("schema_version", ANCHORS_SCHEMA_VERSION), Field("trust_anchors", AnchorListDoc(xs))];
      assert AnchorsDoc(xs) == DocObject(fs);
      AnchorsKeysAreSound();
      assert KeysOf(fs) == ["schema_version", "trust_anchors"];
      MatchAll(o, fs, ["schema_version", "trust_anchors"]);
      HasTwo(o, fs[0], fs[1]);
      StringIff(o, "schema_version", ANCHORS_SCHEMA_VERSION);
      AnchorListIff(o, xs);
      MapResultLength(o, xs);
    }
  }

  lemma MapResultLength(o: Fields, xs: seq<TrustAnchor>)
    ensures ParseArray(o, "trust_anchors", ParseAnchorValue) == Ok(xs) ==>
      RequiredArray(o, "trust_anchors").Ok? && |RequiredArray(o, "trust_anchors").value| == |xs|
  {
    hide ParseAnchorValue;
  }
}
