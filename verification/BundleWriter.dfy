/**
 The printers of src/cert_bundle.rs: methods that append to one growing string, proved to append the text of the
 record's document.
 */
module BundleWriter {
  import opened Kernel
  import opened Text
  import opened Dates
  import opened JsonSyntax
  import opened JsonDoc
  import opened BundleRecords

  lemma {:induction false} FieldsTextSnoc(fs: seq<Field>, f: Field)
    ensures FieldsText(fs + [f]) == if fs == [] then FieldText(f) else FieldsText(fs) + ([COMMA] + FieldText(f))
  {
    hide FieldText;
    if fs == [] {
      assert fs + [f] == [f];
    } else if |fs| == 1 {
      assert (fs + [f])[1..] == [f];
    } else {
      FieldsTextSnoc(fs[1..], f);
      assert (fs + [f])[1..] == fs[1..] + [f];
      var head, tail, last := FieldText(fs[0]), FieldsText(fs[1..]), [COMMA] + FieldText(f);
      Associative([COMMA], tail, last);
      Associative(head, [COMMA] + tail, last);
    }
  }

  lemma {:induction false} ItemsTextSnoc(items: seq<Doc>, d: Doc)
    ensures ItemsText(items + [d]) == if items == [] then DocText(d) else ItemsText(items) + ([COMMA] + DocText(d))
  {
    hide DocText;
    if items == [] {
      assert items + [d] == [d];
    } else if |items| == 1 {
      assert (items + [d])[1..] == [d];
    } else {
      ItemsTextSnoc(items[1..], d);
      assert (items + [d])[1..] == items[1..] + [d];
      var head, tail, last := DocText(items[0]), ItemsText(items[1..]), [COMMA] + DocText(d);
      Associative([COMMA], tail, last);
      Associative(head, [COMMA] + tail, last);
    }
  }

  ghost predicate ReadyText(text: seq<byte>, s: seq<byte>, f: seq<Field>) {
    text == s + ([OPEN_BRACE] + FieldsText(f)) + if f == [] then [] else [COMMA]
  }

  ghost predicate DoneText(text: seq<byte>, s: seq<byte>, f: seq<Field>) {
    f != [] && text == s + ([OPEN_BRACE] + FieldsText(f))
  }

  class JsonWriter {
    /** The string's bytes. */
    var out: seq<byte>

    constructor ()
      ensures out == []
    {
      out := [];
    }

    // An object under construction: it began after `s`, and `f` are the fields written so far.

    /** The next thing to write is a field. */
    ghost predicate Ready(s: seq<byte>, f: seq<Field>)
      reads this
    {
      ReadyText(out, s, f)
    }

    /** The last thing written was a field. */
    ghost predicate Done(s: seq<byte>, f: seq<Field>)
      reads this
    {
      DoneText(out, s, f)
    }

    method Open(ghost s: seq<byte>)
      requires out == s
      modifies this
      ensures Ready(s, [])
    {
      out := out + [OPEN_BRACE];
    }

    method Comma(ghost s: seq<byte>, ghost f: seq<Field>)
      requires Done(s, f)
      modifies this
      ensures Ready(s, f)
    {
      out := out + [COMMA];
    }

    method Close(ghost s: seq<byte>, ghost f: seq<Field>)
      requires Done(s, f)
      modifies this
      ensures out == s + DocText(DocObject(f))
    {
      out := out + [CLOSE_BRACE];
      Associative(s, [OPEN_BRACE] + FieldsText(f), [CLOSE_BRACE]);
    }

    method Push(text: string)
      modifies this
      ensures out == old(out) + Utf8(text)
    {
      out := out + Utf8(text);
    }

    /** `push_json_escaped`. */
    method PushJsonEscaped(value: string)
      modifies this
      ensures out == old(out) + Utf8(Escape(value))
    {
      ghost var start := out;
      assert value[0..] == value;
      for i := 0 to |value|
        invariant out + Utf8(Escape(value[i..])) == start + Utf8(Escape(value))
      {
        assert value[i..][1..] == value[i + 1..];
        Utf8Concat(EscapeChar(value[i]), Escape(value[i + 1..]));
        Associative(out, Utf8(EscapeChar(value[i])), Utf8(Escape(value[i + 1..])));
        Push(EscapeChar(value[i]));
      }
      assert out + [] == out;
    }

    method PushKey(key: string)
      modifies this
      ensures out == old(out) + KeyText(key)
    {
      out := out + [QUOTE];
      Push(key);
      out := out + [QUOTE, COLON];
    }

    method PushQuoted(value: string)
      modifies this
      ensures out == old(out) + StringText(value)
    {
      out := out + [QUOTE];
      PushJsonEscaped(value);
      out := out + [QUOTE];
    }

    /** Key and value written after a ready point make a field. */
    ghost method Added(s: seq<byte>, f: seq<Field>, before: seq<byte>, field: Field) returns (g: seq<Field>)
      requires ReadyText(before, s, f)
      requires out == before + KeyText(field.key) + DocText(field.doc)
      ensures g == f + [field] && Done(s, g)
    {
      g := f + [field];
      hide DocText, KeyText;
      FieldsTextSnoc(f, field);
      var key, doc := KeyText(field.key), DocText(field.doc);
      Associative(before, key, doc);
      AddedText(s, FieldsText(f), key + doc, f == []);
    }

    /** `push_json_str`. */
    method PushJsonStr(key: string, value: string, ghost s: seq<byte>, ghost f: seq<Field>) returns (ghost g: seq<Field>)
      requires Ready(s, f)
      modifies this
      ensures g == f + [Str(key, value)] && Done(s, g)
    {
      ghost var before := out;
      PushKey(key);
      PushQuoted(value);
      g := Added(s, f, before, Str(key, value));
    }

    /** `push_json_number`. */
    method PushJsonNumber(key: string, value: u64, ghost s: seq<byte>, ghost f: seq<Field>) returns (ghost g: seq<Field>)
      requires Ready(s, f)
      modifies this
      ensures g == f + [Field(key, DocNumber(value))] && Done(s, g)
    {
      ghost var before := out;
      PushKey(key);
      out := out + Decimal(value);
      g := Added(s, f, before, Field(key, DocNumber(value)));
    }

    /** `push_json_bool`. */
    method PushJsonBool(key: string, value: bool, ghost s: seq<byte>, ghost f: seq<Field>) returns (ghost g: seq<Field>)
      requires Ready(s, f)
      modifies this
      ensures g == f + [Field(key, DocBool(value))] && Done(s, g)
    {
      ghost var before := out;
      PushKey(key);
      out := out + if value then TRUE_TEXT else FALSE_TEXT;
      g := Added(s, f, before, Field(key, DocBool(value)));
    }

    /** `push_json_array`. */
    method PushJsonArray(key: string, values: seq<string>, ghost s: seq<byte>, ghost f: seq<Field>)
      returns (ghost g: seq<Field>)
      requires Ready(s, f)
      modifies this
      ensures g == f + [Strs(key, values)] && Done(s, g)
    {
      ghost var before := out;
      ghost var items := StringsDoc(values).items;
      PushKey(key);
      out := out + [OPEN_BRACKET];
      ghost var base := out;
      for i := 0 to |values|
        invariant out == base + ItemsText(items[..i])
      {
        hide ItemsText, DocText;
        if i > 0 {
          out := out + [COMMA];
        }
        StringItem(values[i]);
        NextItem(base, items, i);
        PushQuoted(values[i]);
      }
      ListClosed(before + KeyText(key), items);
      out := out + [CLOSE_BRACKET];
      g := Added(s, f, before, Strs(key, values));
    }

    /** `push_submission_scope_json`. */
    method PushSubmissionScope(v: SubmissionScope)
      modifies this
      ensures out == old(out) + DocText(DocObject(ScopeFields(v)))
    {
      hide DocText, KeyText, FieldsText, ReadyText, DoneText;
      ghost var s, f := out, [];
      Open(s);
      f := PushJsonStr("product_name", v.productName, s, f);
      Comma(s, f);
      f := PushJsonStr("product_version", v.productVersion, s, f);
      Comma(s, f);
      f := PushJsonStr("certification_target", v.certificationTarget, s, f);
      Comma(s, f);
      f := PushJsonArray("interfaces", v.interfaces, s, f);
      Comma(s, f);
      f := PushJsonArray("authorities", v.authorities, s, f);
      Close(s, f);
      assert f == ScopeFields(v);
    }

    /** `push_standards_target_json`. */
    method PushStandardsTarget(v: StandardsTarget)
      modifies this
      ensures out == old(out) + DocText(DocObject(StandardsFields(v)))
    {
      hide DocText, KeyText, FieldsText, ReadyText, DoneText;
      ghost var s, f := out, [];
      Open(s);
      f := PushJsonStr("emv_contact_version", v.emvContactVersion, s, f);
      Comma(s, f);
      f := PushJsonStr("emv_contactless_kernel", v.emvContactlessKernel, s, f);
      Comma(s, f);
      f := PushJsonArray("bulletins_included", v.bulletinsIncluded, s, f);
      Comma(s, f);
      f := PushJsonArray("bulletins_excluded", v.bulletinsExcluded, s, f);
      Close(s, f);
      assert f == StandardsFields(v);
    }

    /** `push_terminal_profile_json`. */
    method PushTerminalProfile(v: TerminalProfile)
      modifies this
      ensures out == old(out) + DocText(DocObject(TerminalFields(v)))
    {
      hide DocText, KeyText, FieldsText, ReadyText, DoneText;
      ghost var s, f := out, [];
      Open(s);
      f := PushJsonStr("terminal_type", v.terminalType, s, f);
      Comma(s, f);
      f := PushJsonStr("device_model", v.deviceModel, s, f);
      Comma(s, f);
      f := PushJsonStr("firmware_version", v.firmwareVersion, s, f);
      Comma(s, f);
      f := PushJsonStr("l1_approval_reference", v.l1ApprovalReference, s, f);
      Comma(s, f);
      f := PushJsonStr("pci_pts_reference", v.pciPtsReference, s, f);
      Comma(s, f);
      f := PushJsonArray("supported_interfaces", v.supportedInterfaces, s, f);
      Close(s, f);
      assert f == TerminalFields(v);
    }

    /** The nested timeout object of `push_runtime_policy_json`. */
    method PushTimeouts(v: CallbackTimeouts)
      modifies this
      ensures out == old(out) + DocText(DocObject(TimeoutFields(v)))
    {
      hide DocText, KeyText, FieldsText, ReadyText, DoneText;
      ghost var s, f := out, [];
      Open(s);
      f := PushJsonNumber("apdu_transport_timeout_ms", TimeoutNumber(v.apduTransport), s, f);
      Comma(s, f);
      f := PushJsonNumber("host_authorization_timeout_ms", TimeoutNumber(v.hostAuthorization), s, f);
      Comma(s, f);
      f := PushJsonNumber("pin_entry_timeout_ms", TimeoutNumber(v.pinEntry), s, f);
      Comma(s, f);
      f := PushJsonNumber("contactless_ui_timeout_ms", TimeoutNumber(v.contactlessUi), s, f);
      Close(s, f);
      assert f == TimeoutFields(v);
    }

    /** `push_runtime_policy_json`. */
    method PushRuntimePolicy(v: RuntimePolicy)
      modifies this
      ensures out == old(out) + DocText(DocObject(RuntimeFields(v)))
    {
      hide DocText, KeyText, FieldsText, ReadyText, DoneText, TimeoutFields;
      ghost var s, f := out, [];
      Open(s);
      ghost var before0 := out;
      PushKey("callback_timeouts");
      PushTimeouts(v.callbackTimeouts);
      f := Added(s, f, before0, Field("callback_timeouts", DocObject(TimeoutFields(v.callbackTimeouts))));
      Comma(s, f);
      f := PushJsonStr("offline_counter_persistence", v.offlineCounterPersistence, s, f);
      Comma(s, f);
      f := PushJsonStr("trace_masking_policy", v.traceMaskingPolicy, s, f);
      Close(s, f);
      assert f == RuntimeFields(v);
    }

    /** `push_kernel_registration_json`. */
    method PushKernelRegistration(v: KernelRegistration)
      modifies this
      ensures out == old(out) + DocText(DocObject(KernelFields(v)))
    {
      hide DocText, KeyText, FieldsText, ReadyText, DoneText;
      ghost var s, f := out, [];
      Open(s);
      f := PushJsonStr("kernel_profile_id", v.kernelProfileId, s, f);
      Comma(s, f);
      f := PushJsonStr("interface", v.iface, s, f);
      Comma(s, f);
      f := PushJsonStr("algorithm", v.algorithm, s, f);
      Comma(s, f);
      f := PushJsonStr("c8_package", v.c8Package, s, f);
      Comma(s, f);
      f := PushJsonArray("scheme_scope", v.schemeScope, s, f);
      Close(s, f);
      assert f == KernelFields(v);
    }

    /** `push_cvm_extension_json`. */
    method PushCvmExtension(v: CvmExtension)
      modifies this
      ensures out == old(out) + DocText(DocObject(CvmFields(v)))
    {
      hide DocText, KeyText, FieldsText, ReadyText, DoneText;
      ghost var s, f := out, [];
      Open(s);
      f := PushJsonStr("rule_id", v.ruleId, s, f);
      Comma(s, f);
      f := PushJsonArray("scheme_scope", v.schemeScope, s, f);
      Comma(s, f);
      f := PushJsonStr("cvm_code_hex", v.cvmCodeHex, s, f);
      Comma(s, f);
      f := PushJsonStr("meaning", v.meaning, s, f);
      Comma(s, f);
      f := PushJsonStr("tvr_on_failure_hex", v.tvrOnFailureHex, s, f);
      Comma(s, f);
      f := PushJsonBool("continue_on_failure", v.continueOnFailure, s, f);
      Close(s, f);
      assert f == CvmFields(v);
    }

    /** `push_test_case_json`. */
    method PushTestCase(v: TestCase)
      modifies this
      ensures out == old(out) + DocText(DocObject(TestCaseFields(v)))
    {
      hide DocText, KeyText, FieldsText, ReadyText, DoneText;
      ghost var s, f := out, [];
      Open(s);
      f := PushJsonStr("case_id", v.caseId, s, f);
      Comma(s, f);
      f := PushJsonStr("vector_class", v.vectorClass, s, f);
      Comma(s, f);
      f := PushJsonStr("expected_outcome", v.expectedOutcome, s, f);
      Comma(s, f);
      f := PushJsonStr("trace_requirement", v.traceRequirement, s, f);
      Close(s, f);
      assert f == TestCaseFields(v);
    }

    /** `push_artifact_hash_json`. */
    method PushArtifactHash(v: ArtifactHash)
      modifies this
      ensures out == old(out) + DocText(DocObject(ArtifactFields(v)))
    {
      hide DocText, KeyText, FieldsText, ReadyText, DoneText;
      ghost var s, f := out, [];
      Open(s);
      f := PushJsonStr("artifact_id", v.artifactId, s, f);
      Comma(s, f);
      f := PushJsonStr("artifact_kind", v.artifactKind, s, f);
      Comma(s, f);
      f := PushJsonStr("sha256_hex", v.sha256Hex, s, f);
      Comma(s, f);
      f := PushJsonArray("binds_open_issues", v.bindsOpenIssues, s, f);
      Close(s, f);
      assert f == ArtifactFields(v);
    }

    /** The loop over `kernel_registry`. */
    method PushKernels(vs: seq<KernelRegistration>)
      modifies this
      ensures out == old(out) + DocText(KernelsDoc(vs))
    {
      hide ItemsText, DocText;
      ghost var before := out;
      ghost var items := KernelsDoc(vs).items;
      out := out + [OPEN_BRACKET];
      ghost var base := out;
      assert base + ItemsText(items[..0]) == base by { NoItems(items); }
      for i := 0 to |vs|
        invariant out == base + ItemsText(items[..i])
      {
        if i > 0 {
          out := out + [COMMA];
        }
        assert items[i] == DocObject(KernelFields(vs[i]));
        NextItem(base, items, i);
        PushKernelRegistration(vs[i]);
      }
      ListClosed(before, items);
      out := out + [CLOSE_BRACKET];
    }

    /** The loop over `cvm_extensions`. */
    method PushCvmExtensions(vs: seq<CvmExtension>)
      modifies this
      ensures out == old(out) + DocText(CvmsDoc(vs))
    {
      hide ItemsText, DocText;
      ghost var before := out;
      ghost var items := CvmsDoc(vs).items;
      out := out + [OPEN_BRACKET];
      ghost var base := out;
      assert base + ItemsText(items[..0]) == base by { NoItems(items); }
      for i := 0 to |vs|
        invariant out == base + ItemsText(items[..i])
      {
        if i > 0 {
          out := out + [COMMA];
        }
        assert items[i] == DocObject(CvmFields(vs[i]));
        NextItem(base, items, i);
        PushCvmExtension(vs[i]);
      }
      ListClosed(before, items);
      out := out + [CLOSE_BRACKET];
    }

    /** The loop over `test_plan`. */
    method PushTestCases(vs: seq<TestCase>)
      modifies this
      ensures out == old(out) + DocText(TestCasesDoc(vs))
    {
      hide ItemsText, DocText;
      ghost var before := out;
      ghost var items := TestCasesDoc(vs).items;
      out := out + [OPEN_BRACKET];
      ghost var base := out;
      assert base + ItemsText(items[..0]) == base by { NoItems(items); }
      for i := 0 to |vs|
        invariant out == base + ItemsText(items[..i])
      {
        if i > 0 {
          out := out + [COMMA];
        }
        assert items[i] == DocObject(TestCaseFields(vs[i]));
        NextItem(base, items, i);
        PushTestCase(vs[i]);
      }
      ListClosed(before, items);
      out := out + [CLOSE_BRACKET];
    }

    /** The loop over `artifact_hashes`. */
    method PushArtifactHashes(vs: seq<ArtifactHash>)
      modifies this
      ensures out == old(out) + DocText(ArtifactsDoc(vs))
    {
      hide ItemsText, DocText;
      ghost var before := out;
      ghost var items := ArtifactsDoc(vs).items;
      out := out + [OPEN_BRACKET];
      ghost var base := out;
      assert base + ItemsText(items[..0]) == base by { NoItems(items); }
      for i := 0 to |vs|
        invariant out == base + ItemsText(items[..i])
      {
        if i > 0 {
          out := out + [COMMA];
        }
        assert items[i] == DocObject(ArtifactFields(vs[i]));
        NextItem(base, items, i);
        PushArtifactHash(vs[i]);
      }
      ListClosed(before, items);
      out := out + [CLOSE_BRACKET];
    }

    /** The first half of `payload_canonical_json`. */
    method PushPayloadRecords(v: Payload, ghost s: seq<byte>) returns (ghost f: seq<Field>)
      requires Ready(s, [])
      modifies this
      ensures f == RecordFields(v) && Done(s, f)
    {
      hide DocText, KeyText, FieldsText, ReadyText, DoneText, ScopeFields, StandardsFields, TerminalFields,
        RuntimeFields;
      f := [];
      ghost var before := out;
      PushKey("submission_scope");
      PushSubmissionScope(v.submissionScope);
      f := Added(s, f, before, Field("submission_scope", DocObject(ScopeFields(v.submissionScope))));
      Comma(s, f);
      before := out;
      PushKey("standards_target");
      PushStandardsTarget(v.standardsTarget);
      f := Added(s, f, before, Field("standards_target", DocObject(StandardsFields(v.standardsTarget))));
      Comma(s, f);
      before := out;
      PushKey("terminal_profile");
      PushTerminalProfile(v.terminalProfile);
      f := Added(s, f, before, Field("terminal_profile", DocObject(TerminalFields(v.terminalProfile))));
      Comma(s, f);
      before := out;
      PushKey("runtime_policy");
      PushRuntimePolicy(v.runtimePolicy);
      f := Added(s, f, before, Field("runtime_policy", DocObject(RuntimeFields(v.runtimePolicy))));
      assert f == RecordFields(v);
    }

    /** The four lists of `payload_canonical_json`. */
    method PushPayloadLists(v: Payload, ghost s: seq<byte>, ghost before0: seq<Field>) returns (ghost f: seq<Field>)
      requires Ready(s, before0)
      modifies this
      ensures f == before0 + ListFields(v) && Done(s, f)
    {
      hide DocText, KeyText, FieldsText, ReadyText, DoneText, KernelsDoc, CvmsDoc, TestCasesDoc, ArtifactsDoc;
      f := before0;
      ghost var before := out;
      PushKey("kernel_registry");
      PushKernels(v.kernelRegistry);
      f := Added(s, f, before, Field("kernel_registry", KernelsDoc(v.kernelRegistry)));
      Comma(s, f);
      before := out;
      PushKey("cvm_extensions");
      PushCvmExtensions(v.cvmExtensions);
      f := Added(s, f, before, Field("cvm_extensions", CvmsDoc(v.cvmExtensions)));
      Comma(s, f);
      before := out;
      PushKey("test_plan");
      PushTestCases(v.testPlan);
      f := Added(s, f, before, Field("test_plan", TestCasesDoc(v.testPlan)));
      Comma(s, f);
      before := out;
      PushKey("artifact_hashes");
      PushArtifactHashes(v.artifactHashes);
      f := Added(s, f, before, Field("artifact_hashes", ArtifactsDoc(v.artifactHashes)));
      assert f == before0 + ListFields(v);
    }

    /** `payload_canonical_json`. */
    method PushPayload(v: Payload)
      modifies this
      ensures out == old(out) + DocText(DocObject(PayloadFields(v)))
    {
      hide DocText, KeyText, FieldsText, ReadyText, DoneText, RecordFields, ListFields;
      ghost var s := out;
      Open(s);
      ghost var f := PushPayloadRecords(v, s);
      Comma(s, f);
      f := PushPayloadLists(v, s, f);
      Comma(s, f);
      f := PushJsonStr("scheme_profile_set_json", v.schemeProfileSetJson, s, f);
      Comma(s, f);
      f := PushJsonStr("vector_bundle_json", v.vectorBundleJson, s, f);
      Close(s, f);
      assert f == PayloadFields(v);
    }

    /** `push_signature_json`. */
    method PushSignature(v: BundleSignature)
      modifies this
      ensures out == old(out) + DocText(DocObject(SignatureFields(v)))
    {
      hide DocText, KeyText, FieldsText, ReadyText, DoneText;
      ghost var s, f := out, [];
      Open(s);
      f := PushJsonStr("algorithm", v.algorithm, s, f);
      Comma(s, f);
      f := PushJsonStr("signer_id", v.signerId, s, f);
      Comma(s, f);
      f := PushJsonStr("signing_key_fingerprint", v.signingKeyFingerprint, s, f);
      Comma(s, f);
      f := PushJsonStr("payload_sha256", v.payloadSha256, s, f);
      Comma(s, f);
      f := PushJsonStr("signature_hex", v.signatureHex, s, f);
      Comma(s, f);
      f := PushJsonStr("signature_artifact_sha256", v.signatureArtifactSha256, s, f);
      Close(s, f);
      assert f == SignatureFields(v);
    }

    /** The object `certification_bundle_json` prints. */
    method PushBundle(v: Bundle)
      modifies this
      ensures out == old(out) + DocText(DocObject(BundleFields(v)))
    {
      hide DocText, KeyText, FieldsText, ReadyText, DoneText, PayloadFields, SignatureFields, FormatDate, ClassText;
      ghost var s, f := out, [];
      Open(s);
      f := PushJsonStr("schema_version", v.schemaVersion, s, f);
      Comma(s, f);
      f := PushJsonStr("bundle_id", v.bundleId, s, f);
      Comma(s, f);
      f := PushJsonNumber("bundle_version", v.bundleVersion, s, f);
      Comma(s, f);
      f := PushJsonNumber("rollback_counter", v.rollbackCounter, s, f);
      Comma(s, f);
      f := PushJsonStr("bundle_class", ClassText(v.bundleClass), s, f);
      Comma(s, f);
      f := PushJsonStr("created", FormatDate(v.created), s, f);
      Comma(s, f);
      ghost var before6 := out;
      PushKey("payload");
      PushPayload(v.payload);
      f := Added(s, f, before6, Field("payload", PayloadDoc(v.payload)));
      Comma(s, f);
      ghost var before7 := out;
      PushKey("signature");
      PushSignature(v.signature);
      f := Added(s, f, before7, Field("signature", DocObject(SignatureFields(v.signature))));
      Close(s, f);
      assert f == BundleFields(v);
    }

    /** One anchor of `trust_anchors_json`, with its optional expiry. */
    method PushTrustAnchor(v: TrustAnchor)
      modifies this
      ensures out == old(out) + DocText(DocObject(AnchorFields(v)))
    {
      hide DocText, KeyText, FieldsText, ReadyText, DoneText, FormatDate;
      ghost var s, f := out, [];
      Open(s);
      f := PushJsonStr("signer_id", v.signerId, s, f);
      Comma(s, f);
      f := PushJsonStr("signing_key_fingerprint", v.signingKeyFingerprint, s, f);
      Comma(s, f);
      f := PushJsonStr("verification_public_key_hex", v.verificationPublicKeyHex, s, f);
      Comma(s, f);
      f := PushJsonStr("allowed_payload_sha256", v.allowedPayloadSha256, s, f);
      if v.notAfter.Some? {
        Comma(s, f);
        f := PushJsonStr("not_after", FormatDate(v.notAfter.value), s, f);
      }
      Close(s, f);
      assert f == AnchorFields(v);
    }

    /** The loop over `trust_anchors`. */
    method PushTrustAnchors(vs: seq<TrustAnchor>)
      modifies this
      ensures out == old(out) + DocText(AnchorListDoc(vs))
    {
      hide ItemsText, DocText;
      ghost var before := out;
      ghost var items := AnchorListDoc(vs).items;
      out := out + [OPEN_BRACKET];
      ghost var base := out;
      assert base + ItemsText(items[..0]) == base by { NoItems(items); }
      for i := 0 to |vs|
        invariant out == base + ItemsText(items[..i])
      {
        if i > 0 {
          out := out + [COMMA];
        }
        assert items[i] == DocObject(AnchorFields(vs[i]));
        NextItem(base, items, i);
        PushTrustAnchor(vs[i]);
      }
      ListClosed(before, items);
      out := out + [CLOSE_BRACKET];
    }
  }

  lemma AddedText(s: seq<byte>, written: seq<byte>, field: seq<byte>, first: bool)
    requires first ==> written == []
    ensures (s + ([OPEN_BRACE] + written) + (if first then [] else [COMMA])) + field
         == s + ([OPEN_BRACE] + if first then field else written + ([COMMA] + field))
  {
  }

  lemma StringItem(value: string)
    ensures DocText(DocString(value)) == StringText(value)
  {
  }

  /** Writing item `i` extends the text of the first `i` items. */
  lemma NextItem(base: seq<byte>, items: seq<Doc>, i: nat)
    requires i < |items|
    ensures (base + ItemsText(items[..i])) + (if i == 0 then [] else [COMMA]) + DocText(items[i])
         == base + ItemsText(items[..i + 1])
  {
    hide ItemsText, DocText;
    ItemsTextSnoc(items[..i], items[i]);
    assert items[..i + 1] == items[..i] + [items[i]];
    if i == 0 {
      assert base + ItemsText(items[..0]) == base by { NoItems(items); }
    } else {
      Associative(base + ItemsText(items[..i]), [COMMA], DocText(items[i]));
      Associative(base, ItemsText(items[..i]), [COMMA] + DocText(items[i]));
    }
  }

  lemma NoItems(items: seq<Doc>)
    ensures ItemsText(items[..0]) == []
  {
  }

  lemma ListClosed(prefix: seq<byte>, items: seq<Doc>)
    ensures items[..|items|] == items
    ensures (prefix + [OPEN_BRACKET]) + ItemsText(items) + [CLOSE_BRACKET] == prefix + DocText(DocArray(items))
  {
    hide ItemsText;
    var list := ItemsText(items);
    Associative(prefix, [OPEN_BRACKET], list);
    Associative(prefix, [OPEN_BRACKET] + list, [CLOSE_BRACKET]);
  }

  /** `payload_canonical_json`. */
  method PayloadCanonicalJson(v: Payload) returns (text: seq<byte>)
    ensures text == DocText(PayloadDoc(v))
  {
    hide DocText;
    var w := new JsonWriter();
    w.PushPayload(v);
    text := w.out;
    assert [] + DocText(PayloadDoc(v)) == text;
  }

  /** `certification_bundle_json`. */
  method CertificationBundleJson(v: Bundle) returns (text: seq<byte>)
    ensures text == FileText(BundleDoc(v))
  {
    hide DocText, BundleFields;
    var w := new JsonWriter();
    w.PushBundle(v);
    assert [] + DocText(BundleDoc(v)) == DocText(BundleDoc(v));
    text := w.out + [0x0a];
  }

  /** `trust_anchors_json`. */
  method TrustAnchorsJson(vs: seq<TrustAnchor>) returns (text: seq<byte>)
    ensures text == FileText(AnchorsDoc(vs))
  {
    hide DocText, KeyText, FieldsText, ReadyText, DoneText, AnchorListDoc;
    var w := new JsonWriter();
    ghost var s, f := w.out, [];
    w.Open(s);
    f := w.PushJsonStr("schema_version", ANCHORS_SCHEMA_VERSION, s, f);
    w.Comma(s, f);
    ghost var before := w.out;
    w.PushKey("trust_anchors");
    w.PushTrustAnchors(vs);
    f := w.Added(s, f, before, Field("trust_anchors", AnchorListDoc(vs)));
    w.Close(s, f);
    assert DocObject(f) == AnchorsDoc(vs);
    assert [] + DocText(AnchorsDoc(vs)) == DocText(AnchorsDoc(vs));
    text := w.out + [0x0a];
  }
}
