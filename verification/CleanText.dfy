/** Which fixed and computed texts the bundle readers accept as clean strings (src/cert_bundle.rs). */
module CleanText {
  import opened Kernel
  import opened Text
  import opened Hex
  import opened JsonFields
  import opened JsonDoc
  import opened BundleReader
  import opened BundleProvision

  // ---------------------------------------------------------------- clean printable strings

  /** A clean string of printable ASCII characters. */
  predicate Printable(s: string) {
    CleanString(s) && IsAscii(s)
  }

  predicate PrintableList(items: seq<string>) {
    |items| <= MAX_BUNDLE_COLLECTION_ITEMS && forall i | 0 <= i < |items| :: Printable(items[i])
  }

  lemma PrintableIsPlain(s: string)
    requires Printable(s)
    ensures IsPlain(s)
  {
    forall i | 0 <= i < |s|
      ensures IsPlainChar(s[i])
    {
      assert !IsControl(s[i]);
    }
  }

  /** Text without white space, dots, and the letter pairs PL and MM has nothing to reject. */
  predicate HarmlessText(s: string) {
    && 0 < |s| <= 4096
    && (forall i | 0 <= i < |s| :: 0x21 <= s[i] as int <= 0x7e && s[i] != '.')
    && (forall i, j | 0 <= i < |s| && j == i + 1 < |s| :: !IsPair(s[i], s[j], 'P', 'L') && !IsPair(s[i], s[j], 'M', 'M'))
  }

  /** The same, checked one position after another. */
  predicate HarmlessFrom(s: string, i: nat)
    decreases |s| - i
  {
    i < |s| ==>
      && 0x21 <= s[i] as int <= 0x7e && s[i] != '.'
      && (i + 1 < |s| ==> !IsPair(s[i], s[i + 1], 'P', 'L') && !IsPair(s[i], s[i + 1], 'M', 'M'))
      && HarmlessFrom(s, i + 1)
  }

  lemma {:induction false} HarmlessThroughout(s: string, i: nat)
    requires HarmlessFrom(s, i)
    ensures forall k | i <= k < |s| :: 0x21 <= s[k] as int <= 0x7e && s[k] != '.'
    ensures forall k, j | i <= k < |s| && j == k + 1 < |s| ::
      !IsPair(s[k], s[j], 'P', 'L') && !IsPair(s[k], s[j], 'M', 'M')
    decreases |s| - i
  {
    hide IsPair;
    if i < |s| {
      HarmlessThroughout(s, i + 1);
    }
  }

  predicate IsPair(a: char, b: char, x: char, y: char) {
    AsciiUpperChar(a) == x && AsciiUpperChar(b) == y
  }

  lemma NothingToTrim(s: string)
    requires s != "" && !IsWhitespace(s[0]) && !IsWhitespace(s[|s| - 1])
    ensures Trim(s) == s
  {
  }

  lemma AvoidsWord(s: string, word: string, k: nat)
    requires k + 1 < |word|
    requires forall i, j | 0 <= i < |s| && j == i + 1 < |s| :: !IsPair(s[i], s[j], word[k], word[k + 1])
    ensures !Contains(AsciiUpper(s), word)
  {
    var upper := AsciiUpper(s);
    forall i | 0 <= i <= |upper|
      ensures !OccursAt(upper, word, i)
    {
      var at := i + k;
      assert at + 1 < |s| ==> !IsPair(s[at], s[at + 1], word[k], word[k + 1]);
    }
  }

  lemma HarmlessIsPrintable(s: string)
    requires HarmlessText(s)
    ensures Printable(s)
  {
    hide Contains, Trim, AsciiUpper;
    Utf8Ascii(s);
    NothingToTrim(s);
    AvoidsWord(s, "PLACEHOLDER", 0);
    AvoidsWord(s, "...", 0);
    AvoidsWord(s, "DUMMY", 2);
    assert RejectWords(s, ["PLACEHOLDER", "...", "DUMMY"]).Pass?;
  }

  /** `to_hex` always writes clean printable text. */
  lemma HexIsPrintable(bytes: seq<byte>)
    requires 0 < |bytes| <= 2048
    ensures Printable(ToHex(bytes))
  {
    hide ToHex, HarmlessText, Printable;
    HexIsHarmless(bytes);
    HarmlessIsPrintable(ToHex(bytes));
  }

  lemma HexIsHarmless(bytes: seq<byte>)
    requires 0 < |bytes| <= 2048
    ensures HarmlessText(ToHex(bytes))
  {
    hide ToHex;
  }

  // ---------------------------------------------------------------- the fixed strings of a created payload

  predicate IsSeparator(c: char) {
    c == '-' || c == '_'
  }

  lemma HarmlessWord(s: string)
    requires 0 < |s| <= 4096 && HarmlessFrom(s, 0)
    ensures HarmlessText(s)
  {
    HarmlessThroughout(s, 0);
  }

  lemma HarmlessJoin(a: string, b: string)
    requires HarmlessText(a) && HarmlessText(b) && |a| + |b| <= 4096
    requires IsSeparator(b[0])
    ensures HarmlessText(a + b)
  {
    var ab := a + b;
    forall i, j | 0 <= i < |ab| && j == i + 1 < |ab|
      ensures !IsPair(ab[i], ab[j], 'P', 'L') && !IsPair(ab[i], ab[j], 'M', 'M')
    {
      if i < |a| <= j {
        assert ab[j] == b[0];
      } else if j < |a| {
        assert ab[i] == a[i] && ab[j] == a[j];
      } else {
        assert ab[i] == b[i - |a|] && ab[j] == b[j - |a|];
      }
    }
  }

  lemma CounterText()
    ensures HarmlessText(OFFLINE_COUNTER_PERSISTENCE)
  {
    hide HarmlessText;
    HarmlessWord("terminal");
    HarmlessWord("-nonvolatile");
    HarmlessWord("-counter");
    HarmlessWord("-required");
    HarmlessJoin("terminal", "-nonvolatile");
    HarmlessJoin("terminal" + "-nonvolatile", "-counter");
    HarmlessJoin("terminal" + "-nonvolatile" + "-counter", "-required");
  }

  lemma MaskingStart()
    ensures HarmlessText("mask-pan-track" + "-equivalent" + "-cryptogram")
  {
    hide HarmlessText;
    HarmlessWord("mask-pan-track");
    HarmlessWord("-equivalent");
    HarmlessWord("-cryptogram");
    HarmlessJoin("mask-pan-track", "-equivalent");
    HarmlessJoin("mask-pan-track" + "-equivalent", "-cryptogram");
  }

  lemma MaskingText()
    ensures HarmlessText(TRACE_MASKING_POLICY)
  {
    hide HarmlessText;
    MaskingStart();
    HarmlessWord("-pin-and");
    HarmlessWord("-sensitive-tlv");
    HarmlessJoin("mask-pan-track" + "-equivalent" + "-cryptogram", "-pin-and");
    HarmlessJoin("mask-pan-track" + "-equivalent" + "-cryptogram" + "-pin-and", "-sensitive-tlv");
  }

  lemma CvmRuleText()
    ensures HarmlessText(BASELINE_CVM_RULE)
  {
    hide HarmlessText;
    HarmlessWord("baseline-cvm");
    HarmlessWord("-extension-data");
    HarmlessJoin("baseline-cvm", "-extension-data");
  }

  lemma CvmMeaningText()
    ensures HarmlessText(BASELINE_CVM_MEANING)
  {
    hide HarmlessText;
    HarmlessWord("signature-or");
    HarmlessWord("-cdcvm-as");
    HarmlessWord("-authority");
    HarmlessWord("-profiled");
    HarmlessJoin("signature-or", "-cdcvm-as");
    HarmlessJoin("signature-or" + "-cdcvm-as", "-authority");
    HarmlessJoin("signature-or" + "-cdcvm-as" + "-authority", "-profiled");
  }

  lemma OutcomeText()
    ensures HarmlessText(BASELINE_OUTCOME)
  {
    hide HarmlessText;
    HarmlessWord("bundle-loads");
    HarmlessWord("-and-profile");
    HarmlessWord("-validates");
    HarmlessJoin("bundle-loads", "-and-profile");
    HarmlessJoin("bundle-loads" + "-and-profile", "-validates");
  }

  lemma TraceText()
    ensures HarmlessText(BASELINE_TRACE)
  {
    hide HarmlessText;
    HarmlessWord("masked-apdu");
    HarmlessWord("-trace");
    HarmlessWord("-required");
    HarmlessWord("-for");
    HarmlessWord("-submission");
    HarmlessJoin("masked-apdu", "-trace");
    HarmlessJoin("masked-apdu" + "-trace", "-required");
    HarmlessJoin("masked-apdu" + "-trace" + "-required", "-for");
    HarmlessJoin("masked-apdu" + "-trace" + "-required" + "-for", "-submission");
  }

  lemma ProfileIdText()
    ensures HarmlessText(PROFILE_ARTIFACT)
  {
    hide HarmlessText;
    HarmlessWord("scheme_profile");
    HarmlessWord("_set_json");
    HarmlessJoin("scheme_profile", "_set_json");
  }

  lemma VectorIdText()
    ensures HarmlessText(VECTOR_ARTIFACT)
  {
    hide HarmlessText;
    HarmlessWord("vector_bundle");
    HarmlessWord("_json");
    HarmlessJoin("vector_bundle", "_json");
  }

  lemma AlgorithmText()
    ensures HarmlessText(SIGNATURE_ALGORITHM)
  {
    hide HarmlessText;
    HarmlessWord("hyperion");
    HarmlessWord("-ed25519");
    HarmlessWord("-sha256-v1");
    HarmlessJoin("hyperion", "-ed25519");
    HarmlessJoin("hyperion" + "-ed25519", "-sha256-v1");
  }


  lemma CvmTexts()
    ensures Printable("1E") && Printable("0000000000")
  {
    hide Printable, HarmlessText;
    HarmlessWord("1E");
    HarmlessWord("0000000000");
    HarmlessIsPrintable("1E");
    HarmlessIsPrintable("0000000000");
  }

  lemma CaseText()
    ensures Printable("CERT-DATA-0001")
  {
    hide Printable, HarmlessText;
    HarmlessWord("CERT-DATA-0001");
    HarmlessIsPrintable("CERT-DATA-0001");
  }

  lemma KindTexts()
    ensures Printable("scheme-profile") && Printable("test-vectors")
  {
    hide Printable, HarmlessText;
    HarmlessWord("scheme-profile");
    HarmlessWord("test-vectors");
    HarmlessIsPrintable("scheme-profile");
    HarmlessIsPrintable("test-vectors");
  }

  lemma IssueTexts()
    ensures Printable("CERT-OPEN-002") && Printable("CERT-OPEN-003")
    ensures Printable("CERT-OPEN-004") && Printable("CERT-OPEN-012")
  {
    hide Printable, HarmlessText;
    HarmlessWord("CERT-OPEN-002");
    HarmlessWord("CERT-OPEN-003");
    HarmlessWord("CERT-OPEN-004");
    HarmlessWord("CERT-OPEN-012");
    HarmlessIsPrintable("CERT-OPEN-002");
    HarmlessIsPrintable("CERT-OPEN-003");
    HarmlessIsPrintable("CERT-OPEN-004");
    HarmlessIsPrintable("CERT-OPEN-012");
  }

  lemma LongTexts()
    ensures Printable(OFFLINE_COUNTER_PERSISTENCE) && Printable(TRACE_MASKING_POLICY)
    ensures Printable(BASELINE_CVM_RULE) && Printable(BASELINE_CVM_MEANING)
    ensures Printable(BASELINE_OUTCOME) && Printable(BASELINE_TRACE)
    ensures Printable(PROFILE_ARTIFACT) && Printable(VECTOR_ARTIFACT) && Printable(SIGNATURE_ALGORITHM)
  {
    hide *;
    CounterText();
    MaskingText();
    CvmRuleText();
    CvmMeaningText();
    OutcomeText();
    TraceText();
    ProfileIdText();
    VectorIdText();
    AlgorithmText();
    HarmlessIsPrintable(OFFLINE_COUNTER_PERSISTENCE);
    HarmlessIsPrintable(TRACE_MASKING_POLICY);
    HarmlessIsPrintable(BASELINE_CVM_RULE);
    HarmlessIsPrintable(BASELINE_CVM_MEANING);
    HarmlessIsPrintable(BASELINE_OUTCOME);
    HarmlessIsPrintable(BASELINE_TRACE);
    HarmlessIsPrintable(PROFILE_ARTIFACT);
    HarmlessIsPrintable(VECTOR_ARTIFACT);
    HarmlessIsPrintable(SIGNATURE_ALGORITHM);
  }
}
