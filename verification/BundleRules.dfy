/**
 The checks that bundle readers, creator and loader share (src/cert_bundle.rs), said independently of the predicates
 they share: what a clean string, an identifier and a valid payload are, which anchor is chosen, and where the size
 limits lie.
 */
module BundleRules {
  import opened Kernel
  import opened Text
  import opened Hex
  import opened Dates
  import opened JsonSyntax
  import opened JsonFields
  import opened TextFacts
  import opened ProfileFields
  import opened BundleRecords
  import opened BundleReader
  import opened BundleTrust
  import JsonReader
  import Profile

  // ---------------------------------------------------------------- strings

  /** A text that says it stands in for the real value; the bundle's words are fewer than the profile's. */
  predicate IsStandIn(text: string) {
    var upper := AsciiUpper(text);
    Contains(upper, "PLACEHOLDER") || Contains(upper, "...") || Contains(upper, "DUMMY")
  }

  lemma StandInIff(text: string)
    ensures RejectWords(text, ["PLACEHOLDER", "...", "DUMMY"]).Pass? <==> !IsStandIn(text)
  {
    hide Contains, AsciiUpper;
    var words := ["PLACEHOLDER", "...", "DUMMY"];
    var upper := AsciiUpper(text);
    assert (forall i | 0 <= i < 3 :: !Contains(upper, words[i])) <==>
      !Contains(upper, words[0]) && !Contains(upper, words[1]) && !Contains(upper, words[2]);
  }

  /** A clean string has 1 to 4096 bytes, no white space at its ends, no control character, and stands in for nothing. */
  lemma CleanStringIff(value: string)
    ensures CleanString(value) <==>
      && 1 <= |Utf8(value)| <= 4096 && IsTrimmed(value) && !IsStandIn(value)
      && (forall i | 0 <= i < |value| ::
            value[i] as int / 0x20 != 0 && value[i] as int / 0x20 != 4 && value[i] as int != 0x7f)
  {
    hide IsStandIn, RejectWords, IsControl, IsWhitespace, Trim;
    StandInIff(value);
    TrimKeepsLength(value);
    forall i | 0 <= i < |value|
      ensures IsControl(value[i]) <==>
        value[i] as int / 0x20 == 0 || value[i] as int / 0x20 == 4 || value[i] as int == 0x7f
    {
      ControlCharacters(value[i]);
    }
    assert value == "" <==> |Utf8(value)| == 0;
  }

  /** The letters, the digits, the full stop, the underscore and the hyphen. */
  lemma IdentifierCharacters(c: char)
    ensures IsIdentifierChar(c) <==> c in UPPER_LETTERS || c in LOWER_LETTERS || c in "0123456789" || c in "._-"
  {
    Alphabets(c);
  }

  /** An identifier is a clean string of letters, digits, full stops, underscores and hyphens. */
  lemma IdentifierIff(value: string)
    ensures IsIdentifier(value) <==>
      && CleanString(value)
      && forall i | 0 <= i < |value| ::
           || value[i] in UPPER_LETTERS || value[i] in LOWER_LETTERS || value[i] in "0123456789" || value[i] in "._-"
  {
    hide CleanString, IsIdentifierChar;
    forall i | 0 <= i < |value|
      ensures IsIdentifierChar(value[i]) <==>
        || value[i] in UPPER_LETTERS || value[i] in LOWER_LETTERS || value[i] in "0123456789" || value[i] in "._-"
    {
      IdentifierCharacters(value[i]);
    }
  }

  /** A list holds at most 128 clean strings, none twice. */
  lemma CleanListIff(values: seq<string>)
    ensures CleanList(values) <==>
      && |values| <= 128
      && (forall i, k | 0 <= i < k < |values| :: values[i] != values[k])
      && (forall i | 0 <= i < |values| :: CleanString(values[i]))
  {
    hide CleanString;
  }

  /** The hexadecimal text of some `n` bytes. */
  lemma HexLengthIff(value: string, n: nat)
    ensures ValidateHexLen(value, n).Pass? <==> exists bytes :: |bytes| == n && IsHexText(value, bytes)
  {
    hide DecodeHex, AsciiLower, ToHex;
    forall bytes
      ensures DecodeHex(value) == Ok(bytes) <==> IsHexText(value, bytes)
    {
      DecodeHexIff(value, bytes);
    }
    if ValidateHexLen(value, n).Pass? {
      assert IsHexText(value, DecodeHex(value).value);
    }
  }

  // ---------------------------------------------------------------- payloads

  /** Something, and nothing twice. */
  predicate IsSet(values: seq<string>) {
    |values| >= 1 && forall i, k | 0 <= i < k < |values| :: values[i] != values[k]
  }

  predicate IsKernelEntry(e: KernelRegistration) {
    && IsIdentifier(e.kernelProfileId) && (e.iface == "contact" || e.iface == "contactless")
    && !AllSpace(e.algorithm) && !AllSpace(e.c8Package) && IsSet(e.schemeScope)
  }

  ghost predicate IsArtifactEntry(a: ArtifactHash) {
    IsIdentifier(a.artifactId) && IsSet(a.bindsOpenIssues) && exists bytes :: |bytes| == 32 && IsHexText(a.sha256Hex, bytes)
  }

  predicate HasSizes(p: Payload) {
    && 1 <= |p.kernelRegistry| <= 128 && |p.cvmExtensions| <= 128
    && 1 <= |p.testPlan| <= 128 && 1 <= |p.artifactHashes| <= 128
    && |Utf8(p.schemeProfileSetJson)| <= 1_048_576 && |Utf8(p.vectorBundleJson)| <= 1_048_576
  }

  lemma {:induction false} KernelEntriesIff(entries: seq<KernelRegistration>)
    ensures CheckKernelEntries(entries).Ok? <==> forall i | 0 <= i < |entries| :: IsKernelEntry(entries[i])
  {
    hide IsIdentifier, IsBlank, AllSpace;
    if entries != [] {
      KernelEntriesIff(entries[1..]);
      BlankIff(entries[0].algorithm);
      BlankIff(entries[0].c8Package);
      assert forall i | 1 <= i < |entries| :: entries[i] == entries[1..][i - 1];
    }
  }

  lemma {:induction false} ArtifactEntriesIff(artifacts: seq<ArtifactHash>)
    ensures CheckArtifacts(artifacts).Ok? <==> forall i | 0 <= i < |artifacts| :: IsArtifactEntry(artifacts[i])
  {
    hide IsIdentifier, ValidateHexLen, IsHexText;
    if artifacts != [] {
      ArtifactEntriesIff(artifacts[1..]);
      HexLengthIff(artifacts[0].sha256Hex, 32);
      assert forall i | 1 <= i < |artifacts| :: artifacts[i] == artifacts[1..][i - 1];
    }
  }

  /** A timeout between one millisecond and one minute. */
  predicate IsTimeout(n: i32) {
    0 < n <= 60_000
  }

  /**
   What `validate_payload` demands: four lists of distinct items, the sizes, two embedded texts that are JSON, four
   timeouts, a contactless kernel where contactless is submitted, and sound kernel and artifact entries.
   */
  lemma PayloadRules(p: Payload)
    ensures ValidatePayload(p).Ok? <==>
      && IsSet(p.submissionScope.interfaces) && IsSet(p.submissionScope.authorities)
      && IsSet(p.terminalProfile.supportedInterfaces) && IsSet(p.standardsTarget.bulletinsIncluded)
      && HasSizes(p)
      && JsonReader.Parse(Utf8(p.schemeProfileSetJson)).Ok? && JsonReader.Parse(Utf8(p.vectorBundleJson)).Ok?
      && (var t := p.runtimePolicy.callbackTimeouts;
          IsTimeout(t.apduTransport) && IsTimeout(t.hostAuthorization) && IsTimeout(t.pinEntry) && IsTimeout(t.contactlessUi))
      && ("contactless" in p.submissionScope.interfaces ==>
            exists i | 0 <= i < |p.kernelRegistry| :: p.kernelRegistry[i].iface == "contactless")
      && (forall i | 0 <= i < |p.kernelRegistry| :: IsKernelEntry(p.kernelRegistry[i]))
      && (forall i | 0 <= i < |p.artifactHashes| :: IsArtifactEntry(p.artifactHashes[i]))
  {
    hide CheckKernelEntries, CheckArtifacts, IsKernelEntry, IsArtifactEntry, JsonReader.Parse, Utf8;
    KernelEntriesIff(p.kernelRegistry);
    ArtifactEntriesIff(p.artifactHashes);
  }

  // ---------------------------------------------------------------- signatures, anchors and sizes

  /** A bundle's signature has 64 bytes under the Ed25519 algorithm and 32 under any other. */
  lemma SignatureLength(v: BundleSignature)
    requires GoodSignature(v)
    ensures exists bytes ::
      && IsHexText(v.signatureHex, bytes)
      && |bytes| == if v.algorithm == "hyperion-ed25519-sha256-v1" then 64 else 32
  {
    hide CleanString, ValidateHexLen, IsHexText;
    AlgorithmName();
    HexLengthIff(v.signatureHex, SignatureBytes(v.algorithm));
  }

  lemma AlgorithmName()
    ensures SIGNATURE_ALGORITHM == "hyperion-ed25519-sha256-v1"
  {
  }

  /** Only a testing bundle in test mode may attest to itself, under the test algorithm and with 32 bytes of signature. */
  lemma SelfAttested(c: Crypto, b: Bundle, payloadHash: Bytes32, policy: LoadPolicy)
    ensures VerifyBundleSignature(c, b, payloadHash, policy) == Ok(TestingSelfAttested) <==>
      && b.signature.algorithm == "hyperion-sha256-test-attestation-v1"
      && b.bundleClass == Testing && policy.mode == Profile.Test
      && exists bytes :: |bytes| == 32 && IsHexText(b.signature.signatureHex, bytes)
  {
    hide FindAnchor, SignatureMessage, IsHexText, ValidateHexLen;
    SignatureVerdict(c, b, payloadHash, policy);
    HexLengthIff(b.signature.signatureHex, 32);
  }

  /** What is signed starts with the name of the format and a NUL. */
  lemma SignedPrefix(signerId: string, fingerprint: string, payloadHash: Bytes32)
    ensures Utf8("Hyperion certification bundle Ed25519 signature v1") + [0] <= SignatureMessage(signerId, fingerprint, payloadHash)
  {
    hide Utf8;
    MessageShape(signerId, fingerprint, payloadHash);
  }

  /** The anchor chosen is the first in the list that names both the signature's signer and its key. */
  lemma AnchorChoice(anchors: seq<TrustAnchor>, s: BundleSignature, anchor: TrustAnchor)
    ensures FindAnchor(anchors, s) == Some(anchor) <==> exists i | 0 <= i < |anchors| ::
      && anchors[i] == anchor && anchor.signerId == s.signerId && anchor.signingKeyFingerprint == s.signingKeyFingerprint
      && forall k | 0 <= k < i ::
           anchors[k].signerId != s.signerId || anchors[k].signingKeyFingerprint != s.signingKeyFingerprint
  {
    FindsTheFirst(anchors, s);
    if FindAnchor(anchors, s).Some? {
      var k :| 0 <= k < |anchors| && FindAnchor(anchors, s).value == anchors[k] && IsFirstMatch(anchors, s, k);
      assert Matches(anchors[k], s);
    }
  }

  /** An anchor is usable up to and including its last day, and without one for ever. */
  lemma ExpiryDay(anchor: TrustAnchor, today: EmvDate)
    ensures anchor.notAfter == None || anchor.notAfter == Some(today) ==> !IsExpired(anchor, today)
    ensures anchor.notAfter.Some? && IsExpired(anchor, today) ==> anchor.notAfter.value.Before(today)
    ensures anchor.notAfter.Some? && anchor.notAfter.value.Before(today) ==> IsExpired(anchor, today)
  {
  }

  /** A bundle file has 1 to 4,194,304 bytes. */
  lemma FileSizes(c: Crypto, json: seq<byte>, policy: LoadPolicy)
    requires json == [] || |json| > 4_194_304
    ensures LoadCertificationBundle(c, json, policy) == Err(LengthOverflow)
  {
    hide ParseCertificationBundle, LoadParsed;
  }
}
