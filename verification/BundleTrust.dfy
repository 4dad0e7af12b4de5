/**
 Authentication of a certification bundle (src/cert_bundle.rs): the signed message, the policy checks, the choice of
 trust anchor and the loader. Ed25519 and SHA-256 are function values.
 */
module BundleTrust {
  import opened Kernel
  import opened Text
  import opened Hex
  import opened Dates
  import opened JsonDoc
  import opened BundleRecords
  import opened BundleReader
  import JsonReader
  import Profile

  const TEST_ALGORITHM := "hyperion-sha256-test-attestation-v1"
  const SIGNATURE_DOMAIN := "Hyperion certification bundle Ed25519 signature v1"

  type Bytes32 = b: seq<byte> | |b| == 32 witness seq(32, _ => 0)

  type Bytes64 = b: seq<byte> | |b| == 64 witness seq(64, _ => 0)

  /** SHA-256, and Ed25519 over 32-byte secrets and encoded public keys. */
  datatype Crypto = Crypto(
    sha256: seq<byte> -> Bytes32,
    publicKey: Bytes32 -> Bytes32,
    isKey: Bytes32 -> bool,
    sign: (Bytes32, seq<byte>) -> Bytes64,
    verify: (Bytes32, seq<byte>, Bytes64) -> bool)

  /** Every secret's public key is a key, and it verifies every signature made with the secret. */
  ghost predicate Correct(c: Crypto) {
    forall secret, message ::
      c.isKey(c.publicKey(secret)) && c.verify(c.publicKey(secret), message, c.sign(secret, message))
  }

  // ---------------------------------------------------------------- the signed message

  /** `bundle_signature_message`. */
  function SignatureMessage(signerId: string, fingerprint: string, payloadHash: Bytes32): seq<byte> {
    Utf8(SIGNATURE_DOMAIN) + [0] + Utf8(signerId) + [0] + Utf8(fingerprint) + [0] + payloadHash
  }

  predicate NulFree(s: string) {
    '\0' !in s
  }

  lemma CleanIsNulFree(s: string)
    requires CleanString(s)
    ensures NulFree(s)
  {
    assert IsControl('\0');
  }

  lemma MessageShape(signerId: string, fingerprint: string, payloadHash: Bytes32)
    ensures SignatureMessage(signerId, fingerprint, payloadHash)
         == Utf8(SIGNATURE_DOMAIN) + [0] + Utf8(signerId + "\0" + fingerprint) + ([0] + payloadHash)
  {
    hide Utf8;
    Utf8Concat(signerId, "\0");
    Utf8Concat(signerId + "\0", fingerprint);
    Utf8Nul();
    FiveParts(Utf8(SIGNATURE_DOMAIN) + [0], Utf8(signerId) + [0], Utf8(fingerprint), [0], payloadHash);
    Associative(Utf8(SIGNATURE_DOMAIN) + [0], Utf8(signerId), [0]);
  }

  lemma Utf8Nul()
    ensures Utf8("\0") == [0]
  {
    Utf8Ascii("\0");
  }

  lemma FiveParts<T>(a: seq<T>, b: seq<T>, c: seq<T>, d: seq<T>, e: seq<T>)
    ensures a + b + c + d + e == a + (b + c) + (d + e)
  {
  }

  /** Two signed messages are the same exactly for the same hash and the same NUL-joined names. */
  lemma SameMessage(signerId: string, fingerprint: string, hash: Bytes32, signerId': string, fingerprint': string, hash': Bytes32)
    ensures SignatureMessage(signerId, fingerprint, hash) == SignatureMessage(signerId', fingerprint', hash') <==>
      hash == hash' && signerId + "\0" + fingerprint == signerId' + "\0" + fingerprint'
  {
    hide Utf8, SignatureMessage;
    MessageShape(signerId, fingerprint, hash);
    MessageShape(signerId', fingerprint', hash');
    var domain := Utf8(SIGNATURE_DOMAIN) + [0];
    var names, names' := Utf8(signerId + "\0" + fingerprint), Utf8(signerId' + "\0" + fingerprint');
    var m, m' := domain + names + ([0] + hash), domain + names' + ([0] + hash');
    if m == m' {
      assert |names| == |names'|;
      assert names == m[|domain|..|domain| + |names|];
      assert names' == m'[|domain|..|domain| + |names'|];
      assert hash == m[|m| - 32..] && hash' == m'[|m'| - 32..];
      Utf8Injective(signerId + "\0" + fingerprint, signerId' + "\0" + fingerprint');
    }
  }

  /** Among names without NUL the message determines signer, fingerprint and hash. */
  lemma MessageIsInjective(
    signerId: string, fingerprint: string, hash: Bytes32, signerId': string, fingerprint': string, hash': Bytes32)
    requires NulFree(signerId) && NulFree(signerId')
    requires SignatureMessage(signerId, fingerprint, hash) == SignatureMessage(signerId', fingerprint', hash')
    ensures signerId == signerId' && fingerprint == fingerprint' && hash == hash'
  {
    hide SignatureMessage;
    SameMessage(signerId, fingerprint, hash, signerId', fingerprint', hash');
    var s, s' := signerId + "\0" + fingerprint, signerId' + "\0" + fingerprint';
    assert s[|signerId|] == '\0' && s'[|signerId'|] == '\0';
    assert forall i | 0 <= i < |signerId| :: s[i] == signerId[i] != '\0';
    assert forall i | 0 <= i < |signerId'| :: s'[i] == signerId'[i] != '\0';
    assert signerId == s[..|signerId|] && fingerprint == s[|signerId| + 1..];
    assert signerId' == s'[..|signerId'|] && fingerprint' == s'[|signerId'| + 1..];
  }

  /** A NUL can move the boundary between signer and fingerprint. */
  lemma NulMovesTheBoundary(hash: Bytes32)
    ensures SignatureMessage("a\0b", "c", hash) == SignatureMessage("a", "b\0c", hash)
  {
    hide SignatureMessage;
    SameMessage("a\0b", "c", hash, "a", "b\0c", hash);
  }

  /** Bundles parsed from any texts sign the same message only for the same signer, fingerprint and payload hash. */
  lemma ParsedBundlesAreFramed(input: seq<byte>, b: Bundle, input': seq<byte>, b': Bundle, hash: Bytes32, hash': Bytes32)
    requires ParseCertificationBundle(input) == Ok(b) && ParseCertificationBundle(input') == Ok(b')
    ensures
      var s, s' := b.signature, b'.signature;
      SignatureMessage(s.signerId, s.signingKeyFingerprint, hash)
        == SignatureMessage(s'.signerId, s'.signingKeyFingerprint, hash')
      <==> s.signerId == s'.signerId && s.signingKeyFingerprint == s'.signingKeyFingerprint && hash == hash'
  {
    hide SignatureMessage, CleanString;
    ParsedIsGood(input, b);
    ParsedIsGood(input', b');
    var s, s' := b.signature, b'.signature;
    CleanIsNulFree(s.signerId);
    CleanIsNulFree(s'.signerId);
    if SignatureMessage(s.signerId, s.signingKeyFingerprint, hash)
      == SignatureMessage(s'.signerId, s'.signingKeyFingerprint, hash') {
      MessageIsInjective(s.signerId, s.signingKeyFingerprint, hash, s'.signerId, s'.signingKeyFingerprint, hash');
    }
  }

  lemma ParsedIsGood(input: seq<byte>, b: Bundle)
    requires ParseCertificationBundle(input) == Ok(b)
    ensures GoodHead(b) && GoodPayload(b.payload) && GoodSignature(b.signature)
  {
    hide JsonReader.Parse, ParseBundleValue;
    BundleIff(JsonReader.Parse(input).value, b);
  }

  // ---------------------------------------------------------------- policy and signature

  datatype LoadPolicy = LoadPolicy(
    mode: Profile.BuildMode, installedRollbackCounter: u64, evaluationDate: EmvDate, trustAnchors: seq<TrustAnchor>)

  datatype VerificationStatus = TestingSelfAttested | TrustAnchorVerified

  datatype LoadedBundle = LoadedBundle(
    bundle: Bundle, profileSet: Profile.ProfileSet, bundleSha256: Bytes32, payloadSha256: Bytes32,
    schemeProfileSha256: Bytes32, vectorBundleSha256: Bytes32, verificationStatus: VerificationStatus)

  /** `validate_bundle_for_policy`. */
  function ValidateForPolicy(b: Bundle, policy: LoadPolicy): Outcome {
    if policy.evaluationDate.Before(b.created) then Fail(InvalidProfile)
    else if b.rollbackCounter <= policy.installedRollbackCounter then Fail(InvalidProfile)
    else match policy.mode
      case Test => Pass
      case _ => Check(b.bundleClass == Certification && policy.trustAnchors != [], InvalidProfile)
  }

  predicate Matches(anchor: TrustAnchor, s: BundleSignature) {
    anchor.signerId == s.signerId && anchor.signingKeyFingerprint == s.signingKeyFingerprint
  }

  /** `iter().find(..)`: the first anchor with the signature's signer and fingerprint. */
  function FindAnchor(anchors: seq<TrustAnchor>, s: BundleSignature): (r: Option<TrustAnchor>)
  {
    if anchors == [] then None
    else if Matches(anchors[0], s) then Some(anchors[0])
    else
      FindAnchor(anchors[1..], s)
  }

  /** The answer of `FindAnchor` is the first match, and there is one unless nothing matches. */
  lemma {:induction false} FindsTheFirst(anchors: seq<TrustAnchor>, s: BundleSignature)
    ensures FindAnchor(anchors, s).None? <==> forall i | 0 <= i < |anchors| :: !Matches(anchors[i], s)
    ensures FindAnchor(anchors, s).Some? ==> exists i | 0 <= i < |anchors| ::
      FindAnchor(anchors, s).value == anchors[i] && IsFirstMatch(anchors, s, i)
  {
    if anchors != [] && !Matches(anchors[0], s) {
      var rest := anchors[1..];
      FindsTheFirst(rest, s);
      assert forall i | 1 <= i < |anchors| :: anchors[i] == rest[i - 1];
      if FindAnchor(rest, s).Some? {
        var i :| 0 <= i < |rest| && FindAnchor(rest, s).value == rest[i] && IsFirstMatch(rest, s, i);
        assert IsFirstMatch(anchors, s, i + 1);
      }
    } else if anchors != [] {
      assert IsFirstMatch(anchors, s, 0);
    }
  }

  predicate IsFirstMatch(anchors: seq<TrustAnchor>, s: BundleSignature, i: nat)
    requires i < |anchors|
  {
    Matches(anchors[i], s) && forall k | 0 <= k < i :: !Matches(anchors[k], s)
  }

  /** Hexadecimal text of exactly `n` bytes, as `try_into` demands. */
  function DecodeExactly(text: string, n: nat): (r: Result<seq<byte>>)
    ensures r.Ok? ==> |r.value| == n && DecodeHex(text) == r
    ensures r.Err? ==> ValidateHexLen(text, n).Fail?
  {
    var bytes :- DecodeHex(text);
    if |bytes| == n then Ok(bytes) else Err(InvalidProfile)
  }

  function IsExpired(anchor: TrustAnchor, today: EmvDate): bool {
    anchor.notAfter.Some? && anchor.notAfter.value.Before(today)
  }

  /** The part of `verify_bundle_signature` that follows the choice of an anchor. */
  function VerifyWithAnchor(c: Crypto, s: BundleSignature, payloadHash: Bytes32, anchor: TrustAnchor, today: EmvDate)
    : Result<VerificationStatus>
  {
    if IsExpired(anchor, today) then Err(InvalidProfile)
    else if anchor.allowedPayloadSha256 != ToHex(payloadHash) then Err(InvalidProfile)
    else
      var key :- DecodeExactly(anchor.verificationPublicKeyHex, 32);
      :- Check(c.isKey(key), InvalidProfile);
      :- Check(ToHex(c.sha256(key)) == s.signingKeyFingerprint, InvalidProfile);
      var signature :- DecodeExactly(s.signatureHex, 64);
      :- Check(c.verify(key, SignatureMessage(s.signerId, s.signingKeyFingerprint, payloadHash), signature), InvalidProfile);
      Ok(TrustAnchorVerified)
  }

  /** `verify_bundle_signature`. */
  function VerifyBundleSignature(c: Crypto, b: Bundle, payloadHash: Bytes32, policy: LoadPolicy): Result<VerificationStatus> {
    var s := b.signature;
    if s.algorithm == TEST_ALGORITHM && b.bundleClass == Testing && policy.mode == Profile.Test then
      match ValidateHexLen(s.signatureHex, 32)
      case Fail(e) => Err(e)
      case Pass => Ok(TestingSelfAttested)
    else if s.algorithm != SIGNATURE_ALGORITHM then Err(InvalidProfile)
    else match FindAnchor(policy.trustAnchors, s)
      case None => Err(InvalidProfile)
      case Some(anchor) => VerifyWithAnchor(c, s, payloadHash, anchor, policy.evaluationDate)
  }

  // ---------------------------------------------------------------- the loader

  /** The policy the embedded profile set is loaded under. */
  function ProfilePolicy(b: Bundle, status: VerificationStatus, policy: LoadPolicy): Profile.ConfigLoadPolicy {
    Profile.ConfigLoadPolicy(
      if b.bundleClass == Testing then Profile.Test else policy.mode,
      if status == TestingSelfAttested then Profile.NotPresent else Profile.Verified,
      policy.installedRollbackCounter, b.rollbackCounter, policy.evaluationDate)
  }

  function PayloadHash(c: Crypto, p: Payload): Bytes32 {
    c.sha256(DocText(PayloadDoc(p)))
  }

  /** `load_certification_bundle` after parsing. */
  function LoadParsed(c: Crypto, bundleHash: Bytes32, b: Bundle, policy: LoadPolicy): Result<LoadedBundle> {
    hide Profile.LoadProfileSet, VerifyBundleSignature, ValidateForPolicy;
    var allowed := ValidateForPolicy(b, policy);
    :- allowed;
    var payloadHash := PayloadHash(c, b.payload);
    :- Check(b.signature.payloadSha256 == ToHex(payloadHash), InvalidProfile);
    var status :- VerifyBundleSignature(c, b, payloadHash, policy);
    var profileSet :- Profile.LoadProfileSet(Utf8(b.payload.schemeProfileSetJson), ProfilePolicy(b, status, policy));
    Ok(LoadedBundle(b, profileSet, bundleHash, payloadHash,
      c.sha256(Utf8(b.payload.schemeProfileSetJson)), c.sha256(Utf8(b.payload.vectorBundleJson)), status))
  }

  /** `load_certification_bundle`. */
  function LoadCertificationBundle(c: Crypto, json: seq<byte>, policy: LoadPolicy): Result<LoadedBundle> {
    hide ParseCertificationBundle, LoadParsed;
    var sized := json != [] && |json| <= MAX_CERTIFICATION_BUNDLE_BYTES;
    :- Check(sized, LengthOverflow);
    var b :- ParseCertificationBundle(json);
    LoadParsed(c, c.sha256(json), b, policy)
  }

  /** The first anchor for a signature's signer and fingerprint vouches for a payload: unexpired, pinned, and verifying. */
  ghost predicate Vouches(c: Crypto, anchor: TrustAnchor, s: BundleSignature, payloadHash: Bytes32, policy: LoadPolicy) {
    && FindAnchor(policy.trustAnchors, s) == Some(anchor)
    && !IsExpired(anchor, policy.evaluationDate)
    && anchor.allowedPayloadSha256 == ToHex(payloadHash)
    && exists key: Bytes32, signature: Bytes64 ::
         && DecodeHex(anchor.verificationPublicKeyHex) == Ok(key) && c.isKey(key)
         && ToHex(c.sha256(key)) == s.signingKeyFingerprint
         && DecodeHex(s.signatureHex) == Ok(signature)
         && c.verify(key, SignatureMessage(s.signerId, s.signingKeyFingerprint, payloadHash), signature)
  }

  /** When the signature check passes, and what each answer means. */
  lemma SignatureVerdict(c: Crypto, b: Bundle, payloadHash: Bytes32, policy: LoadPolicy)
    ensures
      var self := b.signature.algorithm == TEST_ALGORITHM && b.bundleClass == Testing && policy.mode == Profile.Test;
      var r := VerifyBundleSignature(c, b, payloadHash, policy);
      && (r == Ok(TestingSelfAttested) <==> self && ValidateHexLen(b.signature.signatureHex, 32).Pass?)
      && (r == Ok(TrustAnchorVerified) <==>
            !self && b.signature.algorithm == SIGNATURE_ALGORITHM
            && exists anchor :: Vouches(c, anchor, b.signature, payloadHash, policy))
  {
    hide FindAnchor, SignatureMessage, ToHex, DecodeHex, IsExpired;
    var s := b.signature;
    var found := FindAnchor(policy.trustAnchors, s);
    if found.Some? {
      var r := VerifyWithAnchor(c, s, payloadHash, found.value, policy.evaluationDate);
      assert r == Ok(TrustAnchorVerified) <==> Vouches(c, found.value, s, payloadHash, policy);
    }
  }

  /** The signature that was checked was made over the parsed payload's own canonical text. */
  ghost predicate Authentic(c: Crypto, l: LoadedBundle, policy: LoadPolicy) {
    && l.payloadSha256 == PayloadHash(c, l.bundle.payload)
    && l.bundle.signature.payloadSha256 == ToHex(l.payloadSha256)
    && (l.verificationStatus == TrustAnchorVerified ==>
          && l.bundle.signature.algorithm == SIGNATURE_ALGORITHM
          && exists anchor :: Vouches(c, anchor, l.bundle.signature, l.payloadSha256, policy))
    && (l.verificationStatus == TestingSelfAttested ==>
          policy.mode == Profile.Test && l.bundle.bundleClass == Testing && l.bundle.signature.algorithm == TEST_ALGORITHM)
  }

  /** Each check the loader makes after parsing, and no other, decides what it returns. */
  lemma LoadParsedIff(c: Crypto, bundleHash: Bytes32, b: Bundle, policy: LoadPolicy, l: LoadedBundle)
    ensures LoadParsed(c, bundleHash, b, policy) == Ok(l) <==>
      (&& ValidateForPolicy(b, policy).Pass?
       && b.signature.payloadSha256 == ToHex(PayloadHash(c, b.payload))
       && VerifyBundleSignature(c, b, PayloadHash(c, b.payload), policy) == Ok(l.verificationStatus)
       && Profile.LoadProfileSet(Utf8(b.payload.schemeProfileSetJson), ProfilePolicy(b, l.verificationStatus, policy))
          == Ok(l.profileSet)
       && l.bundle == b && l.bundleSha256 == bundleHash && l.payloadSha256 == PayloadHash(c, b.payload)
       && l.schemeProfileSha256 == c.sha256(Utf8(b.payload.schemeProfileSetJson))
       && l.vectorBundleSha256 == c.sha256(Utf8(b.payload.vectorBundleJson)))
  {
    hide Profile.LoadProfileSet, VerifyBundleSignature, ValidateForPolicy, ToHex, PayloadHash, ProfilePolicy;
  }

  /**
   What every accepted load guarantees: the text parses to the loaded bundle, which is not from the future and newer than
   what is installed; its signature covers its payload; outside test mode it is of certification class and an unexpired
   anchor pinned to this payload vouches for it; and the profile set that goes live carries the bundle's counter.
   */
  lemma AcceptedLoad(c: Crypto, json: seq<byte>, policy: LoadPolicy, l: LoadedBundle)
    requires LoadCertificationBundle(c, json, policy) == Ok(l)
    ensures ParseCertificationBundle(json) == Ok(l.bundle)
    ensures !policy.evaluationDate.Before(l.bundle.created)
    ensures policy.installedRollbackCounter < l.bundle.rollbackCounter == l.profileSet.version
    ensures Authentic(c, l, policy)
    ensures policy.mode != Profile.Test ==>
      && l.bundle.bundleClass == Certification && l.verificationStatus == TrustAnchorVerified
      && l.profileSet.profileClass == Profile.CertificationClass
  {
    hide ParseCertificationBundle, Profile.LoadProfileSet, VerifyBundleSignature, ToHex, PayloadHash, LoadParsed,
      Vouches, ValidateHexLen;
    var b := l.bundle;
    var bundle := ParseCertificationBundle(json).value;
    LoadParsedIff(c, c.sha256(json), bundle, policy, l);
    SignatureVerdict(c, b, l.payloadSha256, policy);
    Profile.LoadedLocally(
      Utf8(b.payload.schemeProfileSetJson), ProfilePolicy(b, l.verificationStatus, policy), l.profileSet);
  }
}
