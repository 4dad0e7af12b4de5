/** The premises of the end-to-end theorem can be met: a small input from which a bundle is created. */
module BundleWitness {
  import opened Kernel
  import opened Text
  import opened Hex
  import opened Dates
  import opened JsonSyntax
  import opened JsonDoc
  import opened BundleRecords
  import opened BundleReader
  import opened BundleTrust
  import opened BundleProvision
  import opened CleanText
  import opened CreatedRecords
  import JsonReader

  function SmallInput(secret: Bytes32): ProvisioningInput {
    ProvisioningInput("a", 1, 1, Testing, EmvDate(26, 5, 25),
      "a", "a", "a", "contact", "a", "a", "a", "a", "", "a", "a", "a", "a", "a", "a", "contact", "a", "a", "a", "a", "a",
      Some(ToHex(secret)), None, None, "0", "0")
  }

  const SMALL_LISTS := InputLists(["contact"], ["a"], ["a"], [], ["a"])

  lemma Words()
    ensures Printable("a") && Printable("contact") && IsIdentifier("a")
    ensures IsCsvItem("a") && IsCsvItem("contact")
  {
    hide CleanString;
    HarmlessWord("a");
    HarmlessWord("contact");
    HarmlessIsPrintable("a");
    HarmlessIsPrintable("contact");
    NothingToTrim("a");
    NothingToTrim("contact");
  }

  lemma Lists(secret: Bytes32)
    ensures CsvItems("a") == ["a"] && CsvItems("contact") == ["contact"] && CsvItems("") == []
    ensures ListsOf(SmallInput(secret)) == Ok(SMALL_LISTS)
  {
    hide CsvItems, IsCsvItem, ToHex, Printable, IsIdentifier;
    Words();
    CsvRoundTrip(["a"]);
    CsvRoundTrip(["contact"]);
    CsvRoundTrip([]);
  }

  lemma ZeroParses()
    ensures |Utf8("0")| == 1 && JsonReader.Parse(Utf8("0")).Ok?
  {
    hide JsonReader.Parse;
    Utf8Ascii("0");
    var d, none: Ws := DocNumber(0), [];
    assert Utf8("0") == [0x30] == none + (DocText(d) + none);
    DocRoundTrip(none, d, none);
  }

  lemma ArtifactIdsAreIdentifiers()
    ensures IsIdentifier(PROFILE_ARTIFACT) && IsIdentifier(VECTOR_ARTIFACT)
  {
    hide CleanString;
    LongTexts();
  }

  lemma ArtifactsPass(c: Crypto, input: ProvisioningInput)
    ensures CheckArtifacts([ProfileArtifact(c, input), VectorArtifact(c, input)]).Ok?
  {
    hide ValidateHexLen, IsIdentifier, ToHex;
    ArtifactIdsAreIdentifiers();
    IssuesAreDistinct();
    HexRoundTrip(c.sha256(Utf8(input.schemeProfileSetJson)));
    HexRoundTrip(c.sha256(Utf8(input.vectorBundleJson)));
    var first, second := ProfileArtifact(c, input), VectorArtifact(c, input);
    assert [first, second][1..] == [second] && [second][1..] == [];
    assert CheckArtifacts([second]).Ok?;
  }

  lemma KernelsPass(c: Crypto, secret: Bytes32)
    ensures CheckKernelEntries([KernelOf(SmallInput(secret), SMALL_LISTS)]).Ok?
  {
    hide IsIdentifier, ToHex, Printable;
    Words();
    NothingToTrim("a");
    var k := KernelOf(SmallInput(secret), SMALL_LISTS);
    assert [k][1..] == [];
  }

  lemma PayloadPasses(c: Crypto, secret: Bytes32)
    ensures ValidatePayload(PayloadOf(c, SmallInput(secret), SMALL_LISTS)).Ok?
  {
    hide JsonReader.Parse, CheckArtifacts, CheckKernelEntries, ProfileArtifact, VectorArtifact, KernelOf, BaselineCvm,
      TestCaseOf, ToHex, Utf8;
    ZeroParses();
    ArtifactsPass(c, SmallInput(secret));
    KernelsPass(c, secret);
    assert "contactless" != "contact" by { assert |"contactless"| != |"contact"|; }
  }

  lemma SmallInputIsPrintable(secret: Bytes32)
    ensures PrintableInput(SmallInput(secret))
  {
    hide Printable, CsvItems, ToHex;
    Words();
    Lists(secret);
  }

  lemma SmallInputPasses(secret: Bytes32)
    ensures IsIdentifier(SmallInput(secret).bundleId) && GoodTimeouts(TimeoutsOf(SmallInput(secret)))
    ensures ValidateHexLen(SecretHex(SmallInput(secret)), 32).Pass?
  {
    hide ValidateHexLen, ToHex, IsIdentifier, IsCsvItem, Printable;
    Words();
    HexRoundTrip(secret);
  }

  /** A bundle is created from the small input, whatever the cryptography and the secret. */
  lemma PremisesCanBeMet(c: Crypto, secret: Bytes32)
    ensures PrintableInput(SmallInput(secret))
    ensures CreateBundle(c, SmallInput(secret)).Ok?
  {
    hide PrintableInput, SmallInput, CsvItems, CreateBundle, ListsOf, ValidatePayload, PayloadOf, IsIdentifier,
      ValidateHexLen,
      GoodTimeouts;
    SmallInputIsPrintable(secret);
    SmallInputPasses(secret);
    Lists(secret);
    PayloadPasses(c, secret);
    CreateIff(c, SmallInput(secret));
  }

  /** Some signature scheme is correct. */
  lemma SomeCryptoIsCorrect()
    ensures exists c: Crypto :: Correct(c)
  {
    var digest: Bytes32 := seq(32, _ => 0);
    var signature: Bytes64 := seq(64, _ => 0);
    var c := Crypto((m: seq<byte>) => digest, (k: Bytes32) => k, (k: Bytes32) => true,
      (k: Bytes32, m: seq<byte>) => signature, (k: Bytes32, m: seq<byte>, s: Bytes64) => true);
    assert Correct(c);
  }
}
