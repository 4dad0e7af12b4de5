/** The words and counts the compile report looks for (src/cert_bundle.rs), said without the searches it shares. */
module CompileRules {
  import opened Kernel
  import opened Text
  import opened JsonSyntax
  import opened JsonFields
  import opened TextFacts
  import opened ProfileFields
  import opened BundleRecords
  import opened CompileReport
  import JsonReader
  import Profile

  /** The text holds the word in some mixture of letter cases. */
  ghost predicate Mentions(text: string, word: string) {
    exists a: string, w: string, b: string :: text == a + (w + b) && AsciiLower(w) == word
  }

  lemma LowerConcat(a: string, b: string)
    ensures AsciiLower(a + b) == AsciiLower(a) + AsciiLower(b)
  {
  }

  lemma MentionsIff(text: string, word: string)
    ensures Contains(AsciiLower(text), word) <==> Mentions(text, word)
  {
    hide AsciiLowerChar;
    var lower := AsciiLower(text);
    if Contains(lower, word) {
      var i :| 0 <= i <= |lower| && OccursAt(lower, word, i);
      var a, w, b := text[..i], text[i..i + |word|], text[i + |word|..];
      assert AsciiLower(w) == lower[i..i + |word|] == word;
      assert text == a + (w + b);
    }
    forall a: string, w: string, b: string | text == a + (w + b) && AsciiLower(w) == word
      ensures Contains(lower, word)
    {
      LowerConcat(a, w + b);
      LowerConcat(w, b);
      ContainsIff(lower, word);
    }
  }

  /** A reference is pending when it mentions pending, external or required evidence. */
  lemma PendingIff(text: string)
    ensures IsPending(text) <==> Mentions(text, "pending") || Mentions(text, "external-") || Mentions(text, "required")
  {
    hide Contains, AsciiLower, Mentions;
    MentionsIff(text, "pending");
    MentionsIff(text, "external-");
    MentionsIff(text, "required");
  }

  /** A bundle masks its traces when its policy mentions masking. */
  lemma MaskingIff(b: Bundle)
    ensures MasksTraces(b) <==> Mentions(b.payload.runtimePolicy.traceMaskingPolicy, "mask")
  {
    hide Contains, AsciiLower, Mentions;
    MentionsIff(b.payload.runtimePolicy.traceMaskingPolicy, "mask");
  }

  /** An array with at least one item. */
  predicate HasItems(o: Fields, key: string) {
    key in o && o[key].JsonArray? && o[key].items != []
  }

  /** Vectors that are not provisional: of certification class, with a case, and covering the three card authentications. */
  ghost predicate AreCertificationVectors(o: Fields, json: string) {
    && HoldsString(o, "vector_class", "CERTIFICATION")
    && !Mentions(json, "fixture") && !Mentions(json, "pending") && !Mentions(json, "placeholder")
    && (HasItems(o, "cases") || HasItems(o, "test_vectors"))
    && Mentions(json, "sda") && Mentions(json, "dda") && Mentions(json, "cda")
  }

  /** Vectors are incomplete unless they are an object naming its class, and covered exactly when they are certification vectors. */
  lemma VectorsIff(json: string)
    ensures VectorStatus(json) == Incomplete <==>
      !exists o, text :: JsonReader.Parse(Utf8(json)) == Ok(JsonObject(o)) && HoldsString(o, "vector_class", text)
    ensures VectorStatus(json) == Covered <==>
      exists o :: JsonReader.Parse(Utf8(json)) == Ok(JsonObject(o)) && AreCertificationVectors(o, json)
  {
    hide JsonReader.Parse, Contains, AsciiLower, Mentions;
    MentionsIff(json, "fixture");
    MentionsIff(json, "pending");
    MentionsIff(json, "placeholder");
    MentionsIff(json, "sda");
    MentionsIff(json, "dda");
    MentionsIff(json, "cda");
    var root := JsonReader.Parse(Utf8(json));
    if root.Ok? && root.value.JsonObject? && RequiredString(root.value.fields, "vector_class").Ok? {
      assert HoldsString(root.value.fields, "vector_class", RequiredString(root.value.fields, "vector_class").value);
    }
  }

  /** Some AID of the set limits what may be done offline. */
  lemma RiskIff(ps: Profile.ProfileSet)
    ensures SomeAid(ps, (a: Profile.AidProfile) => ManagesRisk(a)) <==>
      exists i, k :: 0 <= i < |ps.schemes| && 0 <= k < |ps.schemes[i].aids| &&
        var a := ps.schemes[i].aids[k];
        || a.floorLimit >= 1 || a.randomSelectionPercent >= 1 || |a.transactionTypeFloorLimits| >= 1
        || a.lowerConsecutiveOfflineLimit.Some? || a.upperConsecutiveOfflineLimit.Some?
  {
  }

  /** Some scheme of the set, wherever it stands, meets a condition. */
  lemma SchemeIff(ps: Profile.ProfileSet, test: Profile.SchemeProfile -> bool)
    ensures SomeScheme(ps, test) <==> exists s :: s in ps.schemes && test(s)
  {
  }

  /** A bundle binds an artifact when one of its bindings, wherever it stands, names it. */
  lemma BindingIff(b: Bundle, id: string)
    ensures BindsArtifact(b, id) <==> exists a :: a in b.payload.artifactHashes && a.artifactId == id
  {
  }

  /** When the loader refuses, four capabilities are reported, and trust is not among those covered. */
  lemma PartialCoverage(b: Bundle)
    ensures
      var items := PayloadCoverage(b);
      var interfaces := b.payload.submissionScope.interfaces;
      && |items| == 4 && items[0] == Coverage(Selection, Covered) && items[3] == Coverage(SecurityTrust, Incomplete)
      && items[1] == Coverage(ContactL2, if exists i :: 0 <= i < |interfaces| && interfaces[i] == "contact" then Covered else Incomplete)
      && (Coverage(ContactlessC8, Covered) in items <==>
            "contactless" in interfaces && exists k :: k in b.payload.kernelRegistry && k.iface == "contactless")
  {
  }
}
