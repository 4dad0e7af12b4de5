/** Exactly which CAPKs, schemes and whole documents `load_profile_set` (src/config.rs) admits, and as what. */
module ProfileSetReader {
  import opened Kernel
  import opened Text
  import opened Hex
  import opened Dates
  import opened JsonSyntax
  import opened JsonFields
  import opened TextFacts
  import opened Profile
  import opened ProfileFields
  import opened ProfileReader
  import JsonReader
  import Sha1Arithmetic
  import Sha1Spec

  // ---------------------------------------------------------------- sources

  /** A field holding a date in its printed form. */
  predicate HoldsDate(o: Fields, key: string, date: EmvDate) {
    IsIsoDate(date) && HoldsString(o, key, FormatDate(date))
  }

  /** What only a certification profile demands of a source. */
  predicate IsCertifiedSource(s: ProfileSource, today: EmvDate) {
    && !IsPlaceholder(s.owner) && !IsPlaceholder(s.document) && !IsPlaceholder(s.version)
    && s.owner != "" && IsTrimmed(s.owner) && s.document != "" && IsTrimmed(s.document)
    && s.version != "" && IsTrimmed(s.version)
    && s.retrieved.Some? && !today.Before(s.retrieved.value)
    && s.verification == "external_signature_required" && !IsPlaceholder(s.verification)
  }

  predicate IsSource(o: Fields, class_: ProfileClass, today: EmvDate, s: ProfileSource) {
    && OnlyKeys(o, ["owner", "document", "version", "retrieved", "verification"])
    && HoldsString(o, "owner", s.owner) && HoldsString(o, "document", s.document) && HoldsString(o, "version", s.version)
    && (match s.retrieved
        case None => "retrieved" !in o
        case Some(date) => HoldsDate(o, "retrieved", date))
    && HoldsString(o, "verification", s.verification)
    && (class_ == CertificationClass ==> IsCertifiedSource(s, today))
  }

  /** Only an example profile in test mode may leave its source out. */
  predicate HoldsSource(
    o: Fields, key: string, owner: string, class_: ProfileClass, mode: BuildMode, today: EmvDate, s: ProfileSource)
  {
    if key in o then o[key].JsonObject? && IsSource(o[key].fields, class_, today, s)
    else
      && mode == Test && class_ == ExampleOnly
      && s == ProfileSource(owner, "inline_test_fixture", "0", None, "test_only")
  }

  /** A printed date is neither blank nor a placeholder. */
  lemma DatesAreReal(d: EmvDate)
    requires IsIsoDate(d)
    ensures !IsPlaceholder(FormatDate(d)) && !IsBlank(FormatDate(d))
  {
    var s := FormatDate(d);
    DateCharacters(d);
    var upper := AsciiUpper(s);
    assert forall i | 0 <= i < |upper| :: upper[i] == s[i] && upper[i] < 'A' && upper[i] != '.';
    FirstLetter(upper, "...");
    FirstLetter(upper, "PLACEHOLDER");
    FirstLetter(upper, "EXAMPLE_NOT");
    FirstLetter(upper, "DUMMY");
    FirstLetter(upper, "TEST_ONLY");
    BlankIff(s);
    assert !IsWhitespace(s[0]);
  }

  lemma DateCharacters(d: EmvDate)
    requires IsIsoDate(d)
    ensures |FormatDate(d)| == 10
    ensures forall i | 0 <= i < 10 :: FormatDate(d)[i] == '-' || '0' <= FormatDate(d)[i] <= '9'
  {
    DaysBelow(d.year, d.month);
  }

  /** A string that contains a word contains its first letter. */
  lemma FirstLetter(s: string, word: string)
    requires word != ""
    ensures Contains(s, word) ==> word[0] in s
  {
    if Contains(s, word) {
      var i :| 0 <= i <= |s| && OccursAt(s, word, i);
      assert s[i..i + |word|][0] == s[i];
    }
  }

  lemma RetrievedIff(o: Fields, retrieved: Option<EmvDate>)
    ensures OptionalRetrievedDate(o) == Ok(retrieved) <==>
      match retrieved
      case None => "retrieved" !in o
      case Some(date) => HoldsDate(o, "retrieved", date)
  {
    hide RejectPlaceholder, IsPlaceholder, IsBlank, ParseIsoDate, FormatDate, IsIsoDate;
    if "retrieved" in o && o["retrieved"].JsonString? {
      var text := o["retrieved"].text;
      PlaceholderIff(text);
      if retrieved.Some? {
        IsoDateText(text, retrieved.value);
        if IsIsoDate(retrieved.value) {
          DatesAreReal(retrieved.value);
        }
      }
    }
  }

  lemma UntrimmedIff(text: string)
    ensures RejectUntrimmedOrBlank(text).Pass? <==> text != "" && IsTrimmed(text)
  {
    hide Trim, IsWhitespace;
    TrimKeepsLength(text);
    var a, b := TrimSplits(text);
  }

  lemma SourceObjectIff(o: Fields, class_: ProfileClass, today: EmvDate, s: ProfileSource)
    ensures ParseSourceObject(o, class_, today) == Ok(s) <==> IsSource(o, class_, today, s)
  {
    hide RejectUnknownFields, OnlyKeys, RequiredString, HoldsString, OptionalRetrievedDate, HoldsDate, RejectPlaceholder,
      IsPlaceholder, RejectUntrimmedOrBlank, IsTrimmed;
    UnknownFieldsIff(o, ["owner", "document", "version", "retrieved", "verification"]);
    StringIff(o, "owner", s.owner);
    StringIff(o, "document", s.document);
    StringIff(o, "version", s.version);
    RetrievedIff(o, s.retrieved);
    StringIff(o, "verification", s.verification);
    PlaceholderIff(s.owner);
    PlaceholderIff(s.document);
    PlaceholderIff(s.version);
    PlaceholderIff(s.verification);
    UntrimmedIff(s.owner);
    UntrimmedIff(s.document);
    UntrimmedIff(s.version);
  }

  lemma SourceIff(
    o: Fields, key: string, owner: string, class_: ProfileClass, mode: BuildMode, today: EmvDate, s: ProfileSource)
    ensures SourceOrDefault(o, key, owner, class_, mode, today) == Ok(s)
      <==> HoldsSource(o, key, owner, class_, mode, today, s)
  {
    hide ParseSourceObject, IsSource;
    if key in o && o[key].JsonObject? {
      SourceObjectIff(o[key].fields, class_, today, s);
    }
  }

  // ---------------------------------------------------------------- CAPKs

  /** An RSA modulus of 64 to 256 bytes and an odd exponent of at most three, neither with a leading zero or a filler. */
  predicate IsRsaKey(modulus: seq<byte>, exponent: seq<byte>) {
    && 64 <= |modulus| <= 256 && modulus[0] != 0 && IsReal(modulus)
    && 1 <= |exponent| <= 3 && exponent[0] != 0 && IsReal(exponent)
    && Sha1Arithmetic.BytesNumber(exponent) >= 3 && Sha1Arithmetic.BytesNumber(exponent) % 2 == 1
  }

  lemma {:induction false} ExponentNumber(exponent: seq<byte>)
    ensures ExponentValue(exponent) == Sha1Arithmetic.BytesNumber(exponent)
  {
    if exponent != [] {
      ExponentNumber(exponent[..|exponent| - 1]);
    }
  }

  lemma RsaKeyIff(modulus: seq<byte>, exponent: seq<byte>)
    ensures ValidKeyComponents(modulus, exponent) <==> IsRsaKey(modulus, exponent)
  {
    hide IsDummy, IsReal, ExponentValue, Sha1Arithmetic.BytesNumber;
    DummyIff(modulus);
    DummyIff(exponent);
    ExponentNumber(exponent);
  }

  /** What only a certification profile demands of a CAPK: its checksum is the SHA-1 of its own components. */
  ghost predicate IsChecksummed(o: Fields, k: Capk) {
    && HoldsString(o, "checksum_algorithm", "sha1(rid || key_index || modulus || exponent)")
    && HoldsArray(o, "checksum_scope",
      [JsonString("rid"), JsonString("key_index"), JsonString("modulus_hex"), JsonString("exponent_hex")])
    && k.checksum == Sha1Spec.Digest(k.rid + [k.keyIndex] + k.modulus + k.exponent)
  }

  const CAPK_FIELDS: seq<string> := ["key_index", "modulus_hex", "exponent_hex", "expiry", "checksum_hex",
    "checksum_algorithm", "checksum_scope", "source"]

  /** The object denotes the CAPK of the scheme with this RID. */
  ghost predicate IsCapk(v: JsonValue, rid: seq<byte>, today: EmvDate, class_: ProfileClass, mode: BuildMode, k: Capk) {
    && v.JsonObject? && OnlyKeys(v.fields, CAPK_FIELDS)
    && k.rid == rid
    && HoldsNumber(v.fields, "key_index", k.keyIndex)
    && HoldsHex(v.fields, "modulus_hex", k.modulus) && HoldsHex(v.fields, "exponent_hex", k.exponent)
    && IsRsaKey(k.modulus, k.exponent)
    && HoldsHex(v.fields, "checksum_hex", k.checksum) && |k.checksum| >= 16 && IsReal(k.checksum)
    && (class_ == CertificationClass ==> IsChecksummed(v.fields, k))
    && HoldsDate(v.fields, "expiry", k.expiry) && !k.expiry.Before(today)
    && HoldsSource(v.fields, "source", "unspecified_test_capk", class_, mode, today, k.source)
  }

  lemma {:induction false} MatchInOrderIff(actual: seq<JsonValue>, expected: seq<string>)
    requires |actual| == |expected|
    ensures MatchInOrder(actual, expected).Ok? <==> forall i | 0 <= i < |expected| :: actual[i] == JsonString(expected[i])
  {
    if actual != [] {
      MatchInOrderIff(actual[1..], expected[1..]);
      assert forall i | 1 <= i < |actual| :: actual[i] == actual[1..][i - 1] && expected[i] == expected[1..][i - 1];
    }
  }

  lemma MetadataIff(o: Fields)
    ensures ValidateChecksumMetadata(o).Ok? <==>
      && HoldsString(o, "checksum_algorithm", "sha1(rid || key_index || modulus || exponent)")
      && HoldsArray(o, "checksum_scope",
        [JsonString("rid"), JsonString("key_index"), JsonString("modulus_hex"), JsonString("exponent_hex")])
  {
    hide MatchInOrder;
    var names := [JsonString("rid"), JsonString("key_index"), JsonString("modulus_hex"), JsonString("exponent_hex")];
    if "checksum_scope" in o && o["checksum_scope"].JsonArray? {
      var items := o["checksum_scope"].items;
      if |items| == 4 {
        MatchInOrderIff(items, CAPK_CHECKSUM_SCOPE);
        assert (forall i | 0 <= i < 4 :: items[i] == JsonString(CAPK_CHECKSUM_SCOPE[i])) <==>
          items[0] == names[0] && items[1] == names[1] && items[2] == names[2] && items[3] == names[3];
        assert items == names <==>
          items[0] == names[0] && items[1] == names[1] && items[2] == names[2] && items[3] == names[3];
      }
    }
  }

  lemma ExpiryIff(o: Fields, date: EmvDate)
    ensures RequiredString(o, "expiry").Ok? && ParseIsoDate(RequiredString(o, "expiry").value) == Ok(date)
      <==> HoldsDate(o, "expiry", date)
  {
    hide ParseIsoDate, FormatDate, IsIsoDate;
    if RequiredString(o, "expiry").Ok? {
      IsoDateText(RequiredString(o, "expiry").value, date);
    }
  }

  lemma CapkFields(o: Fields)
    ensures RejectUnknownFields(o, ["key_index", "modulus_hex", "exponent_hex", "expiry", "checksum_hex",
      "checksum_algorithm", "checksum_scope", "source"]) == if OnlyKeys(o, CAPK_FIELDS) then Pass else Fail(InvalidProfile)
  {
    UnknownFieldsIff(o, CAPK_FIELDS);
  }

  /** A CAPK is read from exactly the objects that denote it. */
  lemma CapkIff(v: JsonValue, rid: seq<byte>, today: EmvDate, class_: ProfileClass, mode: BuildMode, k: Capk)
    ensures ParseCapk(v, rid, today, class_, mode) == Ok(k) <==> IsCapk(v, rid, today, class_, mode, k)
  {
    hide RejectUnknownFields, OnlyKeys, ByteNumber, HoldsNumber, HexField, HoldsHex, ValidKeyComponents, IsRsaKey,
      ValidateChecksumMetadata, HoldsString, HoldsArray, RequiredString, ParseIsoDate, HoldsDate, SourceOrDefault, HoldsSource,
      IsDummy, IsReal, Sha1Spec.Digest;
    if v.JsonObject? {
      var o := v.fields;
      CapkFields(o);
      ByteIff(o, "key_index", k.keyIndex);
      HexIff(o, "modulus_hex", k.modulus);
      HexIff(o, "exponent_hex", k.exponent);
      HexIff(o, "checksum_hex", k.checksum);
      RsaKeyIff(k.modulus, k.exponent);
      DummyIff(k.checksum);
      MetadataIff(o);
      ExpiryIff(o, k.expiry);
      SourceIff(o, "source", "unspecified_test_capk", class_, mode, today, k.source);
    }
  }

  // ---------------------------------------------------------------- schemes

  function ActionText(action: TerminalAction): string {
    match action
    case Aac => "AAC"
    case Tc => "TC"
    case Arqc => "ARQC"
  }

  /** The default actions: no online request where the terminal cannot go online, no decline where it can. */
  predicate HoldsTaa(o: Fields, taa: (TerminalAction, TerminalAction, TerminalAction)) {
    && HoldsString(o, "taa_fallback_when_offline_unable_online", ActionText(taa.0)) && (taa.0 == Aac || taa.0 == Tc)
    && HoldsString(o, "taa_no_match_default_when_online_capable", ActionText(taa.1)) && (taa.1 == Tc || taa.1 == Arqc)
    && HoldsString(o, "taa_no_match_default_when_offline_only", ActionText(taa.2)) && (taa.2 == Tc || taa.2 == Aac)
  }

  lemma ActionIff(text: string, action: TerminalAction)
    ensures ParseAction(text) == Ok(action) <==> text == ActionText(action)
  {
    assert |"AAC"| == 3 && |"TC"| == 2 && |"ARQC"| == 4;
  }

  lemma ActionFieldIff(o: Fields, key: string, action: TerminalAction)
    ensures RequiredString(o, key).Ok? && ParseAction(RequiredString(o, key).value) == Ok(action)
      <==> HoldsString(o, key, ActionText(action))
  {
    hide ParseAction, ActionText;
    if RequiredString(o, key).Ok? {
      ActionIff(RequiredString(o, key).value, action);
    }
  }

  lemma TaaIff(o: Fields, taa: (TerminalAction, TerminalAction, TerminalAction))
    ensures ParseTaa(o) == Ok(taa) <==> HoldsTaa(o, taa)
  {
    hide RequiredString, HoldsString, ParseAction, ActionText;
    ActionFieldIff(o, "taa_fallback_when_offline_unable_online", taa.0);
    ActionFieldIff(o, "taa_no_match_default_when_online_capable", taa.1);
    ActionFieldIff(o, "taa_no_match_default_when_offline_only", taa.2);
  }

  predicate HoldsContactKernel(o: Fields, contact: Option<string>) {
    match contact
    case None => "contact_kernel_type" !in o
    case Some(text) =>
      && HoldsString(o, "contact_kernel_type", text)
      && !IsPlaceholder(text) && !AllSpace(text) && text != "c8_contactless"
  }

  lemma ContactKernelIff(o: Fields, contact: Option<string>)
    ensures ParseContactKernelType(o) == Ok(contact) <==> HoldsContactKernel(o, contact)
  {
    hide RejectPlaceholder, IsPlaceholder, IsBlank, AllSpace;
    if "contact_kernel_type" in o && o["contact_kernel_type"].JsonString? {
      BlankIff(o["contact_kernel_type"].text);
      PlaceholderIff(o["contact_kernel_type"].text);
    }
  }

  /** Outside test examples a scheme that serves an interface names a kernel for it. */
  predicate HasKernels(s: SchemeProfile) {
    && !IsPlaceholder(s.kernelType) && !AllSpace(s.kernelType)
    && forall i, k | 0 <= i < |s.aids| && 0 <= k < |s.aids[i].interfaces| ::
         && (s.aids[i].interfaces[k] == "contactless" ==> s.kernelType == "c8_contactless")
         && (s.aids[i].interfaces[k] == "contact" ==> s.contactKernelType.Some?)
  }

  lemma KernelsIff(s: SchemeProfile, class_: ProfileClass, mode: BuildMode)
    ensures ValidateKernelMapping(s.kernelType, s.contactKernelType, s.aids, class_, mode).Pass?
      <==> (mode == Test && class_ == ExampleOnly) || HasKernels(s)
  {
    hide RejectPlaceholder, IsPlaceholder, IsBlank, AllSpace;
    PlaceholderIff(s.kernelType);
    BlankIff(s.kernelType);
    ServesIff(s.aids, "contactless");
    ServesIff(s.aids, "contact");
  }

  lemma ServesIff(aids: seq<AidProfile>, name: string)
    ensures ServesInterface(aids, name)
      <==> exists i, k :: 0 <= i < |aids| && 0 <= k < |aids[i].interfaces| && aids[i].interfaces[k] == name
  {
  }

  ghost predicate HoldsAids(o: Fields, rid: seq<byte>, aids: seq<AidProfile>) {
    && aids != []
    && (forall i, j | 0 <= i < j < |aids| :: aids[i].aid != aids[j].aid)
    && (forall i | 0 <= i < |aids| :: |aids[i].aid| >= |rid| && aids[i].aid[..|rid|] == rid)
    && "aids" in o && o["aids"].JsonArray? && |o["aids"].items| == |aids|
    && forall i | 0 <= i < |aids| :: IsAid(o["aids"].items[i], aids[i])
  }

  lemma AidsIff(o: Fields, rid: seq<byte>, aids: seq<AidProfile>)
    ensures ParseAids(o, rid) == Ok(aids) <==> HoldsAids(o, rid, aids)
  {
    hide ParseAid, IsAid, SoundAid;
    if "aids" in o && o["aids"].JsonArray? {
      var items := o["aids"].items;
      MapResultIs(ParseAid, items, aids);
      forall i | 0 <= i < |items| && i < |aids|
        ensures ParseAid(items[i]) == Ok(aids[i]) <==> IsAid(items[i], aids[i])
      {
        AidIff(items[i], aids[i]);
      }
    }
  }

  ghost predicate HoldsCapks(
    o: Fields, rid: seq<byte>, today: EmvDate, class_: ProfileClass, mode: BuildMode, capks: seq<Capk>)
  {
    && capks != []
    && (forall i, j | 0 <= i < j < |capks| :: (capks[i].rid, capks[i].keyIndex) != (capks[j].rid, capks[j].keyIndex))
    && "capks" in o && o["capks"].JsonArray? && |o["capks"].items| == |capks|
    && forall i | 0 <= i < |capks| :: IsCapk(o["capks"].items[i], rid, today, class_, mode, capks[i])
  }

  lemma CapksIff(o: Fields, rid: seq<byte>, today: EmvDate, class_: ProfileClass, mode: BuildMode, capks: seq<Capk>)
    ensures ParseCapks(o, rid, today, class_, mode) == Ok(capks) <==> HoldsCapks(o, rid, today, class_, mode, capks)
  {
    hide ParseCapk, IsCapk, SoundCapk;
    if "capks" in o && o["capks"].JsonArray? {
      var items := o["capks"].items;
      MapResultIs(v => ParseCapk(v, rid, today, class_, mode), items, capks);
      forall i | 0 <= i < |items| && i < |capks|
        ensures ParseCapk(items[i], rid, today, class_, mode) == Ok(capks[i])
          <==> IsCapk(items[i], rid, today, class_, mode, capks[i])
      {
        CapkIff(items[i], rid, today, class_, mode, capks[i]);
      }
    }
  }

  const SCHEME_FIELDS: seq<string> := ["scheme_name", "rid", "kernel_type", "contact_kernel_type",
    "taa_fallback_when_offline_unable_online", "taa_no_match_default_when_online_capable",
    "taa_no_match_default_when_offline_only", "aids", "capks"]

  /** The object denotes the scheme. */
  ghost predicate IsScheme(v: JsonValue, today: EmvDate, class_: ProfileClass, mode: BuildMode, s: SchemeProfile) {
    && v.JsonObject? && OnlyKeys(v.fields, SCHEME_FIELDS)
    && HoldsString(v.fields, "scheme_name", s.schemeName) && !IsPlaceholder(s.schemeName) && !AllSpace(s.schemeName)
    && HoldsHex(v.fields, "rid", s.rid) && |s.rid| == 5 && IsReal(s.rid)
    && HoldsString(v.fields, "kernel_type", s.kernelType)
    && HoldsContactKernel(v.fields, s.contactKernelType)
    && HoldsTaa(v.fields, s.taa)
    && HoldsAids(v.fields, s.rid, s.aids)
    && ((mode == Test && class_ == ExampleOnly) || HasKernels(s))
    && HoldsCapks(v.fields, s.rid, today, class_, mode, s.capks)
  }

  lemma SchemeFields(o: Fields)
    ensures RejectUnknownFields(o, ["scheme_name", "rid", "kernel_type", "contact_kernel_type",
      "taa_fallback_when_offline_unable_online", "taa_no_match_default_when_online_capable",
      "taa_no_match_default_when_offline_only", "aids", "capks"])
      == if OnlyKeys(o, SCHEME_FIELDS) then Pass else Fail(InvalidProfile)
  {
    UnknownFieldsIff(o, SCHEME_FIELDS);
  }

  lemma RidIff(o: Fields, rid: seq<byte>)
    ensures ParseRid(o) == Ok(rid) <==> HoldsHex(o, "rid", rid) && |rid| == 5 && IsReal(rid)
  {
    hide FixedHexField, HoldsHex, IsDummy, IsReal;
    FixedHexIff(o, "rid", 5, rid);
    DummyIff(rid);
  }

  /** A scheme is read from exactly the objects that denote it. */
  lemma SchemeIff(v: JsonValue, today: EmvDate, class_: ProfileClass, mode: BuildMode, s: SchemeProfile)
    ensures ParseScheme(v, today, class_, mode) == Ok(s) <==> IsScheme(v, today, class_, mode, s)
  {
    hide RejectUnknownFields, OnlyKeys, RequiredString, HoldsString, RejectPlaceholder, IsPlaceholder, IsBlank, AllSpace, ParseRid,
      HoldsHex, IsReal, ParseContactKernelType, HoldsContactKernel, ParseTaa, HoldsTaa, ParseAids, HoldsAids,
      ValidateKernelMapping, HasKernels, ParseCapks, HoldsCapks, SoundScheme;
    if v.JsonObject? {
      var o := v.fields;
      SchemeFields(o);
      StringIff(o, "scheme_name", s.schemeName);
      PlaceholderIff(s.schemeName);
      BlankIff(s.schemeName);
      RidIff(o, s.rid);
      StringIff(o, "kernel_type", s.kernelType);
      ContactKernelIff(o, s.contactKernelType);
      TaaIff(o, s.taa);
      AidsIff(o, s.rid, s.aids);
      KernelsIff(s, class_, mode);
      CapksIff(o, s.rid, today, class_, mode, s.capks);
    }
  }

  // ---------------------------------------------------------------- certification scope

  /** The texts of an array, trimmed: none blank, a placeholder or given twice. */
  predicate HoldsNames(o: Fields, key: string, names: seq<string>) {
    && key in o && o[key].JsonArray? && |o[key].items| == |names| && NoDuplicates(names)
    && forall i | 0 <= i < |names| :: IsNameText(o[key].items[i], names[i])
  }

  predicate IsNameText(v: JsonValue, name: string) {
    v.JsonString? && !IsPlaceholder(v.text) && Trim(v.text) == name && name != ""
  }

  lemma NameTextIff(v: JsonValue, name: string)
    ensures SetElement(v) == Ok(name) <==> IsNameText(v, name)
  {
    hide RejectPlaceholder, IsPlaceholder, Trim;
    if v.JsonString? {
      PlaceholderIff(v.text);
    }
  }

  lemma NamesIff(o: Fields, key: string, mustBeNonEmpty: bool, names: seq<string>)
    ensures RequiredStringSet(o, key, mustBeNonEmpty) == Ok(names)
      <==> HoldsNames(o, key, names) && (mustBeNonEmpty ==> names != [])
  {
    hide SetElement, IsNameText, NoDuplicates;
    if key in o && o[key].JsonArray? {
      var items := o[key].items;
      MapResultIs(SetElement, items, names);
      forall i | 0 <= i < |items| && i < |names|
        ensures SetElement(items[i]) == Ok(names[i]) <==> IsNameText(items[i], names[i])
      {
        NameTextIff(items[i], names[i]);
      }
    }
  }

  const PENDING_PROFILE := "certification_format_fixture_pending_lab_signature"
  const SIGNED_PROFILE := "lab_signed_certification_profile"
  const PENDING_CAPKS := "deterministic_public_fixture_values_must_be_replaced_by_lab_signed_capks"
  const SIGNED_CAPKS := "lab_signed_capks"

  /** The material a scope declares: signed by the laboratory, or outside production still pending. */
  predicate HoldsMaterial(o: Fields, mode: BuildMode) {
    && (HoldsString(o, "profile_material_status", SIGNED_PROFILE)
        || (mode != Production && HoldsString(o, "profile_material_status", PENDING_PROFILE)))
    && (HoldsString(o, "capk_material_status", SIGNED_CAPKS)
        || (mode != Production && HoldsString(o, "capk_material_status", PENDING_CAPKS)))
  }

  /** No bundled scheme is also one the laboratory supplies. */
  ghost predicate HoldsOtherNames(o: Fields, bundled: seq<string>) {
    exists lab ::
      && HoldsNames(o, "lab_supplied_scheme_profiles_required", lab)
      && forall i, k | 0 <= i < |bundled| && 0 <= k < |lab| :: bundled[i] != lab[k]
  }

  /** A scope that bundles exactly these schemes. */
  ghost predicate IsScope(o: Fields, mode: BuildMode, bundled: seq<string>) {
    && HoldsNames(o, "bundled_scheme_profiles", bundled) && bundled != []
    && HoldsOtherNames(o, bundled)
    && (exists text ::
          HoldsString(o, "contactless_kernel_profile", text) && !IsPlaceholder(text) && !AllSpace(text))
    && HoldsMaterial(o, mode)
    && HoldsBool(o, "production_profile_bundle_required", true)
  }

  lemma MaterialIff(o: Fields, mode: BuildMode)
    ensures HoldsMaterial(o, mode) <==>
      var material := AllowedString(o, "profile_material_status", [PROFILE_STATUS_FIXTURE_PENDING, PROFILE_STATUS_LAB_SIGNED]);
      var capks := AllowedString(o, "capk_material_status", [CAPK_STATUS_FIXTURE_PENDING, CAPK_STATUS_LAB_SIGNED]);
      && material.Ok? && capks.Ok?
      && (mode != Production || (material.value == PROFILE_STATUS_LAB_SIGNED && capks.value == CAPK_STATUS_LAB_SIGNED))
  {
    assert PROFILE_STATUS_FIXTURE_PENDING == PENDING_PROFILE && PROFILE_STATUS_LAB_SIGNED == SIGNED_PROFILE;
    assert CAPK_STATUS_FIXTURE_PENDING == PENDING_CAPKS && CAPK_STATUS_LAB_SIGNED == SIGNED_CAPKS;
  }

  lemma ContactlessKernelIff(o: Fields)
    ensures (exists text :: HoldsString(o, "contactless_kernel_profile", text) && !IsPlaceholder(text) && !AllSpace(text))
      <==>
        var contactless := RequiredString(o, "contactless_kernel_profile");
        contactless.Ok? && RejectPlaceholder(contactless.value).Pass? && !IsBlank(contactless.value)
  {
    hide RejectPlaceholder, IsPlaceholder, IsBlank, AllSpace;
    var contactless := RequiredString(o, "contactless_kernel_profile");
    if contactless.Ok? {
      PlaceholderIff(contactless.value);
      BlankIff(contactless.value);
      assert HoldsString(o, "contactless_kernel_profile", contactless.value);
    }
  }

  lemma OtherNamesIff(o: Fields, bundled: seq<string>)
    ensures HoldsOtherNames(o, bundled) <==>
      var lab := RequiredStringSet(o, "lab_supplied_scheme_profiles_required", false);
      lab.Ok? && forall i | 0 <= i < |bundled| :: bundled[i] !in lab.value
  {
    hide RequiredStringSet, HoldsNames;
    var lab := RequiredStringSet(o, "lab_supplied_scheme_profiles_required", false);
    if lab.Ok? {
      NamesIff(o, "lab_supplied_scheme_profiles_required", false, lab.value);
      assert (forall i | 0 <= i < |bundled| :: bundled[i] !in lab.value)
        <==> (forall i, k | 0 <= i < |bundled| && 0 <= k < |lab.value| :: bundled[i] != lab.value[k]);
    }
    forall l | HoldsNames(o, "lab_supplied_scheme_profiles_required", l)
      ensures lab == Ok(l)
    {
      NamesIff(o, "lab_supplied_scheme_profiles_required", false, l);
    }
  }

  lemma ScopeNamesIff(o: Fields, mode: BuildMode, bundled: seq<string>)
    ensures ParseScopeNames(o, mode) == Ok(bundled) <==> IsScope(o, mode, bundled)
  {
    hide RequiredStringSet, HoldsNames, HoldsOtherNames, RequiredString, HoldsString, RejectPlaceholder, IsBlank,
      AllowedString, HoldsMaterial, RequiredBool, HoldsBool, IsPlaceholder, AllSpace;
    NamesIff(o, "bundled_scheme_profiles", true, bundled);
    OtherNamesIff(o, bundled);
    ContactlessKernelIff(o);
    MaterialIff(o, mode);
    BoolIff(o, "production_profile_bundle_required", true);
  }

  const SCOPE_FIELDS: seq<string> := [
    "bundled_scheme_profiles", "lab_supplied_scheme_profiles_required", "contactless_kernel_profile",
    "profile_material_status", "capk_material_status", "production_profile_bundle_required"]

  /** A certification profile has a scope and is held to it; an example's scope is only looked at for unknown keys. */
  ghost predicate HoldsScope(o: Fields, class_: ProfileClass, mode: BuildMode, scope: Option<seq<string>>) {
    && ("certification_scope" in o ==>
          o["certification_scope"].JsonObject? && OnlyKeys(o["certification_scope"].fields, SCOPE_FIELDS))
    && match class_
       case ExampleOnly => scope == None
       case CertificationClass =>
         && scope.Some? && "certification_scope" in o
         && IsScope(o["certification_scope"].fields, mode, scope.value)
  }

  lemma ScopeFields(o: Fields)
    ensures RejectUnknownFields(o, [
      "bundled_scheme_profiles", "lab_supplied_scheme_profiles_required", "contactless_kernel_profile",
      "profile_material_status", "capk_material_status", "production_profile_bundle_required"])
      == if OnlyKeys(o, SCOPE_FIELDS) then Pass else Fail(InvalidProfile)
  {
    UnknownFieldsIff(o, SCOPE_FIELDS);
  }

  lemma ScopeIff(o: Fields, class_: ProfileClass, mode: BuildMode, scope: Option<seq<string>>)
    ensures ParseCertificationScope(o, class_, mode) == Ok(scope) <==> HoldsScope(o, class_, mode, scope)
  {
    hide RejectUnknownFields, OnlyKeys, ParseScopeNames, IsScope;
    if "certification_scope" in o && o["certification_scope"].JsonObject? {
      ScopeFields(o["certification_scope"].fields);
      if scope.Some? {
        ScopeNamesIff(o["certification_scope"].fields, mode, scope.value);
      }
    }
  }

  // ---------------------------------------------------------------- the profile set

  predicate HoldsSchemaVersion(o: Fields, mode: BuildMode) {
    if "schema_version" in o then HoldsString(o, "schema_version", "1.0") else mode == Test
  }

  /** Outside test mode only certification profiles count. */
  predicate HoldsClass(o: Fields, mode: BuildMode, class_: ProfileClass) {
    match class_
    case CertificationClass => HoldsString(o, "profile_class", "CERTIFICATION")
    case ExampleOnly => mode == Test && ("profile_class" !in o || HoldsString(o, "profile_class", "EXAMPLE_ONLY"))
  }

  lemma ClassIff(o: Fields, mode: BuildMode, class_: ProfileClass)
    ensures ParseProfileClass(o, mode) == Ok(class_) <==> HoldsClass(o, mode, class_)
  {
    assert "CERTIFICATION"[0] == 'C' && "EXAMPLE_ONLY"[0] == 'E';
  }

  lemma SchemaVersionIff(o: Fields, mode: BuildMode)
    ensures ValidateSchemaVersion(o, mode).Ok? <==> HoldsSchemaVersion(o, mode)
  {
  }

  ghost predicate HoldsSchemes(
    o: Fields, today: EmvDate, class_: ProfileClass, mode: BuildMode, schemes: seq<SchemeProfile>)
  {
    && schemes != []
    && "scheme_profiles" in o && o["scheme_profiles"].JsonArray? && |o["scheme_profiles"].items| == |schemes|
    && forall i | 0 <= i < |schemes| :: IsScheme(o["scheme_profiles"].items[i], today, class_, mode, schemes[i])
  }

  lemma SchemesIff(o: Fields, today: EmvDate, class_: ProfileClass, mode: BuildMode, schemes: seq<SchemeProfile>)
    ensures
      && RequiredArray(o, "scheme_profiles").Ok? && RequiredArray(o, "scheme_profiles").value != []
      && MapResult(v => ParseScheme(v, today, class_, mode), RequiredArray(o, "scheme_profiles").value) == Ok(schemes)
      <==> HoldsSchemes(o, today, class_, mode, schemes)
  {
    hide ParseScheme, IsScheme, SoundScheme;
    if "scheme_profiles" in o && o["scheme_profiles"].JsonArray? {
      var items := o["scheme_profiles"].items;
      MapResultIs(v => ParseScheme(v, today, class_, mode), items, schemes);
      forall i | 0 <= i < |items| && i < |schemes|
        ensures ParseScheme(items[i], today, class_, mode) == Ok(schemes[i])
          <==> IsScheme(items[i], today, class_, mode, schemes[i])
      {
        SchemeIff(items[i], today, class_, mode, schemes[i]);
      }
    }
  }

  /** The scheme names are the declared names, each once. */
  predicate AreDeclared(schemes: seq<SchemeProfile>, bundled: seq<string>) {
    NoDuplicates(NamesOf(schemes)) && SetOf(NamesOf(schemes)) == SetOf(bundled)
  }

  lemma DeclaredIff(schemes: seq<SchemeProfile>, bundled: seq<string>)
    requires NoDuplicates(bundled)
    ensures MatchesScope(bundled, schemes) <==> AreDeclared(schemes, bundled)
  {
    if MatchesScope(bundled, schemes) {
      NamesAreTheDeclaredSet(bundled, schemes);
    }
    if AreDeclared(schemes, bundled) {
      var names := NamesOf(schemes);
      SetSize(names);
      SetSize(bundled);
      forall i | 0 <= i < |schemes|
        ensures schemes[i].schemeName in bundled
      {
        assert names[i] in SetOf(names);
      }
      forall i | 0 <= i < |bundled|
        ensures bundled[i] in names
      {
        assert bundled[i] in SetOf(bundled);
      }
    }
  }

  const SET_FIELDS: seq<string> :=
    ["schema_version", "profile_class", "profile_source", "certification_scope", "scheme_profiles"]

  /** The document's fields denote the profile set, and the scope that applies declares its schemes. */
  ghost predicate IsProfileSet(o: Fields, policy: ConfigLoadPolicy, ps: ProfileSet, scope: Option<seq<string>>) {
    && OnlyKeys(o, SET_FIELDS)
    && ps.version == policy.candidateVersion
    && HoldsSchemaVersion(o, policy.mode)
    && HoldsClass(o, policy.mode, ps.profileClass)
    && HoldsScope(o, ps.profileClass, policy.mode, scope)
    && HoldsSource(
         o, "profile_source", "unspecified_test_profile", ps.profileClass, policy.mode, policy.evaluationDate,
         ps.profileSource)
    && HoldsSchemes(o, policy.evaluationDate, ps.profileClass, policy.mode, ps.schemes)
    && (forall i, j | 0 <= i < j < |ps.schemes| :: ps.schemes[i].rid != ps.schemes[j].rid)
    && (scope.Some? ==> AreDeclared(ps.schemes, scope.value))
  }

  /** Outside test mode the document must be signed, and its version must be new. */
  predicate MayLoad(policy: ConfigLoadPolicy) {
    (policy.mode != Test ==> policy.signatureStatus == Verified) && policy.installedVersion < policy.candidateVersion
  }

  lemma SetFields(o: Fields)
    ensures RejectUnknownFields(o,
      ["schema_version", "profile_class", "profile_source", "certification_scope", "scheme_profiles"])
      == if OnlyKeys(o, SET_FIELDS) then Pass else Fail(InvalidProfile)
  {
    UnknownFieldsIff(o, SET_FIELDS);
  }

  /** The fields of a document with no unknown keys are read as a profile set exactly when they denote it. */
  lemma FieldsIff(o: Fields, policy: ConfigLoadPolicy, ps: ProfileSet)
    requires OnlyKeys(o, SET_FIELDS)
    ensures LoadFields(o, policy) == Ok(ps) <==> exists scope :: IsProfileSet(o, policy, ps, scope)
  {
    hide OnlyKeys, ValidateSchemaVersion, HoldsSchemaVersion, ParseProfileClass, HoldsClass, ParseCertificationScope, HoldsScope,
      SourceOrDefault, HoldsSource, RequiredArray, ParseScheme, HoldsSchemes, MatchesScope, AreDeclared, MapResult;
    var class_, today, mode := ps.profileClass, policy.evaluationDate, policy.mode;
    SchemaVersionIff(o, mode);
    ClassIff(o, mode, class_);
    SourceIff(o, "profile_source", "unspecified_test_profile", class_, mode, today, ps.profileSource);
    SchemesIff(o, today, class_, mode, ps.schemes);
    var read := ParseCertificationScope(o, class_, mode);
    forall scope
      ensures read == Ok(scope) <==> HoldsScope(o, class_, mode, scope)
    {
      ScopeIff(o, class_, mode, scope);
    }
    if read.Ok? {
      ScopeDeclaresDistinctNames(o, class_, mode);
      if read.value.Some? {
        DeclaredIff(ps.schemes, read.value.value);
      }
    }
    if LoadFields(o, policy) == Ok(ps) {
      assert IsProfileSet(o, policy, ps, read.value);
    }
  }

  /**
   A profile set is loaded exactly when the policy lets one be loaded, the text is an object whose fields denote that
   profile set under the policy, and the names of its schemes are those its certification scope declares.
   */
  lemma LoadedExactlyWhen(json: seq<byte>, policy: ConfigLoadPolicy, ps: ProfileSet)
    ensures LoadProfileSet(json, policy) == Ok(ps) <==>
      && MayLoad(policy)
      && exists o, scope :: JsonReader.Parse(json) == Ok(JsonObject(o)) && IsProfileSet(o, policy, ps, scope)
  {
    hide JsonReader.Parse, RejectUnknownFields, OnlyKeys, LoadFields, HoldsSchemaVersion, HoldsClass, HoldsScope, HoldsSource,
      HoldsSchemes, AreDeclared;
    if MayLoad(policy) && JsonReader.Parse(json).Ok? && JsonReader.Parse(json).value.JsonObject? {
      var o := JsonReader.Parse(json).value.fields;
      SetFields(o);
      if OnlyKeys(o, SET_FIELDS) {
        FieldsIff(o, policy, ps);
      }
    }
  }
}
