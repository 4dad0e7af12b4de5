/**
 The canonical text of a payload determines the payload (src/cert_bundle.rs): whatever the strings hold, the printers
 never write one text for two payloads.
 */
module Canonical {
  import opened Kernel
  import opened Text
  import opened JsonSyntax
  import opened JsonReader
  import opened JsonDoc
  import opened BundleRecords
  import opened BundleRoundTrip
  import opened BundleReader
  import opened BundleTrust
  import Hex

  // ---------------------------------------------------------------- strings

  /** The letter after the backslash of a character with a short escape. */
  function ShortEscape(c: char): Option<byte> {
    if c == '\"' then Some(QUOTE)
    else if c == '\\' then Some(BACKSLASH)
    else if c == '\n' then Some(0x6e)
    else if c == '\r' then Some(0x72)
    else if c == '\t' then Some(0x74)
    else None
  }

  /** The bytes one character prints as. */
  lemma PrintedChar(c: char)
    ensures ShortEscape(c).Some? ==> Utf8(EscapeChar(c)) == [BACKSLASH, ShortEscape(c).value]
    ensures ShortEscape(c).None? && IsControl(c) ==>
      |Utf8(EscapeChar(c))| == 6
      && Utf8(EscapeChar(c)) == [BACKSLASH, 0x75, 0x30, 0x30, Hex.LowerHexDigit(c as int / 16) as int, Hex.LowerHexDigit(c as int % 16) as int]
    ensures ShortEscape(c).None? && !IsControl(c) ==>
      Utf8(EscapeChar(c)) == Utf8Char(c) && Utf8Char(c)[0] != BACKSLASH && Utf8Char(c)[0] != QUOTE
  {
    if ShortEscape(c).Some? || IsControl(c) {
      Utf8Ascii(EscapeChar(c));
    } else {
      assert EscapeChar(c) == [c] && [c][1..] == "";
      assert Utf8([c]) == Utf8Char(c) + [];
    }
  }

  lemma HexDigitsInjective(m: nat, n: nat)
    requires m < 16 && n < 16 && Hex.LowerHexDigit(m) == Hex.LowerHexDigit(n)
    ensures m == n
  {
  }

  /** No character's printed form is a prefix of another's. */
  lemma PrintedPrefixFree(a: char, b: char, s: seq<byte>, t: seq<byte>)
    requires Utf8(EscapeChar(a)) + s == Utf8(EscapeChar(b)) + t
    ensures a == b && s == t
  {
    hide Utf8, Utf8Char, EscapeChar;
    var x, y := Utf8(EscapeChar(a)), Utf8(EscapeChar(b));
    PrintedChar(a);
    PrintedChar(b);
    var all := x + s;
    assert forall i | 0 <= i < |x| :: all[i] == x[i];
    assert forall i | 0 <= i < |y| :: all[i] == y[i];
    if ShortEscape(a).None? && !IsControl(a) && ShortEscape(b).None? && !IsControl(b) {
      Utf8CharPrefixFree(a, b, s, t);
    } else {
      assert all[0] == BACKSLASH;
      assert all[1] == x[1] == y[1];
      if ShortEscape(a).None? {
        assert x[4] == y[4] && x[5] == y[5];
        HexDigitsInjective(a as int / 16, b as int / 16);
        HexDigitsInjective(a as int % 16, b as int % 16);
        assert a as int == b as int;
      }
      assert |x| == |y|;
      assert s == all[|x|..] && t == all[|y|..];
    }
  }

  /** A printed string's end is where it seems, and its characters are determined. */
  lemma {:induction false} EscapedInjective(x: string, y: string, s: seq<byte>, t: seq<byte>)
    requires Utf8(Escape(x)) + ([QUOTE] + s) == Utf8(Escape(y)) + ([QUOTE] + t)
    ensures x == y && s == t
  {
    hide Utf8, EscapeChar;
    var p, q := Utf8(Escape(x)) + ([QUOTE] + s), Utf8(Escape(y)) + ([QUOTE] + t);
    EscapedStart(x, [QUOTE] + s);
    EscapedStart(y, [QUOTE] + t);
    if x == "" && y == "" {
      assert s == p[1..] && t == q[1..];
    } else if x != "" && y != "" {
      PrintedPrefixFree(x[0], y[0], Utf8(Escape(x[1..])) + ([QUOTE] + s), Utf8(Escape(y[1..])) + ([QUOTE] + t));
      EscapedInjective(x[1..], y[1..], s, t);
      assert x == [x[0]] + x[1..] && y == [y[0]] + y[1..];
    }
  }

  lemma EscapedStart(x: string, s: seq<byte>)
    requires s != [] && s[0] == QUOTE
    ensures x == "" ==> Utf8(Escape(x)) + s == s
    ensures x != "" ==>
      Utf8(Escape(x)) + s == Utf8(EscapeChar(x[0])) + (Utf8(Escape(x[1..])) + s) && (Utf8(Escape(x)) + s)[0] != QUOTE
  {
    if x == "" {
      assert Utf8(Escape(x)) == [];
    } else {
      PrintedChar(x[0]);
      Utf8Concat(EscapeChar(x[0]), Escape(x[1..]));
      Associative(Utf8(EscapeChar(x[0])), Utf8(Escape(x[1..])), s);
    }
  }

  lemma StringsInjective(x: string, y: string, s: seq<byte>, t: seq<byte>)
    requires StringText(x) + s == StringText(y) + t
    ensures x == y && s == t
  {
    hide Utf8, Escape;
    var p, q := Utf8(Escape(x)) + ([QUOTE] + s), Utf8(Escape(y)) + ([QUOTE] + t);
    assert StringText(x) + s == [QUOTE] + p && StringText(y) + t == [QUOTE] + q;
    assert ([QUOTE] + p)[1..] == p && ([QUOTE] + q)[1..] == q;
    EscapedInjective(x, y, s, t);
  }

  // ---------------------------------------------------------------- documents

  /** What can follow a document's text without lengthening it. */
  predicate IsEnd(s: seq<byte>) {
    s != [] ==> !IsDigit(s[0])
  }

  /** Two keyed documents whose texts, followed by anything that ends them, are equal are the same document. */
  lemma {:induction false} DocsInjective(c: Doc, d: Doc, s: seq<byte>, t: seq<byte>)
    requires Keyed(c) && Keyed(d) && IsEnd(s) && IsEnd(t)
    requires DocText(c) + s == DocText(d) + t
    ensures c == d && s == t
    decreases c, 0
  {
    hide Utf8, Escape, ItemsText, FieldsText, Decimal;
    var all := DocText(c) + s;
    KindOfText(c, s);
    KindOfText(d, t);
    match c
    case DocString(x) => StringsInjective(x, d.text, s, t);
    case DocNumber(n) =>
      ReadNumberOver(n, s);
      ReadNumberOver(d.number, t);
    case DocBool(b) => assert s == all[if b then 4 else 5..] && t == all[if b then 4 else 5..];
    case DocArray(items) =>
      assert all == [OPEN_BRACKET] + (ItemsText(items) + ([CLOSE_BRACKET] + s));
      assert all == [OPEN_BRACKET] + (ItemsText(d.items) + ([CLOSE_BRACKET] + t));
      assert all[1..] == ItemsText(items) + ([CLOSE_BRACKET] + s) == ItemsText(d.items) + ([CLOSE_BRACKET] + t);
      ItemsInjective(items, d.items, s, t);
    case DocObject(fields) =>
      assert all == [OPEN_BRACE] + (FieldsText(fields) + ([CLOSE_BRACE] + s));
      assert all == [OPEN_BRACE] + (FieldsText(d.fields) + ([CLOSE_BRACE] + t));
      assert all[1..] == FieldsText(fields) + ([CLOSE_BRACE] + s) == FieldsText(d.fields) + ([CLOSE_BRACE] + t);
      FieldsInjective(fields, d.fields, s, t);
  }

  /** The first byte tells what kind of document follows. */
  lemma KindOfText(d: Doc, s: seq<byte>)
    ensures
      var b := (DocText(d) + s)[0];
      && (d.DocString? <==> b == QUOTE) && (d.DocArray? <==> b == OPEN_BRACKET) && (d.DocObject? <==> b == OPEN_BRACE)
      && (d.DocNumber? <==> IsDigit(b))
      && (d.DocBool? && d.flag <==> b == 0x74) && (d.DocBool? && !d.flag <==> b == 0x66)
  {
    hide Utf8, Escape, ItemsText, FieldsText;
    var text := DocText(d);
    assert text != [] && (text + s)[0] == text[0];
  }

  /** What follows the first item. */
  function AfterItem(items: seq<Doc>, s: seq<byte>): (next: seq<byte>)
    requires items != []
    ensures ItemsText(items) + ([CLOSE_BRACKET] + s) == DocText(items[0]) + next
    ensures IsEnd(next) && next != []
    ensures next[0] == if |items| == 1 then CLOSE_BRACKET else COMMA
    ensures next[1..] == if |items| == 1 then s else ItemsText(items[1..]) + ([CLOSE_BRACKET] + s)
  {
    if |items| == 1 then [CLOSE_BRACKET] + s
    else
      var more := ItemsText(items[1..]) + ([CLOSE_BRACKET] + s);
      assert ItemsText(items) + ([CLOSE_BRACKET] + s) == DocText(items[0]) + ([COMMA] + more) by {
        Associative([COMMA], ItemsText(items[1..]), [CLOSE_BRACKET] + s);
        Associative(DocText(items[0]), [COMMA] + ItemsText(items[1..]), [CLOSE_BRACKET] + s);
      }
      [COMMA] + more
  }

  lemma {:induction false} ItemsInjective(items: seq<Doc>, others: seq<Doc>, s: seq<byte>, t: seq<byte>)
    requires (forall i | 0 <= i < |items| :: Keyed(items[i])) && (forall i | 0 <= i < |others| :: Keyed(others[i]))
    requires ItemsText(items) + ([CLOSE_BRACKET] + s) == ItemsText(others) + ([CLOSE_BRACKET] + t)
    ensures items == others && s == t
    decreases items, 1
  {
    hide DocText, ItemsText, Keyed;
    NoText(items, s);
    NoText(others, t);
    if items != [] && others != [] {
      DocsInjective(items[0], others[0], AfterItem(items, s), AfterItem(others, t));
      if |items| > 1 {
        ItemsInjective(items[1..], others[1..], s, t);
      }
      assert items == [items[0]] + items[1..] && others == [others[0]] + others[1..];
    } else if items == [] && others == [] {
      assert s == ([CLOSE_BRACKET] + s)[1..] && t == ([CLOSE_BRACKET] + t)[1..];
    }
  }

  /** An empty list's text starts with the closing bracket, and no other's does. */
  lemma NoText(items: seq<Doc>, s: seq<byte>)
    ensures items == [] ==> ItemsText(items) + ([CLOSE_BRACKET] + s) == [CLOSE_BRACKET] + s
    ensures items != [] ==> (ItemsText(items) + ([CLOSE_BRACKET] + s))[0] != CLOSE_BRACKET
  {
    hide DocText;
    if items == [] {
      assert ItemsText(items) == [];
    } else {
      DocTextStart(items[0]);
      assert (DocText(items[0]) + AfterItem(items, s))[0] == DocText(items[0])[0];
    }
  }

  /** What follows the first field. */
  function AfterField(fields: seq<Field>, s: seq<byte>): (next: seq<byte>)
    requires fields != []
    ensures FieldsText(fields) + ([CLOSE_BRACE] + s) == FieldText(fields[0]) + next
    ensures IsEnd(next) && next != []
    ensures next[0] == if |fields| == 1 then CLOSE_BRACE else COMMA
    ensures next[1..] == if |fields| == 1 then s else FieldsText(fields[1..]) + ([CLOSE_BRACE] + s)
  {
    if |fields| == 1 then [CLOSE_BRACE] + s
    else
      var more := FieldsText(fields[1..]) + ([CLOSE_BRACE] + s);
      assert FieldsText(fields) + ([CLOSE_BRACE] + s) == FieldText(fields[0]) + ([COMMA] + more) by {
        Associative([COMMA], FieldsText(fields[1..]), [CLOSE_BRACE] + s);
        Associative(FieldText(fields[0]), [COMMA] + FieldsText(fields[1..]), [CLOSE_BRACE] + s);
      }
      [COMMA] + more
  }

  lemma {:induction false} FieldsInjective(fields: seq<Field>, others: seq<Field>, s: seq<byte>, t: seq<byte>)
    requires forall i | 0 <= i < |fields| :: IsPlainKey(fields[i].key) && Keyed(fields[i].doc)
    requires forall i | 0 <= i < |others| :: IsPlainKey(others[i].key) && Keyed(others[i].doc)
    requires FieldsText(fields) + ([CLOSE_BRACE] + s) == FieldsText(others) + ([CLOSE_BRACE] + t)
    ensures fields == others && s == t
    decreases fields, 1
  {
    hide DocText, FieldText, FieldsText, Keyed, IsPlainKey;
    NoFieldText(fields, s);
    NoFieldText(others, t);
    if fields != [] && others != [] {
      FirstFieldInjective(fields[0], others[0], AfterField(fields, s), AfterField(others, t));
      if |fields| > 1 {
        FieldsInjective(fields[1..], others[1..], s, t);
      }
      assert fields == [fields[0]] + fields[1..] && others == [others[0]] + others[1..];
    } else if fields == [] && others == [] {
      assert s == ([CLOSE_BRACE] + s)[1..] && t == ([CLOSE_BRACE] + t)[1..];
    }
  }

  lemma NoFieldText(fields: seq<Field>, s: seq<byte>)
    ensures fields == [] ==> FieldsText(fields) + ([CLOSE_BRACE] + s) == [CLOSE_BRACE] + s
    ensures fields != [] ==> (FieldsText(fields) + ([CLOSE_BRACE] + s))[0] != CLOSE_BRACE
  {
    hide DocText;
    if fields == [] {
      assert FieldsText(fields) == [];
    } else {
      assert KeyText(fields[0].key)[0] == QUOTE && FieldText(fields[0])[0] == QUOTE;
      assert (FieldText(fields[0]) + AfterField(fields, s))[0] == QUOTE;
    }
  }

  lemma {:induction false} FirstFieldInjective(f: Field, g: Field, s: seq<byte>, t: seq<byte>)
    requires IsPlainKey(f.key) && IsPlainKey(g.key) && Keyed(f.doc) && Keyed(g.doc) && IsEnd(s) && IsEnd(t)
    requires FieldText(f) + s == FieldText(g) + t
    ensures f == g && s == t
    decreases f, 0
  {
    hide DocText, KeyText, StringText, Keyed, IsPlainKey;
    var p, q := [COLON] + (DocText(f.doc) + s), [COLON] + (DocText(g.doc) + t);
    FieldSplit(f, s);
    FieldSplit(g, t);
    StringsInjective(f.key, g.key, p, q);
    assert DocText(f.doc) + s == p[1..] && DocText(g.doc) + t == q[1..];
    DocsInjective(f.doc, g.doc, s, t);
  }

  lemma FieldSplit(f: Field, s: seq<byte>)
    requires IsPlainKey(f.key)
    ensures FieldText(f) + s == StringText(f.key) + ([COLON] + (DocText(f.doc) + s))
  {
    hide DocText, KeyText, StringText, IsPlainKey;
    KeyPieces(f.key);
    Associative(StringText(f.key), [COLON], DocText(f.doc));
    Associative(StringText(f.key), [COLON] + DocText(f.doc), s);
    Associative([COLON], DocText(f.doc), s);
  }

  // ---------------------------------------------------------------- records

  lemma StringsDocInjective(v: seq<string>, w: seq<string>)
    requires StringsDoc(v) == StringsDoc(w)
    ensures v == w
  {
    var a, b := StringsDoc(v).items, StringsDoc(w).items;
    assert |v| == |a| == |b| == |w|;
    forall i | 0 <= i < |v|
      ensures v[i] == w[i]
    {
      assert a[i] == DocString(v[i]) && b[i] == DocString(w[i]);
    }
  }

  lemma ScopeInjective(x: SubmissionScope, y: SubmissionScope)
    requires ScopeFields(x) == ScopeFields(y)
    ensures x == y
  {
    hide StringsDoc;
    var f, g := ScopeFields(x), ScopeFields(y);
    assert f[0] == g[0] && f[1] == g[1] && f[2] == g[2] && f[3] == g[3] && f[4] == g[4];
    StringsDocInjective(x.interfaces, y.interfaces);
    StringsDocInjective(x.authorities, y.authorities);
  }

  lemma StandardsInjective(x: StandardsTarget, y: StandardsTarget)
    requires StandardsFields(x) == StandardsFields(y)
    ensures x == y
  {
    hide StringsDoc;
    var f, g := StandardsFields(x), StandardsFields(y);
    assert f[0] == g[0] && f[1] == g[1] && f[2] == g[2] && f[3] == g[3];
    StringsDocInjective(x.bulletinsIncluded, y.bulletinsIncluded);
    StringsDocInjective(x.bulletinsExcluded, y.bulletinsExcluded);
  }

  lemma TerminalInjective(x: TerminalProfile, y: TerminalProfile)
    requires TerminalFields(x) == TerminalFields(y)
    ensures x == y
  {
    hide StringsDoc;
    var f, g := TerminalFields(x), TerminalFields(y);
    assert f[0] == g[0] && f[1] == g[1] && f[2] == g[2] && f[3] == g[3] && f[4] == g[4] && f[5] == g[5];
    StringsDocInjective(x.supportedInterfaces, y.supportedInterfaces);
  }

  lemma RuntimeInjective(x: RuntimePolicy, y: RuntimePolicy)
    requires RuntimeFields(x) == RuntimeFields(y)
    ensures x == y
  {
    var f, g := RuntimeFields(x), RuntimeFields(y);
    assert f[0] == g[0] && f[1] == g[1] && f[2] == g[2];
    var a, b := TimeoutFields(x.callbackTimeouts), TimeoutFields(y.callbackTimeouts);
    assert f[0].doc == DocObject(a) && g[0].doc == DocObject(b);
    assert a[0] == b[0] && a[1] == b[1] && a[2] == b[2] && a[3] == b[3];
  }

  lemma KernelInjective(x: KernelRegistration, y: KernelRegistration)
    requires KernelFields(x) == KernelFields(y)
    ensures x == y
  {
    hide StringsDoc;
    var f, g := KernelFields(x), KernelFields(y);
    assert f[0] == g[0] && f[1] == g[1] && f[2] == g[2] && f[3] == g[3] && f[4] == g[4];
    StringsDocInjective(x.schemeScope, y.schemeScope);
  }

  lemma CvmInjective(x: CvmExtension, y: CvmExtension)
    requires CvmFields(x) == CvmFields(y)
    ensures x == y
  {
    hide StringsDoc;
    var f, g := CvmFields(x), CvmFields(y);
    assert f[0] == g[0] && f[1] == g[1] && f[2] == g[2] && f[3] == g[3] && f[4] == g[4] && f[5] == g[5];
    StringsDocInjective(x.schemeScope, y.schemeScope);
  }

  lemma TestCaseInjective(x: TestCase, y: TestCase)
    requires TestCaseFields(x) == TestCaseFields(y)
    ensures x == y
  {
    var f, g := TestCaseFields(x), TestCaseFields(y);
    assert f[0] == g[0] && f[1] == g[1] && f[2] == g[2] && f[3] == g[3];
  }

  lemma ArtifactInjective(x: ArtifactHash, y: ArtifactHash)
    requires ArtifactFields(x) == ArtifactFields(y)
    ensures x == y
  {
    hide StringsDoc;
    var f, g := ArtifactFields(x), ArtifactFields(y);
    assert f[0] == g[0] && f[1] == g[1] && f[2] == g[2] && f[3] == g[3];
    StringsDocInjective(x.bindsOpenIssues, y.bindsOpenIssues);
  }

  lemma ListsInjective(p: Payload, q: Payload)
    requires ListFields(p) == ListFields(q)
    ensures p.kernelRegistry == q.kernelRegistry && p.cvmExtensions == q.cvmExtensions
    ensures p.testPlan == q.testPlan && p.artifactHashes == q.artifactHashes
  {
    hide KernelFields, CvmFields, TestCaseFields, ArtifactFields;
    var f, g := ListFields(p), ListFields(q);
    assert f[0] == g[0] && f[1] == g[1] && f[2] == g[2] && f[3] == g[3];
    var ks, ks' := KernelsDoc(p.kernelRegistry).items, KernelsDoc(q.kernelRegistry).items;
    forall i | 0 <= i < |ks|
      ensures p.kernelRegistry[i] == q.kernelRegistry[i]
    {
      assert ks[i] == ks'[i];
      KernelInjective(p.kernelRegistry[i], q.kernelRegistry[i]);
    }
    var es, es' := CvmsDoc(p.cvmExtensions).items, CvmsDoc(q.cvmExtensions).items;
    forall i | 0 <= i < |es|
      ensures p.cvmExtensions[i] == q.cvmExtensions[i]
    {
      assert es[i] == es'[i];
      CvmInjective(p.cvmExtensions[i], q.cvmExtensions[i]);
    }
    var ts, ts' := TestCasesDoc(p.testPlan).items, TestCasesDoc(q.testPlan).items;
    forall i | 0 <= i < |ts|
      ensures p.testPlan[i] == q.testPlan[i]
    {
      assert ts[i] == ts'[i];
      TestCaseInjective(p.testPlan[i], q.testPlan[i]);
    }
    var hs, hs' := ArtifactsDoc(p.artifactHashes).items, ArtifactsDoc(q.artifactHashes).items;
    forall i | 0 <= i < |hs|
      ensures p.artifactHashes[i] == q.artifactHashes[i]
    {
      assert hs[i] == hs'[i];
      ArtifactInjective(p.artifactHashes[i], q.artifactHashes[i]);
    }
  }

  lemma PayloadDocInjective(p: Payload, q: Payload)
    requires PayloadDoc(p) == PayloadDoc(q)
    ensures p == q
  {
    hide ScopeFields, StandardsFields, TerminalFields, RuntimeFields, KernelsDoc, CvmsDoc, TestCasesDoc, ArtifactsDoc;
    var f, g := PayloadFields(p), PayloadFields(q);
    var r, r' := RecordFields(p), RecordFields(q);
    assert f == g && |f| == 10 && |ListFields(p)| == 4 == |ListFields(q)|;
    assert r == f[..4] && r' == g[..4] && ListFields(p) == f[4..8] && ListFields(q) == g[4..8];
    assert r[0] == r'[0] && r[1] == r'[1] && r[2] == r'[2] && r[3] == r'[3];
    assert f[8] == g[8] && f[9] == g[9];
    ScopeInjective(p.submissionScope, q.submissionScope);
    StandardsInjective(p.standardsTarget, q.standardsTarget);
    TerminalInjective(p.terminalProfile, q.terminalProfile);
    RuntimeInjective(p.runtimePolicy, q.runtimePolicy);
    ListsInjective(p, q);
  }

  /** No two payloads share a canonical text, whatever their strings hold and whether or not they are valid. */
  lemma CanonicalTextDeterminesPayload(p: Payload, q: Payload)
    ensures DocText(PayloadDoc(p)) == DocText(PayloadDoc(q)) <==> p == q
  {
    hide DocText, Keyed, PayloadDoc;
    if DocText(PayloadDoc(p)) == DocText(PayloadDoc(q)) {
      PayloadKeyed(p);
      PayloadKeyed(q);
      assert DocText(PayloadDoc(p)) + [] == DocText(PayloadDoc(p));
      assert DocText(PayloadDoc(q)) + [] == DocText(PayloadDoc(q));
      DocsInjective(PayloadDoc(p), PayloadDoc(q), [], []);
      PayloadDocInjective(p, q);
    }
  }

  /** Two different texts with one SHA-256. */
  predicate IsCollision(c: Crypto, text: seq<byte>, other: seq<byte>) {
    text != other && c.sha256(text) == c.sha256(other)
  }

  /** Payloads with one hash are one payload, unless SHA-256 collides on their canonical texts. */
  lemma SameHash(c: Crypto, p: Payload, q: Payload)
    requires PayloadHash(c, p) == PayloadHash(c, q)
    ensures p == q || IsCollision(c, DocText(PayloadDoc(p)), DocText(PayloadDoc(q)))
  {
    hide DocText, PayloadDoc;
    CanonicalTextDeterminesPayload(p, q);
  }

  /** Loads accepted under one signed payload hash, in any two policies, loaded one payload, unless SHA-256 collides. */
  lemma SignedHashPinsPayload(
    c: Crypto, json: seq<byte>, policy: LoadPolicy, l: LoadedBundle, json': seq<byte>, policy': LoadPolicy, l': LoadedBundle)
    requires LoadCertificationBundle(c, json, policy) == Ok(l)
    requires LoadCertificationBundle(c, json', policy') == Ok(l')
    requires l.bundle.signature.payloadSha256 == l'.bundle.signature.payloadSha256
    ensures l.bundle.payload == l'.bundle.payload
      || IsCollision(c, DocText(PayloadDoc(l.bundle.payload)), DocText(PayloadDoc(l'.bundle.payload)))
  {
    hide LoadCertificationBundle, ParseCertificationBundle, DocText, PayloadDoc, PayloadHash, Hex.ToHex, Vouches, IsCollision;
    AcceptedLoad(c, json, policy, l);
    AcceptedLoad(c, json', policy', l');
    Hex.ToHexInjective(l.payloadSha256, l'.payloadSha256);
    SameHash(c, l.bundle.payload, l'.bundle.payload);
  }
}
