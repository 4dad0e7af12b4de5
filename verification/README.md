# Verified model of the kernel's data core

A Dafny model of the deterministic data core of the Hyperion EMV kernel, with proofs of what it promises. The model
follows the Rust sources branch by branch; parts that change state step by step are classes and loops, parts that only
compute a value are functions.

The central subject is the signed certification bundle. A bundle is printed as JSON, hashed, signed and stored; loading
parses it, prints the payload again, compares hashes and verifies the signature against a provisioned anchor. This works
only if the hand-written parser and the hand-written printers undo each other. The model proves which texts the parser
accepts, exactly which documents survive printing and parsing, that every reader accepts exactly what its printer
denotes, that no two payloads share a canonical text, and from these that what `create_bundle_from_inputs` makes,
`load_certification_bundle` accepts exactly when the policy permits. Around this stand the anti-rollback property over
whole runs, the framing of the signed message and the soundness of the compile report.

The other parts are streaming SHA-1 as a refinement of the one-shot definition of FIPS 180-4, admission of scheme
profile sets, CVM list evaluation, the AFL record plan, the short command APDU grammar, fixed-width BCD, and the
production-source audit.

## Modules

| file | content |
|---|---|
| Kernel, Text, Hex, Dates, TextFacts | error codes and results; UTF-8, trimming, ASCII folding; hexadecimal; calendar dates; what these primitives compute, said independently |
| JsonSyntax, JsonReader, JsonParser | the grammar as derivation trees; the parser as functions, sound and complete; the parser as an object with a cursor |
| JsonTokens | what given tokens and texts parse to, byte by byte, and where the limits lie |
| JsonDoc, JsonSize | printed documents, what parsing makes of them, and their sizes |
| JsonFields, BundleRecords, BundleWriter, BundleReader, BundleRoundTrip, Canonical | typed accessors; bundle records and their documents; printers; readers; round trips; injectivity of the canonical text |
| BundleTrust, BundleRules, Rollback | signed message, policy, anchors and loader; the checks readers, creator and loader share, said independently; runs of load attempts |
| BundleProvision, CleanText, CreatedRecords, BundleEndToEnd, BundleWitness | creating a bundle; why created records are valid; the end-to-end theorem; an input that meets its premises |
| CompileReport, CompileRules | lints, coverage and status; the words they look for |
| Profile | `load_profile_set` with all its readers and checks, and its global invariants |
| ProfileFields, ProfileReader, ProfileSetReader | exactly which fields, AIDs, CAPKs, schemes and documents are admitted, and as what |
| Sha1, Sha1Arithmetic | bit-level words, the standard's definition, the streaming object; what words, constants and padding are as numbers |
| Cvm, Afl, Apdu, Numeric, DataBoundary, BoundaryRules | one module for each source file; the boundary audit's line and path rules said independently |

## Reading the model

- A string is a sequence of characters; its bytes are its UTF-8 encoding. The parser works on bytes and makes one
  character of each byte inside a string, as the code does.
- A *plain* string holds only 0x20 to 0x7e, line feed, carriage return and tab. A *clean* string is what
  `validate_clean_string` accepts. A *printable* string is clean and ASCII.
- Ed25519 and SHA-256 are function values in a record `Crypto`; `Correct` says that every secret's public key is a key and
  verifies what the secret signs. No other property of them is used: in particular hashes may collide.
- A 32-bit word of SHA-1 is a sequence of bits, most significant first; additions wrap at 2^32.
- The code keeps `&'static str` tags for status values; the model uses enumerations for them.

## Where the code and its intent differ

- `parse_string` has no `\u` escape and takes bytes as characters, while the printer writes `\u00xx` for other control
  characters and UTF-8 for the rest. `DocRoundTrip` gives the exact condition for the round trip, `DocReadBack` what
  happens otherwise, and `DeleteDoesNotRoundTrip` a concrete input.
- On exhaustion of a CVM list `evaluate` reports the default TVR bit and drops a more specific bit it had tracked; the
  contract of `Evaluate` says so.
- A NUL inside a signer name would let two different pairs of names sign one message (`NulMovesTheBoundary`). The loader
  never sees one, because clean strings hold no control character (`ParsedBundlesAreFramed`).

## Model

| member | source | states |
|---|---|---|
| JsonReader.ExactLanguage | src/config.rs:1329-1489 | for every input and value: parsing returns the value if and only if some derivation of the grammar yields the whole input, names no object key twice, is at most 24 deep with at most 4096 values, and denotes the value |
| JsonReader.ReadResources | src/config.rs:1338-1406 | whenever a value is read, the input splits into white space, the text of a derivation and the unread rest; the node counter equals that derivation's number of values, at most 4096, and its height is at most 24 |
| JsonReader.WhiteSpaceIsInsignificant | src/config.rs:1329-1489 | two texts whose derivations differ only in the white space between tokens parse alike, to the same value or the same error |
| JsonReader.ParseDocument | src/config.rs:1338-1363 | on the text of any derivation the result is the evaluation of that derivation in document order under the depth and node budgets, the first broken rule fixing the error |
| JsonReader.ReadValueSplit | src/config.rs:1338-1363 | every value read successfully is preceded by white space and is the text of a derivation that evaluates to it with the same node count |
| JsonSyntax.EvalIsValue | src/config.rs:1338-1406 | evaluation under the budgets succeeds if and only if keys are unique and depth and node count stay within them; it then gives the derivation's value, and with unique keys the only possible error is a length overflow |
| JsonSyntax.EvalIgnoresSpace | src/config.rs:1457-1461 | white space plays no part in the evaluation of a derivation |
| JsonTokens.EscapeInString | src/config.rs:1414-1427 | in any string, backslash and one of the eight letters `"`, `\`, `/`, `b`, `f`, `n`, `r`, `t` adds the character that section 7 of RFC 8259 gives it, and backslash before any other byte makes the whole text a parse error |
| JsonTokens.EscapedSolidusIsPlain | src/config.rs:1419 | an escaped solidus and a plain one parse alike anywhere in any string |
| JsonTokens.PlainInString | src/config.rs:1428-1429 | any other byte from 0x20 on stands for the character with its code, and a control byte is refused |
| JsonTokens.WhiteSpaceBytes | src/config.rs:1457-1461 | exactly space, line feed, carriage return and tab may stand before and after a value |
| JsonTokens.LiteralNames | src/config.rs:1349-1360 | the three literal names, letter by letter |
| JsonTokens.NumberRange | src/config.rs:1435-1446 | the decimal digits of every number up to 2^64 - 1 read as that number, and those of every larger one are refused |
| JsonTokens.StructuralCharacters | src/config.rs:1365-1406 | a text with all six structural characters and the tree it denotes |
| JsonTokens.NestingLimit | src/config.rs:1338-1341 | arrays nested n deep are read if and only if n is at most 25, and refused as a length overflow beyond |
| JsonTokens.NodeLimit | src/config.rs:1338-1342 | an array of n items is read if and only if n is at most 4095, and refused as a length overflow beyond |
| JsonParsing.JsonParser.ParseAll | src/config.rs:1329-1336 | the parser object, run from the start, returns what the specification function returns, with its cursor inside the input |
| JsonParsing.JsonParser.ParseValue | src/config.rs:1338-1363 | one value: the cursor ends where the specification leaves its rest, strictly further on success, and the node counter agrees |
| JsonParsing.JsonParser.ParseObject | src/config.rs:1365-1388 | the object loop with its duplicate-key check, as specified |
| JsonParsing.JsonParser.ParseArray | src/config.rs:1390-1406 | the array loop, as specified |
| JsonParsing.JsonParser.ParseString | src/config.rs:1408-1433 | the string loop: escapes, refused control bytes, one character for each byte, as specified |
| JsonParsing.JsonParser.ParseNumber | src/config.rs:1435-1446 | the digit loop: no leading zero, no overflow of 64 bits, as specified |
| JsonDoc.StringRoundTrip | src/cert_bundle.rs:2418-2432 | printing a string and reading it back is the identity if and only if every character is 0x20 to 0x7e or one of line feed, carriage return and tab |
| JsonDoc.RereadString | src/config.rs:1408-1433 | what reading any printed string gives: its UTF-8 bytes as characters, or an error if it holds a control character that has no short escape |
| JsonDoc.ControlEscape | src/cert_bundle.rs:2426-2428 | every control character without a short escape is printed as a backslash, u and its code in four lower-case hexadecimal digits |
| JsonDoc.DeleteDoesNotRoundTrip | src/cert_bundle.rs:2426-2428 | the printer writes DEL as a `\u` escape, which the parser refuses |
| JsonDoc.DocReadBack | src/config.rs:1329-1489 | what parsing any printed document with sound keys gives, with any white space around it: the document with each string's bytes as characters, a length overflow beyond the limits, or an error if any string is unreadable |
| JsonDoc.DocRoundTrip | src/cert_bundle.rs:2410-2461 | printing and parsing a document is the identity if and only if all its strings are plain and it fits the depth and node limits |
| JsonSize.SameSize | src/config.rs:1338-1406 | a document that denotes the value of a derivation with unique keys has the derivation's node count and height, whatever the order of its fields |
| JsonSize.ParsedFits | src/config.rs:1338-1406 | whatever text a document's value was parsed from, the document itself is within the depth and node limits |
| Text.Utf8Injective | src/cert_bundle.rs:2104-2124 | different strings have different UTF-8 bytes |
| Hex.HexRoundTrip | src/config.rs:1167-1185 | decoding what `to_hex` wrote gives the bytes back, and the length check accepts it |
| Hex.ToHexInjective | src/provenance.rs:136-144 | `to_hex` never writes one text for two byte strings |
| TextFacts.DecodeHexIff | src/config.rs:1167-1185 | `decode_hex` accepts exactly what `to_hex` writes of some non-empty bytes, in either letter case, and returns those bytes |
| TextFacts.TrimIff | src/config.rs:426-432 | `trim` removes the white space at both ends, all of it and nothing else |
| TextFacts.ContainsIff | src/config.rs:1187-1198 | a text contains a word if and only if it is something, the word, and something |
| TextFacts.CaseMappings | src/config.rs:1187-1198 | the ASCII case mappings exchange the two alphabets letter by letter and leave every other character alone |
| TextFacts.Calendar | src/restrictions.rs:12-36 | the length of every month, with February 29 days in years divisible by four |
| TextFacts.DateOrder | src/restrictions.rs:4-9 | dates are ordered as the numbers their year, month and day form |
| Dates.IsoDateText | src/cert_bundle.rs:2369-2394 | a text parses to a date if and only if the date exists, has a two-digit year, and the text is its printed form |
| BundleWriter.JsonWriter.PushJsonEscaped | src/cert_bundle.rs:2418-2432 | the escape loop appends the escaped string |
| BundleWriter.JsonWriter.PushJsonArray | src/cert_bundle.rs:2448-2461 | the loop over a list of strings appends the text of the field `key: [..]` |
| BundleWriter.JsonWriter.PushPayload | src/cert_bundle.rs:1869-1918 | appends the text of the payload's document, fields and list elements in order |
| BundleWriter.PayloadCanonicalJson | src/cert_bundle.rs:1869-1918 | the canonical payload text is the text of the payload's document |
| BundleWriter.CertificationBundleJson | src/cert_bundle.rs:615-635 | the printed bundle is the text of its document and a line feed |
| BundleWriter.TrustAnchorsJson | src/cert_bundle.rs:572-613 | the printed anchors are the text of their document and a line feed; an anchor without expiry has no `not_after` field |
| BundleReader.StringListIff | src/cert_bundle.rs:2211-2256 | a string list is read if and only if its field is that list of at most 128 distinct clean strings (and, for the strict reader, not empty) |
| BundleReader.ScopeIff | src/cert_bundle.rs:1614-1632 | the reader returns a submission scope if and only if its strings and lists are clean and the object is exactly the one the scope prints as |
| BundleReader.StandardsIff | src/cert_bundle.rs:1634-1651 | the same for the standards target |
| BundleReader.TerminalIff | src/cert_bundle.rs:1653-1673 | the same for the terminal profile |
| BundleReader.RuntimeIff | src/cert_bundle.rs:1675-1712 | the same for the runtime policy with its four bounded timeouts |
| BundleReader.KernelsIff | src/cert_bundle.rs:1714-1733 | the same for the list of kernel registrations |
| BundleReader.CvmsIff | src/cert_bundle.rs:1735-1758 | the same for the list of CVM extension rules, with their hexadecimal lengths |
| BundleReader.TestCasesIff | src/cert_bundle.rs:1760-1781 | the same for the test plan |
| BundleReader.ArtifactsIff | src/cert_bundle.rs:1783-1802 | the same for the artifact hash bindings |
| BundleReader.PayloadIff | src/cert_bundle.rs:1457-1539 | a JSON value reads as a payload if and only if the payload is valid and the value is the one its document denotes |
| BundleRules.PayloadRules | src/cert_bundle.rs:1490-1539 | what `validate_payload` demands, check by check: four sets, the sizes, two embedded JSON texts, four timeouts, a contactless kernel where contactless is submitted, sound kernel and artifact entries |
| BundleRules.CleanStringIff | src/cert_bundle.rs:2258-2271 | a clean string is one of 1 to 4096 bytes with no white space at its ends, no control character and no stand-in word, both directions |
| BundleRules.IdentifierIff | src/cert_bundle.rs:2281-2291 | an identifier is a clean string of letters, digits, full stops, underscores and hyphens, both directions |
| BundleReader.SignatureIff | src/cert_bundle.rs:1804-1838 | the same for a signature, whose length depends on its algorithm |
| BundleReader.BundleIff | src/cert_bundle.rs:508-549 | a JSON value reads as a bundle if and only if the bundle is valid and the value is the one its document denotes |
| BundleReader.AnchorsIff | src/cert_bundle.rs:551-570 | the same for a list of trust anchors, which must not be empty |
| BundleReader.AnchorFieldsIff | src/cert_bundle.rs:1840-1867 | the same for one anchor, whose expiry may be absent |
| BundleRoundTrip.PrintedBundleParses | src/cert_bundle.rs:508-549 | a bundle's printed form parses back to the bundle if and only if the bundle is valid, all its strings are plain and it fits the limits |
| BundleRoundTrip.PrintedAnchorsParse | src/cert_bundle.rs:551-613 | the same for trust anchors, which must also fit the file size limit and not be empty |
| BundleRoundTrip.ReprintedBundle | src/cert_bundle.rs:615-635 | a bundle parsed from any text is valid and within the limits, and survives being printed and parsed again if and only if its strings are plain |
| Canonical.EscapedInjective | src/cert_bundle.rs:2418-2432 | for all strings: equal escaped texts up to a closing quote come from equal strings, whatever follows |
| Canonical.DocsInjective | src/cert_bundle.rs:2410-2461 | for all documents with sound keys: if their texts, each followed by anything that ends it, are equal, then so are the documents and what follows |
| Canonical.CanonicalTextDeterminesPayload | src/cert_bundle.rs:1869-1918 | for all payloads, valid or not and whatever characters they hold: the canonical texts are equal if and only if the payloads are |
| Canonical.SignedHashPinsPayload | src/cert_bundle.rs:475-480 | two loads accepted under one signed payload hash, in any two policies, loaded the same payload unless SHA-256 collides |
| BundleTrust.SameMessage | src/cert_bundle.rs:2104-2124 | two signed messages are equal if and only if the hashes are and the NUL-joined signer and fingerprint are |
| BundleTrust.NulMovesTheBoundary | src/cert_bundle.rs:2104-2124 | with a NUL inside a name, two different pairs of names give one message |
| BundleTrust.MessageIsInjective | src/cert_bundle.rs:2104-2124 | among signers without NUL, the message determines signer, fingerprint and hash |
| BundleTrust.ParsedBundlesAreFramed | src/cert_bundle.rs:2104-2124 | bundles parsed from any texts sign equal messages if and only if signer, fingerprint and payload hash are equal |
| BundleTrust.FindsTheFirst | src/cert_bundle.rs:1557-1564 | the chosen anchor is the first whose signer and fingerprint match, and there is one unless none matches |
| BundleRules.AnchorChoice | src/cert_bundle.rs:1556-1563 | an anchor is chosen if and only if it is the first in the list that names both the signer and the key of the signature |
| BundleRules.SelfAttested | src/cert_bundle.rs:1541-1552 | only a testing bundle in test mode attests to itself, under the spelt-out test algorithm and with 32 bytes of signature, both directions |
| BundleRules.SignedPrefix | src/cert_bundle.rs:2104-2124 | what is signed starts with the name of the format and a NUL |
| BundleTrust.SignatureVerdict | src/cert_bundle.rs:1541-1588 | the verdict is "testing-self-attested" if and only if algorithm, class and mode are all the testing ones and the signature is 32 bytes of hexadecimal; it is "trust-anchor-verified" if and only if the algorithm is the Ed25519 one and the first matching anchor is unexpired, pinned to the payload, holds the fingerprinted key and verifies the message |
| BundleTrust.AcceptedLoad | src/cert_bundle.rs:462-506 | every accepted load parses to the loaded bundle, is not from the future, is newer than the installed counter, has a signed payload hash that is the hash of its own canonical text, and outside test mode is of certification class, vouched for by an anchor, with a certification profile set whose version is the bundle's counter |
| Rollback.EveryRunIsSafe | src/cert_bundle.rs:462-506 | for every run of load attempts from every installed counter: accepted counters strictly increase above the initial one, no bundle and no text is accepted twice, and every step accepted in certification or production mode rests on the first matching anchor, unexpired, pinned and verifying |
| Rollback.CounterNeverDecreases | src/config.rs:238-240 | the installed counter never decreases along a run |
| Rollback.AcceptedCountersIncrease | src/config.rs:282-287 | any two accepted steps of a run carry counters in strictly increasing order, above the initial one |
| BundleProvision.CsvRoundTrip | src/cert_bundle.rs:2347-2367 | joining trimmed non-empty items without commas and splitting them again gives the items |
| BundleProvision.CreateBundleFromInputs | src/cert_bundle.rs:637-757 | the two files returned are the printed forms of the created bundle and of its one anchor, or the first check's error |
| CreatedRecords.PayloadIsGood | src/cert_bundle.rs:652-717 | the created payload passes every check the payload reader makes |
| CreatedRecords.BundleFits | src/cert_bundle.rs:637-757 | a created bundle is within the JSON depth and node limits however long its texts are |
| BundleEndToEnd.CreatedCarriesInputs | src/cert_bundle.rs:652-750 | every input reaches the record field it is for, the artifact hashes bind the two embedded files, and signature and anchor name the same signer, key and payload |
| BundleEndToEnd.CreatedFixedTexts | src/cert_bundle.rs:674-712 | the texts of a created payload that no input reaches, spelt out: schema version, algorithm, runtime policy, baseline CVM rule, test case and artifact identifiers |
| BundleEndToEnd.CreatedKeys | src/cert_bundle.rs:718-750 | anchor key, fingerprint, signature and signature hash are those of the given secret, or of the built-in fixture secret when none is given |
| BundleEndToEnd.CreatedIsSound | src/cert_bundle.rs:637-757 | a bundle and anchor created from printable inputs are valid, plain and within the limits |
| BundleEndToEnd.CreatedAnchorsParse | src/cert_bundle.rs:572-613 | the created anchors file parses to the created anchor |
| BundleEndToEnd.CreatedSignatureVerifies | src/cert_bundle.rs:1541-1588 | under a correct signature scheme a created signature verifies against the created anchor exactly until the anchor expires |
| BundleEndToEnd.LoadsExactlyWhen | src/cert_bundle.rs:462-506 | for all inputs: against the created anchor the created file loads unchanged and trust-anchor-verified if and only if the bundle is valid, plain and within the parser's limits, the file fits 4 MiB, the policy permits and the embedded profile set loads |
| BundleEndToEnd.NoOtherPayloadLoads | src/cert_bundle.rs:475-480 | for all inputs and every policy: if the created file loads at all, it loads the payload that was created, unless SHA-256 collides |
| BundleEndToEnd.CreatedBundlesLoad | src/cert_bundle.rs:637-757 | under a correct signature scheme, with the created anchors file parsed into the policy, the created bundle file loads unchanged and trust-anchor-verified if and only if it fits 4 MiB, the policy's date, counter, class and anchor expiry permit, and the embedded profile set loads |
| BundleWitness.PremisesCanBeMet | src/cert_bundle.rs:637-757 | for a small printable input a bundle is created whatever the cryptography and the secret, so the end-to-end theorem is not vacuous |
| BundleWitness.SomeCryptoIsCorrect | src/cert_bundle.rs:2126-2134 | some signature scheme meets the correctness assumption |
| CompileReport.CompileBundle | src/cert_bundle.rs:247-361 | the compiled report holds the findings, coverage, hashes, verification status and final status that the lints, the coverage tables and the status rule give for the two files |
| CompileReport.Report.LintParsedBundle | src/cert_bundle.rs:958-1101 | the lints of a parsed bundle append exactly the specified findings, in order |
| CompileReport.Report.LintTrustAnchors | src/cert_bundle.rs:1117-1157 | the lints of the anchors append exactly the specified findings, in order |
| CompileReport.StatusIsSound | src/cert_bundle.rs:1393-1417 | the status is other than "fail" if and only if both files parse, the loader accepts the bundle, its coverage is complete and no provisioned anchor has expired |
| CompileReport.CompleteCoverage | src/cert_bundle.rs:1159-1249 | no coverage item is "incomplete" if and only if the bundle is trust-anchor-verified and has every listed capability |
| CompileReport.PassIsClean | src/cert_bundle.rs:1393-1417 | the status is "pass" if and only if the files compile and moreover no reference is pending, the vectors are certification vectors and no anchor holds the fixture key; every other pair of files that compiles is a "warn" |
| CompileRules.PendingIff | src/cert_bundle.rs:1103-1115 | a reference counts as pending if and only if it mentions pending, external or required evidence, in any mixture of letter cases |
| CompileRules.VectorsIff | src/cert_bundle.rs:1251-1290 | vectors are incomplete unless they parse to an object with a class, and covered if and only if they are of certification class, not provisional, not empty, and mention all three card authentications |
| CompileRules.PartialCoverage | src/cert_bundle.rs:1290-1333 | the four capabilities reported when the loader refuses, and exactly when the contact and contactless ones are covered |
| CompileReport.AcceptedMeansNoPolicyErrors | src/cert_bundle.rs:963-992 | when the loader accepts, the error findings are at most masking, malformed vectors and expired anchors: class, rollback, creation date, bulletins and empty anchor list are not among them |
| CompileReport.ParsedFindings | src/cert_bundle.rs:1393-1417 | the exact set of paths with an error finding, and of those with a warning, when both files parse |
| Sha1Streaming.Sha1.Update | src/sha1.rs:26-49 | for any chunk the object goes from having absorbed a message to having absorbed the message and the chunk: its state is the fold of the compression function over the whole blocks and its buffer the remainder |
| Sha1Streaming.Sha1.Finalize | src/sha1.rs:51-68 | the digest is SHA-1 of everything absorbed, padded as section 5.1.1 of FIPS 180-4 says, in one or two blocks |
| Sha1Streaming.Sha1.ProcessBlock | src/sha1.rs:70-106 | the state becomes the compression of section 6.1.2 of FIPS 180-4, for every state and block |
| Sha1Streaming.Sha1.ExpandWords | src/sha1.rs:70-80 | the eighty words are the message schedule |
| Sha1Streaming.CapkChecksumComponents | src/config.rs:974-986 | four updates hash the concatenation of RID, index, modulus and exponent |
| Sha1Spec.FoldConcat | src/sha1.rs:26-49 | folding over a concatenation of whole blocks is folding over one part and then the other |
| Sha1Spec.LogicalForms | src/sha1.rs:85-92 | the OR forms of Ch and Maj in the code equal the XOR forms of the standard |
| Sha1Arithmetic.BitsNumber | src/sha1.rs:70-80 | the low bits of a number denote the number modulo the power of two, for every number and width |
| Sha1Arithmetic.AddNumber | src/sha1.rs:88-93 | `wrapping_add` is addition modulo 2^32 |
| Sha1Arithmetic.RotateNumber | src/sha1.rs:76-96 | `rotate_left` multiplies by a power of two and wraps the overflow round to the low end |
| Sha1Arithmetic.LogicNumbers | src/sha1.rs:82-87 | exclusive or, conjunction, disjunction and complement in terms of sums: x + y is their exclusive or and twice their conjunction, and so on |
| Sha1Arithmetic.FromBigEndianNumber | src/sha1.rs:72-74 | four bytes make the word that weighs them from the most significant down |
| Sha1Arithmetic.BigEndianRoundTrip | src/sha1.rs:63-74 | writing a word as bytes and reading bytes as a word undo each other |
| Sha1Arithmetic.BlockWords | src/sha1.rs:72-74 | each of the first sixteen words of a block is the number of its four bytes |
| Sha1Arithmetic.MixNumber | src/sha1.rs:88-93 | the five-term sum of a round, with its rotation by five, in arithmetic modulo 2^32 |
| Sha1Arithmetic.RoundNumbers | src/sha1.rs:81-99 | one round: the mixed word enters in front, the second word is rotated by thirty, the others move on |
| Sha1Arithmetic.PlusNumbers | src/sha1.rs:101-105 | the working variables are added to the hash value word by word modulo 2^32 |
| Sha1Arithmetic.RoundConstants | src/sha1.rs:82-87 | each round constant is the whole part of 2^30 times the square root of 2, 3, 5 or 10, for twenty rounds each |
| Sha1Arithmetic.InitialNumbers | src/sha1.rs:11-24 | the five initial words as numbers |
| Sha1Arithmetic.PaddedShape | src/sha1.rs:51-61 | for every message: the padding is 0x80, zeros and the bit length as eight bytes, in the least number of blocks |
| Sha1Arithmetic.DigestWords | src/sha1.rs:62-67 | the digest is the five words in order, each most significant byte first |
| Sha1Streaming.PadTwoBlocks | src/sha1.rs:51-60 | a remainder of 56 bytes or more pads to two blocks that together are the standard's padding |
| Sha1Streaming.PadOneBlock | src/sha1.rs:51-60 | a shorter remainder pads to one block that is the standard's padding |
| Profile.LoadedLocally | src/config.rs:230-288 | what the checks of an admitted profile set establish one by one: version above the installed one, distinct RIDs, sound schemes, signature and class outside test mode, declared scope matched |
| Profile.AidsAreDistinct | src/config.rs:580-594 | distinct RIDs, AIDs under their scheme's RID and no repeat within a scheme together leave no AID repeated in the whole set |
| Profile.CapksAreDistinct | src/config.rs:631-641 | the same for CAPK identities (RID and index) |
| Profile.NamesAreTheDeclaredSet | src/config.rs:299-322 | equal counts and mutual membership force the scheme names to be pairwise distinct and exactly the declared set |
| Profile.AdmittedSetsAreConsistent | src/config.rs:230-288 | every admitted profile set has no AID and no CAPK identity twice anywhere, AIDs with consistent limits and CDA controls, CAPKs that belong to their scheme, are unexpired and carry their own checksum, and under a certification scope pairwise distinct scheme names equal to the declared set |
| ProfileReader.AidIff | src/config.rs:655-787 | an object reads as an AID if and only if each named field holds the corresponding value of the AID, in range, and no other field is present: both directions, every field |
| ProfileReader.DolLanguage | src/dol.rs:98-186 | a default CDOL1 is accepted if and only if it is the text of at most 128 pairs of a one to four byte tag and a length |
| ProfileReader.ActionCodesIff | src/config.rs:762-771 | the three action codes are read each from its own field |
| ProfileReader.RelayIff | src/config.rs:827-869 | relay resistance is read as present if and only if its object is required and its fields hold a short command, a limit, a response and an outcome; as absent if missing or not required |
| ProfileReader.CdaIff | src/config.rs:737-757 | the CDA controls are read if and only if their fields hold them and they agree with one another |
| ProfileSetReader.CapkIff | src/config.rs:901-972 | an object reads as a CAPK if and only if its fields hold the key, its unexpired date and its source, and for certification the checksum is the SHA-1 of the components |
| ProfileSetReader.SourceObjectIff | src/config.rs:383-432 | a source object reads as the source its fields hold, under the extra demands of a certification profile |
| ProfileSetReader.SchemeIff | src/config.rs:493-578 | an object reads as a scheme if and only if its fields hold name, RID, kernels, default actions, AIDs and CAPKs, and the checks across them pass |
| ProfileSetReader.ScopeIff | src/config.rs:434-491 | a certification scope applies exactly to certification profiles, and declares the bundled names its field holds |
| ProfileSetReader.LoadedExactlyWhen | src/config.rs:230-288 | for every text, policy and profile set: the set is loaded if and only if the policy lets one be loaded, the text parses to an object whose fields denote that set, and its scheme names are exactly the declared ones, each once |
| Profile.ParseAid | src/config.rs:655-787 | an accepted AID has 5 to 16 bytes, distinct known interfaces, ordered offline limits, a CVM limit within the transaction limit, CDA controls that agree, five-byte action codes, distinct floor-limit types and script instructions, and a relay command the short-command decoder accepts; which field each value comes from is `ProfileReader.AidIff` |
| Profile.ParseScheme | src/config.rs:493-578 | an accepted scheme has a proper RID, AIDs under it without repeats, and sound CAPKs without repeated identities; the exact reader is `ProfileSetReader.SchemeIff` |
| Cvm.ParseCvmList | src/cvm.rs:329-357 | both error conditions exactly, and otherwise the two amounts and the rules in order with their decoded methods |
| Cvm.Evaluate | src/cvm.rs:394-423 | the outcome is the one the first decisive rule fixes, with the TVR bit last reported up to it; without a decisive rule it is the fixed failure |
| Cvm.MethodTable | src/cvm.rs:425-516 | for each method code, on a one-rule list given as bytes: the action and results when it is available, and the TVR bit of the failure when it is not |
| Cvm.CombinedMethodTable | src/cvm.rs:439-503 | the two PIN-and-signature methods likewise: they need both, and report a PIN bit only for what is wrong with the PIN |
| Cvm.ConditionTable | src/cvm.rs:518-544 | for each condition code, on a one-rule list given as bytes: exactly when the rule is selected |
| Cvm.SupportTable | src/cvm.rs:546-561 | under "if the terminal supports the CVM" a rule is skipped exactly when the terminal lacks its method |
| Cvm.AmountConditions | src/cvm.rs:525-541 | under rules stay matched as the amount falls and over rules as it rises; in matching currency exactly one of them matches unless the amount equals its bound |
| Cvm.MethodCodes | src/cvm.rs:52-65 | the low six bits of a code determine the method, and different low bits give different methods |
| Cvm.AmountBytes | src/cvm.rs:336-340 | an amount of the list is the number of its four bytes |
| Cvm.DecisionIsUnique | src/cvm.rs:394-423 | the declarative decision determines rule and outcome |
| Cvm.FallbackIsIdle | src/cvm.rs:464-476 | the second `or_else` of `cvm_failed` never changes the answer |
| Cvm.AvailableReportsNothing | src/cvm.rs:482-503 | a method with an action never contributes a TVR bit |
| Cvm.ActionCarriesTheRightHandle | src/cvm.rs:425-462 | an offline-PIN action carries the supplied handle of its own kind and needs a terminal that supports it; signature, online PIN and CDCVM actions need their support |
| Cvm.ResultsNameTheDecisiveRule | src/cvm.rs:302-327 | decoding the CVM results gives the decisive rule's method, condition and verdict |
| Afl.ParseAfl | src/afl.rs:29-67 | accepted if and only if every four-byte chunk is a valid entry within the count limit; the entries are the chunks in order |
| Afl.RecordCount | src/afl.rs:17-19 | the 8-bit arithmetic stays in range and counts the inclusive range |
| Afl.RecordPlan | src/afl.rs:69-91 | the nested loops compute the step-by-step plan of the concatenated ranges |
| Afl.BuildSucceeds | src/afl.rs:69-91 | a plan succeeds if and only if it has at most 256 locators and names no record twice, and is then the input unchanged |
| Afl.DistinctIffDisjoint | src/afl.rs:69-91 | no record is named twice if and only if ranges with the same SFI are pairwise disjoint |
| Afl.PlanExists | src/afl.rs:69-91 | on parsed entries a plan exists if and only if the total is at most 256 and same-SFI ranges are disjoint; it is the ranges in order, without repeats, with the declared number of offline-authentication records |
| Afl.FirstOffenderFixesError | src/afl.rs:73-81 | a failing plan has a first offending position, and that position alone fixes the error kind |
| Afl.PlanToCommands | src/afl.rs:93-98 | commands exist exactly when the plan does, one for each locator in order, class 00, instruction B2, P1 the record, P2 the file with the low bits 100, no data and Le 00, no two alike |
| Apdu.Encode | src/apdu.rs:48-63 | the bytes appended are header, Lc and data when there is data, and Le when there is one; data above 255 bytes is refused |
| Apdu.Parse | examples/krn_emv_decode.rs:797-835 | the decoder's branch-by-branch record is the short form of the bytes, each rejection for its own reason |
| Apdu.DecodeEncoded | examples/krn_emv_decode.rs:797-835 | decoding any encoded command gives back header, data length and Le |
| Apdu.AcceptedAreTheEncodings | examples/krn_emv_decode.rs:797-835 | the decoder accepts exactly the image of the encoder |
| Apdu.EncodingInjective | src/apdu.rs:48-63 | different commands have different bytes |
| Apdu.RelayCheckAgreesWithDecoder | src/c8.rs:297-312 | from four bytes on, the relay-resistance check accepts the same strings as the decoder |
| Apdu.RelayCommandsAreEncodings | src/c8.rs:275-295 | a relay profile is accepted for exactly the strings that encode a command; its length window excludes none |
| Apdu.GenerateAc | src/apdu.rs:190-220 | the request type stays in the top two bits of P1 and CDA bits below them; both error conditions exactly |
| Apdu.ReadableRecords | src/apdu.rs:124-136 | READ RECORD is built exactly for a non-zero record of one of the thirty files, with its six fixed parts spelt out |
| Numeric.EncodeNumericBcdFixed | src/numeric.rs:3-25 | succeeds if and only if the width is at most nine bytes and the value below ten to the digit count; the bytes are its packed BCD; both error kinds |
| Numeric.FoldIsExact | src/numeric.rs:27-35 | stopping at the first overflowing prefix loses nothing |
| Numeric.DecodeIsExact | src/numeric.rs:27-47 | for any length decoding succeeds if and only if all nibbles are decimal and the value fits 64 bits, and returns that value |
| Numeric.ByteAppended | src/numeric.rs:12-22 | one more byte appends its high digit and then its low one to the value |
| Numeric.DecodeInvertsEncode | src/numeric.rs:3-35 | decoding an encoding gives the value back |
| Numeric.EncodeInvertsDecode | src/numeric.rs:3-35 | a decodable string of at most nine bytes is the one and only encoding of its value at its width |
| DataBoundary.ProductionSource | src/data_boundary.rs:237-253 | the scan with its remembered attribute line returns the specified production text |
| DataBoundary.ProductionIsThePrefix | src/data_boundary.rs:237-253 | that text is a prefix that ends where the last `#[cfg(test)]` line governing the first `mod tests` begins, or nowhere, and no other text meets the description |
| DataBoundary.JoinedLines | src/data_boundary.rs:240-251 | the lines put together again are the text |
| DataBoundary.HitMeaning | src/data_boundary.rs:190-205 | a finding is reported if and only if the named line of the production text contains the named literal |
| BoundaryRules.LineKinds | src/data_boundary.rs:240-249 | a line is the test attribute, opens tests, or is skipped over, according to its text between white space |
| BoundaryRules.InputIff | src/data_boundary.rs:215-235 | an input is valid if and only if it is not empty and its path is relative, ends in .rs, has at most 256 plain characters and no empty or dotted segment |
| BoundaryRules.SegmentsJoin | src/data_boundary.rs:226-233 | the segments of a path hold no slash and make up the path again |
| DataBoundary.AuditVariableDataBoundary | src/data_boundary.rs:172-213 | succeeds exactly when every limit holds and every input is valid, with all hits in order; an invalid argument is reported exactly when an invalid input comes before any limit |

## Left out

- Numeric.EncodeNumericBcdFixed: does not model widths of 2^31 bytes and more, because the code truncates the digit count to 32 bits there.
- Sha1Streaming.Sha1.Update: messages of 2^61 bytes and more, whose bit length overflows 64 bits.
- Sha1Streaming.Sha1.Finalize: the same message length limit.
- BundleEndToEnd.CreatedBundlesLoad: puts the condition on the inputs for printable ASCII only; for other inputs the exact condition is on the created bundle (`LoadsExactlyWhen`), and `NoOtherPayloadLoads` says what cannot happen.
- CompileReport.CompileBundle: the titles, impacts and suggestions of findings and the prose of coverage items; paths and capabilities are enumerations.
- DataBoundary.ProductionSource: offsets are counted in characters rather than bytes; lines are cut at the same places.
- DataBoundary.AuditVariableDataBoundary: the table of forbidden literals is a parameter.
- Ed25519 and SHA-256 themselves, and the hash comparison beyond equality of hexadecimal texts.
- Printing of compile reports and audits, certification reports, the HTML workbench, the command line tools and file input and output.
- DOL value assembly, GET PROCESSING OPTIONS, SELECT and authentication command builders, which add only easy members.
- `apply_offline_pin_verify_status`, contactless limits and outcomes, and the finite bit tables (AIP, CID, TTQ, TVR), each decided by one branch.
- TLV parsing, the transaction state machine, offline data authentication, terminal risk management and the foreign function interface.
- Directory walks and substring scans of artifact import, coverage, authority formats and conformance tables.
- `Debug` redaction and memory layout.
- Memory use: sequences stand for vectors and strings, and allocation always succeeds.
