/** Cardholder verification method lists (src/cvm.rs; section 10.5 of EMV 4.3 Book 3). */
module Cvm {
  import opened Kernel

  const MAX_CVM_RULES: nat := 64

  /** A bit of the terminal verification results: byte index and mask. */
  type TvrBit = (nat, byte)

  // src/state.rs
  const NOT_SUCCESSFUL: TvrBit := (2, 0x80)
  const UNRECOGNIZED_CVM: TvrBit := (2, 0x40)
  const PIN_PAD_NOT_PRESENT: TvrBit := (2, 0x10)
  const PIN_NOT_ENTERED: TvrBit := (2, 0x08)

  datatype CvmMethod =
    | OfflinePlaintextPin
    | OnlinePin
    | OfflinePlaintextPinAndSignature
    | OfflineEncipheredPin
    | OfflineEncipheredPinAndSignature
    | Signature
    | FailCvmProcessing
    | NoCvmRequired
    | SchemeSpecific(code: byte)
    | Unknown(code: byte)

  /** `CvmMethod::from_code`: the low six bits name the method. */
  function FromCode(code: byte): CvmMethod {
    var m: byte := code % 0x40;
    if m == 0x01 then OfflinePlaintextPin
    else if m == 0x02 then OnlinePin
    else if m == 0x03 then OfflinePlaintextPinAndSignature
    else if m == 0x04 then OfflineEncipheredPin
    else if m == 0x05 then OfflineEncipheredPinAndSignature
    else if m == 0x06 then Signature
    else if m == 0x1e then FailCvmProcessing
    else if m == 0x1f then NoCvmRequired
    else if m >= 0x20 then SchemeSpecific(m)
    else Unknown(m)
  }

  datatype CvmRule = CvmRule(rawCode: byte, cvm: CvmMethod, conditionCode: byte) {
    /** `continue_on_failure`: bit 0x40 of the raw code. */
    predicate ContinueOnFailure() {
      rawCode / 0x40 % 2 == 1
    }
  }

  datatype CvmList = CvmList(amountX: nat, amountY: nat, rules: seq<CvmRule>)

  datatype Interface = Contact | Contactless

  datatype TransactionType = NonCash | UnattendedCash | ManualCash | PurchaseWithCashback

  datatype CvmContext = CvmContext(
    amountAuthorized: nat, currencyMatches: bool, transactionType: TransactionType, iface: Interface,
    offlinePinSupported: bool, onlinePinSupported: bool, signatureSupported: bool, cdcvmPerformed: bool)

  type PedPinHandle = h: nat | h != 0 witness 1

  datatype PinHandles = PinHandles(plaintext: Option<PedPinHandle>, enciphered: Option<PedPinHandle>)

  datatype CvmAction =
    | DoNothing
    | DoOnlinePin
    | DoSignature
    | DoPlaintextPin(handle: PedPinHandle)
    | DoEncipheredPin(handle: PedPinHandle)
    | DoPlaintextPinAndSignature(handle: PedPinHandle)
    | DoEncipheredPinAndSignature(handle: PedPinHandle)
    | DoCdcvm

  datatype CvmOutcome =
    | Selected(action: CvmAction, results: seq<byte>, selectedBit: Option<TvrBit>)
    | Failed(results: seq<byte>, failedBit: TvrBit)

  // ---------------------------------------------------------------- parsing

  function BigEndian32(b: seq<byte>): nat
    requires |b| == 4
  {
    (b[0] as nat) * 0x100_0000 + (b[1] as nat) * 0x1_0000 + (b[2] as nat) * 0x100 + b[3]
  }

  /** The bytes are two amounts, then two bytes for every rule of the list. */
  predicate Lists(input: seq<byte>, list: CvmList) {
    && |input| == 8 + 2 * |list.rules|
    && list.amountX == BigEndian32(input[0..4]) && list.amountY == BigEndian32(input[4..8])
    && forall i | 0 <= i < |list.rules| ::
         list.rules[i] == CvmRule(input[8 + 2 * i], FromCode(input[8 + 2 * i]), input[9 + 2 * i])
  }

  /** `parse_cvm_list`: two amounts, then one rule for every two bytes. */
  method ParseCvmList(input: seq<byte>) returns (r: Result<CvmList>)
    ensures r == Err(ParseError) <==> |input| < 8 || |input| % 2 != 0
    ensures r == Err(LengthOverflow) <==> |input| % 2 == 0 && |input| > 8 + 2 * 64
    ensures r.Err? ==> r.error == ParseError || r.error == LengthOverflow
    ensures r.Ok? ==> Lists(input, r.value)
  {
    if |input| < 8 || (|input| - 8) % 2 != 0 {
      return Err(ParseError);
    }
    var ruleCount := (|input| - 8) / 2;
    if ruleCount > MAX_CVM_RULES {
      return Err(LengthOverflow);
    }
    var rules: seq<CvmRule> := [];
    for i := 0 to ruleCount
      invariant |rules| == i
      invariant forall j | 0 <= j < i ::
        rules[j] == CvmRule(input[8 + 2 * j], FromCode(input[8 + 2 * j]), input[9 + 2 * j])
    {
      var rawCode := input[8 + 2 * i];
      rules := rules + [CvmRule(rawCode, FromCode(rawCode), input[9 + 2 * i])];
    }
    return Ok(CvmList(BigEndian32(input[0..4]), BigEndian32(input[4..8]), rules));
  }

  // ---------------------------------------------------------------- single rules

  function WithHandle(handle: Option<PedPinHandle>, action: PedPinHandle -> CvmAction): Option<CvmAction> {
    match handle
    case Some(h) => Some(action(h))
    case None => None
  }

  /** `action_for_method`. */
  function ActionFor(cvm: CvmMethod, c: CvmContext, pins: PinHandles): Option<CvmAction> {
    match cvm
    case NoCvmRequired => Some(DoNothing)
    case OnlinePin => if c.onlinePinSupported then Some(DoOnlinePin) else None
    case Signature => if c.signatureSupported then Some(DoSignature) else None
    case OfflinePlaintextPin =>
      if c.offlinePinSupported then WithHandle(pins.plaintext, (h: PedPinHandle) => DoPlaintextPin(h)) else None
    case OfflineEncipheredPin =>
      if c.offlinePinSupported then WithHandle(pins.enciphered, (h: PedPinHandle) => DoEncipheredPin(h)) else None
    case OfflinePlaintextPinAndSignature =>
      if c.offlinePinSupported && c.signatureSupported
      then WithHandle(pins.plaintext, (h: PedPinHandle) => DoPlaintextPinAndSignature(h)) else None
    case OfflineEncipheredPinAndSignature =>
      if c.offlinePinSupported && c.signatureSupported
      then WithHandle(pins.enciphered, (h: PedPinHandle) => DoEncipheredPinAndSignature(h)) else None
    case SchemeSpecific(_) => if c.iface == Contactless && c.cdcvmPerformed then Some(DoCdcvm) else None
    case _ => None
  }

  /** `pin_cvm_unavailable_bit`. */
  function PinUnavailableBit(supported: bool, handle: Option<PedPinHandle>): Option<TvrBit> {
    if !supported then Some(PIN_PAD_NOT_PRESENT) else if handle.None? then Some(PIN_NOT_ENTERED) else None
  }

  /** `cvm_unavailable_bit`. */
  function UnavailableBit(cvm: CvmMethod, c: CvmContext, pins: PinHandles): Option<TvrBit> {
    match cvm
    case Unknown(_) => Some(UNRECOGNIZED_CVM)
    case OnlinePin => if !c.onlinePinSupported then Some(PIN_PAD_NOT_PRESENT) else None
    case OfflinePlaintextPin => PinUnavailableBit(c.offlinePinSupported, pins.plaintext)
    case OfflinePlaintextPinAndSignature => PinUnavailableBit(c.offlinePinSupported, pins.plaintext)
    case OfflineEncipheredPin => PinUnavailableBit(c.offlinePinSupported, pins.enciphered)
    case OfflineEncipheredPinAndSignature => PinUnavailableBit(c.offlinePinSupported, pins.enciphered)
    case _ => None
  }

  /** `terminal_supports_method`. */
  predicate TerminalSupports(cvm: CvmMethod, c: CvmContext) {
    match cvm
    case OfflinePlaintextPin => c.offlinePinSupported
    case OfflinePlaintextPinAndSignature => c.offlinePinSupported
    case OfflineEncipheredPin => c.offlinePinSupported
    case OfflineEncipheredPinAndSignature => c.offlinePinSupported
    case OnlinePin => c.onlinePinSupported
    case Signature => c.signatureSupported
    case NoCvmRequired => true
    case FailCvmProcessing => true
    case SchemeSpecific(_) => c.iface == Contactless
    case Unknown(_) => false
  }

  /** `condition_matches`. */
  predicate ConditionMatches(rule: CvmRule, list: CvmList, c: CvmContext) {
    match rule.conditionCode
    case 0x00 => true
    case 0x01 => c.transactionType == UnattendedCash
    case 0x02 => c.transactionType == NonCash
    case 0x03 => TerminalSupports(rule.cvm, c)
    case 0x04 => c.transactionType == ManualCash
    case 0x05 => c.transactionType == PurchaseWithCashback
    case 0x06 => c.currencyMatches && c.amountAuthorized < list.amountX
    case 0x07 => c.currencyMatches && c.amountAuthorized > list.amountX
    case 0x08 => c.currencyMatches && c.amountAuthorized < list.amountY
    case 0x09 => c.currencyMatches && c.amountAuthorized > list.amountY
    case _ => false
  }

  function ResultBytes(rule: CvmRule, result: byte): seq<byte> {
    [rule.rawCode % 0x40, rule.conditionCode, result]
  }

  // ---------------------------------------------------------------- the declarative decision

  /** A rule that ends processing: it applies, and it either has an action or does not let processing continue. */
  predicate Decisive(rule: CvmRule, list: CvmList, c: CvmContext, pins: PinHandles) {
    ConditionMatches(rule, list, c) && (ActionFor(rule.cvm, c, pins).Some? || !rule.ContinueOnFailure())
  }

  ghost predicate FirstDecisive(d: nat, list: CvmList, c: CvmContext, pins: PinHandles) {
    && d < |list.rules|
    && Decisive(list.rules[d], list, c, pins)
    && forall i | 0 <= i < d :: !Decisive(list.rules[i], list, c, pins)
  }

  /** A rule that applies and reports why its method is unavailable. */
  predicate Reports(rule: CvmRule, list: CvmList, c: CvmContext, pins: PinHandles) {
    ConditionMatches(rule, list, c) && UnavailableBit(rule.cvm, c, pins).Some?
  }

  /** `bit` is the one reported by the last reporting rule among the first `n`, or nothing when none reports. */
  ghost predicate LastReport(bit: Option<TvrBit>, n: nat, list: CvmList, c: CvmContext, pins: PinHandles)
    requires n <= |list.rules|
  {
    match bit
    case None => forall i | 0 <= i < n :: !Reports(list.rules[i], list, c, pins)
    case Some(_) => exists i | 0 <= i < n ::
      && Reports(list.rules[i], list, c, pins)
      && bit == UnavailableBit(list.rules[i].cvm, c, pins)
      && forall j | i < j < n :: !Reports(list.rules[j], list, c, pins)
  }

  /** The outcome the decisive rule `d` fixes, with the TVR bit last reported up to and including it. */
  ghost predicate DecidedBy(
    outcome: CvmOutcome, d: nat, list: CvmList, c: CvmContext, pins: PinHandles)
    requires d < |list.rules|
  {
    var rule := list.rules[d];
    match ActionFor(rule.cvm, c, pins)
    case Some(action) =>
      && outcome.Selected?
      && outcome.action == action
      && outcome.results == ResultBytes(rule, 0x02)
      && LastReport(outcome.selectedBit, d + 1, list, c, pins)
    case None =>
      && outcome.Failed?
      && outcome.results == ResultBytes(rule, 0x01)
      && (LastReport(Some(outcome.failedBit), d + 1, list, c, pins)
          || (LastReport(None, d + 1, list, c, pins) && outcome.failedBit == NOT_SUCCESSFUL))
  }

  /** An available method never reports a reason for being unavailable. */
  lemma AvailableReportsNothing(cvm: CvmMethod, c: CvmContext, pins: PinHandles)
    requires ActionFor(cvm, c, pins).Some?
    ensures UnavailableBit(cvm, c, pins).None?
  {
  }

  /** `or_else`. */
  function OrElse(a: Option<TvrBit>, b: Option<TvrBit>): Option<TvrBit> {
    if a.Some? then a else b
  }

  /** `cvm_failed`. */
  function CvmFailed(rule: CvmRule, c: CvmContext, pins: PinHandles, observed: Option<TvrBit>): CvmOutcome {
    var bit := OrElse(observed, UnavailableBit(rule.cvm, c, pins));
    Failed(ResultBytes(rule, 0x01), if bit.Some? then bit.value else NOT_SUCCESSFUL)
  }

  /** `cvm_failed` never falls back on its own look at the rule: a bit the rule reports was observed already. */
  lemma FallbackIsIdle(rule: CvmRule, c: CvmContext, pins: PinHandles, before: Option<TvrBit>)
    ensures
      var own := UnavailableBit(rule.cvm, c, pins);
      var observed := if own.Some? then own else before;
      CvmFailed(rule, c, pins, observed)
        == Failed(ResultBytes(rule, 0x01), if observed.Some? then observed.value else NOT_SUCCESSFUL)
  {
  }

  /** The first decisive rule fixes the outcome, and without one it is the fixed failure. */
  ghost predicate Decides(outcome: CvmOutcome, list: CvmList, c: CvmContext, pins: PinHandles) {
    && (forall d | FirstDecisive(d, list, c, pins) :: DecidedBy(outcome, d, list, c, pins))
    && ((forall d :: !FirstDecisive(d, list, c, pins)) ==> outcome == Failed([0x3f, 0x00, 0x01], NOT_SUCCESSFUL))
  }

  /** `evaluate`. On exhaustion the tracked bit is dropped and the default bit reported. */
  method Evaluate(list: CvmList, c: CvmContext, pins: PinHandles) returns (outcome: CvmOutcome)
    ensures Decides(outcome, list, c, pins)
  {
    var selectedBit: Option<TvrBit> := None;
    for i := 0 to |list.rules|
      invariant forall j | 0 <= j < i :: !Decisive(list.rules[j], list, c, pins)
      invariant LastReport(selectedBit, i, list, c, pins)
    {
      var rule := list.rules[i];
      if !ConditionMatches(rule, list, c) {
        ReportStep(selectedBit, i, list, c, pins);
        continue;
      }
      var action := ActionFor(rule.cvm, c, pins);
      ReportStep(selectedBit, i, list, c, pins);
      if action.None? {
        var bit := UnavailableBit(rule.cvm, c, pins);
        if bit.Some? {
          selectedBit := bit;
        }
        if rule.ContinueOnFailure() {
          continue;
        }
        outcome := CvmFailed(rule, c, pins, selectedBit);
        assert FirstDecisive(i, list, c, pins) && DecidedBy(outcome, i, list, c, pins);
        return;
      }
      AvailableReportsNothing(rule.cvm, c, pins);
      outcome := Selected(action.value, ResultBytes(rule, 0x02), selectedBit);
      assert FirstDecisive(i, list, c, pins) && DecidedBy(outcome, i, list, c, pins);
      return;
    }
    return Failed([0x3f, 0x00, 0x01], NOT_SUCCESSFUL);
  }

  /** How the last report moves past one more rule. */
  lemma ReportStep(bit: Option<TvrBit>, i: nat, list: CvmList, c: CvmContext, pins: PinHandles)
    requires i < |list.rules| && LastReport(bit, i, list, c, pins)
    ensures LastReport(
      if Reports(list.rules[i], list, c, pins) then UnavailableBit(list.rules[i].cvm, c, pins) else bit,
      i + 1, list, c, pins)
  {
    if bit.Some? && !Reports(list.rules[i], list, c, pins) {
      var k :| 0 <= k < i && Reports(list.rules[k], list, c, pins)
            && bit == UnavailableBit(list.rules[k].cvm, c, pins)
            && forall j | k < j < i :: !Reports(list.rules[j], list, c, pins);
      assert forall j | k < j < i + 1 :: !Reports(list.rules[j], list, c, pins);
    }
  }

  /** The decisive rule, when there is one, is unique, so `Evaluate` is determined. */
  lemma DecisionIsUnique(d: nat, e: nat, list: CvmList, c: CvmContext, pins: PinHandles, o: CvmOutcome, p: CvmOutcome)
    requires FirstDecisive(d, list, c, pins) && FirstDecisive(e, list, c, pins)
    requires DecidedBy(o, d, list, c, pins) && DecidedBy(p, e, list, c, pins)
    ensures d == e && o == p
  {
    assert d == e;
    if o.Selected? {
      LastReportIsUnique(o.selectedBit, p.selectedBit, d + 1, list, c, pins);
    } else if LastReport(Some(o.failedBit), d + 1, list, c, pins) && LastReport(Some(p.failedBit), d + 1, list, c, pins) {
      LastReportIsUnique(Some(o.failedBit), Some(p.failedBit), d + 1, list, c, pins);
    }
  }

  lemma LastReportIsUnique(a: Option<TvrBit>, b: Option<TvrBit>, n: nat, list: CvmList, c: CvmContext, pins: PinHandles)
    requires n <= |list.rules| && LastReport(a, n, list, c, pins) && LastReport(b, n, list, c, pins)
    ensures a == b
  {
  }

  // ---------------------------------------------------------------- what an outcome carries

  /** Exactly when a method is available, and with which handle. */
  lemma ActionCarriesTheRightHandle(cvm: CvmMethod, c: CvmContext, pins: PinHandles)
    ensures
      var a := ActionFor(cvm, c, pins);
      && (cvm == OfflinePlaintextPin ==>
            a == if c.offlinePinSupported && pins.plaintext.Some? then Some(DoPlaintextPin(pins.plaintext.value)) else None)
      && (a.Some? && (a.value.DoPlaintextPin? || a.value.DoPlaintextPinAndSignature?) ==>
            c.offlinePinSupported && pins.plaintext == Some(a.value.handle))
      && (a.Some? && (a.value.DoEncipheredPin? || a.value.DoEncipheredPinAndSignature?) ==>
            c.offlinePinSupported && pins.enciphered == Some(a.value.handle))
      && (a.Some? && (a.value.DoPlaintextPinAndSignature? || a.value.DoEncipheredPinAndSignature? || a.value.DoSignature?) ==>
            c.signatureSupported)
      && (a.Some? && a.value.DoOnlinePin? ==> c.onlinePinSupported)
      && (a.Some? && a.value.DoCdcvm? ==> c.iface == Contactless && c.cdcvmPerformed)
      && (cvm == FailCvmProcessing || cvm.Unknown? ==> a.None?)
  {
  }

  /** On a parsed list, decoding the CVM results gives the decisive rule's method, condition and verdict. */
  lemma ResultsNameTheDecisiveRule(o: CvmOutcome, d: nat, list: CvmList, c: CvmContext, pins: PinHandles)
    requires forall i | 0 <= i < |list.rules| :: list.rules[i].cvm == FromCode(list.rules[i].rawCode)
    requires FirstDecisive(d, list, c, pins) && DecidedBy(o, d, list, c, pins)
    ensures |o.results| == 3
    ensures FromCode(o.results[0]) == list.rules[d].cvm
    ensures o.results[1] == list.rules[d].conditionCode
    ensures o.results[2] == (if ActionFor(list.rules[d].cvm, c, pins).Some? then 0x02 else 0x01)
    ensures o.Selected? <==> o.results[2] == 0x02
  {
  }

  // ---------------------------------------------------------------- the tables, code by code

  /** An amount is the number whose four bytes, most significant first, are given. */
  lemma AmountBytes(b: seq<byte>)
    requires |b| == 4
    ensures
      var n := BigEndian32(b);
      b == [n / 0x100_0000, n / 0x1_0000 % 0x100, n / 0x100 % 0x100, n % 0x100]
  {
    var n := BigEndian32(b);
    assert n / 0x100 == (b[0] as nat) * 0x1_0000 + (b[1] as nat) * 0x100 + b[2];
    assert n / 0x1_0000 == n / 0x100 / 0x100 && n / 0x100_0000 == n / 0x1_0000 / 0x100;
  }

  /** The low six bits are all that counts of a method code, and no two of them name the same method. */
  lemma MethodCodes(a: byte, b: byte)
    ensures FromCode(a) == FromCode(b) <==> a % 0x40 == b % 0x40
  {
  }

  /**
   Amount conditions: an "under" rule stays matched as the amount falls and an "over" rule as it rises, in matching
   currency exactly one of them matches unless the amount equals its bound, and neither does in another currency.
   */
  lemma AmountConditions(under: CvmRule, over: CvmRule, list: CvmList, c: CvmContext, amount: nat)
    requires (under.conditionCode, over.conditionCode) == (0x06, 0x07) || (under.conditionCode, over.conditionCode) == (0x08, 0x09)
    ensures
      var bound := if under.conditionCode == 0x06 then list.amountX else list.amountY;
      var moved := c.(amountAuthorized := amount);
      && (ConditionMatches(under, list, c) && amount <= c.amountAuthorized ==> ConditionMatches(under, list, moved))
      && (ConditionMatches(over, list, c) && amount >= c.amountAuthorized ==> ConditionMatches(over, list, moved))
      && !(ConditionMatches(under, list, c) && ConditionMatches(over, list, c))
      && (ConditionMatches(under, list, c) || ConditionMatches(over, list, c) <==> c.currencyMatches && c.amountAuthorized != bound)
      && (amount == 0 ==> (ConditionMatches(under, list, moved) <==> c.currencyMatches && bound > 0))
      && (amount == 0 ==> !ConditionMatches(over, list, moved))
  {
  }

  /** The outcome of a list of one matching rule: its action, or its own bit, or exhaustion when bit 7 lets processing continue. */
  predicate Verdict(o: CvmOutcome, code: byte, condition: byte, action: Option<CvmAction>, bit: TvrBit) {
    match action
    case Some(a) => o == Selected(a, [code % 0x40, condition, 0x02], None)
    case None =>
      if code % 0x80 >= 0x40 then o == Failed([0x3f, 0x00, 0x01], (2, 0x80))
      else o == Failed([code % 0x40, condition, 0x01], bit)
  }

  /** The TVR bit of an unavailable offline PIN: byte 3 bit 5 without a PIN pad, bit 4 without an entered PIN. */
  function PinBit(supported: bool): TvrBit {
    if supported then (2, 0x08) else (2, 0x10)
  }

  /** What one rule decides, given whether it applies, its action and its bit. */
  lemma OneRule(input: seq<byte>, list: CvmList, c: CvmContext, pins: PinHandles, o: CvmOutcome)
    requires |input| == 10 && Lists(input, list) && Decides(o, list, c, pins)
    ensures !ConditionMatches(list.rules[0], list, c) ==> o == Failed([0x3f, 0x00, 0x01], (2, 0x80))
    ensures ConditionMatches(list.rules[0], list, c) ==>
      Verdict(o, input[8], input[9], ActionFor(FromCode(input[8]), c, pins),
        var bit := UnavailableBit(FromCode(input[8]), c, pins); if bit.Some? then bit.value else (2, 0x80))
  {
    hide ConditionMatches, FromCode, ActionFor, UnavailableBit, BigEndian32;
    var rule := list.rules[0];
    assert rule == CvmRule(input[8 + 2 * 0], FromCode(input[8 + 2 * 0]), input[9 + 2 * 0]);
    if Decisive(rule, list, c, pins) {
      assert FirstDecisive(0, list, c, pins);
      assert DecidedBy(o, 0, list, c, pins);
      if ActionFor(rule.cvm, c, pins).Some? {
        AvailableReportsNothing(rule.cvm, c, pins);
      }
    } else {
      assert forall d :: !FirstDecisive(d, list, c, pins);
    }
  }

  /** Every method code on its own, under condition "always": what is selected, and which TVR bit a failure reports. */
  lemma MethodTable(input: seq<byte>, list: CvmList, c: CvmContext, pins: PinHandles, o: CvmOutcome)
    requires |input| == 10 && input[9] == 0x00 && Lists(input, list) && Decides(o, list, c, pins)
    ensures
      var code := input[8];
      var m := code % 0x40;
      && (m == 0x01 ==> Verdict(o, code, 0,
            if c.offlinePinSupported && pins.plaintext.Some? then Some(DoPlaintextPin(pins.plaintext.value)) else None,
            PinBit(c.offlinePinSupported)))
      && (m == 0x02 ==> Verdict(o, code, 0, if c.onlinePinSupported then Some(DoOnlinePin) else None, (2, 0x10)))
      && (m == 0x04 ==> Verdict(o, code, 0,
            if c.offlinePinSupported && pins.enciphered.Some? then Some(DoEncipheredPin(pins.enciphered.value)) else None,
            PinBit(c.offlinePinSupported)))
      && (m == 0x06 ==> Verdict(o, code, 0, if c.signatureSupported then Some(DoSignature) else None, (2, 0x80)))
      && (m == 0x1e ==> Verdict(o, code, 0, None, (2, 0x80)))
      && (m == 0x1f ==> Verdict(o, code, 0, Some(DoNothing), (2, 0x80)))
      && (m >= 0x20 ==> Verdict(o, code, 0,
            if c.iface == Contactless && c.cdcvmPerformed then Some(DoCdcvm) else None, (2, 0x80)))
      && (m == 0x00 || 0x07 <= m <= 0x1d ==> Verdict(o, code, 0, None, (2, 0x40)))
  {
    OneRule(input, list, c, pins, o);
  }

  /** The two combined methods need the signature as well, and report a missing PIN only when the PIN is what is missing. */
  lemma CombinedMethodTable(input: seq<byte>, list: CvmList, c: CvmContext, pins: PinHandles, o: CvmOutcome)
    requires |input| == 10 && input[9] == 0x00 && Lists(input, list) && Decides(o, list, c, pins)
    requires input[8] % 0x40 == 0x03 || input[8] % 0x40 == 0x05
    ensures
      var pin := if input[8] % 0x40 == 0x03 then pins.plaintext else pins.enciphered;
      var bit := if c.offlinePinSupported && pin.Some? then (2, 0x80) else PinBit(c.offlinePinSupported);
      Verdict(o, input[8], 0,
        if !(c.offlinePinSupported && c.signatureSupported && pin.Some?) then None
        else if input[8] % 0x40 == 0x03 then Some(DoPlaintextPinAndSignature(pin.value))
        else Some(DoEncipheredPinAndSignature(pin.value)),
        bit)
  {
    OneRule(input, list, c, pins, o);
  }

  /** Every condition code on its own, with "no CVM required" as the method: when the rule is selected. */
  lemma ConditionTable(input: seq<byte>, list: CvmList, c: CvmContext, pins: PinHandles, o: CvmOutcome)
    requires |input| == 10 && input[8] == 0x1f && Lists(input, list) && Decides(o, list, c, pins)
    ensures o == Selected(DoNothing, [0x1f, input[9], 0x02], None) || o == Failed([0x3f, 0x00, 0x01], (2, 0x80))
    ensures o.Selected? <==>
      || input[9] == 0x00 || input[9] == 0x03
      || (input[9] == 0x01 && c.transactionType == UnattendedCash)
      || (input[9] == 0x02 && c.transactionType == NonCash)
      || (input[9] == 0x04 && c.transactionType == ManualCash)
      || (input[9] == 0x05 && c.transactionType == PurchaseWithCashback)
      || (c.currencyMatches &&
            (|| (input[9] == 0x06 && c.amountAuthorized < BigEndian32(input[0..4]))
             || (input[9] == 0x07 && c.amountAuthorized > BigEndian32(input[0..4]))
             || (input[9] == 0x08 && c.amountAuthorized < BigEndian32(input[4..8]))
             || (input[9] == 0x09 && c.amountAuthorized > BigEndian32(input[4..8]))))
  {
    OneRule(input, list, c, pins, o);
  }

  /** Condition "if the terminal supports the CVM": a rule is skipped exactly when the terminal lacks its method. */
  lemma SupportTable(input: seq<byte>, list: CvmList, c: CvmContext, pins: PinHandles, o: CvmOutcome)
    requires |input| == 10 && input[8] < 0x40 && input[9] == 0x03 && Lists(input, list) && Decides(o, list, c, pins)
    ensures o == Failed([0x3f, 0x00, 0x01], (2, 0x80)) <==>
      || (input[8] in [0x01, 0x03, 0x04, 0x05] && !c.offlinePinSupported)
      || (input[8] == 0x02 && !c.onlinePinSupported)
      || (input[8] == 0x06 && !c.signatureSupported)
      || (0x20 <= input[8] && c.iface == Contact)
      || input[8] == 0x00 || 0x07 <= input[8] <= 0x1d
  {
    OneRule(input, list, c, pins, o);
  }
}
