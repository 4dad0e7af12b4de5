/**
 Short command APDUs (section 5.1 of ISO/IEC 7816-4): the encoder of src/apdu.rs and the two recognisers written
 apart from it, the decoder tool's (examples/krn_emv_decode.rs) and the relay-resistance check of src/c8.rs.
 */
module Apdu {
  import opened Kernel

  const MAX_SHORT_APDU_DATA_LEN: nat := 255
  const MAX_RELAY_RESISTANCE_APDU_LEN: nat := 261
  const MAX_RELAY_RESISTANCE_RESPONSE_LEN: nat := 258

  datatype CommandApdu = CommandApdu(cla: byte, ins: byte, p1: byte, p2: byte, data: seq<byte>, le: Option<byte>)

  function OptionBytes(o: Option<byte>): seq<byte> {
    match o
    case Some(b) => [b]
    case None => []
  }

  /** The command's bytes: header, Lc and data when there is data, Le when there is one. */
  function Encoding(c: CommandApdu): seq<byte>
    requires |c.data| <= MAX_SHORT_APDU_DATA_LEN
  {
    [c.cla, c.ins, c.p1, c.p2] + (if c.data == [] then [] else [|c.data|] + c.data) + OptionBytes(c.le)
  }

  /** `CommandApdu::encode`. */
  method Encode(c: CommandApdu) returns (r: Result<seq<byte>>)
    ensures r == if |c.data| <= MAX_SHORT_APDU_DATA_LEN then Ok(Encoding(c)) else Err(LengthOverflow)
  {
    if |c.data| > MAX_SHORT_APDU_DATA_LEN {
      return Err(LengthOverflow);
    }
    var out := [c.cla, c.ins, c.p1, c.p2];
    if c.data != [] {
      out := out + [|c.data|];
      out := out + c.data;
    }
    assert out == [c.cla, c.ins, c.p1, c.p2] + if c.data == [] then [] else [|c.data|] + c.data;
    assert out + [] == out;
    if c.le.Some? {
      out := out + [c.le.value];
    }
    return Ok(out);
  }

  // ---------------------------------------------------------------- the decoder tool

  datatype ShortCommandApdu =
    ShortCommandApdu(cla: byte, ins: byte, p1: byte, p2: byte, lc: Option<nat>, le: Option<byte>)

  datatype Rejection = MissingHeader | ExtendedLength | LcExceedsLength | TrailingBytes

  datatype Decoded = Accepted(apdu: ShortCommandApdu) | Rejected(reason: Rejection)

  /** The four forms of a short command, by length and Lc byte. */
  function ShortForm(bytes: seq<byte>): Decoded {
    if |bytes| < 4 then Rejected(MissingHeader)
    else
      var header := ShortCommandApdu(bytes[0], bytes[1], bytes[2], bytes[3], None, None);
      if |bytes| == 4 then Accepted(header)
      else if |bytes| == 5 then Accepted(header.(le := Some(bytes[4])))
      else if bytes[4] == 0 then Rejected(ExtendedLength)
      else
        var lc: nat := bytes[4];
        var dataEnd := 5 + lc;
        if |bytes| < dataEnd then Rejected(LcExceedsLength)
        else if |bytes| == dataEnd then Accepted(header.(lc := Some(bytes[4])))
        else if |bytes| == dataEnd + 1 then Accepted(header.(lc := Some(bytes[4]), le := Some(bytes[dataEnd])))
        else Rejected(TrailingBytes)
  }

  /** `ShortCommandApdu::parse`, filling the record branch by branch. */
  method Parse(bytes: seq<byte>) returns (r: Decoded)
    ensures r == ShortForm(bytes)
  {
    if |bytes| < 4 {
      return Rejected(MissingHeader);
    }
    var apdu := ShortCommandApdu(bytes[0], bytes[1], bytes[2], bytes[3], None, None);
    if |bytes| == 4 {
      return Accepted(apdu);
    }
    if |bytes| == 5 {
      apdu := apdu.(le := Some(bytes[4]));
      return Accepted(apdu);
    }
    if bytes[4] == 0 {
      return Rejected(ExtendedLength);
    }
    var lc: nat := bytes[4];
    var dataEnd := 5 + lc;
    if dataEnd > |bytes| {
      return Rejected(LcExceedsLength);
    }
    apdu := apdu.(lc := Some(lc));
    if |bytes| - dataEnd == 0 {
      return Accepted(apdu);
    } else if |bytes| - dataEnd == 1 {
      apdu := apdu.(le := Some(bytes[dataEnd]));
      return Accepted(apdu);
    }
    return Rejected(TrailingBytes);
  }

  /** Decoding an encoded command gives back its header, its data length and its Le. */
  lemma DecodeEncoded(c: CommandApdu)
    requires |c.data| <= MAX_SHORT_APDU_DATA_LEN
    ensures ShortForm(Encoding(c)) == Accepted(ShortCommandApdu(
      c.cla, c.ins, c.p1, c.p2, if c.data == [] then None else Some(|c.data|), c.le))
  {
  }

  /** The command a byte string encodes: the decoder's header and Le with the bytes Lc announces. */
  function Reconstruct(bytes: seq<byte>): CommandApdu
    requires ShortForm(bytes).Accepted?
  {
    var a := ShortForm(bytes).apdu;
    CommandApdu(a.cla, a.ins, a.p1, a.p2, if a.lc.Some? then bytes[5..5 + a.lc.value] else [], a.le)
  }

  /** The decoder accepts exactly the image of the encoder. */
  lemma AcceptedAreTheEncodings(bytes: seq<byte>)
    ensures ShortForm(bytes).Accepted? <==>
      exists c: CommandApdu :: |c.data| <= MAX_SHORT_APDU_DATA_LEN && Encoding(c) == bytes
  {
    if ShortForm(bytes).Accepted? {
      var c := Reconstruct(bytes);
      assert |c.data| <= MAX_SHORT_APDU_DATA_LEN && Encoding(c) == bytes;
    }
    forall c: CommandApdu | |c.data| <= MAX_SHORT_APDU_DATA_LEN && Encoding(c) == bytes
      ensures ShortForm(bytes).Accepted?
    {
      DecodeEncoded(c);
    }
  }

  /** Different commands have different bytes. */
  lemma EncodingInjective(c: CommandApdu, d: CommandApdu)
    requires |c.data| <= MAX_SHORT_APDU_DATA_LEN && |d.data| <= MAX_SHORT_APDU_DATA_LEN
    requires Encoding(c) == Encoding(d)
    ensures c == d
  {
    DecodeEncoded(c);
    DecodeEncoded(d);
    if c.data != [] {
      assert c.data == Encoding(c)[5..5 + |c.data|];
      assert d.data == Encoding(d)[5..5 + |d.data|];
    }
  }

  // ---------------------------------------------------------------- src/c8.rs

  datatype RelayResistanceFailureOutcome = TryAgain | AlternateInterface | Terminate

  datatype RelayResistanceProfile = RelayResistanceProfile(
    commandApdu: seq<byte>, maxRoundTripMs: nat, successResponse: seq<byte>,
    failureOutcome: RelayResistanceFailureOutcome)

  /** `validate_relay_resistance_command_apdu`. */
  function ValidateRelayCommand(command: seq<byte>): Outcome {
    if |command| <= 5 then Pass
    else if command[4] == 0 then Fail(InvalidProfile)
    else
      var lc: nat := command[4];
      var dataEnd := 5 + lc;
      Check(|command| == dataEnd || |command| == dataEnd + 1, InvalidProfile)
  }

  /** `RelayResistanceProfile::new`. */
  function NewRelayProfile(
    command: seq<byte>, maxRoundTripMs: nat, response: seq<byte>, outcome: RelayResistanceFailureOutcome)
    : Result<RelayResistanceProfile>
  {
    if !(4 <= |command| <= MAX_RELAY_RESISTANCE_APDU_LEN)
       || !(2 <= |response| <= MAX_RELAY_RESISTANCE_RESPONSE_LEN)
       || maxRoundTripMs == 0
    then Err(InvalidProfile)
    else
      :- ValidateRelayCommand(command);
      Ok(RelayResistanceProfile(command, maxRoundTripMs, response, outcome))
  }

  /** From the four header bytes on, the relay check and the decoder accept the same strings. */
  lemma RelayCheckAgreesWithDecoder(command: seq<byte>)
    requires |command| >= 4
    ensures ValidateRelayCommand(command).Pass? <==> ShortForm(command).Accepted?
  {
  }

  /** A configured relay command is the encoding of a command, and the length window excludes none of them. */
  lemma RelayCommandsAreEncodings(command: seq<byte>, ms: nat, response: seq<byte>, outcome: RelayResistanceFailureOutcome)
    requires 2 <= |response| <= 258 && ms != 0
    ensures NewRelayProfile(command, ms, response, outcome).Ok? <==>
      exists c: CommandApdu :: |c.data| <= MAX_SHORT_APDU_DATA_LEN && Encoding(c) == command
  {
    AcceptedAreTheEncodings(command);
    if |command| >= 4 {
      RelayCheckAgreesWithDecoder(command);
    }
  }

  // ---------------------------------------------------------------- READ RECORD and GENERATE AC

  /** `read_record`; `(sfi << 3) | 0x04` on an SFI of at most 30. */
  function ReadRecord(record: byte, sfi: byte): Result<CommandApdu> {
    if record == 0 || sfi == 0 || sfi > 30 then Err(InvalidArgument)
    else Ok(CommandApdu(0x00, 0xb2, record, sfi * 8 + 4, [], Some(0x00)))
  }

  /** A record can be read exactly when it has a number and its file one of the thirty short identifiers. */
  lemma ReadableRecords(record: byte, sfi: byte)
    ensures ReadRecord(record, sfi).Ok? <==> 1 <= record && 1 <= sfi <= 30
    ensures ReadRecord(record, sfi).Err? ==> ReadRecord(record, sfi).error == InvalidArgument
    ensures ReadRecord(record, sfi).Ok? ==>
      var c := ReadRecord(record, sfi).value;
      && c.cla == 0x00 && c.ins == 0xb2 && c.p1 == record && c.p2 / 8 == sfi && c.p2 % 8 == 4
      && c.data == [] && c.le == Some(0x00)
  {
  }

  datatype CryptogramRequest = Aac | Tc | Arqc

  datatype CdaRequestControl = NotRequested | InCdolData | P1LowBits(bits: byte)

  function RequestP1(request: CryptogramRequest): byte {
    match request
    case Aac => 0x00
    case Tc => 0x40
    case Arqc => 0x80
  }

  /** `generate_ac`: the CDA bits go into P1 only below the two request bits. */
  method GenerateAc(request: CryptogramRequest, cdolValues: seq<byte>, control: CdaRequestControl)
    returns (r: Result<CommandApdu>)
    ensures |cdolValues| > MAX_SHORT_APDU_DATA_LEN <==> r == Err(LengthOverflow)
    ensures |cdolValues| <= MAX_SHORT_APDU_DATA_LEN ==>
      (r.Err? <==> control.P1LowBits? && control.bits >= 0x40) && (r.Err? ==> r.error == InvalidProfile)
    ensures r.Ok? ==>
      && r.value == CommandApdu(0x80, 0xae, r.value.p1, 0x00, cdolValues, Some(0x00))
      && r.value.p1 / 0x40 == (match request case Aac => 0 case Tc => 1 case Arqc => 2)
      && r.value.p1 % 0x40 == if control.P1LowBits? then control.bits else 0
  {
    if |cdolValues| > MAX_SHORT_APDU_DATA_LEN {
      return Err(LengthOverflow);
    }
    var p1 := RequestP1(request);
    match control {
      case P1LowBits(bits) =>
        if bits >= 0x40 {
          return Err(InvalidProfile);
        }
        p1 := p1 + bits;
      case _ =>
    }
    return Ok(CommandApdu(0x80, 0xae, p1, 0x00, cdolValues, Some(0x00)));
  }
}
