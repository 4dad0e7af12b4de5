/** SHA-1: the one-shot function of FIPS 180-4, and the streaming implementation of src/sha1.rs proved to compute it. */

/** Rust's `u32` as its 32 bits, most significant first. */
module Word32 {
  import opened Kernel

  const WORD_BITS: nat := 32

  type u32 = w: seq<bool> | |w| == WORD_BITS witness seq(32, _ => false)

  /** The number a bit string denotes. */
  function Number(bits: seq<bool>): nat {
    if bits == [] then 0 else 2 * Number(bits[..|bits| - 1]) + if bits[|bits| - 1] then 1 else 0
  }

  /** The low `len` bits of a number. */
  function Bits(n: nat, len: nat): (bits: seq<bool>)
    ensures |bits| == len
  {
    seq(len, i requires 0 <= i < len => n / Pow2(len - 1 - i) % 2 == 1)
  }

  function Word(n: nat): u32 {
    Bits(n, WORD_BITS)
  }

  function And(x: u32, y: u32): u32 {
    seq(WORD_BITS, i requires 0 <= i < WORD_BITS => x[i] && y[i])
  }

  function Or(x: u32, y: u32): u32 {
    seq(WORD_BITS, i requires 0 <= i < WORD_BITS => x[i] || y[i])
  }

  function Xor(x: u32, y: u32): u32 {
    seq(WORD_BITS, i requires 0 <= i < WORD_BITS => x[i] != y[i])
  }

  function Not(x: u32): u32 {
    seq(WORD_BITS, i requires 0 <= i < WORD_BITS => !x[i])
  }

  /** `wrapping_add`. */
  function Add(x: u32, y: u32): u32 {
    Word(Number(x) + Number(y))
  }

  /** `rotate_left`. */
  function RotL(x: u32, n: nat): u32
    requires n <= WORD_BITS
  {
    x[n..] + x[..n]
  }

  /** `u32::from_be_bytes`. */
  function FromBigEndian(b0: byte, b1: byte, b2: byte, b3: byte): u32 {
    Bits(b0, 8) + Bits(b1, 8) + Bits(b2, 8) + Bits(b3, 8)
  }

  function ByteOf(bits: seq<bool>): byte
    requires |bits| == 8
  {
    NumberBelow(bits, 8);
    Number(bits)
  }

  /** `to_be_bytes`. */
  function ToBigEndian(w: u32): (bytes: seq<byte>)
    ensures |bytes| == 4
  {
    [ByteOf(w[..8]), ByteOf(w[8..16]), ByteOf(w[16..24]), ByteOf(w[24..])]
  }

  function Pow2(n: nat): (p: nat)
    ensures p > 0
  {
    if n == 0 then 1 else 2 * Pow2(n - 1)
  }

  lemma {:induction false} NumberBelow(bits: seq<bool>, n: nat)
    requires |bits| == n
    ensures Number(bits) < Pow2(n)
    ensures Pow2(8) == 256
  {
    if n > 0 {
      NumberBelow(bits[..n - 1], n - 1);
    }
  }
}

module Sha1Spec {
  import opened Kernel
  import opened Word32

  const BLOCK_BYTES: nat := 64

  /** Messages whose bit length fits the 64-bit length field. */
  const MESSAGE_LIMIT: nat := 0x2000_0000_0000_0000

  datatype State = State(a: u32, b: u32, c: u32, d: u32, e: u32) {
    function Plus(s: State): State {
      State(Add(a, s.a), Add(b, s.b), Add(c, s.c), Add(d, s.d), Add(e, s.e))
    }
  }

  /** Section 5.3.1 of FIPS 180-4. */
  const INITIAL: State :=
    State(Word(0x6745_2301), Word(0xefcd_ab89), Word(0x98ba_dcfe), Word(0x1032_5476), Word(0xc3d2_e1f0))

  type Block = b: seq<byte> | |b| == BLOCK_BYTES witness seq(64, _ => 0)

  // Section 4.1.1: the logical functions, in their exclusive-or forms.
  function Ch(x: u32, y: u32, z: u32): u32 {
    Xor(And(x, y), And(Not(x), z))
  }

  function Parity(x: u32, y: u32, z: u32): u32 {
    Xor(Xor(x, y), z)
  }

  function Maj(x: u32, y: u32, z: u32): u32 {
    Xor(Xor(And(x, y), And(x, z)), And(y, z))
  }

  function F(t: nat, x: u32, y: u32, z: u32): u32 {
    if t < 20 then Ch(x, y, z) else if t < 40 then Parity(x, y, z) else if t < 60 then Maj(x, y, z) else Parity(x, y, z)
  }

  // Section 4.2.1.
  function K(t: nat): u32 {
    if t < 20 then Word(0x5a82_7999) else if t < 40 then Word(0x6ed9_eba1) else if t < 60 then Word(0x8f1b_bcdc) else Word(0xca62_c1d6)
  }

  function WordAt(block: Block, i: nat): u32
    requires i < 16
  {
    FromBigEndian(block[4 * i], block[4 * i + 1], block[4 * i + 2], block[4 * i + 3])
  }

  /** Section 6.1.2, step 1: the message schedule. */
  function Schedule(block: Block, t: nat): u32 {
    if t < 16 then WordAt(block, t)
    else Expand(Schedule(block, t - 3), Schedule(block, t - 8), Schedule(block, t - 14), Schedule(block, t - 16))
  }

  function Expand(w3: u32, w8: u32, w14: u32, w16: u32): u32 {
    RotL(Xor(Xor(Xor(w3, w8), w14), w16), 1)
  }

  /** The five-term sum of section 6.1.2, step 3. */
  function Mix(a: u32, f: u32, e: u32, k: u32, w: u32): u32 {
    Add(Add(Add(Add(RotL(a, 5), f), e), k), w)
  }

  /** Section 6.1.2, step 3: one round. */
  function Round(s: State, t: nat, w: u32): State
    requires t < 80
  {
    State(Mix(s.a, F(t, s.b, s.c, s.d), s.e, K(t), w), s.a, RotL(s.b, 30), s.c, s.d)
  }

  /** The message schedule of one block. */
  function Words(block: Block): (ws: seq<u32>)
    ensures |ws| == 80
  {
    seq(80, t requires 0 <= t < 80 => Schedule(block, t))
  }

  /** One round for each word, in order. */
  function Rounds(s: State, ws: seq<u32>): State
    requires |ws| <= 80
  {
    if ws == [] then s
    else
      var t := |ws| - 1;
      Round(Rounds(s, ws[..t]), t, ws[t])
  }

  /** Section 6.1.2, steps 2 to 4. */
  function Compress(h: State, block: Block): State {
    h.Plus(Rounds(h, Words(block)))
  }

  /** Compression over a whole number of blocks. */
  function Fold(h: State, s: seq<byte>): State
    requires |s| % BLOCK_BYTES == 0
    decreases |s|
  {
    if s == [] then h else Fold(Compress(h, s[..BLOCK_BYTES]), s[BLOCK_BYTES..])
  }

  /** How many zero bytes the padding needs after the byte 0x80. */
  function PadZeros(n: nat): (k: nat)
    ensures k < BLOCK_BYTES && (n + 1 + k) % BLOCK_BYTES == 56 && (n + 1 + k + 8) % BLOCK_BYTES == 0
  {
    (119 - n % BLOCK_BYTES) % BLOCK_BYTES
  }

  /** `to_be_bytes` of a 64-bit length. */
  function BigEndian64(n: nat): (bytes: seq<byte>)
    ensures |bytes| == 8
  {
    seq(8, i requires 0 <= i < 8 => n / Pow2(56 - 8 * i) % 256)
  }

  function Zeros(n: nat): (z: seq<byte>)
    ensures |z| == n
  {
    seq(n, _ => 0)
  }

  /** Section 5.1.1: the padded message. */
  function Pad(m: seq<byte>): (p: seq<byte>)
    ensures |p| % BLOCK_BYTES == 0
  {
    var k := PadZeros(|m|);
    var p := m + [0x80] + Zeros(k) + BigEndian64(8 * |m|);
    assert |p| == |m| + 1 + k + 8;
    p
  }

  function StateBytes(s: State): (bytes: seq<byte>)
    ensures |bytes| == 20
  {
    ToBigEndian(s.a) + ToBigEndian(s.b) + ToBigEndian(s.c) + ToBigEndian(s.d) + ToBigEndian(s.e)
  }

  /** One-shot SHA-1. */
  function Digest(m: seq<byte>): (d: seq<byte>)
    ensures |d| == 20
  {
    StateBytes(Fold(INITIAL, Pad(m)))
  }

  lemma {:induction false} FoldConcat(h: State, s: seq<byte>, t: seq<byte>)
    requires |s| % BLOCK_BYTES == 0 && |t| % BLOCK_BYTES == 0
    ensures (|s + t|) % BLOCK_BYTES == 0 && Fold(h, s + t) == Fold(Fold(h, s), t)
    decreases |s|
  {
    hide Compress;
    if s == [] {
      assert s + t == t;
    } else {
      FoldConcat(Compress(h, s[..BLOCK_BYTES]), s[BLOCK_BYTES..], t);
      assert (s + t)[..BLOCK_BYTES] == s[..BLOCK_BYTES];
      assert (s + t)[BLOCK_BYTES..] == s[BLOCK_BYTES..] + t;
    }
  }

  lemma FoldOne(h: State, block: Block)
    ensures Fold(h, block) == Compress(h, block)
  {
    assert block[..BLOCK_BYTES] == block && block[BLOCK_BYTES..] == [];
  }

  /** The disjunctive forms the implementation uses equal the standard's exclusive-or forms. */
  lemma LogicalForms(x: u32, y: u32, z: u32)
    ensures Or(And(x, y), And(Not(x), z)) == Ch(x, y, z)
    ensures Or(Or(And(x, y), And(x, z)), And(y, z)) == Maj(x, y, z)
  {
  }
}

module Sha1Streaming {
  import opened Kernel
  import opened Word32
  import opened Sha1Spec

  class Sha1 {
    var state: State
    var lengthBytes: nat
    var buffer: array<byte>
    var bufferLen: nat
    /** Every byte absorbed so far. */
    ghost var message: seq<byte>

    /** The state folds the full blocks of the message and the buffer holds the rest. */
    ghost predicate Valid()
      reads this, buffer
    {
      && lengthBytes == |message|
      && Absorbed(message)
      && bufferLen < BLOCK_BYTES
    }

    ghost predicate Absorbed(m: seq<byte>)
      reads this`state, this`buffer, this`bufferLen, buffer
    {
      && buffer.Length == BLOCK_BYTES
      && bufferLen <= BLOCK_BYTES
      && bufferLen <= |m|
      && (|m| - bufferLen) % BLOCK_BYTES == 0
      && state == Fold(INITIAL, m[..|m| - bufferLen])
      && buffer[..bufferLen] == m[|m| - bufferLen..]
    }

    constructor ()
      ensures Valid() && fresh(buffer) && message == []
    {
      state := INITIAL;
      lengthBytes := 0;
      buffer := new byte[64](_ => 0);
      bufferLen := 0;
      message := [];
    }

    method Update(bytes: seq<byte>)
      requires Valid() && |message| + |bytes| < MESSAGE_LIMIT
      modifies this, buffer
      ensures Valid() && buffer == old(buffer)
      ensures message == old(message) + bytes
    {
      hide Fold, Sha1.Absorbed;
      assert bufferLen <= BLOCK_BYTES;
      lengthBytes := lengthBytes + |bytes|;
      var rest := bytes;
      ghost var done := message;
      if bufferLen > 0 {
        var take := if BLOCK_BYTES - bufferLen <= |rest| then BLOCK_BYTES - bufferLen else |rest|;
        TopUp(rest[..take], done);
        done := done + rest[..take];
        rest := rest[take..];
      }
      while |rest| >= BLOCK_BYTES
        invariant Absorbed(done) && buffer == old(buffer)
        invariant bufferLen < BLOCK_BYTES && (rest != [] ==> bufferLen == 0)
        invariant done + rest == old(message) + bytes
        invariant lengthBytes == |old(message)| + |bytes|
      {
        var block: Block := rest[..BLOCK_BYTES];
        AbsorbWhole(block, done);
        done := done + block;
        rest := rest[BLOCK_BYTES..];
      }
      if rest != [] {
        Store(rest, done);
      }
      message := done + rest;
      assert message == old(message) + bytes;
      assert rest == [] ==> message == done;
    }

    /** Processes one block straight from the input. */
    method AbsorbWhole(block: Block, ghost done: seq<byte>)
      requires Absorbed(done) && bufferLen == 0
      modifies this`state
      ensures Absorbed(done + block)
    {
      hide Fold;
      assert done[..|done|] == done;
      AbsorbBlock(done, block);
      assert (done + block)[..|done + block|] == done + block;
    }

    /** Adds bytes to a partly filled buffer and processes it when it is full. */
    method TopUp(bytes: seq<byte>, ghost done: seq<byte>)
      requires Absorbed(done) && bufferLen + |bytes| <= BLOCK_BYTES
      modifies this`state, this`bufferLen, buffer
      ensures Absorbed(done + bytes)
      ensures bufferLen == (old(bufferLen) + |bytes|) % BLOCK_BYTES
    {
      hide Sha1.Absorbed;
      Store(bytes, done);
      if bufferLen == BLOCK_BYTES {
        Flush(done + bytes);
      }
    }

    /** Copies bytes behind those already in the buffer. */
    method Store(bytes: seq<byte>, ghost done: seq<byte>)
      requires Absorbed(done) && bufferLen + |bytes| <= BLOCK_BYTES
      modifies this`bufferLen, buffer
      ensures Absorbed(done + bytes) && bufferLen == old(bufferLen) + |bytes| <= BLOCK_BYTES
    {
      hide Fold;
      ghost var full := |done| - bufferLen;
      CopyIn(bufferLen, bytes);
      bufferLen := bufferLen + |bytes|;
      ghost var now := done + bytes;
      assert |now| - bufferLen == full;
      assert now[..full] == done[..full];
      assert buffer[..bufferLen] == now[full..];
    }

    /** Processes a full buffer and empties it. */
    method Flush(ghost done: seq<byte>)
      requires Absorbed(done) && bufferLen == BLOCK_BYTES
      modifies this`state, this`bufferLen
      ensures Absorbed(done) && bufferLen == 0
    {
      hide Fold;
      ghost var full := done[..|done| - BLOCK_BYTES];
      var block: Block := buffer[..];
      assert done == full + block;
      AbsorbBlock(full, block);
      bufferLen := 0;
      assert done[..|done|] == done;
    }

    /** `copy_from_slice` into the buffer. */
    method CopyIn(start: nat, bytes: seq<byte>)
      requires start + |bytes| <= buffer.Length
      modifies buffer
      ensures buffer[..] == old(buffer[..start]) + bytes + old(buffer[start + |bytes|..])
    {
      forall i | 0 <= i < |bytes| {
        buffer[start + i] := bytes[i];
      }
    }

    /** `process_block` applied after a whole number of blocks. */
    method AbsorbBlock(ghost before: seq<byte>, block: Block)
      requires |before| % BLOCK_BYTES == 0 && state == Fold(INITIAL, before)
      modifies this`state
      ensures (|before + block|) % BLOCK_BYTES == 0 && state == Fold(INITIAL, before + block)
    {
      ProcessBlock(block);
      FoldConcat(INITIAL, before, block);
      FoldOne(Fold(INITIAL, before), block);
    }

    method Finalize() returns (digest: seq<byte>)
      requires Valid() && |message| < MESSAGE_LIMIT
      modifies this`state
      ensures digest == Digest(message)
    {
      hide Fold, Pad, PadZeros, BigEndian64, Zeros;
      var bitLen := lengthBytes * 8;
      ghost var full := message[..|message| - bufferLen];
      var tail := buffer[..bufferLen];
      assert message == full + tail;
      if bufferLen >= 56 {
        var block: Block := tail + [0x80] + Zeros(63 - bufferLen);
        AbsorbBlock(full, block);
        var last: Block := Zeros(56) + BigEndian64(bitLen);
        AbsorbBlock(full + block, last);
        PadTwoBlocks(full, tail);
      } else {
        var block: Block := tail + [0x80] + Zeros(55 - bufferLen) + BigEndian64(bitLen);
        AbsorbBlock(full, block);
        PadOneBlock(full, tail);
      }
      digest := StateBytes(state);
    }

    method ProcessBlock(block: Block)
      modifies this`state
      ensures state == Compress(old(state), block)
    {
      hide Mix, F, K, RotL, Schedule;
      var words := ExpandWords(block);
      ghost var ws := Words(block);
      var a, b, c, d, e := state.a, state.b, state.c, state.d, state.e;
      for i := 0 to 80
        invariant State(a, b, c, d, e) == Rounds(old(state), ws[..i])
        invariant state == old(state)
        invariant forall j | 0 <= j < 80 :: words[j] == Schedule(block, j)
      {
        var f, k := RoundTerms(i, b, c, d);
        var temp := Mix(a, f, e, k, words[i]);
        assert ws[i] == Schedule(block, i) == words[i];
        assert ws[..i + 1][..i] == ws[..i];
        a, b, c, d, e := temp, a, RotL(b, 30), c, d;
      }
      assert ws[..80] == ws;
      state := state.Plus(State(a, b, c, d, e));
    }
  }

  /** The message schedule, filled in left to right. */
  method ExpandWords(block: Block) returns (words: array<u32>)
    ensures fresh(words) && words.Length == 80
    ensures forall j | 0 <= j < 80 :: words[j] == Schedule(block, j)
  {
    hide WordAt, Expand, Word;
    words := new u32[80](_ => Word(0));
    for i := 0 to 16
      invariant forall j | 0 <= j < i :: words[j] == Schedule(block, j)
    {
      words[i] := WordAt(block, i);
    }
    for i := 16 to 80
      invariant forall j | 0 <= j < i :: words[j] == Schedule(block, j)
    {
      words[i] := Expand(words[i - 3], words[i - 8], words[i - 14], words[i - 16]);
    }
  }

  /** The `match idx` of `process_block`, with its disjunctive Ch and Maj. */
  method RoundTerms(i: nat, b: u32, c: u32, d: u32) returns (f: u32, k: u32)
    requires i < 80
    ensures f == F(i, b, c, d) && k == K(i)
  {
    LogicalForms(b, c, d);
    if i < 20 {
      f, k := Or(And(b, c), And(Not(b), d)), Word(0x5a82_7999);
    } else if i < 40 {
      f, k := Xor(Xor(b, c), d), Word(0x6ed9_eba1);
    } else if i < 60 {
      f, k := Or(Or(And(b, c), And(b, d)), And(c, d)), Word(0x8f1b_bcdc);
    } else {
      f, k := Xor(Xor(b, c), d), Word(0xca62_c1d6);
    }
  }

  lemma PadOneBlock(full: seq<byte>, tail: seq<byte>)
    requires |full| % BLOCK_BYTES == 0 && |tail| < 56
    ensures full + (tail + [0x80] + Zeros(55 - |tail|) + BigEndian64(8 * |full + tail|)) == Pad(full + tail)
  {
    assert PadZeros(|full + tail|) == 55 - |tail|;
  }

  lemma PadTwoBlocks(full: seq<byte>, tail: seq<byte>)
    requires |full| % BLOCK_BYTES == 0 && 56 <= |tail| < BLOCK_BYTES
    ensures full + (tail + [0x80] + Zeros(63 - |tail|)) + (Zeros(56) + BigEndian64(8 * |full + tail|)) == Pad(full + tail)
  {
    assert PadZeros(|full + tail|) == 119 - |tail|;
    assert Zeros(63 - |tail|) + Zeros(56) == Zeros(119 - |tail|);
  }

  /** `capk_checksum_components` (src/config.rs): four updates hash the concatenation of the four components. */
  method CapkChecksumComponents(rid: seq<byte>, keyIndex: byte, modulus: seq<byte>, exponent: seq<byte>)
    returns (digest: seq<byte>)
    requires |rid| + 1 + |modulus| + |exponent| < MESSAGE_LIMIT
    ensures digest == Digest(rid + [keyIndex] + modulus + exponent)
  {
    hide Fold, Digest, Sha1.Valid;
    var sha1 := new Sha1();
    sha1.Update(rid);
    sha1.Update([keyIndex]);
    sha1.Update(modulus);
    sha1.Update(exponent);
    digest := sha1.Finalize();
    assert [] + rid + [keyIndex] + modulus + exponent == rid + [keyIndex] + modulus + exponent;
  }
}
