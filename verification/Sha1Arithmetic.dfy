/**
 The 32-bit words of Sha1.dfy as numbers: what each word operation computes in arithmetic modulo 2^32, and what the
 constants and the padding of FIPS 180-4 are. Nothing here refers to the order in which a word stores its bits.
 */
module Sha1Arithmetic {
  import opened Kernel
  import opened Word32
  import opened Sha1Spec

  const TWO_32: nat := 0x1_0000_0000

  // ---------------------------------------------------------------- numbers and bits

  lemma {:induction false} Pow2Add(m: nat, n: nat)
    ensures Pow2(m + n) == Pow2(m) * Pow2(n)
  {
    if m > 0 {
      Pow2Add(m - 1, n);
      assert Pow2(m + n) == 2 * Pow2(m - 1 + n);
    }
  }

  lemma Pow2Values()
    ensures Pow2(0) == 1 && Pow2(1) == 2 && Pow2(8) == 0x100 && Pow2(16) == 0x1_0000 && Pow2(24) == 0x100_0000
    ensures Pow2(32) == TWO_32
  {
    Pow2Add(8, 8);
    Pow2Add(8, 16);
    Pow2Add(16, 16);
  }

  lemma QuotientUnique(n: int, d: int, q: int, r: int)
    requires 0 <= r < d && n == q * d + r
    ensures n / d == q && n % d == r
  {
    var k := n / d - q;
    assert k * d == r - n % d;
    assert k >= 1 ==> k * d >= d;
    assert k <= -1 ==> k * d <= -d;
  }

  /** Dividing by a product is dividing by one factor and then by the other. */
  lemma NestedQuotient(n: nat, d: nat, p: nat)
    requires d > 0 && p > 0
    ensures d * p > 0
    ensures n / (d * p) == n / d / p
    ensures n % (d * p) == n / d % p * d + n % d
  {
    var m, s := n / d, n % d;
    var q, r := m / p, m % p;
    Regroup(m, q, p, r, d, s);
    RemainderBelow(r, p, d, s);
    assert n == m * d + s;
    QuotientUnique(n, d * p, q, r * d + s);
  }

  lemma Regroup(m: nat, q: nat, p: nat, r: nat, d: nat, s: nat)
    requires m == q * p + r
    ensures m * d + s == q * (d * p) + (r * d + s)
  {
    assert m * d == q * p * d + r * d;
    assert q * p * d == q * (d * p);
  }

  lemma RemainderBelow(r: nat, p: nat, d: nat, s: nat)
    requires r < p && s < d
    ensures 0 <= r * d + s < d * p
  {
    assert (r + 1) * d <= p * d;
  }

  /** Dropping the last of `len` bits halves the number. */
  lemma BitBefore(n: nat, len: nat, i: nat)
    requires i + 1 < len
    ensures Bits(n, len)[i] == Bits(n / 2, len - 1)[i]
  {
    var k := len - 2 - i;
    assert Pow2(k + 1) == 2 * Pow2(k);
    NestedQuotient(n, 2, Pow2(k));
  }

  /** The low `len` bits denote the number modulo 2^len. */
  lemma {:induction false} BitsNumber(n: nat, len: nat)
    ensures Number(Bits(n, len)) == n % Pow2(len)
  {
    if len > 0 {
      BitsNumber(n / 2, len - 1);
      var bits := Bits(n, len);
      assert bits[..len - 1] == Bits(n / 2, len - 1) by {
        forall i | 0 <= i < len - 1
          ensures bits[i] == Bits(n / 2, len - 1)[i]
        {
          BitBefore(n, len, i);
        }
      }
      assert bits[len - 1] <==> n % 2 == 1 by {
        assert Pow2(0) == 1;
      }
      NestedQuotient(n, 2, Pow2(len - 1));
    }
  }

  lemma {:induction false} NumberUnique(a: seq<bool>, b: seq<bool>)
    requires |a| == |b| && Number(a) == Number(b)
    ensures a == b
  {
    if a != [] {
      var n := |a| - 1;
      NumberUnique(a[..n], b[..n]);
      assert a == a[..n] + [a[n]] && b == b[..n] + [b[n]];
    }
  }

  lemma {:induction false} NumberConcat(a: seq<bool>, b: seq<bool>)
    ensures Number(a + b) == Number(a) * Pow2(|b|) + Number(b)
  {
    if b == [] {
      assert a + b == a;
    } else {
      var n := |b| - 1;
      NumberConcat(a, b[..n]);
      assert (a + b)[..|a + b| - 1] == a + b[..n];
      assert Number(a) * Pow2(|b|) == 2 * (Number(a) * Pow2(n));
    }
  }

  /** A constant is the number it is written as. */
  lemma WordNumber(n: nat)
    ensures Number(Word(n)) == n % TWO_32
  {
    BitsNumber(n, 32);
    Pow2Values();
  }

  // ---------------------------------------------------------------- word operations

  /** `wrapping_add` is addition modulo 2^32. */
  lemma AddNumber(x: u32, y: u32)
    ensures Number(Add(x, y)) == (Number(x) + Number(y)) % TWO_32
  {
    WordNumber(Number(x) + Number(y));
  }

  /** `rotate_left` shifts left by `n` and wraps the bits shifted out round to the low end. */
  lemma RotateNumber(x: u32, n: nat)
    requires n <= WORD_BITS
    ensures Number(x) < TWO_32
    ensures Number(RotL(x, n)) == Number(x) % Pow2(32 - n) * Pow2(n) + Number(x) / Pow2(32 - n)
  {
    NumberBelow(x, 32);
    Pow2Values();
    var high, low := x[..n], x[n..];
    assert x == high + low;
    NumberConcat(high, low);
    NumberConcat(low, high);
    NumberBelow(low, 32 - n);
    QuotientUnique(Number(x), Pow2(32 - n), Number(high), Number(low));
  }

  /** Adding is exclusive or with the carries, disjunction and conjunction split a sum, complement subtracts from 2^32 - 1. */
  lemma {:induction false} BitwiseNumbers(x: seq<bool>, y: seq<bool>, xor: seq<bool>, and: seq<bool>, or: seq<bool>, not: seq<bool>)
    requires |x| == |y| == |xor| == |and| == |or| == |not|
    requires forall i | 0 <= i < |x| :: xor[i] == (x[i] != y[i]) && and[i] == (x[i] && y[i])
    requires forall i | 0 <= i < |x| :: or[i] == (x[i] || y[i]) && not[i] == !x[i]
    ensures Number(xor) + 2 * Number(and) == Number(x) + Number(y)
    ensures Number(or) + Number(and) == Number(x) + Number(y)
    ensures Number(not) + Number(x) == Pow2(|x|) - 1
  {
    if x != [] {
      var n := |x| - 1;
      BitwiseNumbers(x[..n], y[..n], xor[..n], and[..n], or[..n], not[..n]);
    }
  }

  lemma LogicNumbers(x: u32, y: u32)
    ensures Number(Xor(x, y)) + 2 * Number(And(x, y)) == Number(x) + Number(y)
    ensures Number(Or(x, y)) + Number(And(x, y)) == Number(x) + Number(y)
    ensures Number(Not(x)) == TWO_32 - 1 - Number(x)
  {
    BitwiseNumbers(x, y, Xor(x, y), And(x, y), Or(x, y), Not(x));
    Pow2Values();
  }

  // ---------------------------------------------------------------- bytes and words

  /** The number a byte string denotes, most significant byte first. */
  function BytesNumber(bytes: seq<byte>): nat {
    if bytes == [] then 0 else BytesNumber(bytes[..|bytes| - 1]) * 256 + bytes[|bytes| - 1]
  }

  lemma BytesNumberOfFour(b: seq<byte>)
    requires |b| == 4
    ensures BytesNumber(b) == (b[0] as nat) * 0x100_0000 + (b[1] as nat) * 0x1_0000 + (b[2] as nat) * 0x100 + b[3]
  {
    assert b[..3][..2] == b[..2] && b[..2][..1] == b[..1] && b[..1][..0] == [];
    assert BytesNumber(b[..1]) == BytesNumber(b[..1][..0]) * 256 + b[0];
    assert BytesNumber(b[..2]) == BytesNumber(b[..1]) * 256 + b[1];
    assert BytesNumber(b[..3]) == BytesNumber(b[..2]) * 256 + b[2];
  }

  lemma ByteBits(b: byte)
    ensures Number(Bits(b, 8)) == b
  {
    BitsNumber(b, 8);
    Pow2Values();
  }

  /** `from_be_bytes` weighs the four bytes from the most significant down. */
  lemma FromBigEndianNumber(b0: byte, b1: byte, b2: byte, b3: byte)
    ensures Number(FromBigEndian(b0, b1, b2, b3)) == (b0 as nat) * 0x100_0000 + (b1 as nat) * 0x1_0000 + (b2 as nat) * 0x100 + b3
  {
    Pow2Values();
    ByteBits(b0);
    ByteBits(b1);
    ByteBits(b2);
    ByteBits(b3);
    NumberConcat(Bits(b0, 8), Bits(b1, 8));
    NumberConcat(Bits(b0, 8) + Bits(b1, 8), Bits(b2, 8));
    NumberConcat(Bits(b0, 8) + Bits(b1, 8) + Bits(b2, 8), Bits(b3, 8));
  }

  /** `to_be_bytes` writes the bytes whose weighted sum is the word. */
  lemma ToBigEndianNumber(w: u32)
    ensures BytesNumber(ToBigEndian(w)) == Number(w)
  {
    Pow2Values();
    var a, b, c, d := w[..8], w[8..16], w[16..24], w[24..];
    assert w == a + b + c + d;
    NumberConcat(a, b);
    NumberConcat(a + b, c);
    NumberConcat(a + b + c, d);
    BytesNumberOfFour(ToBigEndian(w));
  }

  /** Reading back the four bytes of a word gives the word, and writing a word read from four bytes gives the bytes. */
  lemma BigEndianRoundTrip(w: u32, b: seq<byte>)
    requires |b| == 4
    ensures var s := ToBigEndian(w); FromBigEndian(s[0], s[1], s[2], s[3]) == w
    ensures ToBigEndian(FromBigEndian(b[0], b[1], b[2], b[3])) == b
  {
    var s := ToBigEndian(w);
    ToBigEndianNumber(w);
    BytesNumberOfFour(s);
    FromBigEndianNumber(s[0], s[1], s[2], s[3]);
    NumberUnique(FromBigEndian(s[0], s[1], s[2], s[3]), w);
    var v := FromBigEndian(b[0], b[1], b[2], b[3]);
    FromBigEndianNumber(b[0], b[1], b[2], b[3]);
    ToBigEndianNumber(v);
    BytesNumberOfFour(b);
    BytesNumbersUnique(ToBigEndian(v), b);
  }

  lemma {:induction false} BytesNumbersUnique(a: seq<byte>, b: seq<byte>)
    requires |a| == |b| && BytesNumber(a) == BytesNumber(b)
    ensures a == b
  {
    if a != [] {
      var n := |a| - 1;
      assert BytesNumber(a) % 256 == a[n] && BytesNumber(b) % 256 == b[n];
      BytesNumbersUnique(a[..n], b[..n]);
      assert a == a[..n] + [a[n]] && b == b[..n] + [b[n]];
    }
  }

  // ---------------------------------------------------------------- one block

  /** Word `i` of a block is the number its four bytes denote. */
  lemma BlockWords(block: Block, i: nat)
    requires i < 16
    ensures Number(WordAt(block, i)) == BytesNumber(block[4 * i..4 * i + 4])
  {
    var b := block[4 * i..4 * i + 4];
    BytesNumberOfFour(b);
    FromBigEndianNumber(b[0], b[1], b[2], b[3]);
  }

  /** A later word of the message schedule: each bit is the parity of four earlier words one place further right. */
  lemma ExpandedBits(w3: u32, w8: u32, w14: u32, w16: u32, i: nat)
    requires i < 32
    ensures
      var j := (i + 1) % 32;
      Expand(w3, w8, w14, w16)[i] <==> (w3[j] != w8[j]) != (w14[j] != w16[j])
  {
  }

  /** The five-term sum of one round, with its rotation by five, modulo 2^32. */
  lemma MixNumber(a: u32, f: u32, e: u32, k: u32, w: u32)
    ensures
      var rotated := Number(a) % 0x800_0000 * 32 + Number(a) / 0x800_0000;
      Number(Mix(a, f, e, k, w)) == (rotated + Number(f) + Number(e) + Number(k) + Number(w)) % TWO_32
  {
    hide Add;
    var r := RotL(a, 5);
    Pow2Values();
    Pow2Add(24, 3);
    RotateNumber(a, 5);
    AddNumber(r, f);
    AddNumber(Add(r, f), e);
    AddNumber(Add(Add(r, f), e), k);
    AddNumber(Add(Add(Add(r, f), e), k), w);
    SumsWrapOnce(Number(r), Number(f), Number(e), Number(k), Number(w));
  }

  lemma SumsWrapOnce(r: nat, f: nat, e: nat, k: nat, w: nat)
    ensures ((((r + f) % TWO_32 + e) % TWO_32 + k) % TWO_32 + w) % TWO_32 == (r + f + e + k + w) % TWO_32
  {
  }

  /** One round: the mixed word enters at the front, `b` is rotated by thirty, the last word drops out. */
  lemma RoundNumbers(s: State, t: nat, w: u32)
    requires t < 80
    ensures
      var n := Round(s, t, w);
      && n.b == s.a && n.d == s.c && n.e == s.d
      && Number(n.c) == Number(s.b) % 4 * 0x4000_0000 + Number(s.b) / 4
      && n.a == Mix(s.a, F(t, s.b, s.c, s.d), s.e, K(t), w)
  {
    Pow2Values();
    Pow2Add(24, 6);
    RotateNumber(s.b, 30);
  }

  /** Step 4 of section 6.1.2 adds the working variables to the hash value word by word. */
  lemma PlusNumbers(h: State, s: State)
    ensures
      && Number(h.Plus(s).a) == (Number(h.a) + Number(s.a)) % TWO_32
      && Number(h.Plus(s).b) == (Number(h.b) + Number(s.b)) % TWO_32
      && Number(h.Plus(s).c) == (Number(h.c) + Number(s.c)) % TWO_32
      && Number(h.Plus(s).d) == (Number(h.d) + Number(s.d)) % TWO_32
      && Number(h.Plus(s).e) == (Number(h.e) + Number(s.e)) % TWO_32
  {
    AddNumber(h.a, s.a);
    AddNumber(h.b, s.b);
    AddNumber(h.c, s.c);
    AddNumber(h.d, s.d);
    AddNumber(h.e, s.e);
  }

  // ---------------------------------------------------------------- constants

  /** `k` is the whole part of 2^30 times the square root of `n`. */
  predicate ScaledRoot(k: nat, n: nat) {
    k * k <= n * 0x1000_0000_0000_0000 < (k + 1) * (k + 1)
  }

  /** The round constants are the square roots of 2, 3, 5 and 10, twenty rounds each. */
  lemma RoundConstants(t: nat)
    requires t < 80
    ensures ScaledRoot(Number(K(t)), if t < 20 then 2 else if t < 40 then 3 else if t < 60 then 5 else 10)
  {
    WordNumber(0x5a82_7999);
    WordNumber(0x6ed9_eba1);
    WordNumber(0x8f1b_bcdc);
    WordNumber(0xca62_c1d6);
  }

  /** The initial hash value counts the nibbles up, down, and down from fifteen and up in turn. */
  lemma InitialNumbers()
    ensures Number(INITIAL.a) == 0x6745_2301 && Number(INITIAL.b) == 0xefcd_ab89
    ensures Number(INITIAL.a) + Number(INITIAL.c) == TWO_32 - 1 && Number(INITIAL.b) + Number(INITIAL.d) == TWO_32 - 1
    ensures Number(INITIAL.e) == 0xc3d2_e1f0
  {
    WordNumber(0x6745_2301);
    WordNumber(0xefcd_ab89);
    WordNumber(0x98ba_dcfe);
    WordNumber(0x1032_5476);
    WordNumber(0xc3d2_e1f0);
  }

  // ---------------------------------------------------------------- padding and output

  lemma {:induction false} BytesNumberFront(b: byte, bytes: seq<byte>)
    ensures BytesNumber([b] + bytes) == (b as nat) * Pow2(8 * |bytes|) + BytesNumber(bytes)
  {
    if bytes == [] {
      assert [b] + bytes == [b] && [b][..0] == [];
      assert BytesNumber([b]) == BytesNumber([b][..0]) * 256 + b;
    } else {
      var n := |bytes| - 1;
      BytesNumberFront(b, bytes[..n]);
      assert ([b] + bytes)[..n + 1] == [b] + bytes[..n];
      Pow2Add(8, 8 * n);
      Pow2Values();
      assert b * Pow2(8 * |bytes|) == b * Pow2(8 * n) * 256;
    }
  }

  /** The bytes of a number, most significant first. */
  predicate AreBytesOf(bytes: seq<byte>, n: nat) {
    forall i | 0 <= i < |bytes| :: bytes[i] == n / Pow2(8 * (|bytes| - 1 - i)) % 256
  }

  lemma BytesBefore(n: nat, bytes: seq<byte>)
    requires bytes != [] && AreBytesOf(bytes, n)
    ensures AreBytesOf(bytes[..|bytes| - 1], n / 256)
    ensures bytes[|bytes| - 1] == n % 256
  {
    var m := |bytes| - 1;
    assert Pow2(0) == 1 && Pow2(8 * (|bytes| - 1 - m)) == 1;
    forall i | 0 <= i < m
      ensures bytes[..m][i] == n / 256 / Pow2(8 * (m - 1 - i)) % 256
    {
      Pow2Values();
      Pow2Add(8, 8 * (m - 1 - i));
      NestedQuotient(n, 256, Pow2(8 * (m - 1 - i)));
    }
  }

  lemma {:induction false} QuotientBytes(n: nat, bytes: seq<byte>)
    requires AreBytesOf(bytes, n)
    ensures BytesNumber(bytes) == n % Pow2(8 * |bytes|)
  {
    hide AreBytesOf, Pow2;
    Pow2Values();
    if bytes != [] {
      var m := |bytes| - 1;
      BytesBefore(n, bytes);
      QuotientBytes(n / 256, bytes[..m]);
      Pow2Add(8, 8 * m);
      assert 8 + 8 * m == 8 * |bytes|;
      NestedQuotient(n, 256, Pow2(8 * m));
    }
  }

  lemma LengthBytes(n: nat)
    ensures AreBytesOf(BigEndian64(n), n)
  {
    hide Pow2;
    forall i | 0 <= i < 8
      ensures BigEndian64(n)[i] == n / Pow2(8 * (7 - i)) % 256
    {
      assert 56 - 8 * i == 8 * (7 - i);
    }
  }

  /** The length field is the number it stands for. */
  lemma LengthNumber(n: nat)
    requires n < U64_LIMIT
    ensures BytesNumber(BigEndian64(n)) == n
  {
    hide BigEndian64, AreBytesOf, Pow2, BytesNumber;
    LengthBytes(n);
    QuotientBytes(n, BigEndian64(n));
    Pow2Values();
    Pow2Add(32, 32);
    assert Pow2(64) == U64_LIMIT;
  }

  /**
   The padded message: the message, the byte 0x80, zeros, and the length in bits as eight bytes, in the least number
   of blocks that holds them.
   */
  lemma PaddedShape(m: seq<byte>)
    requires |m| < MESSAGE_LIMIT
    ensures
      var p := Pad(m);
      && |m| + 9 <= |p| < |m| + 9 + 64 && |p| % 64 == 0
      && p[..|m|] == m && p[|m|] == 0x80
      && (forall i | |m| < i < |p| - 8 :: p[i] == 0)
      && BytesNumber(p[|p| - 8..]) == 8 * |m|
  {
    var p := Pad(m);
    LengthNumber(8 * |m|);
    assert p[|p| - 8..] == BigEndian64(8 * |m|);
  }

  /** The digest is the five words of the state, in order, each with its most significant byte first. */
  lemma DigestWords(s: State)
    ensures
      var d := StateBytes(s);
      && BytesNumber(d[0..4]) == Number(s.a) && BytesNumber(d[4..8]) == Number(s.b)
      && BytesNumber(d[8..12]) == Number(s.c) && BytesNumber(d[12..16]) == Number(s.d)
      && BytesNumber(d[16..20]) == Number(s.e)
  {
    hide ToBigEndian;
    ToBigEndianNumber(s.a);
    ToBigEndianNumber(s.b);
    ToBigEndianNumber(s.c);
    ToBigEndianNumber(s.d);
    ToBigEndianNumber(s.e);
    var d := StateBytes(s);
    assert d[0..4] == ToBigEndian(s.a) && d[4..8] == ToBigEndian(s.b) && d[8..12] == ToBigEndian(s.c);
    assert d[12..16] == ToBigEndian(s.d) && d[16..20] == ToBigEndian(s.e);
  }
}
