/** Fixed-width packed BCD (src/numeric.rs). */
module Numeric {
  import opened Kernel

  function Pow10(n: nat): (p: nat)
    ensures p > 0
  {
    if n == 0 then 1 else 10 * Pow10(n - 1)
  }

  /** The number a digit string denotes, most significant digit first. */
  function DigitValue(ds: seq<byte>): nat {
    if ds == [] then 0 else 10 * DigitValue(ds[..|ds| - 1]) + ds[|ds| - 1]
  }

  /** The nibbles of a byte string, high nibble first. */
  function Nibbles(bytes: seq<byte>): (ns: seq<byte>)
    ensures |ns| == 2 * |bytes|
    ensures forall i | 0 <= i < |ns| :: ns[i] == NibbleAt(bytes, i) < 16
  {
    seq(2 * |bytes|, i requires 0 <= i < 2 * |bytes| => NibbleAt(bytes, i))
  }

  function NibbleAt(bytes: seq<byte>, i: nat): (n: byte)
    requires i < 2 * |bytes|
    ensures n < 16
  {
    if i % 2 == 0 then bytes[i / 2] / 16 else bytes[i / 2] % 16
  }

  predicate AllDecimal(ns: seq<byte>) {
    forall i | 0 <= i < |ns| :: ns[i] <= 9
  }

  /** `out` is the packed BCD of `value` on `width` bytes. */
  predicate Encodes(out: seq<byte>, value: nat, width: nat) {
    |out| == width && AllDecimal(Nibbles(out)) && DigitValue(Nibbles(out)) == value
  }

  // ---------------------------------------------------------------- arithmetic of digit strings

  lemma {:induction false} DigitValueFront(d: byte, ds: seq<byte>)
    ensures DigitValue([d] + ds) == d * Pow10(|ds|) + DigitValue(ds)
  {
    if ds == [] {
      assert [d] + ds == [d];
      assert DigitValue([d]) == 10 * DigitValue([d][..0]) + d;
    } else {
      var n := |ds| - 1;
      DigitValueFront(d, ds[..n]);
      assert ([d] + ds)[..|[d] + ds| - 1] == [d] + ds[..n];
      assert 10 * (d * Pow10(n)) == d * Pow10(|ds|);
    }
  }

  lemma {:induction false} DigitValueBelow(ds: seq<byte>)
    requires AllDecimal(ds)
    ensures DigitValue(ds) < Pow10(|ds|)
  {
    if ds != [] {
      DigitValueBelow(ds[..|ds| - 1]);
    }
  }

  /** Decimal strings of one length with one value are equal. */
  lemma {:induction false} DigitsUnique(a: seq<byte>, b: seq<byte>)
    requires AllDecimal(a) && AllDecimal(b) && |a| == |b| && DigitValue(a) == DigitValue(b)
    ensures a == b
  {
    if a != [] {
      var n := |a| - 1;
      assert DigitValue(a) % 10 == a[n] && DigitValue(b) % 10 == b[n];
      DigitsUnique(a[..n], b[..n]);
      assert a == a[..n] + [a[n]] && b == b[..n] + [b[n]];
    }
  }

  lemma {:induction false} Pow10Monotone(m: nat, n: nat)
    requires m <= n
    ensures Pow10(m) <= Pow10(n)
  {
    if m < n {
      Pow10Monotone(m, n - 1);
    }
  }

  /** Powers of ten up to 10^18 fit 64 bits, and 10^20 and above do not. */
  lemma Pow10Range(n: nat)
    ensures n <= 18 ==> Pow10(n) < U64_LIMIT
    ensures n >= 20 ==> Pow10(n) >= U64_LIMIT
  {
    assert Pow10(6) == 1_000_000;
    assert Pow10(12) == 1_000_000_000_000;
    assert Pow10(18) == 1_000_000_000_000_000_000;
    assert Pow10(20) == 100_000_000_000_000_000_000;
    if n <= 18 {
      Pow10Monotone(n, 18);
    } else if n >= 20 {
      Pow10Monotone(20, n);
    }
  }

  /** `10u64.checked_pow`. */
  function CheckedPow10(n: nat): Option<u64> {
    if Pow10(n) < U64_LIMIT then Some(Pow10(n)) else None
  }

  // ---------------------------------------------------------------- encode

  /** `a` followed by `n` digits. */
  function Shifted(a: nat, n: nat): nat {
    a * Pow10(n)
  }

  /**
   `encode_numeric_bcd_fixed`, filling the array from its last digit backwards. Widths of 2^31 bytes and more,
   whose digit count the source truncates, are outside the contract.
   */
  method EncodeNumericBcdFixed(value: u64, width: nat) returns (r: Result<seq<byte>>)
    requires width < 0x8000_0000
    ensures r.Ok? <==> width <= 9 && value < Pow10(2 * width)
    ensures r.Ok? ==> Encodes(r.value, value, width)
    ensures r.Err? ==> r.error == if width <= 9 then InvalidArgument else LengthOverflow
  {
    hide DigitValue, Pow10, NibbleAt, Shifted;
    var digits := 2 * width;
    Pow10Range(digits);
    var max := CheckedPow10(digits);
    if max.None? {
      return Err(LengthOverflow);
    }
    if value >= max.value {
      return Err(InvalidArgument);
    }
    var out := new byte[width](_ => 0);
    var remaining: nat := value;
    ghost var tail: seq<byte> := [];
    NothingWritten(value, out[..]);
    for index := digits downto 0
      invariant |tail| == digits - index && AllDecimal(tail)
      invariant forall k | index <= k < digits :: NibbleAt(out[..], k) == tail[k - index]
      invariant forall k | 0 <= k < index :: NibbleAt(out[..], k) == 0
      invariant Shifted(remaining, |tail|) + DigitValue(tail) == value
    {
      var digit: byte := remaining % 10;
      DigitStep(remaining, tail, value);
      remaining := remaining / 10;
      PutNibble(out, index, digit);
      tail := [digit] + tail;
    }
    assert Nibbles(out[..]) == tail;
    AtLeast(remaining, digits);
    return Ok(out[..]);
  }

  /** `out[index / 2] |= digit` or `|= digit << 4`: the nibbles it touches are still zero, so the disjunction adds. */
  method PutNibble(out: array<byte>, index: nat, digit: byte)
    requires index < 2 * out.Length && digit <= 9
    requires forall k | 0 <= k <= index :: NibbleAt(out[..], k) == 0
    modifies out
    ensures forall k | 0 <= k < 2 * out.Length ::
      NibbleAt(out[..], k) == if k == index then digit else old(NibbleAt(out[..], k))
  {
    var b := index / 2;
    ghost var before := out[..];
    if index % 2 == 0 {
      assert NibbleAt(before, index) == 0 && before[b] < 16;
      out[b] := out[b] + digit * 16;
    } else {
      assert NibbleAt(before, index) == 0 && NibbleAt(before, index - 1) == 0 && before[b] == 0;
      out[b] := out[b] + digit;
    }
    assert out[..] == before[b := out[b]];
    assert forall k | 0 <= k < 2 * out.Length && k / 2 != b :: out[..][k / 2] == before[k / 2];
  }

  lemma NothingWritten(value: nat, out: seq<byte>)
    requires forall i | 0 <= i < |out| :: out[i] == 0
    ensures Shifted(value, 0) + DigitValue([]) == value
    ensures forall k | 0 <= k < 2 * |out| :: NibbleAt(out, k) == 0
  {
  }

  lemma AtLeast(a: nat, n: nat)
    ensures if a > 0 then Shifted(a, n) >= Pow10(n) else Shifted(a, n) == 0
  {
  }

  lemma SplitProduct(q: nat, d: nat, p: nat)
    ensures (10 * q + d) * p == q * (10 * p) + d * p
  {
  }

  lemma DigitStep(remaining: nat, tail: seq<byte>, value: nat)
    requires Shifted(remaining, |tail|) + DigitValue(tail) == value
    ensures
      var d: byte := remaining % 10;
      Shifted(remaining / 10, |tail| + 1) + DigitValue([d] + tail) == value
  {
    hide DigitValue;
    var d: byte := remaining % 10;
    DigitValueFront(d, tail);
    SplitProduct(remaining / 10, d, Pow10(|tail|));
  }

  // ---------------------------------------------------------------- decode

  /** `bcd_digits`. */
  function BcdDigits(bytes: seq<byte>): Result<seq<byte>> {
    if AllDecimal(Nibbles(bytes)) then Ok(Nibbles(bytes)) else Err(ParseError)
  }

  /** The checked fold: each step must fit 64 bits. */
  function FoldDigits(value: u64, ds: seq<byte>): Result<u64>
    decreases |ds|
  {
    if ds == [] then Ok(value)
    else if 10 * value + ds[0] < U64_LIMIT then FoldDigits(10 * value + ds[0], ds[1..])
    else Err(LengthOverflow)
  }

  /** `decode_numeric_bcd_fixed`. */
  function DecodeNumericBcdFixed(bytes: seq<byte>): Result<u64> {
    var ds :- BcdDigits(bytes);
    FoldDigits(0, ds)
  }

  /** Stopping at the first overflowing prefix loses nothing: no later digit could bring the value back in range. */
  lemma {:induction false} FoldIsExact(value: u64, ds: seq<byte>)
    ensures
      var total := value * Pow10(|ds|) + DigitValue(ds);
      FoldDigits(value, ds) == if total < U64_LIMIT then Ok(total) else Err(LengthOverflow)
    decreases |ds|
  {
    hide DigitValue;
    if ds == [] {
      assert DigitValue([]) == 0 by { EmptyDigits(); }
    } else {
      var next: nat := 10 * value + ds[0];
      var tail := ds[1..];
      assert ds == [ds[0]] + tail;
      DigitValueFront(ds[0], tail);
      SplitProduct(value, ds[0], Pow10(|tail|));
      if next < U64_LIMIT {
        FoldIsExact(next, tail);
      } else {
        NeverShrinks(next, Pow10(|tail|));
      }
    }
  }

  lemma NeverShrinks(a: nat, factor: nat)
    requires factor > 0
    ensures a * factor >= a
  {
  }

  lemma EmptyDigits()
    ensures DigitValue([]) == 0
  {
  }

  /** Decoding accepts exactly the BCD strings whose value fits 64 bits, of any length, and returns that value. */
  lemma DecodeIsExact(bytes: seq<byte>)
    ensures DecodeNumericBcdFixed(bytes) ==
      if !AllDecimal(Nibbles(bytes)) then Err(ParseError)
      else if DigitValue(Nibbles(bytes)) < U64_LIMIT then Ok(DigitValue(Nibbles(bytes)))
      else Err(LengthOverflow)
  {
    FoldIsExact(0, Nibbles(bytes));
  }

  /** One more byte appends its high digit and then its low one. */
  lemma ByteAppended(bytes: seq<byte>, b: byte)
    ensures DigitValue(Nibbles(bytes + [b])) == 100 * DigitValue(Nibbles(bytes)) + 10 * (b as nat / 16) + b % 16
  {
    var all, high := Nibbles(bytes + [b]), Nibbles(bytes) + [b / 16];
    var n := 2 * |bytes|;
    assert (bytes + [b])[n / 2] == b && (bytes + [b])[(n + 1) / 2] == b;
    assert forall i | 0 <= i < n :: all[i] == NibbleAt(bytes, i);
    assert all == high + [b % 16];
    assert all[..|all| - 1] == high && high[..|high| - 1] == Nibbles(bytes);
  }

  /** Decoding what encoding produced gives the value back. */
  lemma DecodeInvertsEncode(out: seq<byte>, value: u64, width: nat)
    requires Encodes(out, value, width)
    ensures DecodeNumericBcdFixed(out) == Ok(value)
  {
    DecodeIsExact(out);
  }

  /** A decodable string of at most nine bytes is the one and only encoding of its value at its width. */
  lemma EncodeInvertsDecode(bytes: seq<byte>, out: seq<byte>)
    requires |bytes| <= 9 && DecodeNumericBcdFixed(bytes).Ok?
    ensures
      var value := DecodeNumericBcdFixed(bytes).value;
      && value < Pow10(2 * |bytes|)
      && (Encodes(out, value, |bytes|) <==> out == bytes)
  {
    DecodeIsExact(bytes);
    DigitValueBelow(Nibbles(bytes));
    if Encodes(out, DecodeNumericBcdFixed(bytes).value, |bytes|) {
      DigitsUnique(Nibbles(out), Nibbles(bytes));
      NibblesInjective(out, bytes);
    }
  }

  lemma NibblesInjective(a: seq<byte>, b: seq<byte>)
    requires |a| == |b| && Nibbles(a) == Nibbles(b)
    ensures a == b
  {
    forall i | 0 <= i < |a|
      ensures a[i] == b[i]
    {
      assert Nibbles(a)[2 * i] == a[i] / 16 && Nibbles(b)[2 * i] == b[i] / 16;
      assert Nibbles(a)[2 * i + 1] == a[i] % 16 && Nibbles(b)[2 * i + 1] == b[i] % 16;
    }
  }
}
