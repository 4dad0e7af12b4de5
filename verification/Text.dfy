/** The parts of Rust's `String` the model needs: UTF-8 bytes, trimming, ASCII folding, substring search. */
module Text {
  import opened Kernel

  /** UTF-8 encoding of one scalar value. */
  function Utf8Char(c: char): (bytes: seq<byte>)
    ensures 1 <= |bytes| <= 4
    ensures (c as int) < 0x80 ==> bytes == [c as int]
    ensures 0x80 <= c as int ==> |bytes| >= 2 && forall b | b in bytes :: b >= 0x80
  {
    var n := c as int;
    if n < 0x80 then [n]
    else if n < 0x800 then [0xc0 + n / 0x40, 0x80 + n % 0x40]
    else if n < 0x10000 then [0xe0 + n / 0x1000, 0x80 + n / 0x40 % 0x40, 0x80 + n % 0x40]
    else [0xf0 + n / 0x40000, 0x80 + n / 0x1000 % 0x40, 0x80 + n / 0x40 % 0x40, 0x80 + n % 0x40]
  }

  /** `as_bytes`. */
  function Utf8(s: string): (bytes: seq<byte>)
    ensures |bytes| >= |s|
  {
    if s == "" then [] else Utf8Char(s[0]) + Utf8(s[1..])
  }

  lemma {:induction false} Utf8Concat(s: string, t: string)
    ensures Utf8(s + t) == Utf8(s) + Utf8(t)
  {
    hide Utf8Char;
    if s == "" {
      assert s + t == t;
      assert Utf8(s) + Utf8(t) == Utf8(t);
    } else {
      Utf8Concat(s[1..], t);
      assert (s + t)[0] == s[0] && (s + t)[1..] == s[1..] + t;
      Associative(Utf8Char(s[0]), Utf8(s[1..]), Utf8(t));
    }
  }

  /** The number of bytes a leading byte announces. */
  function LeadLength(lead: byte): nat {
    if lead < 0x80 then 1 else if lead < 0xe0 then 2 else if lead < 0xf0 then 3 else 4
  }

  /** The scalar value the bytes of one character stand for. */
  function ScalarValue(b: seq<int>): int
    requires 1 <= |b| <= 4
  {
    if |b| == 1 then b[0]
    else if |b| == 2 then (b[0] - 0xc0) * 0x40 + (b[1] - 0x80)
    else if |b| == 3 then (b[0] - 0xe0) * 0x1000 + (b[1] - 0x80) * 0x40 + (b[2] - 0x80)
    else (b[0] - 0xf0) * 0x40000 + (b[1] - 0x80) * 0x1000 + (b[2] - 0x80) * 0x40 + (b[3] - 0x80)
  }

  lemma Utf8CharDecodes(c: char)
    ensures |Utf8Char(c)| == LeadLength(Utf8Char(c)[0])
    ensures ScalarValue(Utf8Char(c)) == c as int
  {
    var n := c as int;
    assert n / 0x1000 == n / 0x40 / 0x40 && n / 0x40000 == n / 0x1000 / 0x40;
  }

  /** No character's encoding is a prefix of another's. */
  lemma Utf8CharPrefixFree(a: char, b: char, s: seq<byte>, t: seq<byte>)
    requires Utf8Char(a) + s == Utf8Char(b) + t
    ensures a == b && s == t
  {
    hide Utf8Char;
    var x, y := Utf8Char(a), Utf8Char(b);
    Utf8CharDecodes(a);
    Utf8CharDecodes(b);
    assert x[0] == (x + s)[0] == (y + t)[0] == y[0];
    assert x == (x + s)[..|x|] == (y + t)[..|y|] == y;
    assert s == (x + s)[|x|..] == (y + t)[|y|..] == t;
  }

  /** Different strings have different bytes. */
  lemma {:induction false} Utf8Injective(s: string, t: string)
    requires Utf8(s) == Utf8(t)
    ensures s == t
  {
    hide Utf8Char;
    if s != "" && t != "" {
      Utf8CharPrefixFree(s[0], t[0], Utf8(s[1..]), Utf8(t[1..]));
      Utf8Injective(s[1..], t[1..]);
      assert s == [s[0]] + s[1..] && t == [t[0]] + t[1..];
    }
  }

  lemma Utf8Pair(a: char, b: char)
    ensures Utf8([a, b]) == Utf8Char(a) + Utf8Char(b)
  {
    assert [a, b][1..] == [b];
    assert [b][1..] == "";
    assert Utf8([b]) == Utf8Char(b) + [];
  }

  predicate IsAscii(s: string) {
    forall i | 0 <= i < |s| :: s[i] as int < 0x80
  }

  /** An ASCII string and its bytes agree position by position. */
  lemma {:induction false} Utf8Ascii(s: string)
    requires IsAscii(s)
    ensures |Utf8(s)| == |s|
    ensures forall i | 0 <= i < |s| :: Utf8(s)[i] == s[i] as int
  {
    if s != "" {
      Utf8Ascii(s[1..]);
      assert Utf8(s) == [s[0] as int] + Utf8(s[1..]);
    }
  }

  lemma {:induction false} AsciiBytesAsciiText(s: string)
    requires forall i | 0 <= i < |Utf8(s)| :: Utf8(s)[i] < 0x80
    ensures IsAscii(s)
  {
    if s != "" {
      var head, tail := Utf8Char(s[0]), Utf8(s[1..]);
      assert head[0] == Utf8(s)[0];
      assert forall i | 0 <= i < |tail| :: tail[i] == Utf8(s)[|head| + i];
      AsciiBytesAsciiText(s[1..]);
      assert s == [s[0]] + s[1..];
    }
  }

  /** An ASCII text is determined by its bytes. */
  lemma AsciiTextFromBytes(s: string, t: string)
    requires IsAscii(t) && Utf8(s) == Utf8(t)
    ensures s == t
  {
    Utf8Ascii(t);
    AsciiBytesAsciiText(s);
    Utf8Ascii(s);
    assert forall i | 0 <= i < |s| :: s[i] as int == t[i] as int;
  }

  /** `char::is_whitespace`: the Unicode White_Space property. */
  predicate IsWhitespace(c: char) {
    var n := c as int;
    || 0x09 <= n <= 0x0d || n == 0x20 || n == 0x85 || n == 0xa0 || n == 0x1680
    || 0x2000 <= n <= 0x200a || n == 0x2028 || n == 0x2029 || n == 0x202f || n == 0x205f || n == 0x3000
  }

  /** `char::is_control`: the Unicode category Cc. */
  predicate IsControl(c: char) {
    var n := c as int;
    n < 0x20 || 0x7f <= n < 0xa0
  }

  function TrimStart(s: string): (t: string)
    ensures |t| <= |s|
  {
    if s != "" && IsWhitespace(s[0]) then TrimStart(s[1..]) else s
  }

  function TrimEnd(s: string): (t: string)
    ensures |t| <= |s|
  {
    if s != "" && IsWhitespace(s[|s| - 1]) then TrimEnd(s[..|s| - 1]) else s
  }

  /** `str::trim`. */
  function Trim(s: string): string {
    TrimEnd(TrimStart(s))
  }

  function AsciiUpperChar(c: char): char {
    if 'a' <= c <= 'z' then (c as int - 32) as char else c
  }

  /** `to_ascii_uppercase`. */
  function AsciiUpper(s: string): string {
    seq(|s|, i requires 0 <= i < |s| => AsciiUpperChar(s[i]))
  }

  function AsciiLowerChar(c: char): char {
    if 'A' <= c <= 'Z' then (c as int + 32) as char else c
  }

  /** `to_ascii_lowercase`. */
  function AsciiLower(s: string): string {
    seq(|s|, i requires 0 <= i < |s| => AsciiLowerChar(s[i]))
  }

  predicate OccursAt(s: string, needle: string, i: nat) {
    i + |needle| <= |s| && s[i..i + |needle|] == needle
  }

  /** `str::contains`. */
  predicate Contains(s: string, needle: string) {
    exists i | 0 <= i <= |s| :: OccursAt(s, needle, i)
  }
}
