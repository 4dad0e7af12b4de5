/** What the text, hexadecimal and date primitives compute, said without their own tables. */
module TextFacts {
  import opened Kernel
  import opened Text
  import opened Hex
  import opened Dates
  import opened JsonFields

  // ---------------------------------------------------------------- searching and trimming

  /** A string contains a word exactly when it is the word with something before and something after. */
  lemma ContainsIff(s: string, needle: string)
    ensures Contains(s, needle) <==> exists a: string, b: string :: s == a + (needle + b)
  {
    if Contains(s, needle) {
      var i :| 0 <= i <= |s| && OccursAt(s, needle, i);
      assert s == s[..i] + (needle + s[i + |needle|..]);
    }
    forall a: string, b: string | s == a + (needle + b)
      ensures Contains(s, needle)
    {
      assert s[|a|..|a| + |needle|] == needle;
      assert OccursAt(s, needle, |a|);
    }
  }

  predicate AllSpace(s: string) {
    forall i | 0 <= i < |s| :: IsWhitespace(s[i])
  }

  /** No white space at either end. */
  predicate IsTrimmed(s: string) {
    s != "" ==> !IsWhitespace(s[0]) && !IsWhitespace(s[|s| - 1])
  }

  /** `b` and `a` surround the trimmed string. */
  predicate Surrounds(a: string, b: string, s: string, t: string) {
    AllSpace(a) && AllSpace(b) && s == a + (t + b)
  }

  lemma TrimSplits(s: string) returns (a: string, b: string)
    ensures IsTrimmed(Trim(s)) && Surrounds(a, b, s, Trim(s))
  {
    hide IsWhitespace;
    var m: string;
    a, m := TrimStartSplit(s);
    b := TrimEndSplit(m);
    TrimEndKeepsStart(m);
  }

  lemma TrimOver(a: string, b: string, s: string, t: string)
    requires IsTrimmed(t) && Surrounds(a, b, s, t)
    ensures Trim(s) == t
  {
    hide IsWhitespace;
    if t == "" {
      assert AllSpace(s);
      TrimAllSpace(s);
    } else {
      TrimStartOver(a, t + b);
      TrimEndOver(t, b);
    }
  }

  /** `trim` takes white space, all of it and nothing else, off both ends. */
  lemma TrimIff(s: string, t: string)
    ensures Trim(s) == t <==> IsTrimmed(t) && exists a, b :: Surrounds(a, b, s, t)
  {
    hide Trim, IsTrimmed, Surrounds;
    var a, b := TrimSplits(s);
    forall x, y | IsTrimmed(t) && Surrounds(x, y, s, t)
      ensures Trim(s) == t
    {
      TrimOver(x, y, s, t);
    }
  }

  /** A string as long as its trimmed form has nothing to trim. */
  lemma TrimKeepsLength(text: string)
    ensures |Trim(text)| == |text| <==> IsTrimmed(text)
  {
    hide Trim, IsWhitespace;
    var a, b := TrimSplits(text);
    if |Trim(text)| == |text| {
      assert a == "" && b == "" && text == Trim(text);
    }
    if IsTrimmed(text) {
      assert Surrounds("", "", text, text);
      TrimOver("", "", text, text);
    }
  }

  /** Blank is nothing but white space. */
  lemma BlankIff(s: string)
    ensures IsBlank(s) <==> AllSpace(s)
  {
    TrimIff(s, "");
    if AllSpace(s) {
      TrimAllSpace(s);
    }
    if IsBlank(s) {
      var a, b :| Surrounds(a, b, s, "");
    }
  }

  lemma {:induction false} TrimAllSpace(s: string)
    requires AllSpace(s)
    ensures TrimStart(s) == ""
  {
    if s != "" {
      TrimAllSpace(s[1..]);
    }
  }

  lemma {:induction false} TrimStartOver(a: string, t: string)
    requires AllSpace(a) && t != "" && !IsWhitespace(t[0])
    ensures TrimStart(a + t) == t
  {
    hide IsWhitespace;
    if a == "" {
      assert a + t == t;
    } else {
      TrimStartOver(a[1..], t);
      assert (a + t)[1..] == a[1..] + t;
    }
  }

  lemma {:induction false} TrimEndOver(t: string, b: string)
    requires AllSpace(b) && t != "" && !IsWhitespace(t[|t| - 1])
    ensures TrimEnd(t + b) == t
  {
    hide IsWhitespace;
    if b == "" {
      assert t + b == t;
    } else {
      TrimEndOver(t, b[..|b| - 1]);
      assert (t + b)[..|t + b| - 1] == t + b[..|b| - 1];
    }
  }

  lemma {:induction false} TrimStartSplit(s: string) returns (a: string, m: string)
    ensures AllSpace(a) && s == a + m && m == TrimStart(s) && (m != "" ==> !IsWhitespace(m[0]))
  {
    hide IsWhitespace;
    if s != "" && IsWhitespace(s[0]) {
      a, m := TrimStartSplit(s[1..]);
      a := [s[0]] + a;
    } else {
      a, m := "", s;
    }
  }

  lemma {:induction false} TrimEndSplit(s: string) returns (b: string)
    ensures AllSpace(b) && s == TrimEnd(s) + b && (TrimEnd(s) != "" ==> !IsWhitespace(TrimEnd(s)[|TrimEnd(s)| - 1]))
  {
    hide IsWhitespace;
    if s != "" && IsWhitespace(s[|s| - 1]) {
      b := TrimEndSplit(s[..|s| - 1]);
      b := b + [s[|s| - 1]];
    } else {
      b := "";
    }
  }

  lemma {:induction false} TrimEndKeepsStart(s: string)
    ensures TrimEnd(s) != "" ==> TrimEnd(s)[0] == s[0]
  {
    if s != "" && IsWhitespace(s[|s| - 1]) {
      TrimEndKeepsStart(s[..|s| - 1]);
    }
  }

  /** The twenty-five characters of the Unicode property White_Space. */
  lemma WhiteSpaceCharacters(c: char)
    ensures IsWhitespace(c) <==>
      c in ['\t', '\n', '\U{000B}', '\U{000C}', '\r', ' ', '\U{0085}', '\U{00A0}', '\U{1680}', '\U{2000}', '\U{2001}',
            '\U{2002}', '\U{2003}', '\U{2004}', '\U{2005}', '\U{2006}', '\U{2007}', '\U{2008}', '\U{2009}', '\U{200A}',
            '\U{2028}', '\U{2029}', '\U{202F}', '\U{205F}', '\U{3000}']
  {
  }

  /** The sixty-five control characters: the two rows of each of the C0 and C1 sets, and delete. */
  lemma ControlCharacters(c: char)
    ensures IsControl(c) <==> c == '\U{007F}' || c as int / 0x20 == 0 || c as int / 0x20 == 4
  {
  }

  // ---------------------------------------------------------------- letter case

  const LOWER_LETTERS := "abcdefghijklmnopqrstuvwxyz"
  const UPPER_LETTERS := "ABCDEFGHIJKLMNOPQRSTUVWXYZ"

  /** The two case mappings exchange the twenty-six letters of the two alphabets, and leave every other character alone. */
  lemma CaseMappings(i: nat, c: char)
    requires i < 26
    ensures AsciiUpperChar(LOWER_LETTERS[i]) == UPPER_LETTERS[i] == AsciiUpperChar(UPPER_LETTERS[i])
    ensures AsciiLowerChar(UPPER_LETTERS[i]) == LOWER_LETTERS[i] == AsciiLowerChar(LOWER_LETTERS[i])
    ensures c !in LOWER_LETTERS ==> AsciiUpperChar(c) == c
    ensures c !in UPPER_LETTERS ==> AsciiLowerChar(c) == c
  {
    assert forall k | 0 <= k < 26 :: LOWER_LETTERS[k] as int == 'a' as int + k && UPPER_LETTERS[k] as int == 'A' as int + k;
    Alphabets(c);
  }

  lemma Alphabets(c: char)
    ensures c in LOWER_LETTERS <==> 'a' <= c <= 'z'
    ensures c in UPPER_LETTERS <==> 'A' <= c <= 'Z'
  {
    assert forall k | 0 <= k < 26 :: LOWER_LETTERS[k] as int == 'a' as int + k && UPPER_LETTERS[k] as int == 'A' as int + k;
    if 'a' <= c <= 'z' {
      assert LOWER_LETTERS[c as int - 'a' as int] == c;
    }
    if 'A' <= c <= 'Z' {
      assert UPPER_LETTERS[c as int - 'A' as int] == c;
    }
  }

  // ---------------------------------------------------------------- hexadecimal

  lemma LowerDigit(b: byte, n: byte)
    requires n < 16
    ensures HexNibble(b) == Ok(n) <==> b < 0x80 && AsciiLowerChar(b as char) == LowerHexDigit(n)
  {
  }

  lemma {:induction false} DecodePairsIff(text: string, bytes: seq<byte>)
    requires IsAscii(text) && |text| % 2 == 0
    ensures |Utf8(text)| % 2 == 0
    ensures DecodePairs(Utf8(text)) == Ok(bytes) <==> AsciiLower(text) == ToHex(bytes)
  {
    hide HexNibble, LowerHexDigit, AsciiLowerChar;
    Utf8Ascii(text);
    var raw := Utf8(text);
    if text != "" && bytes != [] {
      var h, l, rest := text[0], text[1], text[2..];
      DecodePairsIff(rest, bytes[1..]);
      Utf8Ascii(rest);
      assert raw[2..] == Utf8(rest);
      LowerDigit(raw[0], bytes[0] / 16);
      LowerDigit(raw[1], bytes[0] % 16);
      assert AsciiLower(text) == [AsciiLowerChar(h), AsciiLowerChar(l)] + AsciiLower(rest);
      PairsStep(raw, bytes);
      assert ToHex(bytes) == [LowerHexDigit(bytes[0] / 16), LowerHexDigit(bytes[0] % 16)] + ToHex(bytes[1..]);
      SplitPair(AsciiLowerChar(h), AsciiLowerChar(l), AsciiLower(rest),
        LowerHexDigit(bytes[0] / 16), LowerHexDigit(bytes[0] % 16), ToHex(bytes[1..]));
    }
  }

  lemma SplitPair(a: char, b: char, s: string, c: char, d: char, t: string)
    ensures [a, b] + s == [c, d] + t <==> a == c && b == d && s == t
  {
    var x, y := [a, b] + s, [c, d] + t;
    if x == y {
      assert x[0] == y[0] && x[1] == y[1] && x[2..] == s && y[2..] == t;
    }
  }

  lemma PairsStep(raw: seq<byte>, bytes: seq<byte>)
    requires |raw| % 2 == 0 && raw != [] && bytes != []
    ensures DecodePairs(raw) == Ok(bytes) <==>
      && HexNibble(raw[0]) == Ok(bytes[0] / 16) && HexNibble(raw[1]) == Ok(bytes[0] % 16)
      && DecodePairs(raw[2..]) == Ok(bytes[1..])
  {
    hide HexNibble;
    var high, low, rest := HexNibble(raw[0]), HexNibble(raw[1]), DecodePairs(raw[2..]);
    if high.Ok? && low.Ok? && rest.Ok? {
      SplitByte(high.value, low.value, bytes[0]);
      SplitHead([high.value * 16 + low.value] + rest.value, bytes);
      assert ([high.value * 16 + low.value] + rest.value)[1..] == rest.value;
    }
  }

  lemma SplitByte(high: byte, low: byte, b: byte)
    requires high < 16 && low < 16
    ensures high * 16 + low == b <==> high == b / 16 && low == b % 16
  {
  }

  lemma SplitHead(s: seq<byte>, t: seq<byte>)
    requires s != [] && t != []
    ensures s == t <==> s[0] == t[0] && s[1..] == t[1..]
  {
    assert s == [s[0]] + s[1..] && t == [t[0]] + t[1..];
  }

  /** Only digits and the letters a to f survive decoding, so a text that decodes is ASCII. */
  lemma {:induction false} DecodedIsAscii(raw: seq<byte>)
    requires |raw| % 2 == 0 && DecodePairs(raw).Ok?
    ensures forall i | 0 <= i < |raw| :: raw[i] < 0x80
  {
    if raw != [] {
      DecodedIsAscii(raw[2..]);
      assert forall i | 2 <= i < |raw| :: raw[i] == raw[2..][i - 2];
    }
  }

  lemma LowerAscii(text: string)
    requires IsAscii(AsciiLower(text))
    ensures IsAscii(text)
  {
    forall i | 0 <= i < |text|
      ensures text[i] as int < 0x80
    {
      assert AsciiLower(text)[i] as int < 0x80;
    }
  }

  /** `decode_hex` reads exactly what `to_hex` writes of a non-empty byte string, in either letter case. */
  lemma DecodeHexIff(text: string, bytes: seq<byte>)
    ensures DecodeHex(text) == Ok(bytes) <==> bytes != [] && AsciiLower(text) == ToHex(bytes)
  {
    hide HexNibble, LowerHexDigit, AsciiLowerChar, DecodePairs;
    if DecodeHex(text) == Ok(bytes) {
      DecodedIsAscii(Utf8(text));
      AsciiBytesAsciiText(text);
      Utf8Ascii(text);
      DecodePairsIff(text, bytes);
    }
    if bytes != [] && AsciiLower(text) == ToHex(bytes) {
      LowerAscii(text);
      assert |text| == 2 * |bytes|;
      Utf8Ascii(text);
      DecodePairsIff(text, bytes);
    }
  }

  // ---------------------------------------------------------------- dates

  /** Thirty days have April, June, September and November; February has one more in years divisible by four. */
  lemma Calendar(year: byte, month: byte)
    ensures DaysInMonth(year, month) == 30 <==> month in [4, 6, 9, 11]
    ensures DaysInMonth(year, month) == 0 <==> month == 0 || month > 12
    ensures DaysInMonth(year, 2) == (if year % 4 == 0 then 29 else 28)
    ensures 1 <= month <= 12 && month != 2 && month !in [4, 6, 9, 11] ==> DaysInMonth(year, month) == 31
  {
  }

  /** Two decimal digits, or three from one hundred on, whose value is the number. */
  lemma DigitsValue(n: byte)
    ensures
      var t := TwoDigits(n);
      && |t| == (if n < 100 then 2 else 3)
      && (forall i | 0 <= i < |t| :: '0' <= t[i] <= '9')
      && n == (if |t| == 3 then 100 * (t[0] as int - '0' as int) else 0)
           + 10 * (t[|t| - 2] as int - '0' as int) + (t[|t| - 1] as int - '0' as int)
  {
  }

  /** Existing dates are ordered as the numbers their digits form. */
  lemma DateOrder(d: EmvDate, e: EmvDate)
    ensures d.Before(e) <==>
      (d.year as nat) * 0x1_0000 + (d.month as nat) * 0x100 + d.day < (e.year as nat) * 0x1_0000 + (e.month as nat) * 0x100 + e.day
  {
  }
}
