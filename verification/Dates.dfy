/** Calendar dates: `EmvDate` (src/restrictions.rs), and their text form in profiles and bundles. */
module Dates {
  import opened Kernel
  import opened Text

  datatype EmvDate = EmvDate(year: byte, month: byte, day: byte) {
    /** The derived lexicographic order. */
    predicate Before(other: EmvDate) {
      || year < other.year
      || (year == other.year && month < other.month)
      || (year == other.year && month == other.month && day < other.day)
    }
  }

  function DaysInMonth(year: byte, month: byte): nat {
    match month
    case 1 => 31
    case 2 => if year % 4 == 0 then 29 else 28
    case 3 => 31
    case 4 => 30
    case 5 => 31
    case 6 => 30
    case 7 => 31
    case 8 => 31
    case 9 => 30
    case 10 => 31
    case 11 => 30
    case 12 => 31
    case _ => 0
  }

  /** `EmvDate::new`. */
  function NewDate(year: byte, month: byte, day: byte): Result<EmvDate> {
    if 1 <= day <= DaysInMonth(year, month) then Ok(EmvDate(year, month, day)) else Err(ParseError)
  }

  function DigitChar(n: nat): char
    requires n < 10
  {
    (0x30 + n) as char
  }

  /** `{:02}` of an 8-bit number. */
  function TwoDigits(n: byte): string {
    if n < 100 then [DigitChar(n / 10), DigitChar(n % 10)]
    else [DigitChar(n / 100), DigitChar(n / 10 % 10), DigitChar(n % 10)]
  }

  /** `format_date`. */
  function FormatDate(d: EmvDate): string {
    "20" + TwoDigits(d.year) + "-" + TwoDigits(d.month) + "-" + TwoDigits(d.day)
  }

  /** `decimal_pair`. */
  function DecimalPair(high: byte, low: byte): Result<byte> {
    if 0x30 <= high <= 0x39 && 0x30 <= low <= 0x39 then Ok((high - 0x30) * 10 + (low - 0x30)) else Err(ParseError)
  }

  /** `parse_iso_date`, over the text's bytes. */
  function ParseIsoBytes(b: seq<byte>): Result<EmvDate> {
    if |b| != 10 || b[0] != 0x32 || b[1] != 0x30 || b[4] != 0x2d || b[7] != 0x2d then Err(ParseError)
    else
      var year :- DecimalPair(b[2], b[3]);
      var month :- DecimalPair(b[5], b[6]);
      var day :- DecimalPair(b[8], b[9]);
      NewDate(year, month, day)
  }

  function ParseIsoDate(input: string): Result<EmvDate> {
    ParseIsoBytes(Utf8(input))
  }

  /** A date that exists and whose year needs two digits. */
  predicate IsIsoDate(d: EmvDate) {
    d.year < 100 && 1 <= d.day <= DaysInMonth(d.year, d.month)
  }

  function DateBytes(d: EmvDate): seq<byte>
    requires IsIsoDate(d)
  {
    [0x32, 0x30, 0x30 + d.year / 10, 0x30 + d.year % 10, 0x2d, 0x30 + d.month / 10, 0x30 + d.month % 10,
     0x2d, 0x30 + d.day / 10, 0x30 + d.day % 10]
  }

  lemma FormatBytes(d: EmvDate)
    requires IsIsoDate(d)
    ensures IsAscii(FormatDate(d)) && Utf8(FormatDate(d)) == DateBytes(d)
  {
    Utf8Ascii(FormatDate(d));
  }

  lemma PairBytes(high: byte, low: byte, n: byte)
    ensures DecimalPair(high, low) == Ok(n) <==> n < 100 && high == 0x30 + n / 10 && low == 0x30 + n % 10
  {
  }

  lemma ParseBytes(b: seq<byte>, d: EmvDate)
    ensures ParseIsoBytes(b) == Ok(d) <==> IsIsoDate(d) && b == DateBytes(d)
  {
    hide DecimalPair, DaysInMonth;
    if |b| == 10 {
      PairBytes(b[2], b[3], d.year);
      PairBytes(b[5], b[6], d.month);
      PairBytes(b[8], b[9], d.day);
      assert 1 <= d.day <= DaysInMonth(d.year, d.month) ==> d.month <= 12 && d.day <= 31 by { DaysBelow(d.year, d.month); }
      if ParseIsoBytes(b) == Ok(d) {
        assert b[0] == 0x32 && b[1] == 0x30 && b[4] == 0x2d && b[7] == 0x2d;
        assert b == DateBytes(d);
      }
    }
  }

  lemma DaysBelow(year: byte, month: byte)
    ensures DaysInMonth(year, month) <= 31
    ensures month > 12 ==> DaysInMonth(year, month) == 0
  {
  }

  /** The text parses to the date exactly when the date is printable in ten characters and the text is its printed form. */
  lemma IsoDateText(s: string, d: EmvDate)
    ensures ParseIsoDate(s) == Ok(d) <==> IsIsoDate(d) && s == FormatDate(d)
  {
    hide ParseIsoBytes, FormatDate, Utf8, DateBytes;
    ParseBytes(Utf8(s), d);
    if IsIsoDate(d) {
      FormatBytes(d);
      if Utf8(s) == DateBytes(d) {
        AsciiTextFromBytes(s, FormatDate(d));
      }
    }
  }
}
