/**
 The log timestamp: the local date fields of a clock reading written as
 `YYYY-MM-DD HH:MM:SS`. The month field counts from 0 and is written
 counting from 1; every field after the year is left-padded with '0' to two
 characters.
 */
module Timestamp {

  import opened Wrappers

  /** The fields a date object reports; `month0` is 0 for January. */
  datatype DateFields = DateFields(year: int, month0: nat, day: nat, hours: nat, minutes: nat, seconds: nat)

  /** The ranges a real date's fields fall in. */
  predicate ValidDate(d: DateFields) {
    d.month0 < 12 && 1 <= d.day <= 31 && d.hours < 24 && d.minutes < 60 && d.seconds < 60
  }

  predicate IsDigit(c: char) {
    '0' <= c <= '9'
  }

  predicate AllDigits(s: string) {
    forall i :: 0 <= i < |s| ==> IsDigit(s[i])
  }

  function DigitChar(d: nat): (c: char)
    requires d < 10
    ensures IsDigit(c)
  {
    ('0' as int + d) as char
  }

  /** The value of a string of decimal digits, most significant first. */
  function DigitsValue(s: string): nat
    requires AllDigits(s)
    decreases |s|
  {
    if |s| == 0 then 0
    else DigitsValue(s[..|s| - 1]) * 10 + ((s[|s| - 1] as int) - ('0' as int))
  }

  /** Decimal rendering of a natural number, without leading zeros. */
  function NatToString(n: nat): (s: string)
    ensures |s| >= 1 && AllDigits(s)
    ensures DigitsValue(s) == n
    ensures n < 10 <==> |s| == 1
    ensures n < 100 <==> |s| <= 2
    ensures 1000 <= n < 10000 <==> |s| == 4
    decreases n
  {
    if n < 10 then [DigitChar(n)]
    else
      var s := NatToString(n / 10) + [DigitChar(n % 10)];
      assert s[..|s| - 1] == NatToString(n / 10);
      s
  }

  /** Decimal rendering of an integer, with a leading '-' when negative. */
  function IntToString(i: int): (s: string)
    ensures |s| >= 1 && (s[0] == '-' <==> i < 0)
    ensures 1000 <= i < 10000 ==> |s| == 4
    ensures i >= 0 ==> AllDigits(s) && DigitsValue(s) == i
    ensures i < 0 ==> AllDigits(s[1..]) && DigitsValue(s[1..]) == -i
  {
    if i < 0 then "-" + NatToString(-i) else NatToString(i)
  }

  function Repeat(c: char, n: nat): (s: string)
    ensures |s| == n
    ensures forall i :: 0 <= i < n ==> s[i] == c
    decreases n
  {
    if n == 0 then [] else [c] + Repeat(c, n - 1)
  }

  /** A string left-padded with `c` to at least `width` characters; a longer string is kept whole. */
  function PadStart(s: string, width: nat, c: char): (r: string)
    ensures |s| >= width ==> r == s
    ensures |s| < width ==> |r| == width
    ensures |r| - |s| >= 0 && r[|r| - |s|..] == s
    ensures forall i :: 0 <= i < |r| - |s| ==> r[i] == c
  {
    if |s| >= width then s else Repeat(c, width - |s|) + s
  }

  /** A date field as the timestamp writes it. */
  function Pad2(n: nat): (s: string)
    ensures AllDigits(s)
    ensures n < 100 ==> |s| == 2
    ensures n >= 100 ==> s == NatToString(n)
    ensures DigitsValue(s) == n
  {
    var t := NatToString(n);
    var s := PadStart(t, 2, '0');
    if |t| == 1 then
      assert s == ['0', t[0]] && s[..1] == ['0'];
      s
    else s
  }

  /** Joins the six written fields with the timestamp's separators. */
  function Layout(y: string, mo: string, da: string, h: string, mi: string, se: string): string {
    y + "-" + mo + "-" + da + " " + h + ":" + mi + ":" + se
  }

  /** Where each field and separator sits when the year has four characters and every other field two. */
  lemma LayoutPositions(y: string, mo: string, da: string, h: string, mi: string, se: string)
    requires |y| == 4 && |mo| == 2 && |da| == 2 && |h| == 2 && |mi| == 2 && |se| == 2
    ensures var s := Layout(y, mo, da, h, mi, se);
            |s| == 19 && s[4] == '-' && s[7] == '-' && s[10] == ' ' && s[13] == ':' && s[16] == ':' &&
            s[0..4] == y && s[5..7] == mo && s[8..10] == da && s[11..13] == h && s[14..16] == mi && s[17..19] == se
  {
  }

  /** The timestamp `currentTime` builds from a date's fields. */
  function FormatTime(d: DateFields): string {
    Layout(IntToString(d.year), Pad2(d.month0 + 1), Pad2(d.day), Pad2(d.hours), Pad2(d.minutes), Pad2(d.seconds))
  }

  /** For a real date with a four-digit year, each written field has its fixed width and reads back as its value. */
  lemma FieldsWritten(d: DateFields)
    requires ValidDate(d) && 1000 <= d.year < 10000
    ensures var y := IntToString(d.year); |y| == 4 && AllDigits(y) && DigitsValue(y) == d.year
    ensures var mo := Pad2(d.month0 + 1); |mo| == 2 && AllDigits(mo) && DigitsValue(mo) == d.month0 + 1
    ensures var da := Pad2(d.day); |da| == 2 && AllDigits(da) && DigitsValue(da) == d.day
    ensures var h := Pad2(d.hours); |h| == 2 && AllDigits(h) && DigitsValue(h) == d.hours
    ensures var mi := Pad2(d.minutes); |mi| == 2 && AllDigits(mi) && DigitsValue(mi) == d.minutes
    ensures var se := Pad2(d.seconds); |se| == 2 && AllDigits(se) && DigitsValue(se) == d.seconds
  {
  }

  /** A real date with a four-digit year gives a 19-character timestamp with fixed separators. */
  lemma FormatTimeLayout(d: DateFields)
    requires ValidDate(d) && 1000 <= d.year < 10000
    ensures var s := FormatTime(d);
            |s| == 19 && s[4] == '-' && s[7] == '-' && s[10] == ' ' && s[13] == ':' && s[16] == ':'
  {
    FieldsWritten(d);
    LayoutPositions(IntToString(d.year), Pad2(d.month0 + 1), Pad2(d.day), Pad2(d.hours), Pad2(d.minutes), Pad2(d.seconds));
  }

  /** True when the six field slices of a 19-character string are all digits. */
  predicate DigitFields(s: string)
    requires |s| == 19
  {
    AllDigits(s[0..4]) && AllDigits(s[5..7]) && AllDigits(s[8..10]) &&
    AllDigits(s[11..13]) && AllDigits(s[14..16]) && AllDigits(s[17..19])
  }

  /** Reads a 19-character timestamp back into its date fields. */
  function ParseTime(s: string): (r: Option<DateFields>)
    ensures r.Some? ==> |s| == 19
  {
    if |s| != 19 || s[4] != '-' || s[7] != '-' || s[10] != ' ' || s[13] != ':' || s[16] != ':' then None
    else if !DigitFields(s) || DigitsValue(s[5..7]) == 0 then None
    else Some(DateFields(DigitsValue(s[0..4]), DigitsValue(s[5..7]) - 1, DigitsValue(s[8..10]),
                         DigitsValue(s[11..13]), DigitsValue(s[14..16]), DigitsValue(s[17..19])))
  }

  /**
   Every real date with a four-digit year is written as a timestamp that reads
   back as exactly that date: the month shift and the padding lose nothing.
   */
  lemma FormatTimeRoundTrip(d: DateFields)
    requires ValidDate(d) && 1000 <= d.year < 10000
    ensures ParseTime(FormatTime(d)) == Some(d)
  {
    var y, mo, da := IntToString(d.year), Pad2(d.month0 + 1), Pad2(d.day);
    var h, mi, se := Pad2(d.hours), Pad2(d.minutes), Pad2(d.seconds);
    FieldsWritten(d);
    LayoutPositions(y, mo, da, h, mi, se);
    var s := FormatTime(d);
    assert s == Layout(y, mo, da, h, mi, se);
    assert DigitFields(s);
  }

  /** No leading zero: the rendering starts with '0' only for zero itself. */
  lemma {:induction false} NatToStringNoLeadingZero(n: nat)
    ensures NatToString(n)[0] == '0' <==> n == 0
    decreases n
  {
    if n >= 10 {
      NatToStringNoLeadingZero(n / 10);
      assert NatToString(n)[0] == NatToString(n / 10)[0];
    }
  }
}
