/**
 * System.DateTime as far as the source logs use it: a calendar date and a
 * time of day, written with the custom format "yyyy-MM-dd HH:mm" and read
 * back with DateTime.Parse.
 */
module Dates {
  import opened Wrappers
  import Text

  datatype DateTime = DateTime(year: int, month: int, day: int, hour: int, minute: int, second: int)

  predicate IsLeapYear(y: int) {
    y % 4 == 0 && (y % 100 != 0 || y % 400 == 0)
  }

  function DaysInMonth(y: int, m: int): int
    requires 1 <= m <= 12
  {
    if m == 2 then (if IsLeapYear(y) then 29 else 28)
    else if m == 4 || m == 6 || m == 9 || m == 11 then 30
    else 31
  }

  /** The range DateTime can represent: years 1 to 9999, real calendar days. */
  predicate Valid(d: DateTime) {
    && 1 <= d.year <= 9999
    && 1 <= d.month <= 12
    && 1 <= d.day <= DaysInMonth(d.year, d.month)
    && 0 <= d.hour < 24
    && 0 <= d.minute < 60
    && 0 <= d.second < 60
  }

  /** DateTime.MinValue. */
  const MinValue: DateTime := DateTime(1, 1, 1, 0, 0, 0)

  /** The instant a "yyyy-MM-dd HH:mm" text keeps: seconds dropped. */
  function ToMinute(d: DateTime): DateTime {
    d.(second := 0)
  }

  /** Seconds since MinValue, used to compare instants. */
  function Ticks(d: DateTime): int {
    ((DaysBeforeYear(d.year) + DaysBeforeMonth(d.year, d.month) + d.day - 1) * 24 + d.hour) * 3600
    + d.minute * 60 + d.second
  }

  function DaysBeforeYear(y: int): int {
    var p := y - 1;
    p * 365 + p / 4 - p / 100 + p / 400
  }

  function DaysBeforeMonth(y: int, m: int): int
    decreases m
  {
    if m <= 1 || m > 12 then 0 else DaysBeforeMonth(y, m - 1) + DaysInMonth(y, m - 1)
  }

  // ---------------------------------------------------------------------------
  // Decimal digits

  predicate IsDigit(c: char) {
    '0' <= c <= '9'
  }

  function DigitChar(n: int): (c: char)
    requires 0 <= n < 10
    ensures IsDigit(c)
  {
    ('0' as int + n) as char
  }

  function Pow10(k: nat): (r: nat)
    ensures r > 0
  {
    if k == 0 then 1 else 10 * Pow10(k - 1)
  }

  /** n written with exactly `width` digits, zero padded on the left ("D4", "MM"). */
  function Pad(n: nat, width: nat): (r: string)
    ensures |r| == width
    ensures forall i :: 0 <= i < |r| ==> IsDigit(r[i])
  {
    if width == 0 then "" else Pad(n / 10, width - 1) + [DigitChar(n % 10)]
  }

  /** The value of a run of decimal digits. */
  function ReadNumber(s: string): int {
    if |s| == 0 then 0 else ReadNumber(s[..|s| - 1]) * 10 + (s[|s| - 1] as int - '0' as int)
  }

  lemma {:induction false} ReadPad(n: nat, width: nat)
    requires n < Pow10(width)
    ensures ReadNumber(Pad(n, width)) == n
  {
    if width > 0 {
      var p := Pad(n, width);
      assert p[..|p| - 1] == Pad(n / 10, width - 1);
      assert n / 10 < Pow10(width - 1);
      ReadPad(n / 10, width - 1);
    }
  }

  // ---------------------------------------------------------------------------
  // "yyyy-MM-dd HH:mm"

  /** String.Format("{0:yyyy-MM-dd HH:mm}", d). */
  function Format(d: DateTime): (r: string)
    requires Valid(d)
    ensures |r| == 16
  {
    Pad(d.year, 4) + "-" + Pad(d.month, 2) + "-" + Pad(d.day, 2) + " " + Pad(d.hour, 2) + ":" + Pad(d.minute, 2)
  }

  predicate DigitsAt(s: string, lo: nat, hi: nat)
    requires lo <= hi <= |s|
  {
    forall i :: lo <= i < hi ==> IsDigit(s[i])
  }

  predicate HasFormatShape(s: string) {
    && |s| == 16
    && s[4] == '-' && s[7] == '-' && s[10] == ' ' && s[13] == ':'
    && DigitsAt(s, 0, 4) && DigitsAt(s, 5, 7) && DigitsAt(s, 8, 10)
    && DigitsAt(s, 11, 13) && DigitsAt(s, 14, 16)
  }

  /**
   * DateTime.Parse on the texts the logs write: a "yyyy-MM-dd HH:mm" text that
   * names a real date parses; everything else is a FormatException (None).
   */
  function Parse(s: string): (r: Option<DateTime>)
    ensures r.Some? ==> Valid(r.value) && r.value.second == 0
    ensures r.Some? ==> HasFormatShape(s)
  {
    if !HasFormatShape(s) then None
    else
      var d := DateTime(ReadNumber(s[0..4]), ReadNumber(s[5..7]), ReadNumber(s[8..10]),
                        ReadNumber(s[11..13]), ReadNumber(s[14..16]), 0);
      if Valid(d) then Some(d) else None
  }

  /** Parsing a formatted date gives the date back, to the minute. */
  lemma ParseFormat(d: DateTime)
    requires Valid(d)
    ensures Parse(Format(d)) == Some(ToMinute(d))
  {
    var s := Format(d);
    assert s[0..4] == Pad(d.year, 4);
    assert s[5..7] == Pad(d.month, 2);
    assert s[8..10] == Pad(d.day, 2);
    assert s[11..13] == Pad(d.hour, 2);
    assert s[14..16] == Pad(d.minute, 2);
    ReadPad(d.year, 4);
    ReadPad(d.month, 2);
    ReadPad(d.day, 2);
    ReadPad(d.hour, 2);
    ReadPad(d.minute, 2);
  }

  predicate IsFormatChar(c: char) {
    IsDigit(c) || c == '-' || c == ' ' || c == ':'
  }

  lemma FormatChars(d: DateTime)
    requires Valid(d)
    ensures forall c :: c in Format(d) ==> IsFormatChar(c)
  {
    var y, mo, da, h, mi := Pad(d.year, 4), Pad(d.month, 2), Pad(d.day, 2), Pad(d.hour, 2), Pad(d.minute, 2);
    assert forall c :: c in y ==> IsDigit(c);
    assert forall c :: c in mo ==> IsDigit(c);
    assert forall c :: c in da ==> IsDigit(c);
    assert forall c :: c in h ==> IsDigit(c);
    assert forall c :: c in mi ==> IsDigit(c);
  }

  /** A formatted date holds no log delimiter and no line break. */
  lemma FormatIsPlain(d: DateTime)
    requires Valid(d)
    ensures '|' !in Format(d) && '<' !in Format(d) && Text.IsLineText(Format(d))
  {
    FormatChars(d);
  }

  /** A formatted date is unchanged by Trim. */
  lemma FormatIsTrimmed(d: DateTime)
    requires Valid(d)
    ensures Text.Trim(Format(d)) == Format(d)
  {
    var s := Format(d);
    assert IsDigit(s[0]) by {
      assert s[0] == Pad(d.year, 4)[0];
    }
    assert IsDigit(s[15]) by {
      assert s[15] == Pad(d.minute, 2)[1];
    }
    DigitIsNotWhiteSpace(s[0]);
    DigitIsNotWhiteSpace(s[15]);
    Text.TrimNoop(s);
  }

  lemma DigitIsNotWhiteSpace(c: char)
    requires IsDigit(c)
    ensures !Text.IsWhiteSpace(c)
  {
  }
}
