/**
 * The departure and arrival fields are read with the pattern `%Y-%m-%dT%H:%M`:
 * the date-time shape of section 5.6 of RFC 3339 without seconds and without an
 * offset, e.g. "2019-03-24T22:20". This module parses that fixed 16-character
 * shape digit by digit and checks every field against the Gregorian calendar.
 */
module Timestamp {
  import opened Wrappers
  import opened Digits

  /** A calendar date and a time of day to the minute, with no time zone. */
  datatype DateTime = DateTime(year: int, month: int, day: int, hour: int, minute: int)

  /** Gregorian leap years: every fourth year, except centuries not divisible by 400. */
  predicate IsLeapYear(year: int) {
    year % 4 == 0 && (year % 100 != 0 || year % 400 == 0)
  }

  function DaysInMonth(year: int, month: int): (n: int)
    requires 1 <= month <= 12
    ensures 28 <= n <= 31
    ensures n == 28 <==> month == 2 && !IsLeapYear(year)
    ensures n == 29 <==> month == 2 && IsLeapYear(year)
    ensures n == 30 <==> month in {4, 6, 9, 11}
    ensures n == 31 <==> month in {1, 3, 5, 7, 8, 10, 12}
  {
    if month == 2 then (if IsLeapYear(year) then 29 else 28)
    else if month in {4, 6, 9, 11} then 30
    else 31
  }

  /** A date-time that exists on the calendar (years 1 to 9999, as four digits allow). */
  predicate Valid(t: DateTime) {
    && 1 <= t.year <= 9999
    && 1 <= t.month <= 12
    && 1 <= t.day <= DaysInMonth(t.year, t.month)
    && 0 <= t.hour <= 23
    && 0 <= t.minute <= 59
  }

  /** Positions of the separators in `YYYY-MM-DDTHH:MM`. */
  predicate IsSeparatorPos(i: int) {
    i == 4 || i == 7 || i == 10 || i == 13
  }

  /** The string has the shape `DDDD-DD-DDTDD:DD` with D an ASCII digit. */
  predicate HasShape(s: string) {
    && |s| == 16
    && s[4] == '-' && s[7] == '-' && s[10] == 'T' && s[13] == ':'
    && forall i | 0 <= i < |s| && !IsSeparatorPos(i) :: IsDigit(s[i])
  }

  /** The value of the two digits at i and i + 1. */
  function Field2(s: string, i: nat): (n: nat)
    requires i + 1 < |s| && IsDigit(s[i]) && IsDigit(s[i + 1])
    ensures n <= 99
  {
    10 * DigitValue(s[i]) + DigitValue(s[i + 1])
  }

  /** The value of the four digits at i to i + 3. */
  function Field4(s: string, i: nat): (n: nat)
    requires i + 3 < |s| && IsDigit(s[i]) && IsDigit(s[i + 1]) && IsDigit(s[i + 2]) && IsDigit(s[i + 3])
    ensures n <= 9999
  {
    100 * Field2(s, i) + Field2(s, i + 2)
  }

  /** The fields of a string of the right shape, before any range check. */
  function Fields(s: string): DateTime
    requires HasShape(s)
  {
    assert IsDigit(s[0]) && IsDigit(s[1]) && IsDigit(s[2]) && IsDigit(s[3]);
    assert IsDigit(s[5]) && IsDigit(s[6]) && IsDigit(s[8]) && IsDigit(s[9]);
    assert IsDigit(s[11]) && IsDigit(s[12]) && IsDigit(s[14]) && IsDigit(s[15]);
    DateTime(Field4(s, 0), Field2(s, 5), Field2(s, 8), Field2(s, 11), Field2(s, 14))
  }

  /**
   * Parses `YYYY-MM-DDTHH:MM`. A string of another shape, or whose fields name a
   * date or time that does not exist (month 13, 31 April, 29 February of a common
   * year, hour 24, minute 60), gives None.
   */
  function Parse(s: string): (r: Option<DateTime>)
    ensures r.Some? ==> |s| == 16
    ensures r.Some? ==> 1 <= r.value.month <= 12 && 1 <= r.value.day <= 31
    ensures r.Some? ==> 0 <= r.value.hour <= 23 && 0 <= r.value.minute <= 59
  {
    if HasShape(s) && Valid(Fields(s)) then Some(Fields(s)) else None
  }

  /**
   * The texts that pandas reads as a missing time (NaT) rather than as an
   * error: the empty string and six spellings of NaT and NaN.
   */
  predicate IsNullText(s: string) {
    s == "" || s == "NaT" || s == "nat" || s == "NAT" || s == "nan" || s == "NaN" || s == "NAN"
  }

  /** What reading a time field gives: a date-time, or NaT for a missing one. */
  datatype Stamp = NaT | At(time: DateTime)

  /** A field read off a Stamp: an integer, or NaN when the stamp is NaT. */
  datatype Num = Int(value: int) | NaN

  /** A reading of the clock: always a valid date-time. */
  type Instant = t: DateTime | Valid(t) witness DateTime(1970, 1, 1, 0, 0)

  /** The texts that pandas replaces by the current clock time. */
  predicate IsClockText(s: string) {
    s == "now" || s == "today"
  }

  /**
   * Reads a time field as the handler does, with `now` the clock reading: a
   * null text gives NaT, "now" and "today" give the clock time, a string of the
   * `YYYY-MM-DDTHH:MM` shape naming a real date-time gives that date-time, and
   * anything else is an error (None).
   */
  function ParseStamp(s: string, now: Instant): (r: Option<Stamp>)
    ensures r == Some(NaT) <==> IsNullText(s)
    ensures (r.Some? && r.value.At?) <==> IsClockText(s) || Parse(s).Some?
    ensures IsClockText(s) ==> r == Some(At(now))
    ensures Parse(s).Some? ==> r == Some(At(Parse(s).value))
    ensures r.Some? && r.value.At? ==> Valid(r.value.time)
  {
    if IsNullText(s) then Some(NaT)
    else if IsClockText(s) then Some(At(now))
    else
      match Parse(s)
      case None => None
      case Some(t) => Some(At(t))
  }

  /** `.day` of a parsed time; NaN for NaT. */
  function Day(st: Stamp): Num {
    if st.At? then Int(st.time.day) else NaN
  }

  /** `.month` of a parsed time; NaN for NaT. */
  function Month(st: Stamp): Num {
    if st.At? then Int(st.time.month) else NaN
  }

  /** `.hour` of a parsed time; NaN for NaT. */
  function Hour(st: Stamp): Num {
    if st.At? then Int(st.time.hour) else NaN
  }

  /** `.minute` of a parsed time; NaN for NaT. */
  function Minute(st: Stamp): Num {
    if st.At? then Int(st.time.minute) else NaN
  }

  /** A number below 100 as two zero-padded digits. */
  function Pad2(n: nat): (s: string)
    requires n <= 99
    ensures |s| == 2 && IsDigit(s[0]) && IsDigit(s[1])
    ensures Field2(s, 0) == n
  {
    [DigitChar(n / 10), DigitChar(n % 10)]
  }

  /** A number below 10000 as four zero-padded digits. */
  function Pad4(n: nat): (s: string)
    requires n <= 9999
    ensures |s| == 4 && IsDigit(s[0]) && IsDigit(s[1]) && IsDigit(s[2]) && IsDigit(s[3])
    ensures Field4(s, 0) == n
  {
    var hi := Pad2(n / 100);
    var lo := Pad2(n % 100);
    assert Field2(hi + lo, 0) == n / 100 && Field2(hi + lo, 2) == n % 100;
    hi + lo
  }

  /** Writes a valid date-time in the shape Parse reads. */
  function Format(t: DateTime): (s: string)
    requires Valid(t)
    ensures HasShape(s)
  {
    Pad4(t.year) + "-" + Pad2(t.month) + "-" + Pad2(t.day) + "T" + Pad2(t.hour) + ":" + Pad2(t.minute)
  }

  /** Every valid date-time is read back from its own text: Parse is onto the calendar. */
  lemma ParseFormat(t: DateTime)
    requires Valid(t)
    ensures Parse(Format(t)) == Some(t)
  {
    var s := Format(t);
    var y, mo, d, h, mi := Pad4(t.year), Pad2(t.month), Pad2(t.day), Pad2(t.hour), Pad2(t.minute);
    assert s[0..4] == y && s[5..7] == mo && s[8..10] == d && s[11..13] == h && s[14..16] == mi;
    assert Field4(s, 0) == Field4(y, 0);
    assert Field2(s, 5) == Field2(mo, 0) && Field2(s, 8) == Field2(d, 0);
    assert Field2(s, 11) == Field2(h, 0) && Field2(s, 14) == Field2(mi, 0);
    assert Fields(s) == t;
  }

  /** A string that parses is exactly the text of what it parses to: no two strings denote one date-time. */
  lemma FormatParse(s: string)
    requires Parse(s).Some?
    ensures Format(Parse(s).value) == s
  {
    var t := Parse(s).value;
    ParseFormat(t);
    FieldsDetermineText(Format(t), s);
  }

  /** Two strings of the right shape with the same fields are the same string. */
  lemma FieldsDetermineText(a: string, b: string)
    requires HasShape(a) && HasShape(b) && Fields(a) == Fields(b)
    ensures a == b
  {
    assert Field4(a, 0) == Field4(b, 0);
    assert Field2(a, 0) == Field2(b, 0) && Field2(a, 2) == Field2(b, 2);
    forall i | 0 <= i < 16 && !IsSeparatorPos(i)
      ensures a[i] == b[i]
    {
      var j := if i in {1, 3, 6, 9, 12, 15} then i - 1 else i;
      assert IsDigit(a[j]) && IsDigit(a[j + 1]) && IsDigit(b[j]) && IsDigit(b[j + 1]);
      TwoDigitsDetermined(a, b, j);
    }
  }

  /** Two digit pairs with the same value are the same characters. */
  lemma TwoDigitsDetermined(a: string, b: string, i: nat)
    requires i + 1 < |a| && i + 1 < |b|
    requires IsDigit(a[i]) && IsDigit(a[i + 1]) && IsDigit(b[i]) && IsDigit(b[i + 1])
    requires Field2(a, i) == Field2(b, i)
    ensures a[i] == b[i] && a[i + 1] == b[i + 1]
  {
    DigitCharOfValue(a[i]);
    DigitCharOfValue(b[i]);
    DigitCharOfValue(a[i + 1]);
    DigitCharOfValue(b[i + 1]);
  }
}
