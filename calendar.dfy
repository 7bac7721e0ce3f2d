/** Calendar dates and times of day, with the `%Y-%m-%d` and `%H:%M:%S` renderings of
    Python's `strftime` and the full-date / partial-time forms of section 5.6 of RFC 3339. */
module Calendar {
  import opened Results
  import opened Text

  /** A proleptic Gregorian date, as Python's `datetime.date` holds it. */
  datatype Date = Date(year: int, month: int, day: int)

  /** A time of day to the second, as Python's `datetime.time` holds it without fractions. */
  datatype TimeOfDay = TimeOfDay(hour: int, minute: int, second: int)

  predicate IsLeapYear(year: int)
  {
    year % 4 == 0 && (year % 100 != 0 || year % 400 == 0)
  }

  function DaysInMonth(year: int, month: int): (n: int)
    ensures 28 <= n <= 31
  {
    if month == 2 then (if IsLeapYear(year) then 29 else 28)
    else if month == 4 || month == 6 || month == 9 || month == 11 then 30
    else 31
  }

  /** The dates Python's `datetime.date` accepts (years 1 to 9999). */
  predicate ValidDate(d: Date)
  {
    1 <= d.year <= 9999 && 1 <= d.month <= 12 && 1 <= d.day <= DaysInMonth(d.year, d.month)
  }

  /** The times Python's `datetime.time` accepts (no leap second). */
  predicate ValidTime(t: TimeOfDay)
  {
    0 <= t.hour < 24 && 0 <= t.minute < 60 && 0 <= t.second < 60
  }

  /** `strftime("%Y-%m-%d")`, the RFC 3339 full-date. */
  function IsoDate(d: Date): (s: string)
    requires ValidDate(d)
    ensures |s| == 10 && s[4] == '-' && s[7] == '-'
    ensures AllDigits(s[..4]) && AllDigits(s[5..7]) && AllDigits(s[8..])
  {
    var s := Pad4(d.year) + "-" + Pad2(d.month) + "-" + Pad2(d.day);
    assert s[..4] == Pad4(d.year) && s[5..7] == Pad2(d.month) && s[8..] == Pad2(d.day);
    s
  }

  /** `strftime("%H:%M:%S")`, the RFC 3339 partial-time without fraction. */
  function IsoTime(t: TimeOfDay): (s: string)
    requires ValidTime(t)
    ensures |s| == 8 && s[2] == ':' && s[5] == ':'
    ensures AllDigits(s[..2]) && AllDigits(s[3..5]) && AllDigits(s[6..])
  {
    var s := Pad2(t.hour) + ":" + Pad2(t.minute) + ":" + Pad2(t.second);
    assert s[..2] == Pad2(t.hour) && s[3..5] == Pad2(t.minute) && s[6..] == Pad2(t.second);
    s
  }

  /** Reads a full-date; `None` for anything that is not one, or names no real day. */
  function ParseIsoDate(s: string): Option<Date>
  {
    if |s| == 10 && s[4] == '-' && s[7] == '-' && AllDigits(s[..4]) && AllDigits(s[5..7]) && AllDigits(s[8..]) then
      var d := Date(NumeralValue(s[..4]), NumeralValue(s[5..7]), NumeralValue(s[8..]));
      if ValidDate(d) then Some(d) else None
    else None
  }

  /** Reads a partial-time of the form hh:mm:ss; `None` otherwise. */
  function ParseIsoTime(s: string): Option<TimeOfDay>
  {
    if |s| == 8 && s[2] == ':' && s[5] == ':' && AllDigits(s[..2]) && AllDigits(s[3..5]) && AllDigits(s[6..]) then
      var t := TimeOfDay(NumeralValue(s[..2]), NumeralValue(s[3..5]), NumeralValue(s[6..]));
      if ValidTime(t) then Some(t) else None
    else None
  }

  lemma IsoDateRoundTrip(d: Date)
    requires ValidDate(d)
    ensures ParseIsoDate(IsoDate(d)) == Some(d)
  {
    var s := IsoDate(d);
    assert s[..4] == Pad4(d.year) && s[5..7] == Pad2(d.month) && s[8..] == Pad2(d.day);
    Pad4RoundTrip(d.year);
    Pad2RoundTrip(d.month);
    Pad2RoundTrip(d.day);
  }

  /** What `ParseIsoDate` accepts is exactly a rendered valid date. */
  lemma ParseIsoDateSound(s: string)
    requires ParseIsoDate(s).Some?
    ensures ValidDate(ParseIsoDate(s).value) && IsoDate(ParseIsoDate(s).value) == s
  {
    PaddedNumeral(s[..4]);
    PaddedNumeral(s[5..7]);
    PaddedNumeral(s[8..]);
    assert s == s[..4] + "-" + s[5..7] + "-" + s[8..];
  }

  lemma IsoDateInjective(d1: Date, d2: Date)
    requires ValidDate(d1) && ValidDate(d2) && IsoDate(d1) == IsoDate(d2)
    ensures d1 == d2
  {
    IsoDateRoundTrip(d1);
    IsoDateRoundTrip(d2);
  }

  lemma IsoTimeRoundTrip(t: TimeOfDay)
    requires ValidTime(t)
    ensures ParseIsoTime(IsoTime(t)) == Some(t)
  {
    var s := IsoTime(t);
    assert s[..2] == Pad2(t.hour) && s[3..5] == Pad2(t.minute) && s[6..] == Pad2(t.second);
    Pad2RoundTrip(t.hour);
    Pad2RoundTrip(t.minute);
    Pad2RoundTrip(t.second);
  }

  lemma ParseIsoTimeSound(s: string)
    requires ParseIsoTime(s).Some?
    ensures ValidTime(ParseIsoTime(s).value) && IsoTime(ParseIsoTime(s).value) == s
  {
    PaddedNumeral(s[..2]);
    PaddedNumeral(s[3..5]);
    PaddedNumeral(s[6..]);
    assert s == s[..2] + ":" + s[3..5] + ":" + s[6..];
  }
}
