/** Calendar dates as Python's `datetime.date` holds them, and the ISO text
    `date.isoformat()` writes for them. The date is a parameter of the model:
    reading the clock (`date.today()`) is left to the caller. */
module Dates {
  import opened Wrappers
  import opened Strings

  datatype Date = Date(year: int, month: int, day: int)

  predicate IsLeapYear(y: int) {
    y % 4 == 0 && (y % 100 != 0 || y % 400 == 0)
  }

  function DaysInMonth(y: int, m: int): int
    requires 1 <= m <= 12
  {
    if m == 2 then (if IsLeapYear(y) then 29 else 28)
    else if m == 4 || m == 6 || m == 9 || m == 11 then 30
    else 31
  }

  /** The values a `datetime.date` can hold: a year from MINYEAR (1) to
      MAXYEAR (9999), a month, and a day of that month. */
  predicate ValidDate(d: Date) {
    1 <= d.year <= 9999 && 1 <= d.month <= 12 && 1 <= d.day <= DaysInMonth(d.year, d.month)
  }

  /** `d.isoformat()`: `YYYY-MM-DD`, each field zero-padded to its width. */
  function IsoFormat(d: Date): (r: string)
    requires ValidDate(d)
    ensures |r| == 10 && r[4] == '-' && r[7] == '-'
    ensures AllDigits(r[..4]) && AllDigits(r[5..7]) && AllDigits(r[8..])
    ensures DecimalValue(r[..4]) == d.year
    ensures DecimalValue(r[5..7]) == d.month && DecimalValue(r[8..]) == d.day
  {
    assert Pow10(2) == 100 && Pow10(4) == 10000;
    DecimalLengthBound(d.year, 4);
    DecimalLengthBound(d.month, 2);
    DecimalLengthBound(d.day, 2);
    var y, m, dd := ZeroPadded(d.year, 4), ZeroPadded(d.month, 2), ZeroPadded(d.day, 2);
    var r := y + "-" + m + "-" + dd;
    assert r[..4] == y && r[5..7] == m && r[8..] == dd;
    r
  }

  /** Reads a `YYYY-MM-DD` text back into the date it names, if it names one. */
  function ParseIsoDate(s: string): Option<Date> {
    if |s| == 10 && s[4] == '-' && s[7] == '-'
       && AllDigits(s[..4]) && AllDigits(s[5..7]) && AllDigits(s[8..]) then
      var d := Date(DecimalValue(s[..4]), DecimalValue(s[5..7]), DecimalValue(s[8..]));
      if ValidDate(d) then Some(d) else None
    else
      None
  }

  /** The ISO text of a date names that date and no other. */
  lemma IsoFormatRoundTrip(d: Date)
    requires ValidDate(d)
    ensures ParseIsoDate(IsoFormat(d)) == Some(d)
  {
  }

  lemma IsoFormatInjective(d1: Date, d2: Date)
    requires ValidDate(d1) && ValidDate(d2)
    requires IsoFormat(d1) == IsoFormat(d2)
    ensures d1 == d2
  {
    IsoFormatRoundTrip(d1);
    IsoFormatRoundTrip(d2);
  }
}
