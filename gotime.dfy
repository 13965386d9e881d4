/**
 * The fragment of Go's package time that the birthday code relies on:
 * time.Parse with the two date-only layouts "20060102" and "2006-01-02",
 * the proleptic Gregorian calendar it validates against, the zero Time and
 * IsZero.  Clock time and time zones play no part (both layouts carry a date
 * only, and Parse returns such a value in UTC), so a Time is its date.
 */
module GoTime {
  import opened Decimal

  datatype Option<T> = None | Some(value: T)

  /** The calendar part of a time.Time: year, month 1..12, day of month. */
  datatype Date = Date(year: nat, month: nat, day: nat)

  /** The zero value time.Time{}: January 1 of year 1, 00:00 UTC. */
  const ZeroTime: Date := Date(1, 1, 1)

  predicate IsZero(t: Date) {
    t == ZeroTime
  }

  predicate IsLeap(year: nat) {
    year % 4 == 0 && (year % 100 != 0 || year % 400 == 0)
  }

  function DaysIn(month: nat, year: nat): (n: nat)
    requires 1 <= month <= 12
    ensures 28 <= n <= 31
    ensures n == 29 <==> month == 2 && IsLeap(year)
  {
    if month == 2 then (if IsLeap(year) then 29 else 28)
    else if month == 4 || month == 6 || month == 9 || month == 11 then 30
    else 31
  }

  /** A real Gregorian date: month 1..12 and the day within that month of that year. */
  predicate ValidDate(d: Date) {
    1 <= d.month <= 12 && 1 <= d.day <= DaysIn(d.month, d.year)
  }

  /** A valid date whose year fits the four-digit year field "2006" of a layout. */
  predicate Representable(d: Date) {
    ValidDate(d) && d.year <= 9999
  }

  /**
   * time.Parse("20060102", value): the year takes exactly four digits, the
   * "01" month and "02" day fields exactly two each, no text may follow, and
   * the month must lie in 1..12 and the day within that month.
   */
  function ParseBasic(value: string): (r: Option<Date>)
    ensures r.Some? ==> Representable(r.value) && |value| == 8 && AllDigits(value)
  {
    if |value| == 8 && AllDigits(value) then
      var t := Date(Value(value[..4]), Value(value[4..6]), Value(value[6..]));
      ValueBound(value[..4]);
      if ValidDate(t) then Some(t) else None
    else
      None
  }

  /** time.Parse("2006-01-02", value): as ParseBasic, with a literal '-' after the year and after the month. */
  function ParseExtended(value: string): (r: Option<Date>)
    ensures r.Some? ==> Representable(r.value) && |value| == 10
  {
    if |value| == 10 && AllDigits(value[..4]) && value[4] == '-'
       && AllDigits(value[5..7]) && value[7] == '-' && AllDigits(value[8..]) then
      var t := Date(Value(value[..4]), Value(value[5..7]), Value(value[8..]));
      ValueBound(value[..4]);
      if ValidDate(t) then Some(t) else None
    else
      None
  }

  /** The Time that time.Parse hands back beside its error: the zero Time when it fails. */
  function TimeOf(r: Option<Date>): (t: Date)
    ensures r.None? ==> IsZero(t)
    ensures r.Some? ==> t == r.value
  {
    if r.Some? then r.value else ZeroTime
  }

  /** t.Format("20060102"). */
  function FormatBasic(d: Date): string {
    ZeroPad(d.year, 4) + ZeroPad(d.month, 2) + ZeroPad(d.day, 2)
  }

  /** t.Format("2006-01-02"). */
  function FormatExtended(d: Date): string {
    ZeroPad(d.year, 4) + "-" + ZeroPad(d.month, 2) + "-" + ZeroPad(d.day, 2)
  }

  lemma FieldsOfRepresentable(d: Date)
    requires Representable(d)
    ensures |ZeroPad(d.year, 4)| == 4 && AllDigits(ZeroPad(d.year, 4)) && Value(ZeroPad(d.year, 4)) == d.year
    ensures |ZeroPad(d.month, 2)| == 2 && AllDigits(ZeroPad(d.month, 2)) && Value(ZeroPad(d.month, 2)) == d.month
    ensures |ZeroPad(d.day, 2)| == 2 && AllDigits(ZeroPad(d.day, 2)) && Value(ZeroPad(d.day, 2)) == d.day
  {
    assert Pow10(2) == 100 && Pow10(4) == 10000;
    ZeroPadIsFixedWidth(d.year, 4);
    ZeroPadIsFixedWidth(d.month, 2);
    ZeroPadIsFixedWidth(d.day, 2);
  }

  /** The basic layout accepts exactly the basic-format spellings of representable dates. */
  lemma ParseBasicIff(s: string, d: Date)
    ensures ParseBasic(s) == Some(d) <==> Representable(d) && s == FormatBasic(d)
  {
    if ParseBasic(s) == Some(d) {
      var y, m, dd := s[..4], s[4..6], s[6..];
      assert s == y + m + dd;
      ZeroPadOfValue(y);
      ZeroPadOfValue(m);
      ZeroPadOfValue(dd);
    }
    if Representable(d) && s == FormatBasic(d) {
      FieldsOfRepresentable(d);
      var y, m, dd := ZeroPad(d.year, 4), ZeroPad(d.month, 2), ZeroPad(d.day, 2);
      assert s[..4] == y && s[4..6] == m && s[6..] == dd;
    }
  }

  /** The extended layout accepts exactly the extended-format spellings of representable dates. */
  lemma ParseExtendedIff(s: string, d: Date)
    ensures ParseExtended(s) == Some(d) <==> Representable(d) && s == FormatExtended(d)
  {
    if ParseExtended(s) == Some(d) {
      var y, m, dd := s[..4], s[5..7], s[8..];
      assert s == y + "-" + m + "-" + dd;
      ZeroPadOfValue(y);
      ZeroPadOfValue(m);
      ZeroPadOfValue(dd);
    }
    if Representable(d) && s == FormatExtended(d) {
      FieldsOfRepresentable(d);
      var y, m, dd := ZeroPad(d.year, 4), ZeroPad(d.month, 2), ZeroPad(d.day, 2);
      assert s[..4] == y && s[4] == '-' && s[5..7] == m && s[7] == '-' && s[8..] == dd;
    }
  }
}
