/** The proleptic Gregorian calendar behind the history export's timestamps. */
module Calendar {
  import opened Numerals

  datatype Date = Date(year: int, month: int, day: int)

  // ---- the calendar itself --------------------------------------------------

  predicate Leap(year: int) {
    year % 4 == 0 && (year % 100 != 0 || year % 400 == 0)
  }

  function DaysInMonth(year: int, month: int): int
    requires 1 <= month <= 12
  {
    if month == 2 then if Leap(year) then 29 else 28
    else if month == 4 || month == 6 || month == 9 || month == 11 then 30
    else 31
  }

  predicate IsDate(d: Date) {
    1 <= d.month <= 12 && 1 <= d.day <= DaysInMonth(d.year, d.month)
  }

  function NextDay(d: Date): Date
    requires IsDate(d)
  {
    if d.day < DaysInMonth(d.year, d.month) then d.(day := d.day + 1)
    else if d.month < 12 then Date(d.year, d.month + 1, 1)
    else Date(d.year + 1, 1, 1)
  }

  /** Days in the years before `year`, counted from the start of year 0. */
  function DaysBeforeYear(year: int): int {
    365 * year + (year + 3) / 4 - (year + 99) / 100 + (year + 399) / 400
  }

  function DaysBeforeMonth(year: int, month: int): int
    requires 1 <= month <= 12
    decreases month
  {
    if month == 1 then 0 else DaysBeforeMonth(year, month - 1) + DaysInMonth(year, month - 1)
  }

  const EPOCH := 719_528

  /** Days from 1 January 1970 to `d`. */
  function DaysFromCivil(d: Date): int
    requires IsDate(d)
  {
    DaysBeforeYear(d.year) + DaysBeforeMonth(d.year, d.month) + d.day - 1 - EPOCH
  }

  // ---- the conversion -------------------------------------------------------

  /** The date `days` after 1 January 1970, by counting years from 1 March. */
  function CivilFromDays(days: int): Date {
    var shifted := days + 719_468;
    var era := shifted / 146_097;
    var dayOfEra := shifted % 146_097;
    var yearOfEra := YearOfEra(dayOfEra);
    FromMarch(yearOfEra + era * 400, dayOfEra - (365 * yearOfEra + yearOfEra / 4 - yearOfEra / 100))
  }

  /** The date `dayOfYear` days after 1 March of `year`. */
  function FromMarch(year: int, dayOfYear: int): Date {
    var shiftedMonth := (5 * dayOfYear + 2) / 153;
    var day := dayOfYear - (153 * shiftedMonth + 2) / 5 + 1;
    var month := if shiftedMonth < 10 then shiftedMonth + 3 else shiftedMonth - 9;
    Date(if month <= 2 then year + 1 else year, month, day)
  }

  function YearOfEra(dayOfEra: int): int {
    (dayOfEra - dayOfEra / 1_460 + dayOfEra / 36_524 - dayOfEra / 146_096) / 365
  }

  /** Days of an era before its `year`-th year, years starting in March. */
  function YearStart(year: int): int {
    365 * year + year / 4 - year / 100 + year / 400
  }

  /** A day as its century of the era, four-year cycle and day of that cycle. */
  lemma YearOfParts(century: int, cycle: int, rest: int)
    requires 0 <= century <= 3 && 0 <= cycle <= 24 && 0 <= rest <= 1460
    requires cycle == 24 && rest == 1460 ==> century == 3
    ensures
      var year := if rest == 1460 then 3 else rest / 365;
      YearOfEra(36_524 * century + 1_461 * cycle + rest) == 100 * century + 4 * cycle + year
  {
    var dayOfEra := 36_524 * century + 1_461 * cycle + rest;
    var carry := if 24 * century + cycle + rest >= 1460 then 1 else 0;
    assert dayOfEra / 1_460 == 25 * century + cycle + carry;
    var last := if dayOfEra == 146_096 then 1 else 0;
    assert dayOfEra / 36_524 == century + last;
    assert dayOfEra / 146_096 == last;
    assert YearOfEra(dayOfEra) == (365 * (100 * century + 4 * cycle) + rest - carry) / 365;
  }

  lemma YearStartOfParts(century: int, cycle: int, year: int)
    requires 0 <= century <= 3 && 0 <= cycle <= 24 && 0 <= year <= 3
    ensures YearStart(100 * century + 4 * cycle + year) == 36_524 * century + 1_461 * cycle + 365 * year
    ensures YearStart(100 * century + 4 * cycle + year + 1)
         == 36_524 * century + 1_461 * cycle + 365 * (year + 1)
            + (if year == 3 && (cycle < 24 || century == 3) then 1 else 0)
  {
    var all := 100 * century + 4 * cycle + year;
    assert all / 4 == 25 * century + cycle && all / 100 == century && all / 400 == 0;
    assert (all + 1) / 4 == 25 * century + cycle + (if year == 3 then 1 else 0);
    assert (all + 1) / 100 == century + (if year == 3 && cycle == 24 then 1 else 0);
    assert (all + 1) / 400 == if all == 399 then 1 else 0;
  }

  lemma PartsOfDay(dayOfEra: int) returns (century: int, cycle: int, rest: int)
    requires 0 <= dayOfEra < 146_097
    ensures 0 <= century <= 3 && 0 <= cycle <= 24 && 0 <= rest <= 1460
    ensures cycle == 24 && rest == 1460 ==> century == 3
    ensures dayOfEra == 36_524 * century + 1_461 * cycle + rest
  {
    century := if dayOfEra == 146_096 then 3 else dayOfEra / 36_524;
    cycle, rest := (dayOfEra - 36_524 * century) / 1_461, (dayOfEra - 36_524 * century) % 1_461;
  }

  /** The one-line formula finds the year a day of the era falls in. */
  lemma YearOfEraIsRight(dayOfEra: int)
    requires 0 <= dayOfEra < 146_097
    ensures 0 <= YearOfEra(dayOfEra) < 400
    ensures YearStart(YearOfEra(dayOfEra)) <= dayOfEra < YearStart(YearOfEra(dayOfEra) + 1)
  {
    hide YearOfEra, YearStart;
    var century, cycle, rest := PartsOfDay(dayOfEra);
    var year := if rest == 1460 then 3 else rest / 365;
    YearOfParts(century, cycle, rest);
    YearStartOfParts(century, cycle, year);
  }

  lemma ErasRepeat(yearOfEra: int, era: int)
    ensures YearStart(yearOfEra + era * 400) == YearStart(yearOfEra) + era * 146_097
  {
    assert (yearOfEra + era * 400) / 4 == yearOfEra / 4 + 100 * era;
    assert (yearOfEra + era * 400) / 100 == yearOfEra / 100 + 4 * era;
    assert (yearOfEra + era * 400) / 400 == yearOfEra / 400 + era;
  }

  lemma Multiples(year: int, k: int)
    requires k == 4 || k == 100 || k == 400
    ensures (year + 1) / k == year / k + (if (year + 1) % k == 0 then 1 else 0)
    ensures (year + k) / k == year / k + 1
  {
  }

  lemma MultiplesNest(year: int)
    ensures (year % 400 == 0 ==> year % 100 == 0) && (year % 100 == 0 ==> year % 4 == 0)
  {
  }

  /** The years from one March to the next, and from one January to the next,
      are as long as the leap rule says. */
  lemma YearLength(year: int)
    ensures YearStart(year + 1) == YearStart(year) + 365 + (if Leap(year + 1) then 1 else 0)
    ensures DaysBeforeYear(year + 1) == DaysBeforeYear(year) + 365 + (if Leap(year) then 1 else 0)
    ensures YearStart(year) + 1 == DaysBeforeYear(year) + (if Leap(year) then 1 else 0)
  {
    Multiples(year, 4); Multiples(year, 100); Multiples(year, 400);
    Multiples(year - 1, 4); Multiples(year - 1, 100); Multiples(year - 1, 400);
    MultiplesNest(year);
    MultiplesNest(year + 1);
  }

  lemma MonthTable(year: int)
    ensures
      var leap := if Leap(year) then 1 else 0;
      && DaysBeforeMonth(year, 2) == 31 && DaysBeforeMonth(year, 3) == 59 + leap && DaysBeforeMonth(year, 4) == 90 + leap
      && DaysBeforeMonth(year, 5) == 120 + leap && DaysBeforeMonth(year, 6) == 151 + leap
      && DaysBeforeMonth(year, 7) == 181 + leap && DaysBeforeMonth(year, 8) == 212 + leap
      && DaysBeforeMonth(year, 9) == 243 + leap && DaysBeforeMonth(year, 10) == 273 + leap
      && DaysBeforeMonth(year, 11) == 304 + leap && DaysBeforeMonth(year, 12) == 334 + leap
  {
    assert DaysBeforeMonth(year, 4) == DaysBeforeMonth(year, 3) + 31;
    assert DaysBeforeMonth(year, 6) == DaysBeforeMonth(year, 5) + 31;
    assert DaysBeforeMonth(year, 8) == DaysBeforeMonth(year, 7) + 31;
    assert DaysBeforeMonth(year, 10) == DaysBeforeMonth(year, 9) + 30;
    assert DaysBeforeMonth(year, 12) == DaysBeforeMonth(year, 11) + 30;
  }

  /** Counting from March lands on the day it should. */
  lemma FromMarchIsRight(year: int, dayOfYear: int)
    requires 0 <= dayOfYear < YearStart(year + 1) - YearStart(year)
    ensures IsDate(FromMarch(year, dayOfYear))
    ensures DaysFromCivil(FromMarch(year, dayOfYear)) == YearStart(year) + dayOfYear - 719_468
  {
    YearLength(year);
    MonthTable(year);
    MonthTable(year + 1);
  }

  /** Every day number gives a date of the calendar, and counting the days up to
      that date gives the number back. */
  lemma DateOfDay(days: int)
    ensures IsDate(CivilFromDays(days)) && DaysFromCivil(CivilFromDays(days)) == days
  {
    hide YearOfEra, FromMarch, DaysFromCivil, IsDate;
    var era := (days + 719_468) / 146_097;
    var dayOfEra := (days + 719_468) % 146_097;
    var yearOfEra := YearOfEra(dayOfEra);
    YearOfEraIsRight(dayOfEra);
    ErasRepeat(yearOfEra, era);
    ErasRepeat(yearOfEra + 1, era);
    FromMarchIsRight(yearOfEra + era * 400, dayOfEra - YearStart(yearOfEra));
  }

  lemma WithinYear(d: Date)
    requires IsDate(d)
    ensures DaysBeforeYear(d.year) <= DaysFromCivil(d) + EPOCH < DaysBeforeYear(d.year + 1)
  {
    MonthTable(d.year);
    YearLength(d.year);
  }

  lemma YearsAscend(a: int, b: int)
    requires a < b
    ensures DaysBeforeYear(a + 1) <= DaysBeforeYear(b)
  {
  }

  lemma {:induction false} MonthsAscend(year: int, a: int, b: int)
    requires 1 <= a < b <= 12
    ensures DaysBeforeMonth(year, a) + DaysInMonth(year, a) <= DaysBeforeMonth(year, b)
    decreases b
  {
    if a < b - 1 { MonthsAscend(year, a, b - 1); }
  }

  lemma SameYear(c: Date, d: Date)
    requires IsDate(c) && IsDate(d) && DaysFromCivil(c) == DaysFromCivil(d)
    ensures c.year == d.year
  {
    hide DaysBeforeYear, DaysFromCivil, IsDate;
    WithinYear(c);
    WithinYear(d);
    if c.year < d.year { YearsAscend(c.year, d.year); }
    if d.year < c.year { YearsAscend(d.year, c.year); }
  }

  /** No two dates are the same number of days from the epoch. */
  lemma DayNumbersDiffer(c: Date, d: Date)
    requires IsDate(c) && IsDate(d) && DaysFromCivil(c) == DaysFromCivil(d)
    ensures c == d
  {
    SameYear(c, d);
    hide DaysBeforeYear;
    if c.month < d.month { MonthsAscend(c.year, c.month, d.month); }
    if d.month < c.month { MonthsAscend(c.year, d.month, c.month); }
  }

  /** The two conversions are inverse on every date of the calendar. */
  lemma DayOfDate(d: Date)
    requires IsDate(d)
    ensures CivilFromDays(DaysFromCivil(d)) == d
  {
    DateOfDay(DaysFromCivil(d));
    DayNumbersDiffer(CivilFromDays(DaysFromCivil(d)), d);
  }

  /** The next day number is the next day of the calendar. */
  lemma NextNumberIsNextDay(days: int)
    ensures IsDate(CivilFromDays(days)) && CivilFromDays(days + 1) == NextDay(CivilFromDays(days))
  {
    hide CivilFromDays, DaysBeforeYear;
    DateOfDay(days);
    DateOfDay(days + 1);
    var d := CivilFromDays(days);
    YearLength(d.year);
    MonthTable(d.year);
    assert DaysFromCivil(NextDay(d)) == days + 1;
    DayNumbersDiffer(NextDay(d), CivilFromDays(days + 1));
  }

  lemma DayZero()
    ensures CivilFromDays(0) == Date(1970, 1, 1)
  {
    hide YearOfEra, FromMarch;
    YearOfDayZero();
    FirstOfJanuary(1969);
  }

  lemma YearOfDayZero()
    ensures YearOfEra(135_080) == 369
  {
  }

  lemma FirstOfJanuary(year: int)
    ensures FromMarch(year, 306) == Date(year + 1, 1, 1)
  {
  }

  // ---- timestamps -----------------------------------------------------------

  /** The extended calendar date and time of ISO 8601:2004, section 4.1.2.2,
      in UTC; a year outside 0 to 9999 takes the places and the sign it needs. */
  function Iso8601Utc(unixSeconds: int): (text: string)
    ensures |text| >= 16
  {
    var date := CivilFromDays(unixSeconds / 86_400);
    var seconds := unixSeconds % 86_400;
    DateOfDay(unixSeconds / 86_400);
    SignedPadded(date.year, 4)
    + Tail(Padded(date.month, 2), Padded(date.day, 2),
           Padded(seconds / 3_600, 2), Padded(seconds / 60 % 60, 2), Padded(seconds % 60, 2))
  }

  /** What follows the year. */
  function Tail(month: string, day: string, hour: string, minute: string, second: string): (text: string)
    ensures |text| == 6 + |month| + |day| + |hour| + |minute| + |second|
  {
    "-" + month + "-" + day + "T" + hour + ":" + minute + ":" + second + "Z"
  }

  datatype Timestamp = Timestamp(date: Date, hour: int, minute: int, second: int)

  predicate IsTimestamp(t: Timestamp) {
    IsDate(t.date) && 0 <= t.hour < 24 && 0 <= t.minute < 60 && 0 <= t.second < 60
  }

  function UnixSeconds(t: Timestamp): int
    requires IsTimestamp(t)
  {
    86_400 * DaysFromCivil(t.date) + 3_600 * t.hour + 60 * t.minute + t.second
  }

  /** Everything after the year has its place, counted from the end. */
  function ReadTimestamp(text: string): Timestamp
    requires |text| >= 16
  {
    var year, tail := text[..|text| - 16], text[|text| - 16..];
    Timestamp(Date(SignedValue(year), Value(tail[1..3]), Value(tail[4..6])),
              Value(tail[7..9]), Value(tail[10..12]), Value(tail[13..15]))
  }

  predicate Punctuated(tail: string)
    requires |tail| == 16
  {
    && tail[0] == '-' && tail[3] == '-' && tail[6] == 'T' && tail[9] == ':' && tail[12] == ':' && tail[15] == 'Z'
  }

  lemma TailParts(month: string, day: string, hour: string, minute: string, second: string)
    requires |month| == |day| == |hour| == |minute| == |second| == 2
    ensures
      var tail := Tail(month, day, hour, minute, second);
      && Punctuated(tail)
      && tail[1..3] == month && tail[4..6] == day && tail[7..9] == hour && tail[10..12] == minute && tail[13..15] == second
  {
  }

  lemma TailReads(year: string, month: nat, day: nat, hour: nat, minute: nat, second: nat)
    requires month < 100 && day < 100 && hour < 100 && minute < 100 && second < 100
    ensures
      var tail := Tail(Padded(month, 2), Padded(day, 2), Padded(hour, 2), Padded(minute, 2), Padded(second, 2));
      && |tail| == 16 && Punctuated(tail) && (year + tail)[|year + tail| - 16..] == tail
      && ReadTimestamp(year + tail) == Timestamp(Date(SignedValue(year), month, day), hour, minute, second)
  {
    hide Padded, Value, SignedValue, Tail;
    TwoPlaces(month); TwoPlaces(day); TwoPlaces(hour); TwoPlaces(minute); TwoPlaces(second);
    ValueOfPadded(month, 2); ValueOfPadded(day, 2); ValueOfPadded(hour, 2);
    ValueOfPadded(minute, 2); ValueOfPadded(second, 2);
    TailParts(Padded(month, 2), Padded(day, 2), Padded(hour, 2), Padded(minute, 2), Padded(second, 2));
    var tail := Tail(Padded(month, 2), Padded(day, 2), Padded(hour, 2), Padded(minute, 2), Padded(second, 2));
    assert (year + tail)[|year + tail| - 16..] == tail && (year + tail)[..|year + tail| - 16] == year;
  }

  /** A year of our era takes four places; later ones as many as they need, and earlier
      ones a sign and at least three. */
  lemma YearPlaces(unixSeconds: int)
    ensures
      var text, year := Iso8601Utc(unixSeconds), CivilFromDays(unixSeconds / 86_400).year;
      && (0 <= year <= 9_999 ==> |text| == 20)
      && (year > 9_999 ==> |text| > 20 && text[0] != '0' && text[0] != '-')
      && (-999 <= year < 0 ==> |text| == 20 && text[0] == '-')
      && (year < -999 ==> |text| > 20 && text[0] == '-' && text[1] != '0')
  {
    hide CivilFromDays, DaysFromCivil, Padded, Decimal;
    var days, seconds := unixSeconds / 86_400, unixSeconds % 86_400;
    DateOfDay(days);
    var date := CivilFromDays(days);
    TwoPlaces(date.month); TwoPlaces(date.day);
    TwoPlaces(seconds / 3_600); TwoPlaces(seconds / 60 % 60); TwoPlaces(seconds % 60);
    if date.year >= 0 { Places(date.year, 4); } else { Places(-date.year, 3); }
  }

  /** The printed timestamp is a well-formed one and determines the second it
      was printed from, before 1970 as well as after. */
  lemma TimestampRoundTrip(unixSeconds: int)
    ensures
      var text := Iso8601Utc(unixSeconds);
      var t := ReadTimestamp(text);
      && Punctuated(text[|text| - 16..])
      && 1 <= t.date.month <= 12 && 1 <= t.date.day <= DaysInMonth(t.date.year, t.date.month)
      && 0 <= t.hour <= 23 && 0 <= t.minute <= 59 && 0 <= t.second <= 59
      && UnixSeconds(t) == unixSeconds
  {
    hide CivilFromDays, DaysFromCivil, Padded, Value, SignedPadded, SignedValue, Tail, ReadTimestamp, Punctuated;
    var days, seconds := unixSeconds / 86_400, unixSeconds % 86_400;
    DateOfDay(days);
    var date := CivilFromDays(days);
    SignedRoundTrip(date.year, 4);
    TailReads(SignedPadded(date.year, 4), date.month, date.day, seconds / 3_600, seconds / 60 % 60, seconds % 60);
  }
}
