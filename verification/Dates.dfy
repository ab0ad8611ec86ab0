/**
 * The two calendar algorithms: epoch_to_date counts forward from 1970 (etc/lib/epochToDate/epochToDate.c), and the
 * clock start-up code uses a closed formula over 400-year eras (kernel/drivers/timer/timerController.c).
 */
module Dates {
  const TWO32: nat := 0x1_0000_0000

  predicate IsLeap(year: nat) {
    year % 4 == 0 && (year % 100 != 0 || year % 400 == 0)
  }

  function DaysInYear(year: nat): nat {
    if IsLeap(year) then 366 else 365
  }

  function MonthLength(m: nat, leap: bool): nat {
    if m == 2 then (if leap then 29 else 28)
    else if m == 4 || m == 6 || m == 9 || m == 11 then 30
    else 31
  }

  function DaysIn(year: nat, m: nat): nat {
    MonthLength(m, IsLeap(year))
  }

  /** A Gregorian date from 1970 on. */
  predicate ValidDate(y: nat, m: nat, d: nat) {
    y >= 1970 && 1 <= m <= 12 && 1 <= d <= DaysIn(y, m)
  }

  /** The day number of 1 January of a year. */
  function YearStart(y: nat): nat
    requires y >= 1970
  {
    if y == 1970 then 0 else YearStart(y - 1) + DaysInYear(y - 1)
  }

  /** The days of a year before month m. */
  function MonthStart(y: nat, m: nat): nat
    requires 1 <= m <= 13
  {
    if m == 1 then 0 else MonthStart(y, m - 1) + DaysIn(y, m - 1)
  }

  /** The number of days from 1 January 1970 to a date, counted day by day: the reference for both algorithms. */
  function DayNumber(y: nat, m: nat, d: nat): nat
    requires ValidDate(y, m, d)
  {
    YearStart(y) + MonthStart(y, m) + d - 1
  }

  // ----- the reference numbers the days one to one

  lemma MonthStarts(y: nat)
    ensures var leap := if IsLeap(y) then 1 else 0;
            && MonthStart(y, 1) == 0 && MonthStart(y, 2) == 31 && MonthStart(y, 3) == 59 + leap
            && MonthStart(y, 4) == 90 + leap && MonthStart(y, 5) == 120 + leap && MonthStart(y, 6) == 151 + leap
            && MonthStart(y, 7) == 181 + leap && MonthStart(y, 8) == 212 + leap && MonthStart(y, 9) == 243 + leap
            && MonthStart(y, 10) == 273 + leap && MonthStart(y, 11) == 304 + leap && MonthStart(y, 12) == 334 + leap
            && MonthStart(y, 13) == DaysInYear(y)
  {
    assert MonthStart(y, 3) == MonthStart(y, 2) + DaysIn(y, 2);
    assert MonthStart(y, 4) == MonthStart(y, 3) + DaysIn(y, 3);
    assert MonthStart(y, 5) == MonthStart(y, 4) + DaysIn(y, 4);
    assert MonthStart(y, 6) == MonthStart(y, 5) + DaysIn(y, 5);
    assert MonthStart(y, 7) == MonthStart(y, 6) + DaysIn(y, 6);
    assert MonthStart(y, 8) == MonthStart(y, 7) + DaysIn(y, 7);
    assert MonthStart(y, 9) == MonthStart(y, 8) + DaysIn(y, 8);
    assert MonthStart(y, 10) == MonthStart(y, 9) + DaysIn(y, 9);
    assert MonthStart(y, 11) == MonthStart(y, 10) + DaysIn(y, 10);
    assert MonthStart(y, 12) == MonthStart(y, 11) + DaysIn(y, 11);
    assert MonthStart(y, 13) == MonthStart(y, 12) + DaysIn(y, 12);
  }

  lemma {:induction false} MonthGap(y: nat, m: nat, m': nat)
    requires 1 <= m < m' <= 13
    ensures MonthStart(y, m) + DaysIn(y, m) <= MonthStart(y, m')
    decreases m'
  {
    if m + 1 < m' { MonthGap(y, m, m' - 1); }
  }

  lemma {:induction false} YearGap(y: nat, y': nat)
    requires 1970 <= y < y'
    ensures YearStart(y) + DaysInYear(y) <= YearStart(y')
    decreases y'
  {
    if y + 1 < y' { YearGap(y, y' - 1); }
  }

  lemma InYear(y: nat, m: nat, d: nat)
    requires ValidDate(y, m, d)
    ensures YearStart(y) <= DayNumber(y, m, d) < YearStart(y) + DaysInYear(y)
  {
    MonthStarts(y);
    if m < 13 { MonthGap(y, m, 13); }
  }

  /** Different dates have different day numbers. */
  lemma DayNumberInjective(y: nat, m: nat, d: nat, y': nat, m': nat, d': nat)
    requires ValidDate(y, m, d) && ValidDate(y', m', d') && DayNumber(y, m, d) == DayNumber(y', m', d')
    ensures y == y' && m == m' && d == d'
  {
    InYear(y, m, d);
    InYear(y', m', d');
    if y < y' { YearGap(y, y'); }
    if y' < y { YearGap(y', y); }
    if m < m' { MonthGap(y, m, m'); }
    if m' < m { MonthGap(y, m', m); }
  }

  // ----- epoch_to_date

  /** days_per_month, for a common or a leap year. */
  ghost predicate Table(t: array<nat>, leap: bool)
    reads t
  {
    t.Length == 12 && forall i :: 0 <= i < 12 ==> t[i] == MonthLength(i + 1, leap)
  }

  method FindYear(day: nat) returns (year: nat, rest: nat)
    ensures year >= 1970 && YearStart(year) + rest == day && rest < DaysInYear(year)
  {
    year, rest := 1970, day;
    while rest >= DaysInYear(year)
      invariant year >= 1970 && YearStart(year) + rest == day
      decreases rest
    {
      rest := rest - DaysInYear(year);
      year := year + 1;
    }
  }

  method FindMonth(t: array<nat>, year: nat, day: nat) returns (month: nat, rest: nat)
    requires Table(t, IsLeap(year)) && day < DaysInYear(year)
    ensures 1 <= month <= 12 && MonthStart(year, month) + rest == day && rest < DaysIn(year, month)
  {
    month, rest := 1, day;
    MonthStarts(year);
    while rest >= t[month - 1]
      invariant 1 <= month <= 12 && MonthStart(year, month) + rest == day
      decreases rest
    {
      assert t[month - 1] == DaysIn(year, month);
      assert MonthStart(year, month + 1) == MonthStart(year, month) + DaysIn(year, month);
      rest := rest - t[month - 1];
      month := month + 1;
    }
    assert t[month - 1] == DaysIn(year, month);
  }

  /** epoch_to_date: milliseconds to a date and time; the table is left as it was. */
  method EpochToDate(t: array<nat>, epoch: nat) returns (y: nat, m: nat, d: nat, hour: nat, minute: nat, second: nat, ms: nat)
    requires Table(t, false)
    modifies t
    ensures Table(t, false)
    ensures ValidDate(y, m, d) && hour < 24 && minute < 60 && second < 60 && ms < 1000
    ensures epoch == 1000 * (60 * (60 * (24 * DayNumber(y, m, d) + hour) + minute) + second) + ms
  {
    ms := epoch % 1000;
    var e := epoch / 1000;
    second := e % 60;
    e := e / 60;
    minute := e % 60;
    e := e / 60;
    hour := e % 24;
    var day := e / 24;
    var rest;
    y, rest := FindYear(day);
    var leap := IsLeap(y);
    if leap { t[1] := t[1] + 1; }
    m, rest := FindMonth(t, y, rest);
    if leap { t[1] := t[1] - 1; }
    d := rest + 1;
  }

  // ----- the era formula

  /** Months from March on; adding 2^32 - 3 subtracts 3. */
  function MarchMonth(m: nat): nat {
    (m + if m > 2 then TWO32 - 3 else 9) % TWO32
  }

  /** The day number as the clock start-up code computes it, in 32-bit unsigned arithmetic. */
  function EraDay(y: nat, m: nat, d: nat): nat
    requires y > 0
  {
    var year := if m <= 2 then y - 1 else y;
    var era := year / 400;
    var yearOfEra := year - era * 400;
    var month := MarchMonth(m);
    var dayOfYear := (153 * month + 2) / 5 + d - 1;
    var dayOfEra := yearOfEra * 365 + yearOfEra / 4 - yearOfEra / 100 + dayOfYear;
    (era * 146097 + dayOfEra - 719468) % TWO32
  }

  /** Leap years from year 1 to year y. */
  function Leaps(y: nat): nat {
    y / 4 - y / 100 + y / 400
  }

  lemma LeapsNext(y: nat)
    requires y > 0
    ensures Leaps(y) == Leaps(y - 1) + if IsLeap(y) then 1 else 0
  {
    QuarterNext(y);
    CenturyNext(y);
    EraNext(y);
    Multiples(y);
    LeapSum(y / 4, (y - 1) / 4, y / 100, (y - 1) / 100, y / 400, (y - 1) / 400, y % 4 == 0, y % 100 == 0, y % 400 == 0);
  }

  lemma Multiples(y: nat)
    ensures (y % 400 == 0 ==> y % 100 == 0) && (y % 100 == 0 ==> y % 4 == 0)
  {
    if y % 400 == 0 { assert y == 100 * (4 * (y / 400)); }
    if y % 100 == 0 { assert y == 4 * (25 * (y / 100)); }
  }

  lemma LeapSum(q: int, q': int, c: int, c': int, e: int, e': int, four: bool, hundred: bool, all: bool)
    requires q == q' + (if four then 1 else 0) && c == c' + (if hundred then 1 else 0) && e == e' + if all then 1 else 0
    requires (all ==> hundred) && (hundred ==> four)
    ensures q - c + e == q' - c' + e' + if (four && !hundred) || all then 1 else 0
  {
  }

  lemma QuarterNext(y: nat)
    requires y > 0
    ensures y / 4 == (y - 1) / 4 + if y % 4 == 0 then 1 else 0
  {
  }

  lemma CenturyNext(y: nat)
    requires y > 0
    ensures y / 100 == (y - 1) / 100 + if y % 100 == 0 then 1 else 0
  {
  }

  lemma EraNext(y: nat)
    requires y > 0
    ensures y / 400 == (y - 1) / 400 + if y % 400 == 0 then 1 else 0
  {
  }

  lemma {:induction false} YearStartIs(y: nat)
    requires y >= 1970
    ensures YearStart(y) == 365 * (y - 1970) + Leaps(y - 1) - 477
  {
    if y > 1970 {
      YearStartIs(y - 1);
      LeapsNext(y - 1);
    }
  }

  lemma EraLeaps(year: nat, era: nat, rest: nat)
    requires era == year / 400 && rest == year - era * 400
    ensures era * 146097 + rest * 365 + rest / 4 - rest / 100 == 365 * year + Leaps(year)
  {
    QuartersIn(era, rest);
    CenturiesIn(era, rest);
    assert year == 400 * era + rest;
  }

  lemma QuartersIn(era: nat, rest: nat)
    ensures (400 * era + rest) / 4 == 100 * era + rest / 4
  {
  }

  lemma CenturiesIn(era: nat, rest: nat)
    ensures (400 * era + rest) / 100 == 4 * era + rest / 100
  {
  }

  /** The formula's month term counts days from 1 March. */
  lemma MarchDays(y: nat, m: nat)
    requires 1 <= m <= 12
    ensures m > 2 ==> (153 * (m - 3) + 2) / 5 == MonthStart(y, m) - MonthStart(y, 3)
    ensures m <= 2 ==> (153 * (m + 9) + 2) / 5 == MonthStart(y, m) + 306
  {
    MonthStarts(y);
  }

  /** For every date the era formula gives the day number modulo 2^32, so it is exact for every day number below 2^32. */
  lemma EraCountsDays(y: nat, m: nat, d: nat)
    requires ValidDate(y, m, d)
    ensures EraDay(y, m, d) == DayNumber(y, m, d) % TWO32
    ensures EraDay(y, m, d) == DayNumber(y, m, d) <==> DayNumber(y, m, d) < TWO32
  {
    var year := if m <= 2 then y - 1 else y;
    var era := year / 400;
    EraLeaps(year, era, year - era * 400);
    EraUnwrapped(y, m, d, year);
    MarchIs(m);
    hide Leaps, DayNumber, MarchMonth;
    WrapIs(DayNumber(y, m, d));
  }

  lemma WrapIs(x: nat)
    ensures x % TWO32 == x <==> x < TWO32
  {
  }

  lemma MarchIs(m: nat)
    requires 1 <= m <= 12
    ensures MarchMonth(m) == if m > 2 then m - 3 else m + 9
  {
  }

  lemma EraUnwrapped(y: nat, m: nat, d: nat, year: nat)
    requires ValidDate(y, m, d) && year == if m <= 2 then y - 1 else y
    ensures var month := if m > 2 then m - 3 else m + 9;
            365 * year + Leaps(year) + ((153 * month + 2) / 5 + d - 1) - 719468 == DayNumber(y, m, d)
  {
    MarchDays(y, m);
    MonthThree(y);
    YearStartIs(y);
    LeapsNext(y);
    hide Leaps, YearStart, MonthStart, IsLeap;
  }

  lemma MonthThree(y: nat)
    ensures MonthStart(y, 3) == 59 + if IsLeap(y) then 1 else 0
  {
    MonthStarts(y);
  }

  /** The number of seconds that the start-up code stores, in 32 bits. */
  function StartupSeconds(y: nat, m: nat, d: nat, hour: nat, minute: nat, second: nat): nat
    requires y > 0
  {
    (EraDay(y, m, d) * 86400 + hour * 3600 + minute * 60 + second) % TWO32
  }

  /** The stored number of seconds is the true one exactly until the 32 bits run out. */
  lemma StartupExact(y: nat, m: nat, d: nat, hour: nat, minute: nat, second: nat)
    requires ValidDate(y, m, d) && hour < 24 && minute < 60 && second < 60
    ensures var s := DayNumber(y, m, d) * 86400 + hour * 3600 + minute * 60 + second;
            StartupSeconds(y, m, d, hour, minute, second) == s <==> s < TWO32
  {
    EraCountsDays(y, m, d);
    hide EraDay, DayNumber;
  }

  /** 2106-02-07 06:28:16 is the first second that is stored wrongly: as 1970-01-01 00:00:00. */
  lemma StartupWraps()
    ensures ValidDate(2106, 2, 7) && DayNumber(2106, 2, 7) * 86400 + 6 * 3600 + 28 * 60 + 16 == TWO32
    ensures StartupSeconds(2106, 2, 7, 6, 28, 16) == 0
  {
    DayThen();
    EraCountsDays(2106, 2, 7);
    hide DayNumber, ValidDate, EraDay;
  }

  lemma DayThen()
    ensures ValidDate(2106, 2, 7) && DayNumber(2106, 2, 7) == 49710
  {
    MonthStarts(2106);
    YearStartIs(2106);
    hide YearStart, MonthStart;
  }

  /** Converting a date to its day number and back gives the date again. */
  method DateAgain(t: array<nat>, y: nat, m: nat, d: nat) returns (y': nat, m': nat, d': nat)
    requires Table(t, false) && ValidDate(y, m, d) && DayNumber(y, m, d) < TWO32
    modifies t
    ensures Table(t, false) && y' == y && m' == m && d' == d
  {
    EraCountsDays(y, m, d);
    var day := EraDay(y, m, d);
    var hour, minute, second, ms;
    y', m', d', hour, minute, second, ms := EpochToDate(t, day * 86400000);
    assert DayNumber(y', m', d') == day by { hide EraDay, DayNumber; }
    DayNumberInjective(y, m, d, y', m', d');
  }

  /** Converting a day number to a date and back gives the day number again. */
  method DayAgain(t: array<nat>, day: nat) returns (day': nat)
    requires Table(t, false)
    modifies t
    ensures Table(t, false) && day' == day % TWO32
  {
    var y, m, d, hour, minute, second, ms := EpochToDate(t, day * 86400000);
    assert DayNumber(y, m, d) == day by { hide EraDay, DayNumber; }
    EraCountsDays(y, m, d);
    day' := EraDay(y, m, d);
  }
}
