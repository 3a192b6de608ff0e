/** The audit log's day count to calendar date conversion, against plain calendar counting. */
module CivilDate {
  import opened Common

  datatype Date = Date(year: nat, month: nat, day: nat)

  // Days since 1970-01-01 to a date, in unsigned arithmetic throughout.
  function DaysToYmd(days: nat): Date
    requires days + 719468 <= U64_MAX
  {
    var z: nat := days + 719468;
    var era: nat := z / 146097;
    var doe: nat := z - era * 146097;
    YearOfEraBounds(doe);
    var yoe: nat := YearOfEra(doe);
    var y: nat := yoe + era * 400;
    var doy: nat := doe - YearStart(yoe);
    MarchDate(y, doy)
  }

  // The year of the era, from the day of the era.
  function YearOfEra(doe: nat): int {
    (doe - doe / 1460 + doe / 36524 - doe / 146096) / 365
  }

  // The day of the era on which a year begins.
  function YearStart(yoe: int): int {
    365 * yoe + yoe / 4 - yoe / 100
  }

  // The date of a day of a year that begins in March.
  function MarchDate(y: nat, doy: nat): Date
    requires doy <= 365
  {
    MonthOfMarchYear(doy);
    var mp: nat := (5 * doy + 2) / 153;
    var d: nat := doy - (153 * mp + 2) / 5 + 1;
    var m: nat := if mp < 10 then mp + 3 else mp - 9;
    Date(if m <= 2 then y + 1 else y, m, d)
  }

  // -------------------------------------------------------------------------
  // The calendar
  // -------------------------------------------------------------------------

  predicate Leap(y: nat) {
    y % 4 == 0 && (y % 100 != 0 || y % 400 == 0)
  }

  function YearLength(y: nat): nat {
    if Leap(y) then 366 else 365
  }

  function MonthLength(y: nat, m: nat): nat {
    if m == 2 then (if Leap(y) then 29 else 28)
    else if m == 4 || m == 6 || m == 9 || m == 11 then 30
    else 31
  }

  predicate ValidDate(t: Date) {
    t.year >= 1970 && 1 <= t.month <= 12 && 1 <= t.day <= MonthLength(t.year, t.month)
  }

  function NextDay(t: Date): Date {
    if t.day < MonthLength(t.year, t.month) then t.(day := t.day + 1)
    else if t.month < 12 then Date(t.year, t.month + 1, 1)
    else Date(t.year + 1, 1, 1)
  }

  // Days from 1970-01-01 to the first of January of `y`, year by year.
  function DaysBeforeYear(y: nat): nat {
    if y <= 1970 then 0 else DaysBeforeYear(y - 1) + YearLength(y - 1)
  }

  // Days from the first of January to the first of month `m`, month by month.
  function DaysBeforeMonth(y: nat, m: nat): nat {
    if m <= 1 then 0 else DaysBeforeMonth(y, m - 1) + MonthLength(y, m - 1)
  }

  function DaysFromCivil(t: Date): nat
    requires ValidDate(t)
  {
    DaysBeforeYear(t.year) + DaysBeforeMonth(t.year, t.month) + t.day - 1
  }

  // -------------------------------------------------------------------------
  // Position inside the 400-year era
  // -------------------------------------------------------------------------

  // A day of the era as century, four-year cycle and day of the cycle.
  lemma EraParts(doe: nat) returns (c: nat, q: nat, s: nat)
    requires doe <= 146096
    ensures doe == 36524 * c + 1461 * q + s
    ensures c <= 3 && q <= 24 && s <= 1460
    ensures q == 24 && c < 3 ==> s <= 1459
  {
    c := if doe == 146096 then 3 else doe / 36524;
    var r := doe - 36524 * c;
    q := if r == 36524 then 24 else r / 1461;
    s := r - 1461 * q;
  }

  // The year of the four-year cycle; its last day is the leap day.
  function CycleYear(s: nat): nat {
    if s >= 1095 then 3 else s / 365
  }

  // The correction terms count exactly the leap days before the day.
  lemma Corrections(doe: nat, c: nat, q: nat, s: nat)
    requires doe == 36524 * c + 1461 * q + s && doe <= 146096
    requires c <= 3 && q <= 24 && s <= 1460 && (q == 24 && c < 3 ==> s <= 1459)
    ensures
      var e := if 24 * c + q + s >= 1460 then 1 else 0;
      && doe / 1460 == 25 * c + q + (if doe == 146096 then 1 else e)
      && doe / 36524 == (if doe == 146096 then 4 else c)
      && doe / 146096 == (if doe == 146096 then 1 else 0)
  {
    var e := if 24 * c + q + s >= 1460 then 1 else 0;
    assert doe == 1460 * (25 * c + q + e) + (24 * c + q + s - 1460 * e);
    if doe != 146096 {
      assert 0 <= 1461 * q + s < 36524;
    }
  }

  lemma YearOfEraParts(doe: nat, c: nat, q: nat, s: nat)
    requires doe == 36524 * c + 1461 * q + s && doe <= 146096
    requires c <= 3 && q <= 24 && s <= 1460 && (q == 24 && c < 3 ==> s <= 1459)
    ensures YearOfEra(doe) == 100 * c + 4 * q + CycleYear(s)
  {
    Corrections(doe, c, q, s);
    var e := if 24 * c + q + s >= 1460 then 1 else 0;
    var n := doe - doe / 1460 + doe / 36524 - doe / 146096;
    assert n == 365 * (100 * c + 4 * q) + (s - e);
    assert 365 * CycleYear(s) <= s - e < 365 * (CycleYear(s) + 1);
  }

  lemma YearStartParts(c: nat, q: nat, k: nat)
    requires c <= 3 && q <= 24 && k <= 3
    ensures YearStart(100 * c + 4 * q + k) == 36524 * c + 1461 * q + 365 * k
  {
    var yoe := 100 * c + 4 * q + k;
    assert yoe / 4 == 25 * c + q;
    assert yoe / 100 == c;
  }

  // The unsigned subtractions in the conversion never underflow.
  lemma YearOfEraBounds(doe: nat)
    requires doe <= 146096
    ensures doe - doe / 1460 + doe / 36524 - doe / 146096 >= 0
    ensures 0 <= YearOfEra(doe) < 400
    ensures 0 <= YearStart(YearOfEra(doe)) <= doe <= YearStart(YearOfEra(doe)) + 365
  {
    var c, q, s := EraParts(doe);
    YearOfEraParts(doe, c, q, s);
    YearStartParts(c, q, CycleYear(s));
  }

  // The last day of a long year is the leap day before a leap year's March.
  lemma LongYearPrecedesLeapYear(era: nat, doe: nat)
    requires doe <= 146096 && doe == YearStart(YearOfEra(doe)) + 365
    ensures Leap(400 * era + YearOfEra(doe) + 1)
  {
    var c, q, s := EraParts(doe);
    YearOfEraParts(doe, c, q, s);
    YearStartParts(c, q, CycleYear(s));
    CycleEndsInLeapYear(era, c, q);
  }

  // -------------------------------------------------------------------------
  // Years that begin in March
  // -------------------------------------------------------------------------

  // Days from the day numbered 0 to the first of March of `y`.
  function MarchFirst(y: nat): int {
    365 * y + y / 4 - y / 100 + y / 400
  }

  lemma LeapStep(y: nat)
    requires y > 0
    ensures y / 4 - y / 100 + y / 400 == (y - 1) / 4 - (y - 1) / 100 + (y - 1) / 400 + (if Leap(y) then 1 else 0)
  {
    FourStep(y);
    HundredStep(y);
    FourHundredStep(y);
  }

  lemma FourStep(y: nat)
    requires y > 0
    ensures y / 4 == (y - 1) / 4 + (if y % 4 == 0 then 1 else 0)
  {
  }

  lemma HundredStep(y: nat)
    requires y > 0
    ensures y / 100 == (y - 1) / 100 + (if y % 100 == 0 then 1 else 0)
    ensures y % 100 == 0 ==> y % 4 == 0
  {
    assert y == 4 * (25 * (y / 100)) + y % 100;
  }

  lemma FourHundredStep(y: nat)
    requires y > 0
    ensures y / 400 == (y - 1) / 400 + (if y % 400 == 0 then 1 else 0)
    ensures y % 400 == 0 ==> y % 100 == 0
  {
    assert y == 100 * (4 * (y / 400)) + y % 400;
  }

  // Counting year by year agrees with the closed form.
  lemma {:induction false} YearsAreMarchYears(y: nat)
    requires y >= 1970
    ensures DaysBeforeYear(y) + 719468 == MarchFirst(y - 1) + 306
    decreases y
  {
    if y > 1970 {
      YearsAreMarchYears(y - 1);
      LeapStep(y - 1);
    }
  }

  lemma MarchInYear(y: nat)
    requires y >= 1970
    ensures DaysBeforeYear(y) + 59 + (if Leap(y) then 1 else 0) + 719468 == MarchFirst(y)
  {
    YearsAreMarchYears(y);
    LeapStep(y);
  }

  lemma MonthTable(y: nat)
    ensures
      var l := if Leap(y) then 1 else 0;
      && DaysBeforeMonth(y, 1) == 0 && DaysBeforeMonth(y, 2) == 31
      && DaysBeforeMonth(y, 3) == 59 + l && DaysBeforeMonth(y, 4) == 90 + l
      && DaysBeforeMonth(y, 5) == 120 + l && DaysBeforeMonth(y, 6) == 151 + l
      && DaysBeforeMonth(y, 7) == 181 + l && DaysBeforeMonth(y, 8) == 212 + l
      && DaysBeforeMonth(y, 9) == 243 + l && DaysBeforeMonth(y, 10) == 273 + l
      && DaysBeforeMonth(y, 11) == 304 + l && DaysBeforeMonth(y, 12) == 334 + l
      && DaysBeforeMonth(y, 13) == YearLength(y)
  {
    assert DaysBeforeMonth(y, 4) == DaysBeforeMonth(y, 3) + 31;
    assert DaysBeforeMonth(y, 6) == DaysBeforeMonth(y, 5) + 31;
    assert DaysBeforeMonth(y, 8) == DaysBeforeMonth(y, 7) + 31;
    assert DaysBeforeMonth(y, 10) == DaysBeforeMonth(y, 9) + 30;
    assert DaysBeforeMonth(y, 12) == DaysBeforeMonth(y, 11) + 30;
  }

  // The day number split into its March year and the day of that year.
  lemma MarchYear(z: nat) returns (era: nat, doe: nat, y: nat, doy: nat)
    ensures era == z / 146097 && doe == z - era * 146097 && doe <= 146096
    ensures y == YearOfEra(doe) + era * 400 && doy == doe - YearStart(YearOfEra(doe))
    ensures z == MarchFirst(y) + doy && doy <= 365
    ensures doy == 365 ==> Leap(y + 1)
  {
    era := z / 146097;
    doe := z - era * 146097;
    YearOfEraBounds(doe);
    var yoe: nat := YearOfEra(doe);
    y := yoe + era * 400;
    doy := doe - YearStart(yoe);
    MarchFirstOfEra(era, yoe);
    if doy == 365 {
      LongYearPrecedesLeapYear(era, doe);
    }
  }

  lemma MarchFirstOfEra(era: nat, yoe: nat)
    requires yoe < 400
    ensures MarchFirst(yoe + era * 400) == 146097 * era + YearStart(yoe)
  {
    var y := yoe + era * 400;
    assert y / 4 == yoe / 4 + 100 * era;
    assert y / 100 == yoe / 100 + 4 * era;
    assert y / 400 == era;
  }

  lemma CycleEndsInLeapYear(era: nat, c: nat, q: nat)
    requires q < 24 || (q == 24 && c == 3)
    ensures Leap(400 * era + 100 * c + 4 * q + 4)
  {
    var y := 400 * era + 100 * c + 4 * q + 4;
    MultipleOfFour(y, 100 * era + 25 * c + q + 1);
    if q < 24 {
      NotAHundred(y, 4 * era + c, 4 * q + 4);
    } else {
      MultipleOfFourHundred(y, era + 1);
    }
  }

  lemma MultipleOfFour(y: nat, k: nat)
    requires y == 4 * k
    ensures y % 4 == 0
  {
  }

  lemma MultipleOfFourHundred(y: nat, k: nat)
    requires y == 400 * k
    ensures y % 400 == 0
  {
  }

  lemma NotAHundred(y: nat, k: nat, r: nat)
    requires 0 < r < 100 && y == 100 * k + r
    ensures y % 100 != 0
  {
  }

  // The month arithmetic of a March year.
  lemma MonthOfMarchYear(doy: nat)
    requires doy <= 365
    ensures
      var mp := (5 * doy + 2) / 153;
      var first := (153 * mp + 2) / 5;
      && mp <= 11 && first <= doy
      && first == [0, 31, 61, 92, 122, 153, 184, 214, 245, 275, 306, 337][mp]
      && (mp < 11 ==> doy < [31, 61, 92, 122, 153, 184, 214, 245, 275, 306, 337][mp])
  {
  }

  lemma NotBeforeEpoch(z: nat, y: nat, doy: nat)
    requires z >= 719468 && z == MarchFirst(y) + doy && doy <= 365
    ensures y >= 1969 && (y == 1969 ==> doy >= 306)
  {
  }

  lemma CountFromJanuary(y: nat, doy: nat)
    requires y >= 1969 && 306 <= doy <= 365 && (doy == 365 ==> Leap(y + 1))
    ensures ValidDate(MarchDate(y, doy))
    ensures DaysFromCivil(MarchDate(y, doy)) + 719468 == MarchFirst(y) + doy
  {
    MonthOfMarchYear(doy);
    MonthTable(y + 1);
    YearsAreMarchYears(y + 1);
  }

  lemma CountFromMarch(y: nat, doy: nat)
    requires y >= 1970 && doy < 306
    ensures ValidDate(MarchDate(y, doy))
    ensures DaysFromCivil(MarchDate(y, doy)) + 719468 == MarchFirst(y) + doy
  {
    MonthOfMarchYear(doy);
    MonthTable(y);
    MarchInYear(y);
  }

  // -------------------------------------------------------------------------
  // Results
  // -------------------------------------------------------------------------

  // The conversion yields a real calendar date and inverts plain counting.
  lemma CountingUndoesConversion(days: nat)
    requires days + 719468 <= U64_MAX
    ensures ValidDate(DaysToYmd(days))
    ensures DaysFromCivil(DaysToYmd(days)) == days
  {
    var era, doe, y, doy := MarchYear(days + 719468);
    assert DaysToYmd(days) == MarchDate(y, doy);
    NotBeforeEpoch(days + 719468, y, doy);
    if doy >= 306 {
      CountFromJanuary(y, doy);
    } else {
      CountFromMarch(y, doy);
    }
  }

  // The calendar successor is one day later.
  lemma NextDayCounts(t: Date)
    requires ValidDate(t)
    ensures ValidDate(NextDay(t)) && DaysFromCivil(NextDay(t)) == DaysFromCivil(t) + 1
  {
    MonthTable(t.year);
    assert DaysBeforeMonth(t.year, t.month + 1) == DaysBeforeMonth(t.year, t.month) + MonthLength(t.year, t.month);
  }

  lemma {:induction false} MonthsGrow(y: nat, m: nat, m': nat)
    requires 1 <= m < m'
    ensures DaysBeforeMonth(y, m) + MonthLength(y, m) <= DaysBeforeMonth(y, m')
    decreases m'
  {
    if m + 1 < m' {
      MonthsGrow(y, m, m' - 1);
    }
  }

  lemma {:induction false} YearsGrow(y: nat, y': nat)
    requires 1970 <= y < y'
    ensures DaysBeforeYear(y) + YearLength(y) <= DaysBeforeYear(y')
    decreases y'
  {
    if y + 1 < y' {
      YearsGrow(y, y' - 1);
    }
  }

  lemma DayOfYear(t: Date)
    requires ValidDate(t)
    ensures DaysBeforeMonth(t.year, t.month) + t.day <= YearLength(t.year)
  {
    MonthTable(t.year);
    MonthsGrow(t.year, t.month, 13);
  }

  // Different dates have different day counts.
  lemma CountingIsInjective(a: Date, b: Date)
    requires ValidDate(a) && ValidDate(b) && DaysFromCivil(a) == DaysFromCivil(b)
    ensures a == b
  {
    DayOfYear(a);
    DayOfYear(b);
    if a.year < b.year {
      YearsGrow(a.year, b.year);
    } else if b.year < a.year {
      YearsGrow(b.year, a.year);
    } else if a.month < b.month {
      MonthsGrow(a.year, a.month, b.month);
    } else if b.month < a.month {
      MonthsGrow(a.year, b.month, a.month);
    }
  }

  // Every calendar date from the epoch on is reached, by its own count.
  lemma ConversionUndoesCounting(t: Date)
    requires ValidDate(t) && DaysFromCivil(t) + 719468 <= U64_MAX
    ensures DaysToYmd(DaysFromCivil(t)) == t
  {
    CountingUndoesConversion(DaysFromCivil(t));
    CountingIsInjective(DaysToYmd(DaysFromCivil(t)), t);
  }

  // Day 0 is the epoch.
  lemma ConversionStartsAtEpoch()
    ensures DaysToYmd(0) == Date(1970, 1, 1)
  {
    ConversionUndoesCounting(Date(1970, 1, 1));
  }

  // One more day is the calendar successor.
  lemma ConversionFollowsCalendar(days: nat)
    requires days + 1 + 719468 <= U64_MAX
    ensures DaysToYmd(days + 1) == NextDay(DaysToYmd(days))
  {
    CountingUndoesConversion(days);
    CountingUndoesConversion(days + 1);
    var today, tomorrow := DaysToYmd(days), DaysToYmd(days + 1);
    NextDayCounts(today);
    CountingIsInjective(tomorrow, NextDay(today));
  }

  lemma TimeOfDay(tod: nat)
    requires tod < 86400
    ensures tod / 3600 < 24 && (tod % 3600) / 60 < 60
    ensures tod == tod / 3600 * 3600 + (tod % 3600) / 60 * 60 + tod % 60
  {
    assert tod % 60 == (tod % 3600) % 60;
  }

  // A clock reading in seconds never overflows the conversion, and its fields determine it.
  lemma EveryClockReadingConverts(secs: nat)
    requires secs <= U64_MAX
    ensures secs / 86400 + 719468 <= U64_MAX
    ensures
      var tod := secs % 86400;
      var hours, minutes, seconds := tod / 3600, (tod % 3600) / 60, tod % 60;
      && hours < 24 && minutes < 60 && seconds < 60
      && ValidDate(DaysToYmd(secs / 86400))
      && secs == DaysFromCivil(DaysToYmd(secs / 86400)) * 86400 + hours * 3600 + minutes * 60 + seconds
  {
    CountingUndoesConversion(secs / 86400);
    TimeOfDay(secs % 86400);
  }
}
