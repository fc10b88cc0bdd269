/**
 The days-to-date formula of the benchmark's generator, against the Gregorian
 calendar as section 5.7 and appendix C of RFC 3339 give it.
 */
module Calendar {
  datatype Date = Date(year: nat, month: nat, day: nat)

  // ---------------------------------------------------------------------
  // The calendar
  // ---------------------------------------------------------------------

  predicate Leap(year: nat) { year % 4 == 0 && (year % 100 != 0 || year % 400 == 0) }

  function MonthLength(year: nat, month: nat): nat {
    if month == 2 then (if Leap(year) then 29 else 28)
    else if month == 4 || month == 6 || month == 9 || month == 11 then 30
    else 31
  }

  predicate Valid(date: Date) { 1 <= date.month <= 12 && 1 <= date.day <= MonthLength(date.year, date.month) }

  function NextDay(date: Date): Date {
    if date.day < MonthLength(date.year, date.month) then Date(date.year, date.month, date.day + 1)
    else if date.month < 12 then Date(date.year, date.month + 1, 1)
    else Date(date.year + 1, 1, 1)
  }

  // ---------------------------------------------------------------------
  // The formula
  // ---------------------------------------------------------------------

  function YearOfEra(doe: nat): nat
    requires doe < 146_097
  {
    (doe - doe / 1460 + doe / 36_524 - doe / 146_096) / 365
  }

  /** The days of an era before its year `yoe`, which starts in March. */
  function YearStart(yoe: nat): nat { 365 * yoe + yoe / 4 - yoe / 100 }

  /** The days of a year that starts in March before its month `mp`. */
  function MonthStart(mp: nat): nat { (153 * mp + 2) / 5 }

  function MonthAt(doy: nat): nat { (5 * doy + 2) / 153 }

  function MonthOf(mp: nat): nat
    requires mp < 12
  {
    if mp < 10 then mp + 3 else mp - 9
  }

  function DateAt(marchYear: nat, doy: nat): Date
    requires doy <= 365
  {
    var mp := MonthAt(doy);
    var month := MonthOf(mp);
    Date(if month <= 2 then marchYear + 1 else marchYear, month, doy - MonthStart(mp) + 1)
  }

  /** A day of an era: its century, four-year cycle, year of that and day of that. */
  predicate Splits(doe: nat, c: nat, q: nat, p: nat, t: nat) {
    && doe == 36_524 * c + 1461 * q + 365 * p + t
    && c <= 3 && q <= 24 && p <= 3
    && (t <= 364 || (t == 365 && p == 3 && (q < 24 || c == 3)))
  }

  lemma Split(doe: nat) returns (c: nat, q: nat, p: nat, t: nat)
    requires doe < 146_097
    ensures Splits(doe, c, q, p, t)
  {
    c := if doe / 36_524 <= 3 then doe / 36_524 else 3;
    var r := doe - 36_524 * c;
    q := r / 1461;
    var s := r - 1461 * q;
    p := if s / 365 <= 3 then s / 365 else 3;
    t := s - 365 * p;
  }

  lemma SplitYear(doe: nat, c: nat, q: nat, p: nat, t: nat)
    requires doe < 146_097 && Splits(doe, c, q, p, t)
    ensures YearOfEra(doe) == 100 * c + 4 * q + p
  {
    assert doe / 36_524 - doe / 146_096 == c;
    var rest := 24 * c + q + 365 * p + t;
    assert doe == 1460 * (25 * c + q) + rest && rest < 2920;
    var e := if rest >= 1460 then 1 else 0;
    assert doe / 1460 == 25 * c + q + e;
    assert doe - doe / 1460 + doe / 36_524 - doe / 146_096 == 365 * (100 * c + 4 * q + p) + t - e;
    assert 0 <= t - e <= 364;
  }

  lemma YearStartSplits(c: nat, q: nat, p: nat)
    requires q <= 24 && p <= 3
    ensures YearStart(100 * c + 4 * q + p) == 36_524 * c + 1461 * q + 365 * p
  {
    var y := 100 * c + 4 * q + p;
    assert y / 4 == 25 * c + q;
    assert y / 100 == c;
  }

  /** The year holds the day: at or after its start, and before the next one's. */
  lemma YearIsRight(doe: nat)
    requires doe < 146_097
    ensures var yoe := YearOfEra(doe);
      yoe < 400 && YearStart(yoe) <= doe < YearStart(yoe) + YearLength(yoe)
  {
    var c, q, p, t := Split(doe);
    SplitYear(doe, c, q, p, t);
    YearStartSplits(c, q, p);
    YearLengthSplits(c, q, p);
  }

  /** Days from one March to the next. */
  function YearLength(marchYear: nat): nat { if Leap(marchYear + 1) then 366 else 365 }

  lemma YearLengthSplits(c: nat, q: nat, p: nat)
    requires c <= 3 && q <= 24 && p <= 3
    ensures YearLength(100 * c + 4 * q + p) == if p == 3 && (q < 24 || c == 3) then 366 else 365
  {
    var y := 100 * c + 4 * q + p + 1;
    assert y % 4 == (p + 1) % 4;
    assert y % 100 == (4 * q + p + 1) % 100;
  }

  lemma NextYearStart(yoe: nat)
    requires yoe < 399
    ensures YearStart(yoe + 1) == YearStart(yoe) + YearLength(yoe)
  {
    var c, q, p := yoe / 100, yoe % 100 / 4, yoe % 4;
    assert yoe == 100 * c + 4 * q + p;
    YearStartSplits(c, q, p);
    YearLengthSplits(c, q, p);
    if p < 3 {
      YearStartSplits(c, q, p + 1);
    } else if q < 24 {
      YearStartSplits(c, q + 1, 0);
    } else {
      YearStartSplits(c + 1, 0, 0);
    }
  }

  lemma MonthIsRight(doy: nat)
    requires doy <= 365
    ensures var mp := MonthAt(doy); mp < 12 && MonthStart(mp) <= doy && (mp == 11 || doy < MonthStart(mp + 1))
  {
  }

  lemma MonthGap(year: nat, mp: nat)
    requires mp < 11
    ensures MonthStart(mp + 1) == MonthStart(mp) + MonthLength(year, MonthOf(mp))
  {
  }

  lemma NextMonth(doy: nat)
    requires doy < 365
    ensures var mp := MonthAt(doy);
      MonthAt(doy + 1) == if mp < 11 && doy + 1 == MonthStart(mp + 1) then mp + 1 else mp
  {
    MonthIsRight(doy);
    MonthIsRight(doy + 1);
  }

  /** The days of one year that starts in March follow one another. */
  lemma NextInYear(marchYear: nat, doy: nat)
    requires doy + 1 < YearLength(marchYear)
    ensures Valid(DateAt(marchYear, doy)) && DateAt(marchYear, doy + 1) == NextDay(DateAt(marchYear, doy))
  {
    var mp := MonthAt(doy);
    MonthIsRight(doy);
    NextMonth(doy);
    if mp < 11 {
      MonthGap(DateAt(marchYear, doy).year, mp);
    }
  }

  lemma NextYear(marchYear: nat, doy: nat)
    requires doy + 1 == YearLength(marchYear)
    ensures Valid(DateAt(marchYear, doy)) && DateAt(marchYear + 1, 0) == NextDay(DateAt(marchYear, doy))
  {
    MonthIsRight(doy);
  }

  // ---------------------------------------------------------------------
  // Every day
  // ---------------------------------------------------------------------

  /** `civil`: the date of a day, counted from 1970-01-01. */
  function Civil(days: nat): Date {
    var z := days + 719_468;
    var era := z / 146_097;
    var doe := z - era * 146_097;
    var yoe := YearOfEra(doe);
    var doy := doe - YearStart(yoe);
    YearIsRight(doe);
    DateAt(yoe + era * 400, doy)
  }

  lemma YearIsUnique(doe: nat, yoe: nat)
    requires doe < 146_097 && yoe < 400 && YearStart(yoe) <= doe < YearStart(yoe) + YearLength(yoe)
    ensures YearOfEra(doe) == yoe
  {
    var found := YearOfEra(doe);
    YearIsRight(doe);
    if found < yoe {
      YearsIncrease(found, yoe);
    } else if yoe < found {
      YearsIncrease(yoe, found);
    }
  }

  lemma {:induction false} YearsIncrease(a: nat, b: nat)
    requires a < b < 400
    ensures YearStart(a) + YearLength(a) <= YearStart(b)
    decreases b - a
  {
    NextYearStart(a);
    if a + 1 == b {
    } else {
      YearsIncrease(a + 1, b);
    }
  }

  /** The days before a year that starts in March, counted from the year 0. */
  function MarchDays(marchYear: nat): int {
    365 * marchYear + marchYear / 4 - marchYear / 100 + marchYear / 400
  }

  /** The days before the next one, a leap century's extra day included. */
  lemma NextMarch(marchYear: nat)
    ensures MarchDays(marchYear + 1) == MarchDays(marchYear) + YearLength(marchYear)
  {
    var y := marchYear + 1;
    assert y / 4 == marchYear / 4 + if y % 4 == 0 then 1 else 0;
    assert y / 100 == marchYear / 100 + if y % 100 == 0 then 1 else 0;
    assert y / 400 == marchYear / 400 + if y % 400 == 0 then 1 else 0;
    Multiples(y);
  }

  lemma Multiples(year: nat)
    ensures year % 100 == 0 ==> year % 4 == 0
    ensures year % 400 == 0 ==> year % 100 == 0
  {
    MultipleOf100(year);
    MultipleOf400(year);
  }

  lemma MultipleOf100(year: nat)
    ensures year % 100 == 0 ==> year % 4 == 0
  {
    if year % 100 == 0 {
      FourTimes(25 * (year / 100));
      assert year == 4 * (25 * (year / 100));
    }
  }

  lemma FourTimes(k: nat)
    ensures 4 * k % 4 == 0
  {
  }

  lemma MultipleOf400(year: nat)
    ensures year % 400 == 0 ==> year % 100 == 0
  {
    if year % 400 == 0 {
      assert year == 100 * (4 * (year / 400));
    }
  }

  lemma MarchDaysByEra(era: nat, yoe: nat)
    requires yoe < 400
    ensures MarchDays(yoe + era * 400) == era * 146_097 + YearStart(yoe)
    ensures YearLength(yoe + era * 400) == YearLength(yoe)
  {
    var y := yoe + era * 400;
    assert y / 4 == yoe / 4 + 100 * era;
    assert y / 100 == yoe / 100 + 4 * era;
    assert y / 400 == era;
    SameCycle(yoe, era);
  }

  lemma {:induction false} SameCycle(year: nat, era: nat)
    ensures YearLength(year + era * 400) == YearLength(year)
  {
    if era == 0 {
    } else {
      SameCycle(year, era - 1);
      LeapCycle(year + 1 + (era - 1) * 400);
      assert year + era * 400 + 1 == year + 1 + (era - 1) * 400 + 400;
    }
  }

  lemma LeapCycle(year: nat)
    ensures Leap(year + 400) == Leap(year)
  {
    CycleOf4(year);
    CycleOf100(year);
    CycleOf400(year);
  }

  lemma CycleOf4(year: nat)
    ensures (year + 400) % 4 == year % 4
  {
    assert year + 400 == 4 * (year / 4 + 100) + year % 4;
  }

  lemma CycleOf100(year: nat)
    ensures (year + 400) % 100 == year % 100
  {
    assert year + 400 == 100 * (year / 100 + 4) + year % 100;
  }

  lemma CycleOf400(year: nat)
    ensures (year + 400) % 400 == year % 400
  {
    assert year + 400 == 400 * (year / 400 + 1) + year % 400;
  }

  /** A day by year and day of the year. */
  predicate At(days: nat, marchYear: nat, doy: nat) {
    doy < YearLength(marchYear) && days + 719_468 == MarchDays(marchYear) + doy
  }

  lemma Quotient(z: nat, era: nat, doe: nat)
    requires z == era * 146_097 + doe && doe < 146_097
    ensures z / 146_097 == era && z - z / 146_097 * 146_097 == doe
  {
  }

  lemma WithinEra(yoe: nat, doy: nat)
    requires yoe < 400 && doy < YearLength(yoe)
    ensures YearStart(yoe) + doy < 146_097
  {
    if yoe < 399 {
      YearsIncrease(yoe, 399);
    }
  }

  /** The formula finds that place. */
  lemma CivilInEra(days: nat, era: nat, yoe: nat, doy: nat)
    requires yoe < 400 && doy < YearLength(yoe) && days + 719_468 == era * 146_097 + YearStart(yoe) + doy
    ensures Civil(days) == DateAt(yoe + era * 400, doy)
  {
    WithinEra(yoe, doy);
    var doe := YearStart(yoe) + doy;
    Quotient(days + 719_468, era, doe);
    YearIsUnique(doe, yoe);
  }

  lemma ByEra(days: nat, marchYear: nat, doy: nat) returns (era: nat, yoe: nat)
    requires At(days, marchYear, doy)
    ensures marchYear == yoe + era * 400 && yoe < 400
    ensures doy < YearLength(yoe) && days + 719_468 == era * 146_097 + YearStart(yoe) + doy
  {
    era, yoe := marchYear / 400, marchYear % 400;
    MarchDaysByEra(era, yoe);
  }

  lemma CivilAt(days: nat, marchYear: nat, doy: nat)
    requires At(days, marchYear, doy)
    ensures Civil(days) == DateAt(marchYear, doy)
  {
    var era, yoe := ByEra(days, marchYear, doy);
    CivilInEra(days, era, yoe, doy);
  }

  datatype Place = Place(marchYear: nat, doy: nat)

  function NextPlace(p: Place): Place {
    if p.doy + 1 < YearLength(p.marchYear) then Place(p.marchYear, p.doy + 1) else Place(p.marchYear + 1, 0)
  }

  /** The place of a day, one day after another. */
  function PlaceOf(days: nat): Place {
    if days == 0 then Place(1969, 306) else NextPlace(PlaceOf(days - 1))
  }

  lemma NextAt(days: nat, p: Place)
    requires At(days, p.marchYear, p.doy)
    ensures At(days + 1, NextPlace(p).marchYear, NextPlace(p).doy)
  {
    NextMarch(p.marchYear);
  }

  lemma {:induction false} PlaceIsAt(days: nat)
    ensures At(days, PlaceOf(days).marchYear, PlaceOf(days).doy)
  {
    if days == 0 {
    } else {
      PlaceIsAt(days - 1);
      NextAt(days - 1, PlaceOf(days - 1));
    }
  }

  /** Counting on from 1970-01-01 by the calendar. */
  function After(days: nat): Date {
    if days == 0 then Date(1970, 1, 1) else NextDay(After(days - 1))
  }

  ghost predicate Dated(p: Place, date: Date) {
    p.doy < YearLength(p.marchYear) && DateAt(p.marchYear, p.doy) == date
  }

  lemma NextPlaceFits(p: Place)
    ensures p.doy < YearLength(p.marchYear) ==> NextPlace(p).doy < YearLength(NextPlace(p).marchYear)
  {
    assert YearLength(p.marchYear + 1) >= 365;
  }

  lemma DatedInYear(p: Place, q: Place, date: Date)
    requires p.doy + 1 < YearLength(p.marchYear) && DateAt(p.marchYear, p.doy) == date
    requires q == Place(p.marchYear, p.doy + 1)
    ensures Valid(date) && DateAt(q.marchYear, q.doy) == NextDay(date)
  {
    NextInYear(p.marchYear, p.doy);
  }

  lemma DatedNextYear(p: Place, q: Place, date: Date)
    requires p.doy + 1 == YearLength(p.marchYear) && DateAt(p.marchYear, p.doy) == date
    requires q == Place(p.marchYear + 1, 0)
    ensures Valid(date) && DateAt(q.marchYear, q.doy) == NextDay(date)
  {
    NextYear(p.marchYear, p.doy);
  }

  lemma NextDated(p: Place, date: Date)
    requires Dated(p, date)
    ensures Valid(date) && Dated(NextPlace(p), NextDay(date))
  {
    NextPlaceFits(p);
    if p.doy + 1 < YearLength(p.marchYear) {
      DatedInYear(p, NextPlace(p), date);
    } else {
      DatedNextYear(p, NextPlace(p), date);
    }
  }

  lemma {:induction false} PlaceIsDated(days: nat)
    ensures Dated(PlaceOf(days), After(days))
  {
    if days == 0 {
    } else {
      PlaceIsDated(days - 1);
      NextDated(PlaceOf(days - 1), After(days - 1));
    }
  }

  lemma AfterIsValid(days: nat)
    ensures Valid(After(days))
  {
    PlaceIsDated(days);
    NextDated(PlaceOf(days), After(days));
  }

  /** The formula counts days as the calendar does, leap centuries included. */
  lemma CivilCounts(days: nat)
    ensures Civil(days) == After(days) && Valid(Civil(days))
  {
    PlaceIsAt(days);
    PlaceIsDated(days);
    AfterIsValid(days);
    CivilAt(days, PlaceOf(days).marchYear, PlaceOf(days).doy);
  }

  /** Each day's date is followed by the calendar's next. */
  lemma CivilNext(days: nat, next: nat)
    requires next == days + 1
    ensures Civil(next) == NextDay(Civil(days))
  {
    CivilCounts(days);
    CivilCounts(next);
  }

  // ---------------------------------------------------------------------
  // And back
  // ---------------------------------------------------------------------

  function LeapsBefore(year: nat): int { (year + 3) / 4 - (year + 99) / 100 + (year + 399) / 400 }

  function DaysBeforeYear(year: nat): int { 365 * year + LeapsBefore(year) }

  function DaysBeforeMonth(year: nat, month: nat): nat {
    if month <= 1 then 0 else DaysBeforeMonth(year, month - 1) + MonthLength(year, month - 1)
  }

  /** The day of a date, from the lengths of years and months. */
  function DayNumber(date: Date): int {
    DaysBeforeYear(date.year) + DaysBeforeMonth(date.year, date.month) + date.day - 1 - DaysBeforeYear(1970)
  }

  lemma LeapCounts(year: nat)
    ensures LeapsBefore(year + 1) == LeapsBefore(year) + if Leap(year) then 1 else 0
  {
    assert (year + 4) / 4 == (year + 3) / 4 + if year % 4 == 0 then 1 else 0;
    assert (year + 100) / 100 == (year + 99) / 100 + if year % 100 == 0 then 1 else 0;
    assert (year + 400) / 400 == (year + 399) / 400 + if year % 400 == 0 then 1 else 0;
    Multiples(year);
  }

  lemma YearSum(year: nat)
    ensures DaysBeforeMonth(year, 12) + 31 == if Leap(year) then 366 else 365
  {
    var feb := MonthLength(year, 2);
    assert DaysBeforeMonth(year, 2) == 31;
    assert DaysBeforeMonth(year, 4) == 62 + feb;
    assert DaysBeforeMonth(year, 6) == 123 + feb;
    assert DaysBeforeMonth(year, 8) == 184 + feb;
    assert DaysBeforeMonth(year, 10) == 245 + feb;
  }

  lemma DayNumberNext(date: Date)
    requires Valid(date)
    ensures Valid(NextDay(date)) && DayNumber(NextDay(date)) == DayNumber(date) + 1
  {
    LeapCounts(date.year);
    YearSum(date.year);
  }

  lemma {:induction false} AfterRoundTrip(days: nat)
    ensures DayNumber(After(days)) == days
  {
    if days == 0 {
    } else {
      AfterRoundTrip(days - 1);
      AfterIsValid(days - 1);
      DayNumberNext(After(days - 1));
    }
  }

  /** Counting days undoes the formula. */
  lemma CivilRoundTrip(days: nat)
    ensures DayNumber(Civil(days)) == days
  {
    CivilCounts(days);
    AfterRoundTrip(days);
  }

  // ---------------------------------------------------------------------
  // The order of dates
  // ---------------------------------------------------------------------

  predicate Before(a: Date, b: Date) {
    || a.year < b.year
    || (a.year == b.year && (a.month < b.month || (a.month == b.month && a.day < b.day)))
  }

  lemma {:induction false} MonthsIncrease(year: nat, a: nat, b: nat)
    requires 1 <= a < b
    ensures DaysBeforeMonth(year, a) + MonthLength(year, a) <= DaysBeforeMonth(year, b)
  {
    if a + 1 == b {
    } else {
      MonthsIncrease(year, a, b - 1);
    }
  }

  lemma WithinYear(date: Date)
    requires Valid(date)
    ensures DaysBeforeMonth(date.year, date.month) + date.day <= if Leap(date.year) then 366 else 365
  {
    YearSum(date.year);
    if date.month < 12 {
      MonthsIncrease(date.year, date.month, 12);
    }
  }

  lemma {:induction false} YearsGrow(a: nat, b: nat)
    requires a < b
    ensures DaysBeforeYear(a) + (if Leap(a) then 366 else 365) <= DaysBeforeYear(b)
    decreases b
  {
    LeapCounts(b - 1);
    if a + 1 == b {
    } else {
      YearsGrow(a, b - 1);
    }
  }

  lemma DayNumberGrows(a: Date, b: Date)
    requires Valid(a) && Valid(b) && Before(a, b)
    ensures DayNumber(a) < DayNumber(b)
  {
    if a.year < b.year {
      WithinYear(a);
      YearsGrow(a.year, b.year);
    } else if a.month < b.month {
      MonthsIncrease(a.year, a.month, b.month);
    }
  }

  /** The formula undoes counting days: every date from 1970 on is some day's. */
  lemma DateRoundTrip(date: Date, days: nat)
    requires Valid(date) && DayNumber(date) == days
    ensures Civil(days) == date
  {
    CivilCounts(days);
    AfterRoundTrip(days);
    AfterIsValid(days);
    OneDate(After(days), date);
  }

  lemma OneDate(a: Date, b: Date)
    requires Valid(a) && Valid(b) && DayNumber(a) == DayNumber(b)
    ensures a == b
  {
    assert !Before(a, b) by {
      if Before(a, b) { DayNumberGrows(a, b); }
    }
    assert !Before(b, a) by {
      if Before(b, a) { DayNumberGrows(b, a); }
    }
  }

  /** Later days have later dates. */
  lemma CivilGrows(a: nat, b: nat)
    requires a < b
    ensures Before(Civil(a), Civil(b))
  {
    CivilCounts(a);
    CivilCounts(b);
    AfterGrows(a, b);
  }

  lemma AfterGrows(a: nat, b: nat)
    requires a < b
    ensures Before(After(a), After(b))
  {
    AfterRoundTrip(a);
    AfterRoundTrip(b);
    AfterIsValid(a);
    AfterIsValid(b);
    if After(a) != After(b) && !Before(After(a), After(b)) {
      DayNumberGrows(After(b), After(a));
    }
  }
}
