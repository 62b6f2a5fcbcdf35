/** Civil (proleptic Gregorian) dates as day numbers since 1970-01-01, over all integers. */
module CivilDate {

  datatype Civil = Civil(year: int, month: int, day: int)

  predicate Leap(y: int) {
    (y % 4 == 0 && y % 100 != 0) || y % 400 == 0
  }

  function DaysInMonth(y: int, m: int): int {
    if m in {1, 3, 5, 7, 8, 10, 12} then 31
    else if m in {4, 6, 9, 11} then 30
    else if Leap(y) then 29 else 28
  }

  predicate ValidDate(c: Civil) {
    1 <= c.month <= 12 && 1 <= c.day <= DaysInMonth(c.year, c.month)
  }

  // ---------- The two conversions ----------

  function DaysFromCivil(c: Civil): int {
    var y := if c.month <= 2 then c.year - 1 else c.year;
    var era := y / 400;
    var yoe := y - era * 400;
    var mp := (c.month + 9) % 12;
    var doy := (153 * mp + 2) / 5 + c.day - 1;
    var doe := yoe * 365 + yoe / 4 - yoe / 100 + doy;
    era * 146_097 + doe - 719_468
  }

  function CivilFromDays(days: int): Civil {
    var z := days + 719_468;
    var era := z / 146_097;
    var doe := z - era * 146_097;
    var yoe := (doe - doe / 1460 + doe / 36_524 - doe / 146_096) / 365;
    var y := yoe + era * 400;
    var doy := doe - (365 * yoe + yoe / 4 - yoe / 100);
    var mp := (5 * doy + 2) / 153;
    var d := doy - (153 * mp + 2) / 5 + 1;
    var m := if mp < 10 then mp + 3 else mp - 9;
    Civil(if m <= 2 then y + 1 else y, m, d)
  }

  // ---------- The simple reference: one day at a time ----------

  function NextDate(c: Civil): Civil {
    if c.day < DaysInMonth(c.year, c.month) then c.(day := c.day + 1)
    else if c.month < 12 then Civil(c.year, c.month + 1, 1)
    else Civil(c.year + 1, 1, 1)
  }

  function PreviousDate(c: Civil): Civil {
    if c.day > 1 then c.(day := c.day - 1)
    else if c.month > 1 then Civil(c.year, c.month - 1, DaysInMonth(c.year, c.month - 1))
    else Civil(c.year - 1, 12, 31)
  }

  /** The date `n` days after (or before) 1970-01-01, counted day by day. */
  function DateAt(n: int): Civil
    decreases if n >= 0 then n else -n
  {
    if n == 0 then Civil(1970, 1, 1)
    else if n > 0 then NextDate(DateAt(n - 1))
    else PreviousDate(DateAt(n + 1))
  }

  lemma NextPrevious(c: Civil)
    requires ValidDate(c)
    ensures ValidDate(NextDate(c)) && ValidDate(PreviousDate(c))
    ensures PreviousDate(NextDate(c)) == c && NextDate(PreviousDate(c)) == c
  {
  }

  // ---------- Years counted from March within a 400-year era ----------

  /** Days before March-year `yoe` of its era. */
  function YearStart(yoe: int): int {
    365 * yoe + yoe / 4 - yoe / 100
  }

  /** Days before the month `mp` months after March. */
  function MonthStart(mp: int): int {
    (153 * mp + 2) / 5
  }

  lemma MonthTable(mp: int)
    requires 0 <= mp <= 11
    ensures MonthStart(mp) == [0, 31, 61, 92, 122, 153, 184, 214, 245, 275, 306, 337][mp]
  {
  }

  lemma NextQuarter(n: int)
    ensures (n + 1) / 4 - n / 4 == if (n + 1) % 4 == 0 then 1 else 0
  {
  }

  lemma NextCentury(n: int)
    ensures (n + 1) / 100 - n / 100 == if (n + 1) % 100 == 0 then 1 else 0
    ensures (n + 1) % 100 == 0 ==> (n + 1) % 4 == 0
  {
    var q := (n + 1) / 100;
    assert (n + 1) % 100 == 0 ==> n + 1 == 4 * (25 * q);
  }

  lemma NextEra(n: int)
    ensures (n + 1) / 400 - n / 400 == if (n + 1) % 400 == 0 then 1 else 0
  {
  }

  /** A March-year is 365 days, or 366 when the February that ends it is a leap one. */
  lemma YearLength(yoe: int)
    requires 0 <= yoe < 399
    ensures YearStart(yoe + 1) - YearStart(yoe) == if Leap(yoe + 1) then 366 else 365
  {
    NextQuarter(yoe);
    NextCentury(yoe);
  }

  lemma EraYear(era: int, yoe: int)
    requires 0 <= yoe < 400
    ensures (era * 400 + yoe) / 400 == era
  {
  }

  lemma EraYearMod(era: int, yoe: int)
    ensures (era * 400 + yoe) % 400 == yoe % 400
    ensures (era * 400 + yoe) % 100 == yoe % 100
    ensures (era * 400 + yoe) % 4 == yoe % 4
  {
    Mod400(era, yoe);
    Mod100(era * 4, yoe);
    Mod4(era * 100, yoe);
  }

  lemma Mod400(q: int, r: int)
    ensures (q * 400 + r) % 400 == r % 400
  {
  }

  lemma Mod100(q: int, r: int)
    ensures (q * 100 + r) % 100 == r % 100
  {
  }

  lemma Mod4(q: int, r: int)
    ensures (q * 4 + r) % 4 == r % 4
  {
  }

  lemma EraLeap(era: int, yoe: int)
    ensures Leap(era * 400 + yoe) == Leap(yoe)
  {
    EraYearMod(era, yoe);
  }

  /** The first day past March-year `yoe`. */
  function YearEnd(yoe: int): int {
    if yoe == 399 then 146_097 else YearStart(yoe + 1)
  }

  function YearOfEra(doe: int): int {
    (doe - doe / 1460 + doe / 36_524 - doe / 146_096) / 365
  }

  /** Within a century: the year is found through its four-year cycle. */
  lemma YearOfCentury(c: int, r: int)
    requires 0 <= c <= 3 && 0 <= r < 36_524
    ensures var k := (r - (24 * c + r) / 1460) / 365;
            0 <= k <= 99 && 365 * k + k / 4 <= r && (k < 99 ==> r < 365 * (k + 1) + (k + 1) / 4)
  {
    var g := r / 1461;
    var h := r - 1461 * g;
    var t := (24 * c + g + h) / 1460;
    assert 0 <= g <= 24 && 0 <= h <= 1460 && 0 <= t <= 1;
    assert 24 * c + r == 1460 * g + (24 * c + g + h);
    assert (24 * c + r) / 1460 == g + t;
    var i := (h - t) / 365;
    assert t == 1 ==> h >= 1364;
    assert 0 <= i <= 3 && 365 * i <= h;
    assert r - (24 * c + r) / 1460 == 365 * (4 * g) + (h - t);
    assert (r - (24 * c + r) / 1460) / 365 == 4 * g + i;
    assert (4 * g + i) / 4 == g;
    assert i < 3 ==> h < 365 * (i + 1);
  }

  lemma CenturyStart(c: int, k: int)
    requires 0 <= c <= 3 && 0 <= k <= 99
    ensures YearStart(100 * c + k) == 36_524 * c + 365 * k + k / 4
  {
    assert (100 * c + k) / 100 == c;
    assert (100 * c + k) / 4 == 25 * c + k / 4;
  }

  lemma YearOfEraFormula(c: int, r: int)
    requires 0 <= c <= 3 && 0 <= r < 36_524
    ensures YearOfEra(36_524 * c + r) == 100 * c + (r - (24 * c + r) / 1460) / 365
  {
    var doe := 36_524 * c + r;
    assert doe / 36_524 == c;
    assert doe / 146_096 == 0;
    assert doe == 1460 * (25 * c) + (24 * c + r);
    assert doe / 1460 == 25 * c + (24 * c + r) / 1460;
    assert doe - doe / 1460 + c == 365 * (100 * c) + (r - (24 * c + r) / 1460);
  }

  /** The year-of-era formula finds the March-year a day of the era lies in. */
  lemma YearOfEraCorrect(doe: int)
    requires 0 <= doe < 146_097
    ensures var yoe := YearOfEra(doe); 0 <= yoe <= 399 && YearStart(yoe) <= doe < YearEnd(yoe)
  {
    if doe < 146_096 {
      var c := doe / 36_524;
      var r := doe - 36_524 * c;
      YearOfEraFormula(c, r);
      YearOfCentury(c, r);
      var k := (r - (24 * c + r) / 1460) / 365;
      CenturyStart(c, k);
      if k < 99 {
        CenturyStart(c, k + 1);
      } else if c < 3 {
        CenturyStart(c + 1, 0);
      }
    }
  }

  lemma {:induction false} YearStartMonotone(a: int, b: int)
    requires 0 <= a <= b
    ensures YearStart(a) <= YearStart(b)
    ensures a < b ==> YearStart(a) < YearStart(b)
    decreases b - a
  {
    if a < b {
      YearStartMonotone(a, b - 1);
      assert b / 4 >= (b - 1) / 4 && b / 100 <= (b - 1) / 100 + 1;
    }
  }

  lemma YearUnique(yoe: int, other: int, doe: int)
    requires 0 <= yoe <= 399 && 0 <= other <= 399
    requires YearStart(yoe) <= doe < YearEnd(yoe)
    requires YearStart(other) <= doe < YearEnd(other)
    ensures yoe == other
  {
    if yoe < other {
      YearStartMonotone(yoe + 1, other);
    } else if other < yoe {
      YearStartMonotone(other + 1, yoe);
    }
  }

  /** The month formula finds the month a day of the March-year lies in. */
  lemma MonthOfYear(doy: int)
    requires 0 <= doy <= 365
    ensures var mp := (5 * doy + 2) / 153;
            0 <= mp <= 11 && MonthStart(mp) <= doy < MonthStart(mp + 1)
  {
  }

  lemma MonthUnique(mp: int, other: int, doy: int)
    requires MonthStart(mp) <= doy < MonthStart(mp + 1)
    requires MonthStart(other) <= doy < MonthStart(other + 1)
    ensures mp == other
  {
  }

  // ---------- Both conversions through the era, the March-year and the day of the year ----------

  /** A date as era, year of the era (March to February), months since March, and day. */
  datatype Parts = Parts(era: int, yoe: int, mp: int, day: int)

  function PartsOf(c: Civil): Parts {
    var y := if c.month <= 2 then c.year - 1 else c.year;
    Parts(y / 400, y - y / 400 * 400, (c.month + 9) % 12, c.day)
  }

  function CivilOf(p: Parts): Civil {
    var m := if p.mp < 10 then p.mp + 3 else p.mp - 9;
    Civil(if m <= 2 then p.yoe + p.era * 400 + 1 else p.yoe + p.era * 400, m, p.day)
  }

  function DayOfYear(p: Parts): int {
    MonthStart(p.mp) + p.day - 1
  }

  function DayOfEra(p: Parts): int {
    YearStart(p.yoe) + DayOfYear(p)
  }

  predicate ValidParts(p: Parts) {
    && 0 <= p.yoe <= 399 && 0 <= p.mp <= 11 && 1 <= p.day
    && DayOfYear(p) < MonthStart(p.mp + 1)
    && DayOfEra(p) < YearEnd(p.yoe)
  }

  lemma PartsRoundTrip(c: Civil)
    requires 1 <= c.month <= 12
    ensures CivilOf(PartsOf(c)) == c && 0 <= PartsOf(c).yoe <= 399 && 0 <= PartsOf(c).mp <= 11
  {
  }

  lemma CivilRoundTrip(p: Parts)
    requires 0 <= p.yoe <= 399 && 0 <= p.mp <= 11
    ensures PartsOf(CivilOf(p)) == p
  {
    EraYear(p.era, p.yoe);
  }

  lemma DaysFromParts(c: Civil)
    requires 1 <= c.month <= 12
    ensures var p := PartsOf(c); DaysFromCivil(c) == p.era * 146_097 + DayOfEra(p) - 719_468
  {
  }

  /** The calendar's own rule for valid dates and the March-based one agree. */
  lemma ValidPartsIffValidDate(p: Parts)
    requires 0 <= p.yoe <= 399 && 0 <= p.mp <= 11
    ensures ValidParts(p) <==> ValidDate(CivilOf(p))
  {
    MonthTable(p.mp);
    if p.mp == 11 {
      EraLeap(p.era, p.yoe + 1);
      if p.yoe < 399 {
        YearLength(p.yoe);
      }
    } else {
      MonthTable(p.mp + 1);
      if p.yoe < 399 {
        YearLength(p.yoe);
      }
    }
  }

  /** What `civil_from_days` computes, day by day of the era. */
  lemma CivilFromDaysParts(days: int)
    ensures var z := days + 719_468;
            var doe := z - z / 146_097 * 146_097;
            var yoe := YearOfEra(doe);
            var doy := doe - YearStart(yoe);
            var mp := (5 * doy + 2) / 153;
            CivilFromDays(days) == CivilOf(Parts(z / 146_097, yoe, mp, doy - MonthStart(mp) + 1))
  {
  }

  lemma YearAtMost366(yoe: int)
    requires 0 <= yoe <= 399
    ensures 365 <= YearEnd(yoe) - YearStart(yoe) <= 366
  {
    if yoe < 399 {
      YearLength(yoe);
    }
  }

  // ---------- Mutual inverses ----------

  /** `civil_from_days` always yields a valid date, and `days_from_civil` takes it back. */
  lemma DaysRoundTrip(days: int)
    ensures ValidDate(CivilFromDays(days))
    ensures DaysFromCivil(CivilFromDays(days)) == days
  {
    hide DaysFromCivil, CivilFromDays, YearOfEra, YearEnd, YearStart, MonthStart, PartsOf, ValidDate;
    var z := days + 719_468;
    var era := z / 146_097;
    var doe := z - era * 146_097;
    YearOfEraCorrect(doe);
    var yoe := YearOfEra(doe);
    YearAtMost366(yoe);
    var doy := doe - YearStart(yoe);
    MonthOfYear(doy);
    var mp := (5 * doy + 2) / 153;
    var p := Parts(era, yoe, mp, doy - MonthStart(mp) + 1);
    CivilFromDaysParts(days);
    CivilRoundTrip(p);
    ValidPartsIffValidDate(p);
    DaysFromParts(CivilOf(p));
  }

  /** ... and every valid date comes back from its day number. */
  lemma DateRoundTrip(c: Civil)
    requires ValidDate(c)
    ensures CivilFromDays(DaysFromCivil(c)) == c
  {
    hide DaysFromCivil, CivilFromDays, YearOfEra, CivilOf, PartsOf, DaysInMonth;
    var p := PartsOf(c);
    PartsRoundTrip(c);
    ValidPartsIffValidDate(p);
    DaysFromParts(c);
    YearAtMost366(p.yoe);
    var doe := DayOfEra(p);
    assert 0 <= doe < 146_097 by {
      YearStartMonotone(0, p.yoe);
      if p.yoe < 399 {
        YearStartMonotone(p.yoe + 1, 399);
      }
    }
    var z := DaysFromCivil(c) + 719_468;
    assert z == p.era * 146_097 + doe;
    assert z / 146_097 == p.era;
    YearOfEraCorrect(doe);
    YearUnique(p.yoe, YearOfEra(doe), doe);
    MonthOfYear(DayOfYear(p));
    MonthUnique(p.mp, (5 * DayOfYear(p) + 2) / 153, DayOfYear(p));
    CivilFromDaysParts(DaysFromCivil(c));
  }

  // ---------- Agreement with the day-by-day count ----------

  /** The next date, in parts: the next day, the next month, or the first of March. */
  lemma NextParts(c: Civil)
    requires ValidDate(c) && !(c.month == 2 && c.day == DaysInMonth(c.year, 2))
    ensures var p, q := PartsOf(c), PartsOf(NextDate(c));
            && q.era == p.era && q.yoe == p.yoe && p.day == c.day
            && (if c.day < DaysInMonth(c.year, c.month) then q.mp == p.mp && q.day == p.day + 1
                else q.mp == p.mp + 1 <= 11 && q.day == 1 && MonthStart(q.mp) == MonthStart(p.mp) + c.day)
  {
    var p := PartsOf(c);
    PartsRoundTrip(c);
    MonthTable(p.mp);
    if p.mp < 11 {
      MonthTable(p.mp + 1);
    }
  }

  lemma FirstOfMarch(year: int)
    ensures var p, q := PartsOf(Civil(year, 2, 1)), PartsOf(Civil(year, 3, 1));
            && 0 <= p.yoe <= 399 && p.mp == 11 && year == p.era * 400 + (p.yoe + 1)
            && q == if p.yoe < 399 then Parts(p.era, p.yoe + 1, 0, 1) else Parts(p.era + 1, 0, 0, 1)
  {
    var p := PartsOf(Civil(year, 2, 1));
    if p.yoe < 399 {
      EraYear(p.era, p.yoe + 1);
    } else {
      EraYear(p.era + 1, 0);
    }
  }

  lemma SameMonthParts(c: Civil, day: int)
    ensures PartsOf(c.(day := day)) == PartsOf(c).(day := day)
  {
  }

  lemma EraEnds()
    ensures YearStart(0) == 0 && YearStart(399) == 145_731 && Leap(400)
  {
  }

  /** The day after the last of February starts the next March-year. */
  lemma NextMarch(c: Civil)
    requires ValidDate(c) && c.month == 2 && c.day == DaysInMonth(c.year, 2)
    ensures var p, q := PartsOf(c), PartsOf(NextDate(c));
            q.era * 146_097 + DayOfEra(q) == p.era * 146_097 + DayOfEra(p) + 1
  {
    hide PartsOf, YearStart, MonthStart, Leap;
    var p := PartsOf(c);
    EraEnds();
    FirstOfMarch(c.year);
    SameMonthParts(c, 1);
    SameMonthParts(c, c.day);
    assert c.(day := c.day) == c && NextDate(c) == Civil(c.year, 3, 1);
    MonthTable(11);
    MonthTable(0);
    EraLeap(p.era, p.yoe + 1);
    if p.yoe < 399 {
      YearLength(p.yoe);
    }
  }

  lemma NextDayNumber(c: Civil)
    requires ValidDate(c)
    ensures DaysFromCivil(NextDate(c)) == DaysFromCivil(c) + 1
  {
    hide DaysFromCivil, PartsOf, YearStart, MonthStart;
    DaysFromParts(c);
    DaysFromParts(NextDate(c));
    if c.month == 2 && c.day == DaysInMonth(c.year, 2) {
      NextMarch(c);
    } else {
      NextParts(c);
    }
  }

  /** `civil_from_days` is the date reached by counting one day at a time from 1970-01-01, in
      either direction, with month lengths from `days_in_month`. */
  lemma {:induction false} CountsDayByDay(n: int)
    ensures ValidDate(DateAt(n))
    ensures DaysFromCivil(DateAt(n)) == n
    ensures CivilFromDays(n) == DateAt(n)
    decreases if n >= 0 then n else -n
  {
    hide CivilFromDays, NextDate, PreviousDate;
    if n > 0 {
      CountsDayByDay(n - 1);
      NextPrevious(DateAt(n - 1));
      NextDayNumber(DateAt(n - 1));
    } else if n < 0 {
      CountsDayByDay(n + 1);
      NextPrevious(DateAt(n + 1));
      NextDayNumber(PreviousDate(DateAt(n + 1)));
    }
    DateRoundTrip(DateAt(n));
  }

  // ---------- Years as ranges of day numbers ----------

  function NewYear(y: int): int {
    DaysFromCivil(Civil(y, 1, 1))
  }

  lemma NewYearFormula(y: int)
    ensures NewYear(y + 1) == 365 * y + y / 4 - y / 100 + y / 400 - 719_162
  {
    var era := y / 400;
    var yoe := y - era * 400;
    assert y / 4 == 100 * era + yoe / 4;
    assert y / 100 == 4 * era + yoe / 100;
    DaysFromParts(Civil(y + 1, 1, 1));
    MonthTable(10);
  }

  lemma NewYearStep(y: int)
    ensures NewYear(y) + 365 <= NewYear(y + 1)
  {
    hide NewYear;
    NewYearFormula(y - 1);
    NewYearFormula(y);
    NextQuarter(y - 1);
    NextCentury(y - 1);
    NextEra(y - 1);
  }

  lemma {:induction false} NewYearMonotone(a: int, b: int)
    requires a <= b
    ensures NewYear(a) <= NewYear(b)
    decreases b - a
  {
    hide NewYear;
    if a < b {
      NewYearMonotone(a, b - 1);
      NewYearStep(b - 1);
    }
  }

  /** A valid date lies between the first days of its year and of the next. */
  lemma WithinYear(c: Civil)
    requires ValidDate(c)
    ensures NewYear(c.year) <= DaysFromCivil(c) < NewYear(c.year + 1)
  {
    hide DaysFromCivil;
    NewYearStep(c.year);
    var p := PartsOf(c);
    PartsRoundTrip(c);
    DaysFromParts(c);
    MonthTable(p.mp);
    MonthTable(10);
    if c.month <= 2 {
      var first := Civil(c.year, 1, 1);
      DaysFromParts(first);
      assert PartsOf(first) == p.(mp := 10, day := 1);
    } else {
      var next := Civil(c.year + 1, 1, 1);
      DaysFromParts(next);
      assert PartsOf(next) == p.(mp := 10, day := 1);
    }
  }

  /** Day numbers order years: `c.year >= y` exactly when `c` is on or after the first of `y`. */
  lemma YearFromDays(c: Civil, y: int)
    requires ValidDate(c)
    ensures c.year >= y <==> DaysFromCivil(c) >= NewYear(y)
  {
    hide DaysFromCivil, NewYear;
    WithinYear(c);
    if c.year >= y {
      NewYearMonotone(y, c.year);
    } else {
      NewYearMonotone(c.year + 1, y);
    }
  }
}
