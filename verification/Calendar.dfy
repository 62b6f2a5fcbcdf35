/** Month grids, view ranges and moves between periods, on calendar fields. */
module Calendar {
  import opened Common
  import opened CivilDate

  // ---------- Dates from fields ----------

  /** The date constructor: months from 0, and fields past their range carry over in either direction. */
  function FromFields(year: int, month: int, day: int): Civil {
    CivilFromDays(DaysFromCivil(Civil(year + month / 12, month % 12 + 1, 1)) + day - 1)
  }

  lemma MonthCarries(year: int, month: int)
    requires 1 <= month <= 12
    ensures year + (month - 1) / 12 == year && (month - 1) % 12 + 1 == month
  {
  }

  /** Fields that are in range are taken as they are. */
  lemma FieldsTaken(c: Civil)
    requires ValidDate(c)
    ensures FromFields(c.year, c.month - 1, c.day) == c
  {
    hide CivilFromDays, DaysFromCivil;
    MonthCarries(c.year, c.month);
    DayWithinMonth(c.(day := 1), c.day);
    DateRoundTrip(c);
  }

  function AddDays(c: Civil, days: int): Civil {
    FromFields(c.year, c.month - 1, c.day + days)
  }

  lemma AddDaysMoves(c: Civil, days: int)
    requires ValidDate(c)
    ensures ValidDate(AddDays(c, days)) && DaysFromCivil(AddDays(c, days)) == DaysFromCivil(c) + days
  {
    hide CivilFromDays, DaysFromCivil, DaysInMonth;
    MonthCarries(c.year, c.month);
    DayWithinMonth(c.(day := 1), c.day);
    DaysRoundTrip(DaysFromCivil(c) + days);
  }

  lemma SameNumberSameDate(a: Civil, b: Civil)
    requires ValidDate(a) && ValidDate(b) && DaysFromCivil(a) == DaysFromCivil(b)
    ensures a == b
  {
    hide DaysFromCivil, CivilFromDays, ValidDate;
    DateRoundTrip(a);
    DateRoundTrip(b);
  }

  /** The last day of a month is the day before the first of the next. */
  function LastDayOfMonth(year: int, month: int): int {
    FromFields(year, month + 1, 0).day
  }

  lemma DayZeroIsLastDay(year: int, month: int)
    requires 0 <= month < 12
    ensures FromFields(year, month + 1, 0) == Civil(year, month + 1, DaysInMonth(year, month + 1))
    ensures LastDayOfMonth(year, month) == DaysInMonth(year, month + 1)
  {
    hide DaysFromCivil, CivilFromDays;
    var last := Civil(year, month + 1, DaysInMonth(year, month + 1));
    NextDayNumber(last);
    DateRoundTrip(last);
  }

  // ---------- Weeks ----------

  type DayOfWeek = d: int | 0 <= d < 7

  /** Sunday is 0; the first of January 1970 was a Thursday. */
  function Weekday(c: Civil): DayOfWeek {
    (DaysFromCivil(c) + 4) % 7
  }

  /** Weekdays follow one another around the week, from a Thursday on the first of January 1970. */
  lemma WeekdaysFollow(c: Civil)
    requires ValidDate(c)
    ensures Weekday(Civil(1970, 1, 1)) == 4
    ensures Weekday(NextDate(c)) == if Weekday(c) == 6 then 0 else Weekday(c) + 1
  {
    hide DaysFromCivil;
    assert DaysFromCivil(Civil(1970, 1, 1)) == 0 by {
      KnownDays();
    }
    NextDayNumber(c);
  }

  lemma KnownDays()
    ensures DaysFromCivil(Civil(1970, 1, 1)) == 0
  {
  }

  /** Counted from that Thursday, every date has the weekday its distance says. */
  lemma {:induction false} WeekdayCounted(n: int)
    ensures Weekday(DateAt(n)) == (n + 4) % 7
  {
    CountsDayByDay(n);
  }

  function StartOfWeek(c: Civil, weekStartsOn: DayOfWeek): Civil {
    AddDays(c, -((Weekday(c) - weekStartsOn + 7) % 7))
  }

  /** The latest date that is not after `c` and falls on the first day of the week. */
  lemma WeekStart(c: Civil, weekStartsOn: DayOfWeek)
    requires ValidDate(c)
    ensures var s := StartOfWeek(c, weekStartsOn);
            && ValidDate(s) && Weekday(s) == weekStartsOn
            && DaysFromCivil(c) - 6 <= DaysFromCivil(s) <= DaysFromCivil(c)
  {
    hide DaysFromCivil, FromFields;
    var offset := (Weekday(c) - weekStartsOn + 7) % 7;
    AddDaysMoves(c, -offset);
    WeekArithmetic(DaysFromCivil(c), weekStartsOn);
  }

  lemma WeekArithmetic(n: int, w: DayOfWeek)
    ensures (n - ((n + 4) % 7 - w + 7) % 7 + 4) % 7 == w
  {
  }

  // ---------- Months ----------

  function AddMonths(c: Civil, months: int): Civil {
    var target := FromFields(c.year, c.month - 1 + months, 1);
    var last := LastDayOfMonth(target.year, target.month - 1);
    FromFields(target.year, target.month - 1, if c.day <= last then c.day else last)
  }

  /** Months counted from January of the year 0. */
  function MonthIndex(c: Civil): int {
    12 * c.year + c.month - 1
  }

  function LengthOfMonth(index: int): int {
    DaysInMonth(index / 12, index % 12 + 1)
  }

  /** The month moves by exactly `months`; the day stays, or becomes the last day of a shorter month. */
  lemma AddMonthsClamps(c: Civil, months: int)
    requires ValidDate(c)
    ensures var r := AddMonths(c, months);
            && ValidDate(r) && MonthIndex(r) == MonthIndex(c) + months
            && r.day == Min(c.day, LengthOfMonth(MonthIndex(c) + months))
  {
    hide DaysFromCivil, CivilFromDays, DaysInMonth, FromFields;
    var m := c.month - 1 + months;
    var y := c.year + m / 12;
    CarryMonth(c.year, m);
    var target := FromFields(c.year, m, 1);
    DayZeroIsLastDay(y, m % 12);
    MonthHasDays(y, m % 12 + 1);
    FieldsTaken(Civil(y, m % 12 + 1, Min(c.day, DaysInMonth(y, m % 12 + 1))));
    IndexSplits(c.year, m);
  }

  lemma IndexSplits(year: int, m: int)
    ensures (12 * year + m) / 12 == year + m / 12 && (12 * year + m) % 12 == m % 12
  {
  }

  lemma MonthHasDays(year: int, month: int)
    ensures 28 <= DaysInMonth(year, month) <= 31
  {
  }

  lemma CarryMonth(year: int, m: int)
    ensures FromFields(year, m, 1) == Civil(year + m / 12, m % 12 + 1, 1)
  {
    hide DaysFromCivil, CivilFromDays;
    DateRoundTrip(Civil(year + m / 12, m % 12 + 1, 1));
  }

  lemma SameIndexSameDate(a: Civil, b: Civil)
    requires ValidDate(a) && ValidDate(b) && MonthIndex(a) == MonthIndex(b) && a.day == b.day
    ensures a == b
  {
  }

  /** Two moves are one move exactly when the stop between them does not cut the day below where it ends. */
  lemma AddMonthsCompose(c: Civil, a: int, b: int)
    requires ValidDate(c)
    ensures var mid := LengthOfMonth(MonthIndex(c) + a);
            AddMonths(AddMonths(c, a), b) == AddMonths(c, a + b)
            <==> (c.day <= mid || LengthOfMonth(MonthIndex(c) + a + b) <= mid)
  {
    hide AddMonths, LengthOfMonth;
    AddMonthsClamps(c, a);
    AddMonthsClamps(AddMonths(c, a), b);
    AddMonthsClamps(c, a + b);
    var one, two := AddMonths(c, a + b), AddMonths(AddMonths(c, a), b);
    if one.day == two.day {
      SameIndexSameDate(one, two);
    }
  }

  /** Moving back undoes moving forth exactly when the day exists in the month visited. */
  lemma AddMonthsBack(c: Civil, months: int)
    requires ValidDate(c)
    ensures AddMonths(AddMonths(c, months), -months) == c <==> c.day <= LengthOfMonth(MonthIndex(c) + months)
  {
    hide AddMonths;
    AddMonthsCompose(c, months, -months);
    AddMonthsClamps(c, 0);
    SameIndexSameDate(c, AddMonths(c, 0));
  }

  // ---------- The month grid ----------

  function FirstOf(anchor: Civil): Civil {
    FromFields(anchor.year, anchor.month - 1, 1)
  }

  function LastOf(anchor: Civil): Civil {
    FromFields(anchor.year, anchor.month - 1, LastDayOfMonth(anchor.year, anchor.month - 1))
  }

  predicate InMonthOf(anchor: Civil, c: Civil) {
    c.year == anchor.year && c.month == anchor.month
  }

  lemma MonthEnds(anchor: Civil)
    requires ValidDate(anchor)
    ensures FirstOf(anchor) == anchor.(day := 1) && ValidDate(FirstOf(anchor))
    ensures LastOf(anchor) == anchor.(day := DaysInMonth(anchor.year, anchor.month)) && ValidDate(LastOf(anchor))
  {
    hide DaysFromCivil, CivilFromDays, FromFields;
    DayZeroIsLastDay(anchor.year, anchor.month - 1);
    FieldsTaken(anchor.(day := 1));
    FieldsTaken(anchor.(day := DaysInMonth(anchor.year, anchor.month)));
  }

  /** A month is a run of day numbers. */
  lemma MonthIsRun(anchor: Civil, c: Civil)
    requires ValidDate(anchor) && ValidDate(c)
    ensures InMonthOf(anchor, c)
       <==> DaysFromCivil(FirstOf(anchor)) <= DaysFromCivil(c) <= DaysFromCivil(LastOf(anchor))
  {
    hide CivilFromDays, FromFields, FirstOf, LastOf;
    MonthEnds(anchor);
    var first := FirstOf(anchor);
    DayWithinMonth(first, DaysInMonth(anchor.year, anchor.month));
    var n := DaysFromCivil(c) - DaysFromCivil(first);
    if 0 <= n < DaysInMonth(anchor.year, anchor.month) {
      DayWithinMonth(first, n + 1);
      SameNumberSameDate(c, first.(day := n + 1));
    }
    DayWithinMonth(first, c.day);
    assert InMonthOf(anchor, c) ==> c == first.(day := c.day);
  }

  lemma DayWithinMonth(first: Civil, day: int)
    requires first.day == 1
    ensures DaysFromCivil(first.(day := day)) == DaysFromCivil(first) + day - 1
  {
  }

  /** The week of seven dates from `from`. */
  function WeekFrom(from: Civil): seq<Civil> {
    seq(7, i => AddDays(from, i))
  }

  /** The dates in reading order are consecutive, in whole weeks from day number `start`. */
  ghost predicate Consecutive(weeks: seq<seq<Civil>>, start: int) {
    && (forall i :: 0 <= i < |weeks| ==> |weeks[i]| == 7)
    && forall i, j :: 0 <= i < |weeks| && 0 <= j < 7 ==>
         ValidDate(weeks[i][j]) && DaysFromCivil(weeks[i][j]) == start + 7 * i + j
  }

  /** Whole weeks from the week of the first of the month to the week of its last day. */
  ghost predicate CoversMonth(weeks: seq<seq<Civil>>, anchor: Civil, weekStartsOn: DayOfWeek) {
    var start := DaysFromCivil(StartOfWeek(FirstOf(anchor), weekStartsOn));
    var last := DaysFromCivil(LastOf(anchor));
    && weeks != [] && Consecutive(weeks, start)
    && start + 7 * (|weeks| - 1) <= last < start + 7 * |weeks|
  }

  lemma WeekFromConsecutive(from: Civil)
    requires ValidDate(from)
    ensures forall j :: 0 <= j < 7 ==>
              ValidDate(WeekFrom(from)[j]) && DaysFromCivil(WeekFrom(from)[j]) == DaysFromCivil(from) + j
  {
    hide DaysFromCivil, AddDays;
    forall j | 0 <= j < 7
      ensures ValidDate(WeekFrom(from)[j]) && DaysFromCivil(WeekFrom(from)[j]) == DaysFromCivil(from) + j
    {
      AddDaysMoves(from, j);
    }
  }

  method MonthGrid(anchor: Civil, weekStartsOn: DayOfWeek) returns (weeks: seq<seq<Civil>>)
    requires ValidDate(anchor)
    ensures CoversMonth(weeks, anchor, weekStartsOn)
  {
    hide DaysFromCivil, StartOfWeek, FirstOf, LastOf, ValidDate, AddDays, WeekFrom;
    MonthEnds(anchor);
    MonthNotEmpty(anchor);
    var first, last := FirstOf(anchor), LastOf(anchor);
    WeekStart(first, weekStartsOn);
    weeks := [];
    var cursor := StartOfWeek(first, weekStartsOn);
    ghost var start := DaysFromCivil(cursor);
    while DaysFromCivil(cursor) <= DaysFromCivil(last)
      invariant ValidDate(cursor) && DaysFromCivil(cursor) == start + 7 * |weeks|
      invariant Consecutive(weeks, start)
      invariant weeks == [] ==> DaysFromCivil(cursor) <= DaysFromCivil(last)
      invariant weeks != [] ==> start + 7 * (|weeks| - 1) <= DaysFromCivil(last)
      decreases DaysFromCivil(last) - DaysFromCivil(cursor)
    {
      WeekFromConsecutive(cursor);
      WeekLength(cursor);
      weeks := weeks + [WeekFrom(cursor)];
      AddDaysMoves(cursor, 7);
      cursor := AddDays(cursor, 7);
    }
  }

  lemma WeekLength(from: Civil)
    ensures |WeekFrom(from)| == 7
  {
  }

  lemma MonthNotEmpty(anchor: Civil)
    requires ValidDate(anchor)
    ensures DaysFromCivil(FirstOf(anchor)) <= DaysFromCivil(anchor) <= DaysFromCivil(LastOf(anchor))
  {
    MonthIsRun(anchor, anchor);
  }

  /** Where a day of the month is shown. */
  ghost predicate ShownAt(weeks: seq<seq<Civil>>, c: Civil, i: int, j: int) {
    0 <= i < |weeks| && 0 <= j < |weeks[i]| && weeks[i][j] == c
  }

  /** Every day of the month is in the grid, in one place only, in the column of its weekday. */
  lemma EachDayOnce(weeks: seq<seq<Civil>>, anchor: Civil, weekStartsOn: DayOfWeek, c: Civil)
    requires ValidDate(anchor) && CoversMonth(weeks, anchor, weekStartsOn)
    requires ValidDate(c) && InMonthOf(anchor, c)
    ensures exists i, j :: ShownAt(weeks, c, i, j)
    ensures forall i, j, i', j' :: ShownAt(weeks, c, i, j) && ShownAt(weeks, c, i', j') ==> i == i' && j == j'
    ensures forall i, j :: ShownAt(weeks, c, i, j) ==> Weekday(c) == (weekStartsOn + j) % 7
  {
    hide DaysFromCivil, FirstOf, LastOf, StartOfWeek;
    MonthEnds(anchor);
    MonthIsRun(anchor, c);
    WeekStart(FirstOf(anchor), weekStartsOn);
    var start := DaysFromCivil(StartOfWeek(FirstOf(anchor), weekStartsOn));
    var n := DaysFromCivil(c) - start;
    var i, j := n / 7, n % 7;
    SameNumberSameDate(c, weeks[i][j]);
    assert ShownAt(weeks, c, i, j);
    forall i', j' | ShownAt(weeks, c, i', j')
      ensures i' == i && j' == j
    {
      assert DaysFromCivil(weeks[i'][j']) == start + 7 * i' + j';
    }
    ColumnArithmetic(start, i, j, weekStartsOn);
  }

  lemma ColumnArithmetic(start: int, i: int, j: int, w: DayOfWeek)
    requires (start + 4) % 7 == w
    ensures (start + 7 * i + j + 4) % 7 == (w + j) % 7
  {
  }

  /** No week of the grid lies outside the month. */
  lemma EachWeekHoldsADay(weeks: seq<seq<Civil>>, anchor: Civil, weekStartsOn: DayOfWeek, i: nat)
    requires ValidDate(anchor) && CoversMonth(weeks, anchor, weekStartsOn) && i < |weeks|
    ensures |weeks[i]| == 7 && exists j :: 0 <= j < 7 && InMonthOf(anchor, weeks[i][j])
  {
    hide DaysFromCivil, FirstOf, LastOf, StartOfWeek;
    MonthEnds(anchor);
    MonthNotEmpty(anchor);
    WeekStart(FirstOf(anchor), weekStartsOn);
    var start := DaysFromCivil(StartOfWeek(FirstOf(anchor), weekStartsOn));
    var j := if i == 0 then DaysFromCivil(FirstOf(anchor)) - start else 0;
    assert DaysFromCivil(weeks[i][j]) == start + 7 * i + j;
    MonthIsRun(anchor, weeks[i][j]);
  }

  // ---------- Views ----------

  datatype View = AsList | Day | Week | Month

  /** From the midnight that starts `from` up to the midnight that starts `to`. */
  datatype Range = Range(from: Civil, to: Civil)

  /** How many days a view shows, and that its first falls where the view starts. */
  ghost predicate RangeOfView(view: View, anchor: Civil, weekStartsOn: DayOfWeek, r: Range) {
    && ValidDate(r.from) && ValidDate(r.to)
    && match view
       case AsList => false
       case Day => r.from == anchor && DaysFromCivil(r.to) == DaysFromCivil(anchor) + 1
       case Week =>
         && Weekday(r.from) == weekStartsOn && DaysFromCivil(r.to) == DaysFromCivil(r.from) + 7
         && DaysFromCivil(r.from) <= DaysFromCivil(anchor) < DaysFromCivil(r.to)
       case Month =>
         && Weekday(r.from) == weekStartsOn && (DaysFromCivil(r.to) - DaysFromCivil(r.from)) % 7 == 0
         && DaysFromCivil(FirstOf(anchor)) - 6 <= DaysFromCivil(r.from) <= DaysFromCivil(FirstOf(anchor))
         && DaysFromCivil(LastOf(anchor)) < DaysFromCivil(r.to) <= DaysFromCivil(LastOf(anchor)) + 7
  }

  /** `None` stands for the error a view without a range raises. */
  method RangeFor(view: View, anchor: Civil, weekStartsOn: DayOfWeek) returns (r: Option<Range>)
    requires ValidDate(anchor)
    ensures r.None? <==> view.AsList?
    ensures r.Some? ==> RangeOfView(view, anchor, weekStartsOn, r.value)
  {
    hide DaysFromCivil, StartOfWeek, FirstOf, LastOf, AddDays, ValidDate;
    if view.Day? {
      FieldsTaken(anchor);
      AddDaysMoves(anchor, 1);
      r := Some(Range(anchor, AddDays(anchor, 1)));
    } else if view.Week? {
      WeekStart(anchor, weekStartsOn);
      var from := StartOfWeek(anchor, weekStartsOn);
      AddDaysMoves(from, 7);
      r := Some(Range(from, AddDays(from, 7)));
    } else if view.Month? {
      var weeks := MonthGrid(anchor, weekStartsOn);
      MonthEnds(anchor);
      WeekStart(FirstOf(anchor), weekStartsOn);
      ghost var start := StartOfWeek(FirstOf(anchor), weekStartsOn);
      var n := |weeks| - 1;
      assert DaysFromCivil(weeks[0][0]) == DaysFromCivil(start);
      SameNumberSameDate(weeks[0][0], start);
      assert DaysFromCivil(weeks[n][6]) == DaysFromCivil(start) + 7 * n + 6;
      AddDaysMoves(weeks[n][6], 1);
      r := Some(Range(weeks[0][0], AddDays(weeks[n][6], 1)));
    } else {
      r := None;
    }
  }

  /** The range of the month view is exactly the days of its grid. */
  lemma RangeIsGrid(weeks: seq<seq<Civil>>, anchor: Civil, weekStartsOn: DayOfWeek, r: Range, c: Civil)
    requires ValidDate(anchor) && ValidDate(c)
    requires CoversMonth(weeks, anchor, weekStartsOn) && RangeOfView(Month, anchor, weekStartsOn, r)
    ensures DaysFromCivil(r.from) <= DaysFromCivil(c) < DaysFromCivil(r.to) <==> exists i, j :: ShownAt(weeks, c, i, j)
  {
    hide DaysFromCivil, FirstOf, LastOf, StartOfWeek, ValidDate;
    MonthEnds(anchor);
    WeekStart(FirstOf(anchor), weekStartsOn);
    var start := DaysFromCivil(StartOfWeek(FirstOf(anchor), weekStartsOn));
    SameWeek(start, DaysFromCivil(r.from), DaysFromCivil(FirstOf(anchor)), weekStartsOn);
    SameWeekEnd(start + 7 * |weeks|, DaysFromCivil(r.to), DaysFromCivil(LastOf(anchor)), start, |weeks|);
    var n := DaysFromCivil(c) - start;
    if 0 <= n < 7 * |weeks| {
      SameNumberSameDate(c, weeks[n / 7][n % 7]);
      assert ShownAt(weeks, c, n / 7, n % 7);
    }
    forall i, j | ShownAt(weeks, c, i, j)
      ensures 0 <= n < 7 * |weeks|
    {
      assert DaysFromCivil(weeks[i][j]) == start + 7 * i + j;
    }
  }

  lemma SameWeek(a: int, b: int, day: int, w: DayOfWeek)
    requires (a + 4) % 7 == w && (b + 4) % 7 == w && day - 6 <= a <= day && day - 6 <= b <= day
    ensures a == b
  {
  }

  lemma SameWeekEnd(a: int, b: int, last: int, start: int, weeks: nat)
    requires a == start + 7 * weeks && (b - start) % 7 == 0 && last < a <= last + 7 && last < b <= last + 7
    ensures a == b
  {
  }

  function Shift(view: View, anchor: Civil, direction: int): Option<Civil> {
    match view
    case Day => Some(AddDays(anchor, direction))
    case Week => Some(AddDays(anchor, 7 * direction))
    case Month => Some(AddMonths(anchor, direction))
    case AsList => None
  }

  /** One step on and one step back returns to the anchor, but for a month too short for its day. */
  lemma ShiftBack(view: View, anchor: Civil, direction: int)
    requires ValidDate(anchor) && !view.AsList?
    ensures Shift(view, anchor, direction).Some?
    ensures Shift(view, Shift(view, anchor, direction).value, -direction) == Some(anchor)
       <==> (view.Month? ==> anchor.day <= LengthOfMonth(MonthIndex(anchor) + direction))
  {
    hide AddDays, AddMonths, DaysFromCivil, LengthOfMonth, ValidDate;
    if view.Month? {
      AddMonthsBack(anchor, direction);
    } else {
      var n := if view.Day? then direction else 7 * direction;
      var there := AddDays(anchor, n);
      AddDaysMoves(anchor, n);
      AddDaysMoves(there, -n);
      SameNumberSameDate(AddDays(there, -n), anchor);
    }
  }

  /** A day step moves by one day, a week step by seven, a month step by a month with the day kept or clamped; the
      list view has no step. */
  lemma ShiftMoves(anchor: Civil, direction: int)
    requires ValidDate(anchor)
    ensures Shift(AsList, anchor, direction) == None
    ensures var s := Shift(Day, anchor, direction);
            s.Some? && ValidDate(s.value) && DaysFromCivil(s.value) == DaysFromCivil(anchor) + direction
    ensures var s := Shift(Week, anchor, direction);
            s.Some? && ValidDate(s.value) && DaysFromCivil(s.value) == DaysFromCivil(anchor) + 7 * direction
    ensures var s := Shift(Month, anchor, direction);
            && s.Some? && ValidDate(s.value) && MonthIndex(s.value) == MonthIndex(anchor) + direction
            && s.value.day == Min(anchor.day, LengthOfMonth(MonthIndex(anchor) + direction))
  {
    hide AddDays, AddMonths, DaysFromCivil, LengthOfMonth, ValidDate;
    AddDaysMoves(anchor, direction);
    AddDaysMoves(anchor, 7 * direction);
    AddMonthsClamps(anchor, direction);
  }
}
