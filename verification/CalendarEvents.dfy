/** Placing events on calendar days. */
module CalendarEvents {
  import opened Common
  import opened CivilDate
  import opened Calendar

  /** An instant in milliseconds. */
  type Instant = int

  /** A start and an end as parsed; an unreadable or missing text is `None`. */
  datatype Event = Event(id: nat, startAt: Option<Instant>, endAt: Option<Instant>)

  /** The instant each local day begins, by day number. Days may differ in length, but each has some. */
  datatype Zone = Zone(midnight: int -> Instant)

  ghost predicate Ordered(z: Zone) {
    forall a, b :: a < b ==> z.midnight(a) < z.midnight(b)
  }

  datatype Bounds = Bounds(start: Instant, end: Instant)

  /** An event without a start has no place; an end that is missing or not after the start counts as the start. */
  function BoundsOf(e: Event): Option<Bounds> {
    if e.startAt.None? then None
    else
      var start := e.startAt.value;
      Some(Bounds(start, if e.endAt.Some? && e.endAt.value > start then e.endAt.value else start))
  }

  /** The test the list for a day applies. */
  predicate Listed(z: Zone, e: Event, day: int) {
    var dayStart, dayEnd := z.midnight(day), z.midnight(day + 1);
    match BoundsOf(e)
    case None => false
    case Some(b) => b.start < dayEnd && (b.end > dayStart || (b.end == b.start && b.start >= dayStart))
  }

  // ---------- Sorting ----------

  /** Put `e` after everything that does not start later. */
  function InsertByStart(sorted: seq<Event>, e: Event): seq<Event>
    requires e.startAt.Some? && forall x <- sorted :: x.startAt.Some?
  {
    if sorted == [] then [e]
    else
      var last := sorted[|sorted| - 1];
      if last.startAt.value <= e.startAt.value then sorted + [e]
      else InsertByStart(sorted[..|sorted| - 1], e) + [last]
  }

  predicate AllStart(events: seq<Event>) {
    forall x <- events :: x.startAt.Some?
  }

  predicate Sorted(events: seq<Event>)
    requires AllStart(events)
  {
    forall i, j :: 0 <= i < j < |events| ==> events[i].startAt.value <= events[j].startAt.value
  }

  /** Those that start at `t`, in order. */
  function StartingAt(events: seq<Event>, t: Instant): seq<Event> {
    if events == [] then []
    else
      var last := events[|events| - 1];
      StartingAt(events[..|events| - 1], t) + if last.startAt == Some(t) then [last] else []
  }

  lemma StartingAtAppend(events: seq<Event>, e: Event, t: Instant)
    ensures StartingAt(events + [e], t) == StartingAt(events, t) + if e.startAt == Some(t) then [e] else []
  {
    assert (events + [e])[..|events|] == events;
  }

  /** Inserting keeps the order and the events. */
  lemma {:induction false} InsertKeeps(sorted: seq<Event>, e: Event)
    requires AllStart(sorted) && e.startAt.Some? && Sorted(sorted)
    ensures var r := InsertByStart(sorted, e);
            multiset(r) == multiset(sorted) + multiset{e} && AllStart(r) && Sorted(r)
  {
    if sorted != [] {
      var front, last := sorted[..|sorted| - 1], sorted[|sorted| - 1];
      assert sorted == front + [last];
      if last.startAt.value > e.startAt.value {
        InsertKeeps(front, e);
        InsertedStarts(front, e, InsertByStart(front, e), last);
      }
    }
  }

  /** The inserted event goes last among those with the same start. */
  lemma {:induction false} InsertIsStable(sorted: seq<Event>, e: Event, t: Instant)
    requires AllStart(sorted) && e.startAt.Some?
    ensures StartingAt(InsertByStart(sorted, e), t) == StartingAt(sorted + [e], t)
  {
    if sorted != [] {
      var front, last := sorted[..|sorted| - 1], sorted[|sorted| - 1];
      assert sorted == front + [last];
      if last.startAt.value > e.startAt.value {
        InsertIsStable(front, e, t);
        StartingAtAppend(InsertByStart(front, e), last, t);
        StartingAtAppend(front, e, t);
        StartingAtAppend(sorted, e, t);
        StartingAtAppend(front, last, t);
      }
    }
  }

  /** The inserted event and those before it start no later than the one kept last. */
  lemma InsertedStarts(front: seq<Event>, e: Event, shorter: seq<Event>, last: Event)
    requires AllStart(front + [last]) && e.startAt.Some? && Sorted(front + [last])
    requires multiset(shorter) == multiset(front) + multiset{e} && AllStart(shorter) && Sorted(shorter)
    requires e.startAt.value < last.startAt.value
    ensures AllStart(shorter + [last]) && Sorted(shorter + [last])
  {
    var all := front + [last];
    forall x | x in shorter
      ensures x.startAt.value <= last.startAt.value
    {
      assert x in multiset(shorter);
      if x != e {
        assert x in multiset(front);
        var i :| 0 <= i < |front| && front[i] == x;
        assert all[i] == x && all[|front|] == last;
      }
    }
  }

  // ---------- The list for a day ----------

  function ListedOf(z: Zone, events: seq<Event>, day: int): (kept: seq<Event>)
    ensures AllStart(kept)
  {
    if events == [] then []
    else
      var last := events[|events| - 1];
      ListedOf(z, events[..|events| - 1], day) + if Listed(z, last, day) then [last] else []
  }

  function SortByStart(events: seq<Event>): (r: seq<Event>)
    requires AllStart(events)
    ensures AllStart(r) && Sorted(r)
    ensures multiset(r) == multiset(events)
  {
    if events == [] then []
    else
      var front, last := events[..|events| - 1], events[|events| - 1];
      InsertKeeps(SortByStart(front), last);
      assert events == front + [last];
      InsertByStart(SortByStart(front), last)
  }

  function EventsOnDay(z: Zone, events: seq<Event>, day: int): seq<Event> {
    SortByStart(ListedOf(z, events, day))
  }

  lemma {:induction false} SortIsStable(events: seq<Event>, t: Instant)
    requires AllStart(events)
    ensures StartingAt(SortByStart(events), t) == StartingAt(events, t)
  {
    if events != [] {
      var front, last := events[..|events| - 1], events[|events| - 1];
      SortIsStable(front, t);
      InsertIsStable(SortByStart(front), last, t);
      StartingAtAppend(SortByStart(front), last, t);
    }
  }

  /** How often an event occurs. */
  lemma {:induction false} ListedCount(z: Zone, events: seq<Event>, day: int, e: Event)
    ensures multiset(ListedOf(z, events, day))[e] == if Listed(z, e, day) then multiset(events)[e] else 0
  {
    if events != [] {
      var front, last := events[..|events| - 1], events[|events| - 1];
      ListedCount(z, front, day, e);
      assert events == front + [last];
    }
  }

  lemma {:induction false} ListedStartingAt(z: Zone, events: seq<Event>, day: int, t: Instant)
    ensures StartingAt(ListedOf(z, events, day), t) == ListedOf(z, StartingAt(events, t), day)
  {
    if events != [] {
      var front, last := events[..|events| - 1], events[|events| - 1];
      ListedStartingAt(z, front, day, t);
      var kept, same := ListedOf(z, front, day), StartingAt(front, t);
      StartingAtAppend(kept, last, t);
      assert kept + [] == kept && same + [] == same;
      assert (same + [last])[..|same|] == same;
    }
  }

  // ---------- What it means to fall on a day ----------

  /** The event is under way at `t`: from its start up to an end that comes later, the end left out; otherwise at
      its start alone; never when it has no start. */
  predicate UnderWay(e: Event, t: Instant) {
    && e.startAt.Some?
    && (if e.endAt.Some? && e.endAt.value > e.startAt.value then e.startAt.value <= t < e.endAt.value
        else t == e.startAt.value)
  }

  predicate Within(z: Zone, day: int, t: Instant) {
    z.midnight(day) <= t < z.midnight(day + 1)
  }

  /** Some instant of the event lies in the day. */
  ghost predicate Touches(z: Zone, e: Event, day: int) {
    exists t :: UnderWay(e, t) && Within(z, day, t)
  }

  lemma ListedIffTouches(z: Zone, e: Event, day: int)
    requires Ordered(z)
    ensures Listed(z, e, day) <==> Touches(z, e, day)
  {
    assert z.midnight(day) < z.midnight(day + 1);
    if Listed(z, e, day) {
      var b := BoundsOf(e).value;
      var t := if b.start >= z.midnight(day) then b.start else z.midnight(day);
      assert UnderWay(e, t) && Within(z, day, t);
    }
  }

  /** The list for a day holds each event that touches it as often as it was given, no other, earliest
      first, and leaves events with the same start in the order they came. */
  lemma DayListIsExact(z: Zone, events: seq<Event>, day: int)
    requires Ordered(z)
    ensures var r := EventsOnDay(z, events, day);
            && AllStart(r) && Sorted(r)
            && (forall e :: multiset(r)[e] == if Touches(z, e, day) then multiset(events)[e] else 0)
            && forall t :: StartingAt(r, t) == ListedOf(z, StartingAt(events, t), day)
  {
    var kept := ListedOf(z, events, day);
    var r := EventsOnDay(z, events, day);
    forall e
      ensures multiset(r)[e] == if Touches(z, e, day) then multiset(events)[e] else 0
    {
      ListedCount(z, events, day, e);
      ListedIffTouches(z, e, day);
    }
    forall t
      ensures StartingAt(r, t) == ListedOf(z, StartingAt(events, t), day)
    {
      SortIsStable(kept, t);
      ListedStartingAt(z, events, day, t);
    }
  }

  // ---------- Which days an event falls on ----------

  lemma {:induction false} MidnightsReachUp(z: Zone, n: int)
    requires Ordered(z) && n >= 0
    ensures z.midnight(n) >= z.midnight(0) + n && z.midnight(-n) <= z.midnight(0) - n
  {
    if n > 0 {
      MidnightsReachUp(z, n - 1);
      assert z.midnight(n - 1) < z.midnight(n) && z.midnight(-n) < z.midnight(-n + 1);
    }
  }

  /** Every instant lies in a day at or after one that has begun by then. */
  lemma {:induction false} DayFrom(z: Zone, t: Instant, day: int, limit: int) returns (d: int)
    requires Ordered(z) && z.midnight(day) <= t < z.midnight(limit)
    ensures Within(z, d, t)
    decreases limit - day
  {
    assert day < limit by {
      assert limit < day ==> z.midnight(limit) < z.midnight(day);
    }
    if t < z.midnight(day + 1) {
      d := day;
    } else {
      d := DayFrom(z, t, day + 1, limit);
    }
  }

  lemma EveryInstantHasADay(z: Zone, t: Instant)
    requires Ordered(z)
    ensures exists d :: Within(z, d, t)
  {
    var far := (if t >= z.midnight(0) then t - z.midnight(0) else z.midnight(0) - t) + 1;
    MidnightsReachUp(z, far);
    var d := DayFrom(z, t, -far, far);
  }

  lemma OneDayOnly(z: Zone, t: Instant, a: int, b: int)
    requires Ordered(z) && Within(z, a, t) && Within(z, b, t)
    ensures a == b
  {
    assert a + 1 < b ==> z.midnight(a + 1) < z.midnight(b);
    assert b + 1 < a ==> z.midnight(b + 1) < z.midnight(a);
  }

  /** The last instant of an event; an end at midnight is not part of it. */
  function LastInstant(e: Event): Instant
    requires e.startAt.Some?
  {
    if e.endAt.Some? && e.endAt.value > e.startAt.value then e.endAt.value - 1 else e.startAt.value
  }

  lemma LastInstantIsLast(e: Event, t: Instant)
    requires UnderWay(e, t)
    ensures UnderWay(e, e.startAt.value) && UnderWay(e, LastInstant(e)) && e.startAt.value <= t <= LastInstant(e)
  {
  }

  /** A placed event is listed on the day it starts, on the day of its last instant and on every day
      between, and on no other. */
  lemma ListedOnContiguousDays(z: Zone, e: Event, first: int, last: int, day: int)
    requires Ordered(z) && e.startAt.Some?
    requires Within(z, first, e.startAt.value) && Within(z, last, LastInstant(e))
    ensures first <= last
    ensures Listed(z, e, day) <==> first <= day <= last
  {
    assert last + 1 < first ==> z.midnight(last + 1) < z.midnight(first);
    assert day + 1 < first ==> z.midnight(day + 1) < z.midnight(first);
    assert first < day ==> z.midnight(first) < z.midnight(day);
    assert first + 1 < day ==> z.midnight(first + 1) < z.midnight(day);
    assert last + 1 < day ==> z.midnight(last + 1) < z.midnight(day);
    assert day < last ==> z.midnight(day) < z.midnight(last);
    assert day + 1 < last ==> z.midnight(day + 1) < z.midnight(last);
    assert z.midnight(day) < z.midnight(day + 1);
  }

  /** No event with a start is lost: there is a day that lists it; and one without is on none. */
  lemma EveryEventHasADay(z: Zone, e: Event)
    requires Ordered(z)
    ensures e.startAt.Some? <==> exists day :: Listed(z, e, day)
  {
    if e.startAt.Some? {
      EveryInstantHasADay(z, e.startAt.value);
      EveryInstantHasADay(z, LastInstant(e));
      var first :| Within(z, first, e.startAt.value);
      var last :| Within(z, last, LastInstant(e));
      ListedOnContiguousDays(z, e, first, last, first);
    }
  }

  /** Over days `from..to`, an event is on some list exactly when it is under way at some instant between
      the midnights of the range. */
  lemma RangeListsWhatItCovers(z: Zone, e: Event, from: int, to: int)
    requires Ordered(z) && from <= to
    ensures (exists day :: from <= day < to && Listed(z, e, day))
       <==> (exists t :: UnderWay(e, t) && z.midnight(from) <= t < z.midnight(to))
  {
    if day :| from <= day < to && Listed(z, e, day) {
      ListedIffTouches(z, e, day);
      var t :| UnderWay(e, t) && Within(z, day, t);
      assert from < day ==> z.midnight(from) < z.midnight(day);
      assert day + 1 < to ==> z.midnight(day + 1) < z.midnight(to);
    }
    if t :| UnderWay(e, t) && z.midnight(from) <= t < z.midnight(to) {
      EveryInstantHasADay(z, t);
      var day :| Within(z, day, t);
      assert day + 1 < from ==> z.midnight(day + 1) < z.midnight(from);
      assert to < day ==> z.midnight(to) < z.midnight(day);
      ListedIffTouches(z, e, day);
    }
  }

  /** In the month view an event appears in the grid exactly when it is under way in the range asked for. */
  lemma MonthViewPlacement(
    z: Zone, weeks: seq<seq<Civil>>, anchor: Civil, weekStartsOn: DayOfWeek, r: Range, e: Event)
    requires Ordered(z) && ValidDate(anchor)
    requires CoversMonth(weeks, anchor, weekStartsOn) && RangeOfView(Month, anchor, weekStartsOn, r)
    ensures (exists c: Civil, i, j :: ShownAt(weeks, c, i, j) && Listed(z, e, DaysFromCivil(c)))
       <==> (exists t :: && UnderWay(e, t)
                         && z.midnight(DaysFromCivil(r.from)) <= t < z.midnight(DaysFromCivil(r.to)))
  {
    hide DaysFromCivil, FirstOf, LastOf, StartOfWeek, CivilFromDays, Listed, Ordered, UnderWay;
    var from, to := DaysFromCivil(r.from), DaysFromCivil(r.to);
    MonthEnds(anchor);
    MonthNotEmpty(anchor);
    RangeListsWhatItCovers(z, e, from, to);
    if c: Civil, i, j :| ShownAt(weeks, c, i, j) && Listed(z, e, DaysFromCivil(c)) {
      RangeIsGrid(weeks, anchor, weekStartsOn, r, c);
    }
    if day :| from <= day < to && Listed(z, e, day) {
      DaysRoundTrip(day);
      var c := CivilFromDays(day);
      RangeIsGrid(weeks, anchor, weekStartsOn, r, c);
      var i, j :| ShownAt(weeks, c, i, j);
    }
  }
}
