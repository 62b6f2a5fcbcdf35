/** What one subscription is handed, under every interleaving with the publishers. */
module EventGuarantees {
  import opened EventLog
  import opened EventBus

  predicate BusReady(log: seq<Event>, delivered: int) {
    Ordered(log) && (forall e :: e in log ==> e.seq_ >= 1) && 0 <= delivered <= Newest(log)
  }

  /** Every matching entry past the subscription's starting cursor, so far. */
  function Owed(s: State): seq<Event> {
    Select(s.log, s.pattern, s.past.start, Newest(s.log))
  }

  /** The same subscription on the same log. */
  predicate SameFeed(s: State, t: State) {
    t.past.start == s.past.start && t.pattern == s.pattern && t.log == s.log && t.capacity == s.capacity
  }

  lemma ReadBatchFrame(s: State)
    ensures var t := ReadBatch(s); SameFeed(s, t) && t.past.overtook == s.past.overtook && t.past.calm == s.past.calm
  {
    hide MatchesPattern, ReadAfter, Matching;
  }

  lemma ReceiveFrame(s: State)
    ensures var t := AtReceive(s);
            && SameFeed(s, t) && t.past.calm == s.past.calm
            && (s.pc == Receive ==> (t.past.overtook <==> s.past.overtook || Overtakes(s)))
  {
    hide Overtakes;
    assert s.channel == [] ==> !Overtakes(s) by {
      EmptyNeverOvertakes(s);
    }
  }

  lemma EmptyNeverOvertakes(s: State)
    ensures s.channel == [] || s.pc != Receive ==> !Overtakes(s)
  {
  }

  /** What a subscriber step does to the history. */
  lemma AdvanceFrame(s: State)
    ensures var t := Advance(s);
            && SameFeed(s, t)
            && (t.past.overtook <==> s.past.overtook || Overtakes(s))
            && (t.past.calm <==> s.past.calm && !(s.pc == Swap && s.dropping))
  {
    hide ReadBatch, AtReceive, Overtakes;
    EmptyNeverOvertakes(s);
    ReadBatchFrame(s);
    ReceiveFrame(s);
  }

  lemma DeliverFrame(s: State)
    ensures var t := Deliver(s); SameFeed(s, t) && t.past.overtook == s.past.overtook && t.past.calm == s.past.calm
  {
    hide MatchesPattern, Position;
  }

  lemma NextFrame(s: State, step: Step)
    ensures var t := Next(s, step);
            t.past.start == s.past.start && t.pattern == s.pattern && t.capacity == s.capacity && s.log <= t.log
  {
    hide Advance, Deliver;
    AdvanceFrame(s);
    DeliverFrame(s);
  }

  lemma {:induction false} RunFrame(s: State, steps: seq<Step>)
    ensures var t := Run(s, steps);
            t.past.start == s.past.start && t.pattern == s.pattern && t.capacity == s.capacity && s.log <= t.log
  {
    if steps != [] {
      var before := steps[..|steps| - 1];
      RunFrame(s, before);
      NextFrame(Run(s, before), steps[|steps| - 1]);
    }
  }

  lemma {:induction false} InvRun(s: State, steps: seq<Step>)
    requires Inv(s)
    ensures Inv(Run(s, steps))
  {
    if steps != [] {
      var before := steps[..|steps| - 1];
      InvRun(s, before);
      NextKeeps(Run(s, before), steps[|steps| - 1]);
    }
  }

  /** A prefix of an ordered sequence holds everything that comes before one of its events. */
  lemma PrefixHolds(part: seq<Event>, all: seq<Event>, x: Event, d: Event)
    requires Ordered(all) && part <= all && x in part && d in all && d.seq_ < x.seq_
    ensures d in part
  {
    var i :| 0 <= i < |part| && part[i] == x;
    var j :| 0 <= j < |all| && all[j] == d;
    assert all[i] == x && j < i;
    assert part[j] == d;
  }

  /** What was handed out is all there is up to the cursor, or one dropped event is missing from it. */
  lemma HandedExact(s: State)
    requires Inv(s)
    ensures Ordered(s.past.handed) && (forall e :: e in s.past.handed ==> e in Owed(s))
    ensures s.past.handed <= Owed(s) <==> !s.past.overtook
  {
    SelectMembers(s.log, s.pattern, s.past.start, Newest(s.log));
    forall e | e in s.past.handed
      ensures e in Owed(s)
    {
      UpToNewest(s.log, e);
    }
    if s.past.overtook {
      hide Select, MatchesPattern;
      var d :| Lost(s, d);
      UpToNewest(s.log, d);
      assert d in Owed(s) && s.past.handed != [];
      var last := s.past.handed[|s.past.handed| - 1];
      if s.past.handed <= Owed(s) {
        PrefixHolds(s.past.handed, Owed(s), last, d);
      }
    } else if s.cursor <= Newest(s.log) {
      SelectSplit(s.log, s.pattern, s.past.start, s.cursor, Newest(s.log));
    } else {
      SelectNone(s.log, s.pattern, s.past.start, s.cursor);
    }
  }

  /** Under every interleaving, the window between a failed send and its flag store included: events are
      handed out in log order, none twice and none unwanted; and they are a prefix of the matching entries
      after the starting cursor, so that there is no gap, exactly when no receive took an event announced
      after a drop that was still to be replayed. That never happens while every swap of the lag flag is
      taken outside the window. */
  lemma GapFree(log: seq<Event>, delivered: int, capacity: nat, pattern: string, from: Cursor, steps: seq<Step>)
    requires BusReady(log, delivered)
    ensures var s := Run(Subscribe(log, delivered, capacity, pattern, from), steps);
            && Ordered(s.past.handed) && (forall e :: e in s.past.handed ==> e in Owed(s))
            && (s.past.handed <= Owed(s) <==> !s.past.overtook)
            && (s.past.calm ==> !s.past.overtook)
  {
    SubscribeStarts(log, delivered, capacity, pattern, from);
    InvRun(Subscribe(log, delivered, capacity, pattern, from), steps);
    HandedExact(Run(Subscribe(log, delivered, capacity, pattern, from), steps));
  }

  /** Where a subscription starts: before everything, after a number, or after what was already announced. */
  function StartsAfter(from: Cursor, delivered: int): int {
    match from
    case Start => 0
    case After(at) => if at < 0 then 0 else at
    case Now => delivered
  }

  lemma ChannelNext(s: State, step: Step)
    requires |s.channel| <= s.capacity
    ensures |Next(s, step).channel| <= s.capacity
  {
    hide Position, MatchesPattern, ReadBatch;
    assert ReadBatch(s).channel == s.channel by { ReadKeepsChannel(s); }
  }

  lemma ReadKeepsChannel(s: State)
    ensures ReadBatch(s).channel == s.channel
  {
  }

  lemma {:induction false} ChannelRun(s: State, steps: seq<Step>)
    requires |s.channel| <= s.capacity
    ensures |Run(s, steps).channel| <= s.capacity == Run(s, steps).capacity
  {
    RunFrame(s, steps);
    if steps != [] {
      ChannelRun(s, steps[..|steps| - 1]);
      RunFrame(s, steps[..|steps| - 1]);
      ChannelNext(Run(s, steps[..|steps| - 1]), steps[|steps| - 1]);
    }
  }

  /** In every run the channel holds no more than the subscriber asked for, and it always has room for one. */
  lemma ChannelBounded(log: seq<Event>, delivered: int, capacity: nat, pattern: string, from: Cursor, steps: seq<Step>)
    ensures var s := Run(Subscribe(log, delivered, capacity, pattern, from), steps);
            |s.channel| <= s.capacity == if capacity == 0 then 1 else capacity
  {
    ChannelRun(Subscribe(log, delivered, capacity, pattern, from), steps);
  }

  /** What a subscription is owed: the log entries past its start of the types its pattern asks for, in log order. */
  lemma OwedExactly(
    log: seq<Event>, delivered: int, capacity: nat, pattern: string, from: Cursor, steps: seq<Step>, e: Event)
    requires BusReady(log, delivered)
    ensures var s := Run(Subscribe(log, delivered, capacity, pattern, from), steps);
            && Ordered(Owed(s))
            && (e in Owed(s) <==> e in s.log && e.seq_ > StartsAfter(from, delivered) && AsksFor(pattern, e.kind))
  {
    var first := Subscribe(log, delivered, capacity, pattern, from);
    SubscribeStarts(log, delivered, capacity, pattern, from);
    InvRun(first, steps);
    RunFrame(first, steps);
    var s := Run(first, steps);
    InvParts(s);
    hide Run, MatchesPattern, AsksFor, Select;
    SelectMembers(s.log, s.pattern, s.past.start, Newest(s.log));
    MatchesExactly(pattern, e.kind);
    if e in s.log {
      UpToNewest(s.log, e);
    }
  }

  /** A subscription to one type is handed exactly the entries of that type, in log order and without a gap while
      swaps are calm. */
  lemma ExactSubscription(
    log: seq<Event>, delivered: int, capacity: nat, kind: string, from: Cursor, steps: seq<Step>, e: Event)
    requires BusReady(log, delivered) && kind != "*" && !EndsWith(kind, ".*")
    ensures var s := Run(Subscribe(log, delivered, capacity, kind, from), steps);
            && (e in Owed(s) <==> e in s.log && e.seq_ > StartsAfter(from, delivered) && e.kind == kind)
            && (s.past.calm ==> s.past.handed <= Owed(s))
  {
    GapFree(log, delivered, capacity, kind, from, steps);
    OwedExactly(log, delivered, capacity, kind, from, steps, e);
    ExactPattern(kind, e.kind);
    MatchesExactly(kind, e.kind);
  }

  /** Step `i` of the run is a receive that overtakes a drop. */
  predicate OvertakesAt(s: State, steps: seq<Step>, i: nat)
    requires i < |steps|
  {
    steps[i] == Subscriber && Overtakes(Run(s, steps[..i]))
  }

  /** Step `i` of the run swaps the lag flag while a failed send has not been flagged yet. */
  predicate SwapsInWindow(s: State, steps: seq<Step>, i: nat)
    requires i < |steps|
  {
    var t := Run(s, steps[..i]);
    steps[i] == Subscriber && t.pc == Swap && t.dropping
  }

  lemma SameAt(s: State, steps: seq<Step>, n: nat, i: nat)
    requires i < n <= |steps|
    ensures OvertakesAt(s, steps[..n], i) == OvertakesAt(s, steps, i)
    ensures SwapsInWindow(s, steps[..n], i) == SwapsInWindow(s, steps, i)
  {
    hide Run, Overtakes;
    assert steps[..n][..i] == steps[..i];
  }

  /** `overtook` is what it says: some receive of the run overtook a drop. */
  lemma {:induction false} OvertookMeans(s: State, steps: seq<Step>)
    ensures Run(s, steps).past.overtook <==>
            s.past.overtook || exists i :: 0 <= i < |steps| && OvertakesAt(s, steps, i)
  {
    if steps != [] {
      var n := |steps| - 1;
      OvertookMeans(s, steps[..n]);
      HistoryStep(Run(s, steps[..n]), steps[n]);
      assert OvertakesAt(s, steps, n) <==> steps[n] == Subscriber && Overtakes(Run(s, steps[..n]));
      hide Next, Overtakes, OvertakesAt;
      forall i | 0 <= i < n
        ensures OvertakesAt(s, steps[..n], i) == OvertakesAt(s, steps, i)
      {
        SameAt(s, steps, n, i);
      }
    }
  }

  /** `calm` is what it says: every swap of the run was taken outside the window. */
  lemma {:induction false} CalmMeans(s: State, steps: seq<Step>)
    ensures Run(s, steps).past.calm <==>
            s.past.calm && forall i :: 0 <= i < |steps| ==> !SwapsInWindow(s, steps, i)
  {
    if steps != [] {
      var n := |steps| - 1;
      CalmMeans(s, steps[..n]);
      HistoryStep(Run(s, steps[..n]), steps[n]);
      assert SwapsInWindow(s, steps, n) <==>
             steps[n] == Subscriber && Run(s, steps[..n]).pc == Swap && Run(s, steps[..n]).dropping;
      hide Next, SwapsInWindow;
      forall i | 0 <= i < n
        ensures SwapsInWindow(s, steps[..n], i) == SwapsInWindow(s, steps, i)
      {
        SameAt(s, steps, n, i);
      }
    }
  }

  lemma HistoryStep(s: State, step: Step)
    ensures Next(s, step).past.overtook <==> s.past.overtook || (step == Subscriber && Overtakes(s))
    ensures Next(s, step).past.calm <==> s.past.calm && !(step == Subscriber && s.pc == Swap && s.dropping)
  {
    hide Advance, Deliver, Overtakes;
    AdvanceFrame(s);
    DeliverFrame(s);
  }

  // ---------- Completeness ----------

  /** The step at which `recv_timeout` gives up and returns `None`. */
  predicate TimesOut(s: State) {
    s.pc == Receive && s.channel == []
  }

  lemma NothingMoreOwed(s: State)
    requires Inv(s) && TimesOut(s) && s.delivered == Newest(s.log) && !s.past.overtook && !Outstanding(s)
    ensures s.past.handed == Owed(s)
  {
    forall e | e in s.log
      ensures !Wanted(e, s.pattern, s.cursor, Newest(s.log))
    {
      UpToNewest(s.log, e);
      assert Announced(s, e) && e.seq_ > s.cursor ==> e in s.past.dropped;
    }
    SelectNone(s.log, s.pattern, s.cursor, Newest(s.log));
    if s.cursor <= Newest(s.log) {
      SelectSplit(s.log, s.pattern, s.past.start, s.cursor, Newest(s.log));
    } else {
      SelectNone(s.log, s.pattern, s.past.start, s.cursor);
      SelectNone(s.log, s.pattern, s.past.start, Newest(s.log));
    }
  }

  lemma TimeoutExact(s: State)
    requires Inv(s) && TimesOut(s) && s.delivered == Newest(s.log)
    ensures s.past.handed == Owed(s) <==> !s.past.overtook && !Outstanding(s)
    ensures s.past.calm ==> s.past.handed == Owed(s)
    ensures Outstanding(s) ==> s.lagged || s.dropping
  {
    HandedExact(s);
    assert s.past.calm ==> !s.past.overtook && !Outstanding(s);
    if !s.past.overtook && !Outstanding(s) {
      NothingMoreOwed(s);
    } else if Outstanding(s) {
      var d :| d in s.past.dropped && d.seq_ > s.cursor;
      SelectMembers(s.log, s.pattern, s.past.start, Newest(s.log));
      assert Announced(s, d) && d in Owed(s);
    }
  }

  /** When `recv_timeout` returns `None` and everything appended has been announced, every matching event has
      been handed out exactly when no drop was overtaken and none is outstanding; always so while swaps are
      calm. An outstanding drop is flagged, or about to be, so a later call replays it. */
  lemma Complete(log: seq<Event>, delivered: int, capacity: nat, pattern: string, from: Cursor, steps: seq<Step>)
    requires BusReady(log, delivered)
    requires var s := Run(Subscribe(log, delivered, capacity, pattern, from), steps);
             TimesOut(s) && s.delivered == Newest(s.log)
    ensures var s := Run(Subscribe(log, delivered, capacity, pattern, from), steps);
            && (s.past.handed == Owed(s) <==> !s.past.overtook && !Outstanding(s))
            && (s.past.calm ==> s.past.handed == Owed(s))
            && (Outstanding(s) ==> s.lagged || s.dropping)
  {
    SubscribeStarts(log, delivered, capacity, pattern, from);
    InvRun(Subscribe(log, delivered, capacity, pattern, from), steps);
    TimeoutExact(Run(Subscribe(log, delivered, capacity, pattern, from), steps));
  }

  // ---------- The cursor ----------

  lemma CursorExact(s: State)
    requires Inv(s)
    ensures LastHanded(s) <= s.cursor
    ensures s.cursor == LastHanded(s) <==>
            s.cursor == s.past.start || exists e :: e in s.log && e.seq_ == s.cursor && MatchesPattern(s.pattern, e.kind)
  {
    hide Select, MatchesPattern;
    if s.past.handed != [] {
      var last := s.past.handed[|s.past.handed| - 1];
      assert last in s.past.handed;
    }
    if s.cursor != LastHanded(s) {
      var filtered :| filtered in s.log && filtered.seq_ == s.cursor && !MatchesPattern(s.pattern, filtered.kind);
      forall e | e in s.log && e.seq_ == s.cursor
        ensures !MatchesPattern(s.pattern, e.kind)
      {
        SameNumber(s.log, e, filtered);
      }
    }
  }

  /** `cursor()` is the number of the last event handed out (or the start) exactly when it has not moved or
      the log entry it points at matches: a refill moves it onto entries that were filtered out. */
  lemma CursorIsLastHanded(
    log: seq<Event>, delivered: int, capacity: nat, pattern: string, from: Cursor, steps: seq<Step>)
    requires BusReady(log, delivered)
    ensures var s := Run(Subscribe(log, delivered, capacity, pattern, from), steps);
            && LastHanded(s) <= s.cursor
            && (s.cursor == LastHanded(s) <==>
                  s.cursor == s.past.start || exists e :: e in s.log && e.seq_ == s.cursor && MatchesPattern(pattern, e.kind))
  {
    SubscribeStarts(log, delivered, capacity, pattern, from);
    var first := Subscribe(log, delivered, capacity, pattern, from);
    InvRun(first, steps);
    RunFrame(first, steps);
    CursorExact(Run(first, steps));
  }

  // ---------- Resuming ----------

  /** Two subscriptions, the second made on a longer log from the cursor of the first. */
  ghost predicate Resumes(s: State, t: State) {
    Inv(s) && Inv(t) && s.log <= t.log && t.past.start == s.cursor && t.pattern == s.pattern
  }

  lemma ResumeWhole(s: State, t: State)
    requires Resumes(s, t) && !s.past.overtook && !t.past.overtook
    ensures s.past.handed + t.past.handed == Select(t.log, t.pattern, s.past.start, t.cursor)
    ensures s.past.handed + t.past.handed <= Select(t.log, t.pattern, s.past.start, Newest(t.log))
  {
    var added := t.log[|s.log|..];
    assert t.log == s.log + added;
    SelectStable(s.log, added, s.pattern, s.past.start, s.cursor);
    SelectSplit(t.log, s.pattern, s.past.start, s.cursor, t.cursor);
    if t.cursor <= Newest(t.log) {
      SelectSplit(t.log, s.pattern, s.past.start, t.cursor, Newest(t.log));
    } else if s.cursor <= Newest(s.log) {
      NewestGrows(s.log, added);
      SelectNone(t.log, s.pattern, t.cursor, t.cursor);
    } else {
      SelectNone(t.log, s.pattern, s.past.start, t.cursor);
    }
  }

  lemma ResumeGap(s: State, t: State, u: State, d: Event)
    requires Resumes(s, t) && (u == s || u == t) && Lost(u, d)
    ensures !(s.past.handed + t.past.handed <= Select(t.log, t.pattern, s.past.start, Newest(t.log)))
  {
    var all, owed := s.past.handed + t.past.handed, Select(t.log, t.pattern, s.past.start, Newest(t.log));
    SelectMembers(t.log, t.pattern, s.past.start, Newest(t.log));
    hide Select, MatchesPattern;
    assert forall x :: x in s.log ==> x in t.log;
    UpToNewest(t.log, d);
    assert u.past.handed != [];
    var last := u.past.handed[|u.past.handed| - 1];
    assert last in u.past.handed && last in all && d in owed;
    assert d !in t.past.handed && d !in s.past.handed;
    if all <= owed {
      PrefixHolds(all, owed, last, d);
    }
  }

  /** A subscription made later from the saved cursor goes on exactly where the first one stopped, although
      the cursor may have moved past filtered entries: together they hand out a prefix of what the first was
      owed, nothing lost or repeated, exactly when neither overtook a drop. */
  lemma ResumeContinues(log: seq<Event>, delivered: int, capacity: nat, pattern: string, from: Cursor, steps: seq<Step>,
                        more: seq<Event>, delivered2: int, capacity2: nat, steps2: seq<Step>)
    requires BusReady(log, delivered)
    requires var s := Run(Subscribe(log, delivered, capacity, pattern, from), steps);
             BusReady(s.log + more, delivered2)
    ensures var s := Run(Subscribe(log, delivered, capacity, pattern, from), steps);
            var t := Run(Subscribe(s.log + more, delivered2, capacity2, pattern, After(s.cursor)), steps2);
            && (s.past.handed + t.past.handed <= Select(t.log, pattern, s.past.start, Newest(t.log)) <==> !s.past.overtook && !t.past.overtook)
            && (!s.past.overtook && !t.past.overtook ==> s.past.handed + t.past.handed == Select(t.log, pattern, s.past.start, t.cursor))
            && (s.past.calm && t.past.calm ==> !s.past.overtook && !t.past.overtook)
  {
    var first := Subscribe(log, delivered, capacity, pattern, from);
    SubscribeStarts(log, delivered, capacity, pattern, from);
    InvRun(first, steps);
    RunFrame(first, steps);
    var s := Run(first, steps);
    var again := Subscribe(s.log + more, delivered2, capacity2, pattern, After(s.cursor));
    SubscribeStarts(s.log + more, delivered2, capacity2, pattern, After(s.cursor));
    InvRun(again, steps2);
    RunFrame(again, steps2);
    var t := Run(again, steps2);
    hide Run, Select;
    assert Resumes(s, t);
    if s.past.overtook {
      var d :| Lost(s, d);
      ResumeGap(s, t, s, d);
    } else if t.past.overtook {
      var d :| Lost(t, d);
      ResumeGap(s, t, t, d);
    } else {
      ResumeWhole(s, t);
    }
  }

  lemma NewestGrows(log: seq<Event>, more: seq<Event>)
    requires Ordered(log + more) && forall e :: e in log + more ==> e.seq_ >= 1
    ensures Newest(log) <= Newest(log + more)
  {
    var all := log + more;
    if log != [] {
      assert all[|log| - 1] == log[|log| - 1];
    }
    if all != [] {
      assert all[|all| - 1] in all;
    }
  }

  lemma SelectStable(log: seq<Event>, more: seq<Event>, pattern: string, start: int, cursor: int)
    requires Ordered(log + more) && (forall e :: e in log + more ==> e.seq_ >= 1)
    requires 0 <= start <= cursor && (cursor == start || cursor <= Newest(log))
    ensures Select(log + more, pattern, start, cursor) == Select(log, pattern, start, cursor)
  {
    if log == [] {
      SelectNone(log + more, pattern, start, cursor);
    } else {
      SelectPrefixLog(log, more, pattern, start, cursor);
    }
  }
}
