/** Overlapping runs: what they break, and how far. */
module ApplicationWitnesses {
  import opened Common
  import opened Applications

  /** Both checks come before either lock: the second run submits the same job again. */
  const OVERLAP := [
    Check(1, "j", true, 9, 0), Check(2, "j", true, 9, 0),
    Lock(1), RecordIntent(1, 0), ClickSubmit(1), RecordOutcome(1, Applied),
    Lock(2), RecordIntent(2, 0), ClickSubmit(2)]

  lemma ReplayPush(s: State, events: seq<Event>, e: Event)
    ensures Replay(s, events + [e]) == Next(Replay(s, events), e)
  {
    assert (events + [e])[..|events|] == events;
  }

  lemma {:induction false} ReplayPrefix(s: State, events: seq<Event>, n: nat)
    requires n < |events|
    ensures Replay(s, events[..n + 1]) == Next(Replay(s, events[..n]), events[n])
  {
    assert events[..n + 1] == events[..n] + [events[n]];
    ReplayPush(s, events[..n], events[n]);
  }

  lemma ReplayNone(s: State, events: seq<Event>)
    ensures Replay(s, events[..0]) == s
  {
  }

  lemma TwoChecks(events: seq<Event>, a: JobId, b: JobId, limit: nat)
    requires |events| >= 2 && limit >= 1
    requires events[0] == Check(1, a, true, limit, 0) && events[1] == Check(2, b, true, limit, 0)
    ensures Replay(FRESH, events[..2]) ==
            FRESH.(runs := map[1 := Run(a, true, 0, 0, Checked, 0), 2 := Run(b, true, 0, 0, Checked, 0)])
  {
    hide Replay;
    ReplayNone(FRESH, events);
    ReplayPrefix(FRESH, events, 0);
    assert Recent(map[], 0) == {};
    assert Next(FRESH, events[0]) == FRESH.(runs := map[1 := Run(a, true, 0, 0, Checked, 0)]);
    ReplayPrefix(FRESH, events, 1);
  }

  /** A submitting run from its lock to its click. */
  lemma UpToClick(s: State, id: RunId, now: int)
    requires In(s, id, Checked) && s.runs[id].submit && s.runs[id].job !in s.locks
    ensures var job := s.runs[id].job;
            Next(Next(Next(s, Lock(id)), RecordIntent(id, now)), ClickSubmit(id)) ==
            State(s.ledger[job := Entry(Unconfirmed, Some(now))], s.locks + {job},
                  s.runs[id := s.runs[id].(phase := Clicked, stamp := now)],
                  s.history + [Wrote(job, Some(id), Unconfirmed), Click(job, Some(id))])
  {
    var job := s.runs[id].job;
    var t := Next(Next(s, Lock(id)), RecordIntent(id, now));
    assert t.runs == s.runs[id := s.runs[id].(phase := Recorded, stamp := now)];
  }

  lemma FirstRunFinishes(s: State, events: seq<Event>, n: nat, id: RunId, now: int)
    requires n + 4 <= |events| && s == Replay(FRESH, events[..n])
    requires events[n] == Lock(id) && events[n + 1] == RecordIntent(id, now)
    requires events[n + 2] == ClickSubmit(id) && events[n + 3] == RecordOutcome(id, Applied)
    requires In(s, id, Checked) && s.runs[id].submit && s.runs[id].job !in s.locks
    ensures var t, job := Replay(FRESH, events[..n + 4]), s.runs[id].job;
            && t.runs == s.runs - {id} && t.locks == s.locks && t.ledger.Keys == s.ledger.Keys + {job}
            && t.history == s.history + [Wrote(job, Some(id), Unconfirmed), Click(job, Some(id)), Wrote(job, Some(id), Applied)]
  {
    hide Replay, Next;
    ReplayPrefix(FRESH, events, n);
    ReplayPrefix(FRESH, events, n + 1);
    ReplayPrefix(FRESH, events, n + 2);
    ReplayPrefix(FRESH, events, n + 3);
    UpToClick(s, id, now);
    FinishesOutcome(Replay(FRESH, events[..n + 3]), id, Applied);
  }

  const SUBMITTED_ONCE := [Wrote("j", Some(1), Unconfirmed), Click("j", Some(1)), Wrote("j", Some(1), Applied)]

  /** Both have checked, and the first has gone through. */
  lemma FirstSix(events: seq<Event>)
    requires |events| >= 6 && events[0] == Check(1, "j", true, 9, 0) && events[1] == Check(2, "j", true, 9, 0)
    requires events[2] == Lock(1) && events[3] == RecordIntent(1, 0)
    requires events[4] == ClickSubmit(1) && events[5] == RecordOutcome(1, Applied)
    ensures var s := Replay(FRESH, events[..6]);
            && s.runs == map[2 := Run("j", true, 0, 0, Checked, 0)] && s.locks == {} && s.ledger.Keys == {"j"}
            && s.history == SUBMITTED_ONCE
  {
    hide Replay, Recent, Next;
    TwoChecks(events, "j", "j", 9);
    FirstRunFinishes(Replay(FRESH, events[..2]), events, 2, 1, 0);
  }

  lemma OverlapSubmitsTwice()
    ensures !SubmittedOnce(Replay(FRESH, OVERLAP).history)
  {
    hide Replay, Next;
    FirstSix(OVERLAP);
    UpToClick(Replay(FRESH, OVERLAP[..6]), 2, 0);
    ReplayPrefix(FRESH, OVERLAP, 6);
    ReplayPrefix(FRESH, OVERLAP, 7);
    ReplayPrefix(FRESH, OVERLAP, 8);
    assert OVERLAP[..9] == OVERLAP;
    ClickedTwice(Replay(FRESH, OVERLAP).history);
  }

  lemma ClickedTwice(h: seq<Effect>)
    requires h == SUBMITTED_ONCE + [Wrote("j", Some(2), Unconfirmed), Click("j", Some(2))]
    ensures !SubmittedOnce(h)
  {
    assert h[1] == Click("j", Some(1)) && h[2] == Wrote("j", Some(1), Applied);
    assert h[3] == Wrote("j", Some(2), Unconfirmed) && h[4] == Click("j", Some(2));
  }

  lemma FinishesOutcome(s: State, id: RunId, outcome: Status)
    requires In(s, id, Clicked) && outcome in {Applied, NeedsOwner, Unconfirmed}
    ensures var t := Next(s, RecordOutcome(id, outcome));
            && t.runs == s.runs - {id} && t.locks == s.locks - {s.runs[id].job}
            && t.ledger.Keys == s.ledger.Keys + {s.runs[id].job}
            && t.history == s.history + [Wrote(s.runs[id].job, Some(id), outcome)]
  {
  }

  /** A run that overlapped the one that submitted stops before submitting, and its `dry_run` hides the click. */
  const LOWERED := [
    Check(1, "j", true, 9, 0), Check(2, "j", true, 9, 0),
    Lock(1), RecordIntent(1, 0), ClickSubmit(1), RecordOutcome(1, Applied),
    Lock(2), StopBeforeSubmit(2, true)]

  /** The first run's lock expires, the second is rejected by the board, and then the first clicks: the record
      says `failed`, and nothing was lowered after the click. */
  const REJECTED := [
    Check(1, "j", true, 9, 0), Check(2, "j", true, 9, 0),
    Lock(1), RecordIntent(1, 0), LockExpires("j"),
    Lock(2), RecordIntent(2, 0), ClickSubmit(2), RecordOutcome(2, Failed), ClickSubmit(1)]

  /** A run that checks, locks and records its intent on a submitted job whose record does not show it. */
  lemma RepeatsLater(s: State, id: RunId, job: JobId)
    requires id !in s.runs && !IsFinal(s.ledger, job) && job !in s.locks && Unsettled(s.history, job)
    requires |Recent(s.ledger, 0)| < 9
    ensures var t := Next(Next(Next(s, Check(id, job, true, 9, 0)), Lock(id)), RecordIntent(id, 0));
            && In(t, id, Recorded) && t.runs[id].job == job && Unsettled(t.history, job)
            && forall k :: t.runs[id].since <= k < |t.history| && k >= 0 ==> !t.history[k].Click?
  {
    hide Recent, Unsettled;
    var f, since := Wrote(job, Some(id), Unconfirmed), |s.history|;
    UnsettledPush(s.history, f, job);
    var a := Next(s, Check(id, job, true, 9, 0));
    assert a == s.(runs := s.runs[id := Run(job, true, 0, 0, Checked, since)]);
    var b := Next(a, Lock(id));
    assert b.history == s.history && In(b, id, Locked) && b.runs[id] == Run(job, true, 0, 0, Locked, since);
    var c := Next(b, RecordIntent(id, 0));
    assert c.history == s.history + [f] && c.runs[id] == Run(job, true, 0, 0, Recorded, since);
  }

  lemma RecentAtMost(ledger: Ledger, job: JobId, now: int)
    requires ledger.Keys <= {job}
    ensures |Recent(ledger, now)| <= 1
  {
    SubsetSize(Recent(ledger, now), {job});
  }

  lemma LoweredState()
    ensures var s := Replay(FRESH, LOWERED);
            && s.runs == map[] && s.locks == {} && s.ledger.Keys == {"j"} && !IsFinal(s.ledger, "j")
            && Unsettled(s.history, "j")
  {
    hide Replay, Next, Unsettled;
    FirstSix(LOWERED);
    StopsShort(Replay(FRESH, LOWERED[..6]), 2);
    ReplayPrefix(FRESH, LOWERED, 6);
    ReplayPrefix(FRESH, LOWERED, 7);
    assert LOWERED[..8] == LOWERED;
    StillUnsettled();
  }

  lemma StillUnsettled()
    ensures Unsettled(SUBMITTED_ONCE + [Wrote("j", Some(2), NeedsAnswers)], "j")
  {
    hide Unsettled;
    var h := [Wrote("j", Some(1), Unconfirmed), Click("j", Some(1))];
    ClickedLast([Wrote("j", Some(1), Unconfirmed)], "j", Some(1));
    assert h == [Wrote("j", Some(1), Unconfirmed)] + [Click("j", Some(1))];
    UnsettledPush(h, Wrote("j", Some(1), Applied), "j");
    assert SUBMITTED_ONCE == h + [Wrote("j", Some(1), Applied)];
    UnsettledPush(SUBMITTED_ONCE, Wrote("j", Some(2), NeedsAnswers), "j");
  }

  lemma ClickedLast(history: seq<Effect>, job: JobId, who: Option<RunId>)
    ensures Unsettled(history + [Click(job, who)], job)
  {
  }

  lemma StopsShort(s: State, id: RunId)
    requires In(s, id, Checked) && s.runs[id].job !in s.locks
    ensures var t, job := Next(Next(s, Lock(id)), StopBeforeSubmit(id, true)), s.runs[id].job;
            && t.runs == s.runs - {id} && t.locks == s.locks && t.ledger.Keys == s.ledger.Keys + {job}
            && !IsFinal(t.ledger, job)
            && t.history == s.history + [Wrote(job, Some(id), NeedsAnswers)]
  {
  }

  lemma RecordsAndStalls(s: State, id: RunId)
    requires In(s, id, Checked) && s.runs[id].submit && s.runs[id].job !in s.locks
    ensures var job := s.runs[id].job;
            Next(Next(Next(s, Lock(id)), RecordIntent(id, 0)), LockExpires(job)) ==
            State(s.ledger[job := Entry(Unconfirmed, Some(0))], s.locks,
                  s.runs[id := s.runs[id].(phase := Recorded, stamp := 0)],
                  s.history + [Wrote(job, Some(id), Unconfirmed)])
  {
    var job := s.runs[id].job;
    var t := Next(Next(s, Lock(id)), RecordIntent(id, 0));
    assert t.runs == s.runs[id := s.runs[id].(phase := Recorded, stamp := 0)];
    assert s.locks + {job} - {job} == s.locks;
  }

  lemma FailsThenClicks(s: State, id: RunId, other: RunId)
    requires In(s, id, Clicked) && In(s, other, Recorded) && id != other && s.runs[id].job == s.runs[other].job
    ensures var t, job := Next(Next(s, RecordOutcome(id, Failed)), ClickSubmit(other)), s.runs[id].job;
            && t.runs.Keys == s.runs.Keys - {id} && t.locks == s.locks - {job}
            && t.ledger.Keys == s.ledger.Keys + {job} && !IsFinal(t.ledger, job) && Unsettled(t.history, job)
  {
  }

  lemma RejectedState()
    ensures var s := Replay(FRESH, REJECTED);
            && 3 !in s.runs && s.locks == {} && s.ledger.Keys == {"j"} && !IsFinal(s.ledger, "j")
            && Unsettled(s.history, "j")
  {
    hide Replay, Recent, Unsettled, Next;
    TwoChecks(REJECTED, "j", "j", 9);
    ReplayPrefix(FRESH, REJECTED, 2);
    ReplayPrefix(FRESH, REJECTED, 3);
    ReplayPrefix(FRESH, REJECTED, 4);
    RecordsAndStalls(Replay(FRESH, REJECTED[..2]), 1);
    ReplayPrefix(FRESH, REJECTED, 5);
    ReplayPrefix(FRESH, REJECTED, 6);
    ReplayPrefix(FRESH, REJECTED, 7);
    UpToClick(Replay(FRESH, REJECTED[..5]), 2, 0);
    ReplayPrefix(FRESH, REJECTED, 8);
    ReplayPrefix(FRESH, REJECTED, 9);
    FailsThenClicks(Replay(FRESH, REJECTED[..8]), 2, 1);
    assert REJECTED[..10] == REJECTED;
  }

  /** Two ways in which a click before the check escapes it: the record was lowered after the click, or rewritten
      between the click's intent and the click. In both the next run submits again. */
  lemma HiddenClickRepeats(rejected: bool)
    ensures var before := if rejected then REJECTED else LOWERED;
            var s := Replay(FRESH, before + [Check(3, "j", true, 9, 0), Lock(3), RecordIntent(3, 0)]);
            && In(s, 3, Recorded) && s.runs[3].job == "j" && Unsettled(s.history, "j")
            && forall k :: s.runs[3].since <= k < |s.history| && k >= 0 ==> !s.history[k].Click?
  {
    hide Replay, Next, Recent, Unsettled;
    LoweredState();
    RejectedState();
    var before := if rejected then REJECTED else LOWERED;
    var s := Replay(FRESH, before);
    var e, f, g := Check(3, "j", true, 9, 0), Lock(3), RecordIntent(3, 0);
    ReplayPush(FRESH, before, e);
    ReplayPush(FRESH, before + [e], f);
    ReplayPush(FRESH, before + [e] + [f], g);
    assert before + [e] + [f] + [g] == before + [e, f, g];
    RecentAtMost(s.ledger, "j", 0);
    RepeatsLater(s, 3, "j");
  }

  // ---------- The limit is passed by as much as the bound allows ----------

  /** As many different jobs as are wanted. */
  function Job(i: nat): JobId {
    seq(i, _ => 'j')
  }

  function Jobs(n: nat): set<JobId> {
    set i: nat | i < n :: Job(i)
  }

  lemma {:induction false} JobsSize(n: nat)
    ensures |Jobs(n)| == n && forall i: nat :: Job(i) in Jobs(n) <==> i < n
  {
    forall i: nat
      ensures |Job(i)| == i
    {
    }
    if n > 0 {
      JobsSize(n - 1);
      assert Jobs(n) == Jobs(n - 1) + {Job(n - 1)};
    }
  }

  /** `n` jobs are recorded, all at time 0, and the runs `n` to `n + m - 1` have passed their checks. */
  ghost predicate Filled(s: State, n: nat, m: nat) {
    && s.ledger.Keys == Jobs(n) && s.locks == Jobs(n)
    && (forall job :: job in s.ledger ==> s.ledger[job] == Entry(Unconfirmed, Some(0)))
    && (forall id: nat :: id in s.runs <==> n <= id < n + m)
    && (forall id :: id in s.runs ==>
          s.runs[id].job == Job(id) && s.runs[id].submit && s.runs[id].checkTime == 0 && s.runs[id].phase == Checked)
  }

  ghost predicate Reached(events: seq<Event>, limit: nat, most: nat, n: nat, m: nat) {
    AtMostOpen(FRESH, events, limit, most) && Filled(Replay(FRESH, events), n, m)
  }

  lemma AtMostOpenPush(events: seq<Event>, e: Event, limit: nat, most: nat)
    requires AtMostOpen(FRESH, events, limit, most) && !e.OwnerEdits? && (e.Check? ==> e.maxPerDay == limit)
    requires StampedInOrder(Replay(FRESH, events), e)
    requires |Open(Next(Replay(FRESH, events), e))| <= most
    ensures AtMostOpen(FRESH, events + [e], limit, most)
    ensures Replay(FRESH, events + [e]) == Next(Replay(FRESH, events), e)
  {
    hide Next;
    ReplayPush(FRESH, events, e);
    assert (events + [e])[..|events|] == events;
  }

  lemma {:induction false} IntervalSize(s: set<RunId>, n: nat, m: nat)
    requires forall id: nat :: id in s ==> n <= id < n + m
    ensures |s| <= m
  {
    if m > 0 {
      IntervalSize(s - {n + m - 1}, n, m - 1);
    } else {
      assert s == {};
    }
  }

  lemma OpenAtMost(s: State, n: nat, m: nat)
    requires forall id: nat :: id in s.runs ==> n <= id < n + m
    ensures |Open(s)| <= m
  {
    IntervalSize(Open(s), n, m);
  }

  lemma NotYetThere(s: State, n: nat, m: nat)
    requires Filled(s, n, m)
    ensures |Recent(s.ledger, 0)| <= n && Job(n + m) !in s.ledger && n + m !in s.runs
  {
    JobsSize(n);
    SubsetSize(Recent(s.ledger, 0), Jobs(n));
  }

  lemma FilledByCheck(s: State, t: State, n: nat, m: nat, since: nat)
    requires Filled(s, n, m) && t == s.(runs := s.runs[n + m := Run(Job(n + m), true, 0, 0, Checked, since)])
    ensures Filled(t, n, m + 1)
  {
    hide Jobs, Job;
  }

  lemma ChecksIn(s: State, limit: nat, n: nat, m: nat)
    requires Filled(s, n, m) && n < limit
    ensures Filled(Next(s, Check(n + m, Job(n + m), true, limit, 0)), n, m + 1)
  {
    NotYetThere(s, n, m);
    hide Recent, Jobs, Job, Filled;
    FilledByCheck(s, Next(s, Check(n + m, Job(n + m), true, limit, 0)), n, m, |s.history|);
  }

  lemma OneCheck(events: seq<Event>, limit: nat, most: nat, n: nat, m: nat)
    requires Reached(events, limit, most, n, m) && n < limit && m < most
    ensures Reached(events + [Check(n + m, Job(n + m), true, limit, 0)], limit, most, n, m + 1)
  {
    hide Replay, Next, Job, Jobs;
    var s, e := Replay(FRESH, events), Check(n + m, Job(n + m), true, limit, 0);
    ChecksIn(s, limit, n, m);
    OpenAtMost(Next(s, e), n, m + 1);
    AtMostOpenPush(events, e, limit, most);
  }

  /** From its check to its record, and then the process dies. */
  lemma RecordsAndDies(s: State, id: RunId)
    requires In(s, id, Checked) && s.runs[id].submit && s.runs[id].job !in s.locks
    ensures var a := Next(s, Lock(id));
            var b := Next(a, RecordIntent(id, 0));
            var job := s.runs[id].job;
            && a.runs.Keys == s.runs.Keys && b.runs.Keys == s.runs.Keys && a.runs[id].checkTime == s.runs[id].checkTime
            && Next(b, Crash(id)) == State(s.ledger[job := Entry(Unconfirmed, Some(0))], s.locks + {job}, s.runs - {id},
                                           s.history + [Wrote(job, Some(id), Unconfirmed)])
  {
    var a := Next(s, Lock(id));
    var b := Next(a, RecordIntent(id, 0));
    assert b.runs == s.runs[id := s.runs[id].(phase := Recorded, stamp := 0)];
    assert b.runs - {id} == s.runs - {id};
  }

  lemma FilledFurther(s: State, t: State, n: nat, m: nat)
    requires Filled(s, n, m) && m > 0
    requires t.ledger == s.ledger[Job(n) := Entry(Unconfirmed, Some(0))] && t.locks == s.locks + {Job(n)}
    requires t.runs == s.runs - {n}
    ensures Filled(t, n + 1, m - 1)
  {
    assert Jobs(n + 1) == Jobs(n) + {Job(n)};
    hide Jobs, Job;
  }

  lemma RecordsInTurn(s: State, n: nat, m: nat)
    requires Filled(s, n, m) && m > 0
    ensures var a := Next(s, Lock(n));
            var b := Next(a, RecordIntent(n, 0));
            && a.runs.Keys == s.runs.Keys && b.runs.Keys == s.runs.Keys && n in a.runs && a.runs[n].checkTime == 0
            && Filled(Next(b, Crash(n)), n + 1, m - 1)
  {
    JobsSize(n);
    assert In(s, n, Checked) && s.runs[n].job == Job(n) && Job(n) !in s.locks;
    hide Next, Jobs, Job, Filled;
    RecordsAndDies(s, n);
    FilledFurther(s, Next(Next(Next(s, Lock(n)), RecordIntent(n, 0)), Crash(n)), n, m);
  }

  lemma OneRecord(events: seq<Event>, limit: nat, most: nat, n: nat, m: nat)
    requires Reached(events, limit, most, n, m) && 0 < m <= most
    ensures Reached(events + [Lock(n), RecordIntent(n, 0), Crash(n)], limit, most, n + 1, m - 1)
  {
    hide Replay, Next;
    var s := Replay(FRESH, events);
    RecordsInTurn(s, n, m);
    var a := Next(s, Lock(n));
    var b := Next(a, RecordIntent(n, 0));
    var c := Next(b, Crash(n));
    OpenAtMost(a, n, m);
    AtMostOpenPush(events, Lock(n), limit, most);
    OpenAtMost(b, n, m);
    AtMostOpenPush(events + [Lock(n)], RecordIntent(n, 0), limit, most);
    OpenAtMost(c, n + 1, m - 1);
    AtMostOpenPush(events + [Lock(n)] + [RecordIntent(n, 0)], Crash(n), limit, most);
    assert events + [Lock(n)] + [RecordIntent(n, 0)] + [Crash(n)] == events + [Lock(n), RecordIntent(n, 0), Crash(n)];
  }

  /** Runs one after the other, as many as wanted below the limit. */
  lemma {:induction false} InTurn(limit: nat, most: nat, n: nat) returns (events: seq<Event>)
    requires n < limit && most >= 1
    ensures Reached(events, limit, most, n, 0)
  {
    if n == 0 {
      events := [];
      assert Open(FRESH) == {} && Jobs(0) == {};
      assert Reached(events, limit, most, 0, 0);
    } else {
      hide Reached, Job;
      events := InTurn(limit, most, n - 1);
      OneCheck(events, limit, most, n - 1, 0);
      events := events + [Check(n - 1, Job(n - 1), true, limit, 0)];
      OneRecord(events, limit, most, n - 1, 1);
      events := events + [Lock(n - 1), RecordIntent(n - 1, 0), Crash(n - 1)];
    }
  }

  /** Then checks, all before the first record ... */
  lemma {:induction false} AllCheck(limit: nat, most: nat, m: nat) returns (events: seq<Event>)
    requires limit >= 1 && most >= 1 && m <= most
    ensures Reached(events, limit, most, limit - 1, m)
  {
    hide Reached, Job;
    if m == 0 {
      events := InTurn(limit, most, limit - 1);
    } else {
      events := AllCheck(limit, most, m - 1);
      OneCheck(events, limit, most, limit - 1, m - 1);
      events := events + [Check(limit - 1 + (m - 1), Job(limit - 1 + (m - 1)), true, limit, 0)];
    }
  }

  /** ... and then all the records. */
  lemma {:induction false} AllRecord(limit: nat, most: nat, k: nat) returns (events: seq<Event>)
    requires limit >= 1 && most >= 1 && k <= most
    ensures Reached(events, limit, most, limit - 1 + k, most - k)
  {
    hide Reached;
    if k == 0 {
      events := AllCheck(limit, most, most);
    } else {
      events := AllRecord(limit, most, k - 1);
      var n := limit - 1 + (k - 1);
      OneRecord(events, limit, most, n, most - (k - 1));
      events := events + [Lock(n), RecordIntent(n, 0), Crash(n)];
    }
  }

  lemma WindowFilled(s: State, n: nat)
    requires Filled(s, n, 0)
    ensures |InWindow(s.ledger, 0)| == n
  {
    JobsSize(n);
    hide Jobs, Job;
    assert InWindow(s.ledger, 0) == s.ledger.Keys;
  }

  /** The bound on overlapping runs is exact: for every limit and every number of open runs there is a run that
      counts the limit and all the other open runs in one day. */
  lemma LimitReached(limit: nat, most: nat) returns (events: seq<Event>)
    requires limit >= 1 && most >= 1
    ensures AtMostOpen(FRESH, events, limit, most)
    ensures |InWindow(Replay(FRESH, events).ledger, 0)| == limit + (most - 1)
  {
    hide AtMostOpen, Filled, Replay, InWindow;
    events := AllRecord(limit, most, most);
    WindowFilled(Replay(FRESH, events), limit - 1 + most);
  }
}
