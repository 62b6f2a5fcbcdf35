/** `applyToJob` as the sequence of reads and writes it performs on the owner's vault. */
module ApplicationVault {
  import opened Common
  import opened Applications

  /** What the job board and the form turn out to be. */
  datatype Page = Closed | MissingAnswers | Filled(outcome: Status)

  datatype Answer = AlreadyRecorded | DailyLimit | PostingClosed | InProgress | Ended(status: Status)

  /** The steps of one undisturbed run, in order; a step whose turn never comes does nothing. */
  function Script(id: RunId, job: JobId, submit: bool, maxPerDay: nat, checkTime: int, page: Page, now: int): seq<Event> {
    match page
    case Closed => [Check(id, job, submit, maxPerDay, checkTime), Abandon(id)]
    case MissingAnswers => [Check(id, job, submit, maxPerDay, checkTime), Lock(id), StopBeforeSubmit(id, true)]
    case Filled(outcome) =>
      if submit then
        [Check(id, job, submit, maxPerDay, checkTime), Lock(id), RecordIntent(id, now), ClickSubmit(id), RecordOutcome(id, outcome)]
      else
        [Check(id, job, submit, maxPerDay, checkTime), Lock(id), StopBeforeSubmit(id, false)]
  }

  predicate Concerns(e: Event, id: RunId) {
    (e.Lock? || e.Abandon? || e.StopBeforeSubmit? || e.RecordIntent? || e.ClickSubmit? || e.RecordOutcome?) && e.id == id
  }

  /** Steps of a run that is over, or never began, do nothing. */
  lemma {:induction false} IdleSteps(s: State, events: seq<Event>, id: RunId)
    requires id !in s.runs && forall e :: e in events ==> Concerns(e, id)
    ensures Replay(s, events) == s
  {
    if events != [] {
      assert events[|events| - 1] in events;
      IdleSteps(s, events[..|events| - 1], id);
    }
  }

  lemma {:induction false} ReplayFirst(s: State, e: Event, rest: seq<Event>)
    ensures Replay(s, [e] + rest) == Replay(Next(s, e), rest)
  {
    hide Next;
    var all := [e] + rest;
    if rest == [] {
      assert all[..0] == [];
    } else {
      assert all[..|all| - 1] == [e] + rest[..|rest| - 1];
      ReplayFirst(s, e, rest[..|rest| - 1]);
    }
  }

  class Vault {
    var records: Ledger
    var locks: set<JobId>
    ghost var runs: map<RunId, Run>
    ghost var history: seq<Effect>

    ghost function View(): State
      reads this
    {
      State(records, locks, runs, history)
    }

    constructor ()
      ensures View() == FRESH
    {
      records, locks, runs, history := map[], {}, map[], [];
    }

    method WriteRecord(job: JobId, status: Status, applied: Option<Option<int>>, ghost who: Option<RunId>)
      modifies this`records, this`history
      ensures View() == Write(old(View()), job, who, status, applied)
    {
      var kept := None;
      if job in records { kept := records[job].appliedAt; }
      if applied.Some? { kept := applied.value; }
      records := records[job := Entry(status, kept)];
      history := history + [Wrote(job, who, status)];
    }

    /** `submittedInLastDay`: the records are gone through one by one, in whatever order they are listed. */
    method CountRecent(now: int) returns (n: nat)
      ensures n == |Recent(records, now)|
    {
      var todo := records.Keys;
      n := 0;
      while todo != {}
        invariant todo <= records.Keys
        invariant n == |Recent(records, now) - todo|
        decreases |todo|
      {
        var job :| job in todo;
        ghost var counted := Recent(records, now) - todo;
        if CountedAt(records[job], now) {
          assert Recent(records, now) - (todo - {job}) == counted + {job};
          n := n + 1;
        } else {
          assert Recent(records, now) - (todo - {job}) == counted;
        }
        todo := todo - {job};
      }
      assert Recent(records, now) - {} == Recent(records, now);
    }

    method SkipJob(job: JobId)
      modifies this`records, this`history
      ensures View() == Next(old(View()), Skip(job))
    {
      if job in records && records[job].status in FINAL { return; }
      WriteRecord(job, Skipped, None, None);
    }

    /** The record and limit checks at the head of a run. */
    method CheckRecord(ghost id: RunId, job: JobId, submit: bool, maxPerDay: nat, now: int) returns (refusal: Option<Answer>)
      requires id !in runs
      modifies this`runs
      ensures View() == Next(old(View()), Check(id, job, submit, maxPerDay, now))
      ensures refusal.Some? <==> id !in runs
      ensures refusal == Some(AlreadyRecorded) <==>
                job in records && records[job].status in {Applied, Unconfirmed, NeedsOwner, Skipped}
      ensures refusal.Some? ==> refusal.value in {AlreadyRecorded, DailyLimit}
    {
      if job in records && records[job].status in FINAL { return Some(AlreadyRecorded); }
      if submit {
        var n := CountRecent(now);
        if n >= maxPerDay { return Some(DailyLimit); }
      }
      runs := runs[id := Run(job, submit, now, now, Checked, |history|)];
      refusal := None;
    }

    method TakeLock(ghost id: RunId, job: JobId) returns (taken: bool)
      requires In(View(), id, Checked) && runs[id].job == job
      modifies this`locks, this`runs
      ensures View() == Next(old(View()), Lock(id))
      ensures taken <==> In(View(), id, Locked)
      ensures !taken ==> id !in runs
    {
      taken := job !in locks;
      if taken {
        locks := locks + {job};
        runs := runs[id := runs[id].(phase := Locked)];
      } else {
        runs := runs - {id};
      }
    }

    /** The record is written before anything is submitted. */
    method RecordFirst(ghost id: RunId, job: JobId, now: int)
      requires In(View(), id, Locked) && runs[id].job == job && runs[id].submit
      modifies this`records, this`history, this`runs
      ensures View() == Next(old(View()), RecordIntent(id, now))
      ensures In(View(), id, Recorded) && runs[id].job == job && runs[id].stamp == now
    {
      WriteRecord(job, Unconfirmed, Some(Some(now)), Some(id));
      runs := runs[id := runs[id].(phase := Recorded, stamp := now)];
    }

    /** Record, click, record the outcome, release the lock. */
    method Submit(ghost id: RunId, job: JobId, now: int, outcome: Status)
      requires In(View(), id, Locked) && runs[id].job == job && runs[id].submit
      requires outcome in {Applied, NeedsOwner, Failed, Unconfirmed}
      modifies this
      ensures View() == Next(Next(Next(old(View()), RecordIntent(id, now)), ClickSubmit(id)), RecordOutcome(id, outcome))
    {
      RecordFirst(id, job, now);
      ghost var recorded := View();
      history := history + [Click(job, Some(id))];
      runs := runs[id := runs[id].(phase := Clicked)];
      assert View() == Next(recorded, ClickSubmit(id));
      ghost var clicked := View();
      WriteRecord(job, outcome, Some(if outcome == Failed then None else Some(now)), Some(id));
      runs := runs - {id};
      locks := locks - {job};
      assert View() == Next(clicked, RecordOutcome(id, outcome));
    }

    /** One run of `applyToJob` that nothing interrupts: exactly the steps of its script. */
    method ApplyToJob(ghost id: RunId, job: JobId, submit: bool, maxPerDay: nat, checkTime: int, page: Page, now: int)
      returns (answer: Answer)
      requires id !in runs
      requires page.Filled? ==> page.outcome in {Applied, NeedsOwner, Failed, Unconfirmed}
      modifies this
      ensures View() == Replay(old(View()), Script(id, job, submit, maxPerDay, checkTime, page, now))
      ensures answer == AlreadyRecorded <==>
                job in old(records) && old(records)[job].status in {Applied, Unconfirmed, NeedsOwner, Skipped}
      ensures id !in runs
    {
      hide Next, Replay;
      ghost var start := View();
      ghost var check := Check(id, job, submit, maxPerDay, checkTime);
      ghost var script := Script(id, job, submit, maxPerDay, checkTime, page, now);
      assert script == [check] + script[1..];
      ReplayFirst(start, check, script[1..]);
      var refusal := CheckRecord(id, job, submit, maxPerDay, checkTime);
      ghost var checked := View();
      if refusal.Some? {
        IdleSteps(checked, script[1..], id);
        return refusal.value;
      }
      CheckedRun(start, check);
      if page.Closed? {
        runs := runs - {id};
        AbandonChecked(checked, id);
        ReplayFirst(checked, Abandon(id), []);
        assert script[1..] == [Abandon(id)] + [];
        IdleSteps(View(), [], id);
        return PostingClosed;
      }
      assert script[1..] == [Lock(id)] + script[2..];
      ReplayFirst(checked, Lock(id), script[2..]);
      var taken := TakeLock(id, job);
      ghost var locked := View();
      if !taken {
        IdleSteps(locked, script[2..], id);
        return InProgress;
      }
      LockedRun(checked, id);
      if page.MissingAnswers? || !submit {
        var status := if page.MissingAnswers? then NeedsAnswers else DryRun;
        WriteRecord(job, status, None, Some(id));
        runs := runs - {id};
        locks := locks - {job};
        StopsBeforeSubmit(locked, id, page.MissingAnswers?);
        assert script[2..] == [StopBeforeSubmit(id, page.MissingAnswers?)] + [];
        ReplayFirst(locked, StopBeforeSubmit(id, page.MissingAnswers?), []);
        IdleSteps(View(), [], id);
        return Ended(status);
      }
      Submit(id, job, now, page.outcome);
      ghost var rest := [ClickSubmit(id), RecordOutcome(id, page.outcome)];
      assert script[2..] == [RecordIntent(id, now)] + rest;
      ReplayFirst(locked, RecordIntent(id, now), rest);
      assert rest == [ClickSubmit(id)] + [RecordOutcome(id, page.outcome)];
      ReplayFirst(Next(locked, RecordIntent(id, now)), ClickSubmit(id), [RecordOutcome(id, page.outcome)]);
      ghost var clicked := Next(Next(locked, RecordIntent(id, now)), ClickSubmit(id));
      ReplayFirst(clicked, RecordOutcome(id, page.outcome), []);
      assert [RecordOutcome(id, page.outcome)] + [] == [RecordOutcome(id, page.outcome)];
      SubmitEnds(locked, id, now, page.outcome);
      IdleSteps(View(), [], id);
      return Ended(page.outcome);
    }
  }

  lemma CheckedRun(s: State, e: Event)
    requires e.Check? && e.id !in s.runs && e.id in Next(s, e).runs
    ensures Next(s, e).runs[e.id] == Run(e.job, e.submit, e.now, e.now, Checked, |s.history|)
  {
  }

  lemma LockedRun(s: State, id: RunId)
    requires In(s, id, Checked) && id in Next(s, Lock(id)).runs
    ensures Next(s, Lock(id)).runs[id] == s.runs[id].(phase := Locked)
  {
  }

  lemma AbandonChecked(s: State, id: RunId)
    requires In(s, id, Checked)
    ensures Next(s, Abandon(id)) == s.(runs := s.runs - {id})
  {
  }

  lemma StopsBeforeSubmit(s: State, id: RunId, missing: bool)
    requires In(s, id, Locked) && (missing || !s.runs[id].submit)
    ensures var job := s.runs[id].job;
            Next(s, StopBeforeSubmit(id, missing)) ==
            Write(s, job, Some(id), if missing then NeedsAnswers else DryRun, None).(runs := s.runs - {id}, locks := s.locks - {job})
  {
  }

  lemma SubmitEnds(s: State, id: RunId, now: int, outcome: Status)
    requires In(s, id, Locked) && s.runs[id].submit
    requires outcome in {Applied, NeedsOwner, Failed, Unconfirmed}
    ensures id !in Next(Next(Next(s, RecordIntent(id, now)), ClickSubmit(id)), RecordOutcome(id, outcome)).runs
  {
  }
}
