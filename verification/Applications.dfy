/** The application ledger: runs of `applyToJob` as steps over shared record and lock files,
    interleaved in any order, each of which may stop for good at any point. */
module Applications {

  import opened Common

  type JobId = string
  type RunId = nat

  datatype Status = Applied | Unconfirmed | NeedsAnswers | NeedsOwner | DryRun | Failed | Skipped

  /** `appliedAt` is None when the stored text is absent or not a date. */
  datatype Entry = Entry(status: Status, appliedAt: Option<int>)

  type Ledger = map<JobId, Entry>

  const FINAL := {Applied, Unconfirmed, NeedsOwner, Skipped}
  const SUBMITTED := {Applied, Unconfirmed, NeedsOwner}
  const DAY_MS := 86_400_000

  predicate IsFinal(ledger: Ledger, job: JobId) {
    job in ledger && ledger[job].status in FINAL
  }

  predicate CountedAt(e: Entry, now: int) {
    e.status in SUBMITTED && e.appliedAt.Some? && now - e.appliedAt.value < DAY_MS
  }

  /** The jobs counted as submitted in the last day. */
  function Recent(ledger: Ledger, now: int): set<JobId> {
    set job | job in ledger && CountedAt(ledger[job], now)
  }

  /** Merge with the stored entry: a field the writer does not give is kept. */
  function Written(ledger: Ledger, job: JobId, status: Status, applied: Option<Option<int>>): Ledger {
    var kept := if job in ledger then ledger[job].appliedAt else None;
    ledger[job := Entry(status, if applied.Some? then applied.value else kept)]
  }

  // ---------- Runs as steps ----------

  datatype Phase = Checked | Locked | Recorded | Clicked

  /** One `applyToJob` between its record check and its end. */
  datatype Run = Run(job: JobId, submit: bool, checkTime: int, stamp: int, phase: Phase, since: nat)
  // `since`: how much of the history had happened when the record was checked

  datatype Effect =
    | Wrote(job: JobId, who: Option<RunId>, status: Status)
    | Click(job: JobId, who: Option<RunId>)
    | Edited(job: JobId, who: Option<RunId>)

  datatype State = State(ledger: Ledger, locks: set<JobId>, runs: map<RunId, Run>, history: seq<Effect>)

  datatype Event =
    | Check(id: RunId, job: JobId, submit: bool, maxPerDay: nat, now: int)
    | Lock(id: RunId)
    | Abandon(id: RunId)                       // returns or throws: the lock is released
    | StopBeforeSubmit(id: RunId, missing: bool)
    | RecordIntent(id: RunId, now: int)
    | ClickSubmit(id: RunId)
    | RecordOutcome(id: RunId, outcome: Status)
    | Crash(id: RunId)                         // the process dies: the lock stays
    | LockExpires(job: JobId)
    | Skip(job: JobId)
    | OwnerEdits(job: JobId, entry: Option<Entry>)

  predicate In(s: State, id: RunId, phase: Phase) {
    id in s.runs && s.runs[id].phase == phase
  }

  function Finish(s: State, id: RunId): State
    requires id in s.runs
  {
    s.(runs := s.runs - {id}, locks := s.locks - {s.runs[id].job})
  }

  function Write(s: State, job: JobId, who: Option<RunId>, status: Status, applied: Option<Option<int>>): State {
    s.(ledger := Written(s.ledger, job, status, applied), history := s.history + [Wrote(job, who, status)])
  }

  function MoveTo(s: State, id: RunId, phase: Phase): State
    requires id in s.runs
  {
    s.(runs := s.runs[id := s.runs[id].(phase := phase)])
  }

  function Next(s: State, e: Event): State {
    match e
    case Check(id, job, submit, maxPerDay, now) =>
      if id in s.runs || IsFinal(s.ledger, job) || (submit && |Recent(s.ledger, now)| >= maxPerDay) then s
      else s.(runs := s.runs[id := Run(job, submit, now, now, Checked, |s.history|)])
    case Lock(id) =>
      if !In(s, id, Checked) then s
      else if s.runs[id].job in s.locks then s.(runs := s.runs - {id})
      else MoveTo(s, id, Locked).(locks := s.locks + {s.runs[id].job})
    case Abandon(id) =>
      if In(s, id, Checked) then s.(runs := s.runs - {id}) else if id in s.runs then Finish(s, id) else s
    case StopBeforeSubmit(id, missing) =>
      if In(s, id, Locked) && (missing || !s.runs[id].submit) then
        Finish(Write(s, s.runs[id].job, Some(id), if missing then NeedsAnswers else DryRun, None), id)
      else s
    case RecordIntent(id, now) =>
      if In(s, id, Locked) && s.runs[id].submit then
        var t := Write(s, s.runs[id].job, Some(id), Unconfirmed, Some(Some(now)));
        t.(runs := t.runs[id := s.runs[id].(phase := Recorded, stamp := now)])
      else s
    case ClickSubmit(id) =>
      if In(s, id, Recorded) then
        MoveTo(s, id, Clicked).(history := s.history + [Click(s.runs[id].job, Some(id))])
      else s
    case RecordOutcome(id, outcome) =>
      if In(s, id, Clicked) && outcome in {Applied, NeedsOwner, Failed, Unconfirmed} then
        Finish(Write(s, s.runs[id].job, Some(id), outcome,
                     Some(if outcome == Failed then None else Some(s.runs[id].stamp))), id)
      else s
    case Crash(id) => s.(runs := s.runs - {id})
    case LockExpires(job) => s.(locks := s.locks - {job})
    case Skip(job) => if IsFinal(s.ledger, job) then s else Write(s, job, None, Skipped, None)
    case OwnerEdits(job, entry) =>
      s.(ledger := if entry.Some? then s.ledger[job := entry.value] else s.ledger - {job},
         history := s.history + [Edited(job, None)])
  }

  function Replay(s: State, events: seq<Event>): State {
    if events == [] then s else Next(Replay(s, events[..|events| - 1]), events[|events| - 1])
  }

  const FRESH := State(map[], {}, map[], [])

  // ---------- Submitting once ----------

  /** The board rejected the form, or the owner took the record over. */
  predicate Reopens(e: Effect, job: JobId) {
    e.job == job && (e.Edited? || (e.Wrote? && e.status == Failed))
  }

  /** The job was submitted and nothing has reopened it since. */
  predicate Unsettled(history: seq<Effect>, job: JobId) {
    history != [] &&
      (var last := history[|history| - 1];
       if last.Click? && last.job == job then true
       else !Reopens(last, job) && Unsettled(history[..|history| - 1], job))
  }

  /** Nobody else has touched the job since this run checked its record. */
  predicate Undisturbed(s: State, id: RunId)
    requires id in s.runs
  {
    forall k :: s.runs[id].since <= k < |s.history| && k >= 0 && s.history[k].job == s.runs[id].job ==>
      s.history[k].who == Some(id)
  }

  /** The event writes or clicks for a run. */
  predicate Acts(s: State, e: Event) {
    match e
    case StopBeforeSubmit(id, _) => In(s, id, Locked)
    case RecordIntent(id, _) => In(s, id, Locked)
    case ClickSubmit(id) => In(s, id, Recorded)
    case RecordOutcome(id, _) => In(s, id, Clicked)
    case _ => false
  }

  function Actor(e: Event): RunId {
    match e
    case StopBeforeSubmit(id, _) => id
    case RecordIntent(id, _) => id
    case ClickSubmit(id) => id
    case RecordOutcome(id, _) => id
    case _ => 0
  }

  /** Runs on one job do not overlap: whenever a run acts, nobody else has touched its job since
      its check. Runs on different jobs may overlap freely. */
  predicate NonOverlapping(s: State, events: seq<Event>) {
    events == [] ||
      (var before := events[..|events| - 1];
       var e := events[|events| - 1];
       && NonOverlapping(s, before)
       && (Acts(Replay(s, before), e) && Actor(e) in Replay(s, before).runs ==> Undisturbed(Replay(s, before), Actor(e))))
  }

  predicate RunInStep(s: State, id: RunId)
    requires id in s.runs
  {
    var r := s.runs[id];
    && r.since <= |s.history|
    && (Undisturbed(s, id) ==>
          && (r.phase != Clicked ==> !Unsettled(s.history, r.job))
          && (r.phase in {Recorded, Clicked} ==> r.job in s.ledger && s.ledger[r.job].status == Unconfirmed))
  }

  ghost predicate Consistent(s: State) {
    && (forall job :: Unsettled(s.history, job) ==> IsFinal(s.ledger, job))
    && (forall id :: id in s.runs ==> RunInStep(s, id))
  }

  lemma UnsettledPush(history: seq<Effect>, e: Effect, job: JobId)
    ensures Unsettled(history + [e], job) <==>
            (e.Click? && e.job == job) || (!Reopens(e, job) && Unsettled(history, job))
  {
    assert (history + [e])[..|history|] == history;
  }

  /** An effect by somebody else on the job makes a run disturbed; an effect elsewhere changes nothing. */
  lemma UndisturbedPush(s: State, t: State, e: Effect, id: RunId)
    requires id in s.runs && id in t.runs && t.history == s.history + [e]
    requires t.runs[id].job == s.runs[id].job && t.runs[id].since == s.runs[id].since <= |s.history|
    ensures Undisturbed(t, id) <==> Undisturbed(s, id) && (e.job == s.runs[id].job ==> e.who == Some(id))
  {
    if Undisturbed(t, id) {
      assert t.history[|s.history|] == e;
      forall k | s.runs[id].since <= k < |s.history| && k >= 0 && s.history[k].job == s.runs[id].job
        ensures s.history[k].who == Some(id)
      {
        assert t.history[k] == s.history[k];
      }
    }
  }

  /** Steps that add one effect: how each other run is affected. */
  lemma OthersInStep(s: State, t: State, e: Effect, id: RunId)
    requires id in s.runs && RunInStep(s, id) && id in t.runs && t.runs[id] == s.runs[id]
    requires t.history == s.history + [e] && e.who != Some(id)
    requires forall job :: job != e.job ==> (job in t.ledger <==> job in s.ledger) && (job in s.ledger ==> t.ledger[job] == s.ledger[job])
    ensures RunInStep(t, id)
  {
    UndisturbedPush(s, t, e, id);
    UnsettledPush(s.history, e, s.runs[id].job);
  }

  /** A write by a run that acts undisturbed, or by nobody's run, keeps the ledger in step. */
  lemma ConsistentEffect(s: State, t: State, e: Effect)
    requires Consistent(s) && t.history == s.history + [e]
    requires forall job :: job != e.job ==> (job in t.ledger <==> job in s.ledger) && (job in s.ledger ==> t.ledger[job] == s.ledger[job])
    requires Unsettled(t.history, e.job) ==> IsFinal(t.ledger, e.job)
    requires forall id :: id in t.runs && e.who != Some(id) ==> id in s.runs && t.runs[id] == s.runs[id]
    requires forall id :: id in t.runs && e.who == Some(id) ==> RunInStep(t, id)
    ensures Consistent(t)
  {
    forall job | Unsettled(t.history, job)
      ensures IsFinal(t.ledger, job)
    {
      UnsettledPush(s.history, e, job);
    }
    forall id | id in t.runs
      ensures RunInStep(t, id)
    {
      if e.who != Some(id) {
        OthersInStep(s, t, e, id);
      }
    }
  }

  /** Steps without an effect: runs start, end or move on. */
  lemma ConsistentQuiet(s: State, t: State)
    requires Consistent(s) && t.history == s.history && t.ledger == s.ledger
    requires forall id :: id in t.runs ==> (id in s.runs && t.runs[id] == s.runs[id]) || RunInStep(t, id)
    ensures Consistent(t)
  {
    forall id | id in t.runs
      ensures RunInStep(t, id)
    {
      if id in s.runs && t.runs[id] == s.runs[id] {
        assert RunInStep(s, id);
      }
    }
  }

  lemma ActsKeeps(s: State, e: Event)
    requires Consistent(s) && Acts(s, e) && Undisturbed(s, Actor(e))
    ensures Consistent(Next(s, e))
  {
    var id := Actor(e);
    var r := s.runs[id];
    var t := Next(s, e);
    assert RunInStep(s, id);
    if |t.history| > |s.history| {
      var f := t.history[|s.history|];
      assert t.history == s.history + [f];
      UnsettledPush(s.history, f, r.job);
      if id in t.runs {
        UndisturbedPush(s, t, f, id);
      }
      ConsistentEffect(s, t, f);
    }
  }

  lemma NextKeeps(s: State, e: Event)
    requires Consistent(s) && (Acts(s, e) ==> Undisturbed(s, Actor(e)))
    ensures Consistent(Next(s, e))
  {
    var t := Next(s, e);
    if Acts(s, e) {
      ActsKeeps(s, e);
    } else if e.Skip? && !IsFinal(s.ledger, e.job) {
      UnsettledPush(s.history, Wrote(e.job, None, Skipped), e.job);
      ConsistentEffect(s, t, Wrote(e.job, None, Skipped));
    } else if e.OwnerEdits? {
      UnsettledPush(s.history, Edited(e.job, None), e.job);
      ConsistentEffect(s, t, Edited(e.job, None));
    } else {
      if e.Lock? && In(s, e.id, Checked) {
        assert RunInStep(s, e.id);
      }
      ConsistentQuiet(s, t);
    }
  }

  lemma {:induction false} ConsistentRun(events: seq<Event>)
    requires NonOverlapping(FRESH, events)
    ensures Consistent(Replay(FRESH, events))
  {
    if events != [] {
      var before := events[..|events| - 1];
      ConsistentRun(before);
      NextKeeps(Replay(FRESH, before), events[|events| - 1]);
    }
  }

  /** Two clicks on one job have a reopening between them. */
  ghost predicate SubmittedOnce(history: seq<Effect>) {
    forall i, j :: 0 <= i < j < |history| && history[i].Click? && history[j].Click? && history[i].job == history[j].job ==>
      exists k :: i < k < j && Reopens(history[k], history[i].job)
  }

  lemma {:induction false} SettledMeansReopened(history: seq<Effect>, job: JobId, i: nat)
    requires i < |history| && history[i].Click? && history[i].job == job && !Unsettled(history, job)
    ensures exists k :: i < k < |history| && Reopens(history[k], job)
  {
    var n := |history| - 1;
    if Reopens(history[n], job) {
      assert i < n;
    } else {
      SettledMeansReopened(history[..n], job, i);
      var k :| i < k < n && Reopens(history[..n][k], job);
      assert history[k] == history[..n][k];
    }
  }

  lemma SubmittedOncePush(history: seq<Effect>, e: Effect)
    requires SubmittedOnce(history) && (e.Click? ==> !Unsettled(history, e.job))
    ensures SubmittedOnce(history + [e])
  {
    var h := history + [e];
    forall i, j | 0 <= i < j < |h| && h[i].Click? && h[j].Click? && h[i].job == h[j].job
      ensures exists k :: i < k < j && Reopens(h[k], h[i].job)
    {
      if j == |history| {
        SettledMeansReopened(history, e.job, i);
        var k :| i < k < |history| && Reopens(history[k], e.job);
        assert h[k] == history[k];
      } else {
        var k :| i < k < j && Reopens(history[k], history[i].job);
        assert h[k] == history[k];
      }
    }
  }

  /** Over every sequence of runs that do not overlap on a job, each of which may die at any step:
      two submit clicks for one job always have a rewrite to `failed` (or the owner's own edit)
      between them. */
  lemma {:induction false} SubmitOncePerJob(events: seq<Event>)
    requires NonOverlapping(FRESH, events)
    ensures SubmittedOnce(Replay(FRESH, events).history)
  {
    if events != [] {
      var before := events[..|events| - 1];
      var e := events[|events| - 1];
      SubmitOncePerJob(before);
      ConsistentRun(before);
      var s := Replay(FRESH, before);
      var t := Next(s, e);
      if |t.history| > |s.history| {
        var f := t.history[|s.history|];
        assert t.history == s.history + [f];
        if e.ClickSubmit? {
          assert RunInStep(s, e.id);
        }
        SubmittedOncePush(s.history, f);
      }
    }
  }

  /** The click finds the run's own `unconfirmed` record in place, on a job that no earlier click
      has left unsettled. */
  lemma ClickOnOwnRecord(events: seq<Event>, id: RunId)
    requires NonOverlapping(FRESH, events + [ClickSubmit(id)]) && In(Replay(FRESH, events), id, Recorded)
    ensures var s := Replay(FRESH, events);
            && !Unsettled(s.history, s.runs[id].job)
            && s.runs[id].job in s.ledger && s.ledger[s.runs[id].job].status == Unconfirmed
  {
    var all := events + [ClickSubmit(id)];
    assert all[..|all| - 1] == events;
    ConsistentRun(events);
    assert RunInStep(Replay(FRESH, events), id);
  }

  // ---------- Exactly when a click repeats a submission ----------

  /** The click at `k` is on this job and nothing has reopened the job since. */
  predicate StandingClick(history: seq<Effect>, job: JobId, k: nat)
    requires k < |history|
  {
    history[k].Click? && history[k].job == job && forall m :: k < m < |history| ==> !Reopens(history[m], job)
  }

  lemma {:induction false} StandingClickOf(history: seq<Effect>, job: JobId) returns (k: nat)
    requires Unsettled(history, job)
    ensures k < |history| && StandingClick(history, job, k)
  {
    var n := |history| - 1;
    if history[n].Click? && history[n].job == job {
      k := n;
    } else {
      k := StandingClickOf(history[..n], job);
      assert forall m :: k < m < n ==> history[m] == history[..n][m];
    }
  }

  lemma {:induction false} StandingClickUnsettles(history: seq<Effect>, job: JobId, k: nat)
    requires k < |history| && StandingClick(history, job, k)
    ensures Unsettled(history, job)
  {
    var n := |history| - 1;
    if k < n {
      assert forall m :: k < m < n ==> history[..n][m] == history[m];
      StandingClickUnsettles(history[..n], job, k);
    }
  }

  /** The record was given up: a run stopped short or failed, or the owner edited it. */
  predicate Lowers(e: Effect, job: JobId) {
    e.job == job && (e.Edited? || (e.Wrote? && e.status !in FINAL))
  }

  predicate Records(e: Effect, job: JobId) {
    e.job == job && !e.Click?
  }

  /** Write `w` is the run's own record of its intent, its last write on the job before `n`. */
  predicate Intent(history: seq<Effect>, job: JobId, who: Option<RunId>, w: nat, n: nat)
    requires n <= |history|
  {
    && w < n && history[w] == Wrote(job, who, Unconfirmed)
    && forall m :: w < m < n ==> !(history[m].Wrote? && history[m].job == job && history[m].who == who)
  }

  /** After the intent behind the click at `k`, and before `n`, the record was lowered: it no longer shows the click. */
  ghost predicate Hidden(history: seq<Effect>, job: JobId, k: nat, n: nat)
    requires k < |history| && n <= |history|
  {
    exists w: nat, m: nat :: Intent(history, job, history[k].who, w, k) && w < m < n && Lowers(history[m], job)
  }

  /** The last entry of the history that wrote the record or replaced it. */
  function LastRecord(history: seq<Effect>, job: JobId): (m: int)
    ensures -1 <= m < |history|
    ensures m >= 0 ==> Records(history[m], job)
    ensures forall k :: m < k < |history| ==> !Records(history[k], job)
  {
    if history == [] then -1
    else if Records(history[|history| - 1], job) then |history| - 1
    else LastRecord(history[..|history| - 1], job)
  }

  /** The ledger shows what was last written. */
  predicate Reflects(s: State, job: JobId) {
    var m := LastRecord(s.history, job);
    m >= 0 && s.history[m].Wrote? ==> job in s.ledger && s.ledger[job].status == s.history[m].status
  }

  /** Every click, made or about to be made, has the record of its intent behind it. */
  ghost predicate Intended(s: State) {
    && (forall k :: 0 <= k < |s.history| && s.history[k].Click? ==>
          exists w: nat :: Intent(s.history, s.history[k].job, s.history[k].who, w, k))
    && (forall id :: id in s.runs && s.runs[id].phase == Recorded ==>
          exists w: nat :: Intent(s.history, s.runs[id].job, Some(id), w, |s.history|))
  }

  /** What a run's check can have missed: a click whose record was lowered before the check. */
  ghost predicate CheckMissed(s: State, id: RunId)
    requires id in s.runs
  {
    var r := s.runs[id];
    && r.since <= |s.history|
    && forall k :: 0 <= k < r.since && StandingClick(s.history, r.job, k) ==> Hidden(s.history, r.job, k, r.since)
  }

  ghost predicate Traced(s: State) {
    && (forall job :: Reflects(s, job))
    && Intended(s)
    && (forall id :: id in s.runs ==> CheckMissed(s, id))
  }

  lemma LastRecordPush(history: seq<Effect>, e: Effect, job: JobId)
    ensures LastRecord(history + [e], job) == if Records(e, job) then |history| else LastRecord(history, job)
  {
    assert (history + [e])[..|history|] == history;
  }

  lemma IntentPush(history: seq<Effect>, e: Effect, job: JobId, who: Option<RunId>, w: nat, n: nat)
    requires n <= |history| && Intent(history, job, who, w, n)
    ensures Intent(history + [e], job, who, w, n)
    ensures n == |history| && !(e.Wrote? && e.job == job && e.who == who) ==> Intent(history + [e], job, who, w, n + 1)
  {
    var h := history + [e];
    assert forall m :: 0 <= m < n ==> h[m] == history[m];
  }

  lemma HiddenPush(history: seq<Effect>, e: Effect, job: JobId, k: nat, n: nat)
    requires k < |history| && n <= |history| && Hidden(history, job, k, n)
    ensures Hidden(history + [e], job, k, n)
  {
    var w: nat, m: nat :| Intent(history, job, history[k].who, w, k) && w < m < n && Lowers(history[m], job);
    IntentPush(history, e, job, history[k].who, w, k);
    assert (history + [e])[m] == history[m] && (history + [e])[k] == history[k];
    assert Intent(history + [e], job, (history + [e])[k].who, w, k);
  }

  lemma StandingBefore(history: seq<Effect>, e: Effect, job: JobId, k: nat)
    requires k < |history| && StandingClick(history + [e], job, k)
    ensures StandingClick(history, job, k)
  {
    var h := history + [e];
    assert forall m :: 0 <= m < |history| ==> h[m] == history[m];
  }

  /** A check that is not refused: a standing click it missed has been lowered since its intent. */
  lemma CheckPasses(s: State, job: JobId, k: nat)
    requires Traced(s) && !IsFinal(s.ledger, job) && k < |s.history| && StandingClick(s.history, job, k)
    ensures Hidden(s.history, job, k, |s.history|)
  {
    var h := s.history;
    assert Reflects(s, job);
    var w: nat :| Intent(h, job, h[k].who, w, k);
    var m := LastRecord(h, job);
    assert Records(h[w], job);
    assert m >= w;
    assert m != w;
    assert Lowers(h[m], job);
  }

  /** What one step does: at most one effect, and how the runs move. */
  datatype Change = Quiet | Did(effect: Effect)

  function Pushed(history: seq<Effect>, c: Change): seq<Effect> {
    if c.Did? then history + [c.effect] else history
  }

  /** The step's effect, read off the event. */
  function EffectOf(s: State, e: Event): Change {
    match e
    case StopBeforeSubmit(id, missing) =>
      if In(s, id, Locked) && (missing || !s.runs[id].submit)
      then Did(Wrote(s.runs[id].job, Some(id), if missing then NeedsAnswers else DryRun)) else Quiet
    case RecordIntent(id, _) =>
      if In(s, id, Locked) && s.runs[id].submit then Did(Wrote(s.runs[id].job, Some(id), Unconfirmed)) else Quiet
    case ClickSubmit(id) => if In(s, id, Recorded) then Did(Click(s.runs[id].job, Some(id))) else Quiet
    case RecordOutcome(id, outcome) =>
      if In(s, id, Clicked) && outcome in {Applied, NeedsOwner, Failed, Unconfirmed}
      then Did(Wrote(s.runs[id].job, Some(id), outcome)) else Quiet
    case Skip(job) => if IsFinal(s.ledger, job) then Quiet else Did(Wrote(job, None, Skipped))
    case OwnerEdits(job, _) => Did(Edited(job, None))
    case _ => Quiet
  }

  /** A run in the next state: the same run moved on, or a new one whose check was not refused. */
  predicate Continues(s: State, e: Event, id: RunId)
    requires id in Next(s, e).runs
  {
    var r := Next(s, e).runs[id];
    if id in s.runs then
      && r.job == s.runs[id].job && r.since == s.runs[id].since
      && (r.phase == Recorded ==> s.runs[id].phase == Recorded || EffectOf(s, e) == Did(Wrote(r.job, Some(id), Unconfirmed)))
      && (s.runs[id].phase == Recorded && r.phase == Recorded && EffectOf(s, e).Did? ==> EffectOf(s, e).effect.who != Some(id))
    else r.phase == Checked && r.since == |s.history| && !IsFinal(s.ledger, r.job) && EffectOf(s, e) == Quiet
  }

  lemma NextDoes(s: State, e: Event)
    ensures Next(s, e).history == Pushed(s.history, EffectOf(s, e))
    ensures forall id :: id in Next(s, e).runs ==> Continues(s, e, id)
  {
  }

  lemma NextReflects(s: State, e: Event, job: JobId)
    requires Reflects(s, job)
    ensures Reflects(Next(s, e), job)
  {
    var c := EffectOf(s, e);
    NextLedger(s, e, job);
    NextDoes(s, e);
    hide Next, EffectOf;
    if c.Did? {
      LastRecordPush(s.history, c.effect, job);
    }
  }

  lemma NextLedger(s: State, e: Event, job: JobId)
    ensures var c, t := EffectOf(s, e), Next(s, e);
            && (c.Did? && c.effect.Wrote? && c.effect.job == job ==> job in t.ledger && t.ledger[job].status == c.effect.status)
            && ((c.Did? ==> !Records(c.effect, job)) ==>
                  (job in t.ledger <==> job in s.ledger) && (job in s.ledger ==> t.ledger[job] == s.ledger[job]))
  {
  }

  lemma IntendedNext(s: State, e: Event)
    requires Intended(s)
    ensures Intended(Next(s, e))
  {
    var c, t := EffectOf(s, e), Next(s, e);
    NextDoes(s, e);
    ClickIsIntended(s, e);
    hide Next, EffectOf, Intent;
    var h, g := s.history, t.history;
    forall k | 0 <= k < |g| && g[k].Click?
      ensures exists w: nat :: Intent(g, g[k].job, g[k].who, w, k)
    {
      if k < |h| {
        var w: nat :| Intent(h, h[k].job, h[k].who, w, k);
        if c.Did? {
          IntentPush(h, c.effect, h[k].job, h[k].who, w, k);
        }
        assert g[k] == h[k];
      } else {
        var w: nat :| Intent(h, g[k].job, g[k].who, w, |h|);
        IntentPush(h, c.effect, g[k].job, g[k].who, w, |h|);
      }
    }
    forall id | id in t.runs && t.runs[id].phase == Recorded
      ensures exists w: nat :: Intent(g, t.runs[id].job, Some(id), w, |g|)
    {
      RecordedIsIntended(s, e, id);
    }
  }

  lemma ClickIsIntended(s: State, e: Event)
    requires Intended(s)
    ensures EffectOf(s, e).Did? && EffectOf(s, e).effect.Click? ==>
              var f := EffectOf(s, e).effect; exists w: nat :: Intent(s.history, f.job, f.who, w, |s.history|)
  {
  }

  lemma RecordedIsIntended(s: State, e: Event, id: RunId)
    requires Intended(s) && id in Next(s, e).runs && Next(s, e).runs[id].phase == Recorded
    ensures var t := Next(s, e); exists w: nat :: Intent(t.history, t.runs[id].job, Some(id), w, |t.history|)
  {
    var c, t := EffectOf(s, e), Next(s, e);
    NextDoes(s, e);
    assert Continues(s, e, id);
    hide Next, EffectOf;
    var job := t.runs[id].job;
    if id in s.runs && s.runs[id].phase == Recorded {
      var w: nat :| Intent(s.history, job, Some(id), w, |s.history|);
      if c.Did? {
        IntentPush(s.history, c.effect, job, Some(id), w, |s.history|);
      }
    } else {
      assert Intent(t.history, job, Some(id), |s.history|, |t.history|);
    }
  }

  lemma CheckMissedNext(s: State, e: Event, id: RunId)
    requires Traced(s) && id in Next(s, e).runs
    ensures CheckMissed(Next(s, e), id)
  {
    var c, t := EffectOf(s, e), Next(s, e);
    NextDoes(s, e);
    assert Continues(s, e, id);
    hide Next, EffectOf, Hidden, StandingClick;
    var r := t.runs[id];
    if id in s.runs {
      assert CheckMissed(s, id);
    }
    forall k | 0 <= k < r.since && StandingClick(t.history, r.job, k)
      ensures Hidden(t.history, r.job, k, r.since)
    {
      if c.Did? {
        StandingBefore(s.history, c.effect, r.job, k);
        HiddenPush(s.history, c.effect, r.job, k, r.since);
      } else if id !in s.runs {
        CheckPasses(s, r.job, k);
      }
    }
  }

  lemma TracedNext(s: State, e: Event)
    requires Traced(s)
    ensures Traced(Next(s, e))
  {
    hide Next, Reflects, Intended, CheckMissed;
    forall job
      ensures Reflects(Next(s, e), job)
    {
      NextReflects(s, e, job);
    }
    IntendedNext(s, e);
    forall id | id in Next(s, e).runs
      ensures CheckMissed(Next(s, e), id)
    {
      CheckMissedNext(s, e, id);
    }
  }

  lemma {:induction false} TracedRun(events: seq<Event>)
    ensures Traced(Replay(FRESH, events))
  {
    if events != [] {
      var before := events[..|events| - 1];
      TracedRun(before);
      TracedNext(Replay(FRESH, before), events[|events| - 1]);
    }
  }

  /** A click on the run's job stands that its check did not see: it came after the check, or between that click's
      own intent and the check the record was lowered by another run or by the owner. */
  ghost predicate Unseen(s: State, id: RunId)
    requires id in s.runs
  {
    var job, since := s.runs[id].job, s.runs[id].since;
    exists k :: 0 <= k < |s.history| && StandingClick(s.history, job, k)
      && (since <= k || (since <= |s.history| && Hidden(s.history, job, k, since)))
  }

  /** Over all runs, overlapping or not: a run about to click repeats a submission exactly when a click stands that
      its check did not see. */
  lemma RepeatsExactlyWhenUnseen(events: seq<Event>, id: RunId)
    requires In(Replay(FRESH, events), id, Recorded)
    ensures var s := Replay(FRESH, events); Unsettled(s.history, s.runs[id].job) <==> Unseen(s, id)
  {
    TracedRun(events);
    var s := Replay(FRESH, events);
    var job, since := s.runs[id].job, s.runs[id].since;
    hide Replay, Hidden;
    assert CheckMissed(s, id);
    if Unsettled(s.history, job) {
      var k := StandingClickOf(s.history, job);
    }
    if k :| 0 <= k < |s.history| && StandingClick(s.history, job, k) {
      StandingClickUnsettles(s.history, job, k);
    }
  }

  lemma SubmittedOnceBefore(history: seq<Effect>, e: Effect)
    requires SubmittedOnce(history + [e])
    ensures SubmittedOnce(history) && (e.Click? ==> !Unsettled(history, e.job))
  {
    var h, n := history + [e], |history|;
    forall i, j | 0 <= i < j < n && history[i].Click? && history[j].Click? && history[i].job == history[j].job
      ensures exists k :: i < k < j && Reopens(history[k], history[i].job)
    {
      assert h[i] == history[i] && h[j] == history[j];
      var k :| i < k < j && Reopens(h[k], h[i].job);
      assert h[k] == history[k];
    }
    if e.Click? && Unsettled(history, e.job) {
      var i := StandingClickOf(history, e.job);
      StandingRepeats(history, e, i);
    }
  }

  lemma StandingRepeats(history: seq<Effect>, e: Effect, i: nat)
    requires e.Click? && i < |history| && StandingClick(history, e.job, i)
    ensures !SubmittedOnce(history + [e])
  {
    var h, n := history + [e], |history|;
    assert h[i] == history[i] && h[n] == e;
    assert forall k :: i < k < n ==> h[k] == history[k] && !Reopens(h[k], e.job);
  }

  /** The step is a click on a job with a standing click its run's check did not see. */
  ghost predicate ClicksUnseen(s: State, e: Event) {
    e.ClickSubmit? && In(s, e.id, Recorded) && Unseen(s, e.id)
  }

  /** Step `n` of the run is such a click. */
  ghost predicate ClicksUnseenAt(events: seq<Event>, n: nat)
    requires n < |events|
  {
    ClicksUnseen(Replay(FRESH, events[..n]), events[n])
  }

  lemma SameClick(events: seq<Event>, n: nat, m: nat)
    requires m < n <= |events|
    ensures ClicksUnseenAt(events[..n], m) == ClicksUnseenAt(events, m)
  {
    hide Replay, ClicksUnseen;
    assert events[..n][..m] == events[..m];
  }

  /** Over all runs, overlapping or not: every two clicks on one job have a rewrite to `failed` or an owner's edit
      between them exactly when no click was made over one its check had not seen. */
  lemma {:induction false} SubmittedOnceExactly(events: seq<Event>)
    ensures SubmittedOnce(Replay(FRESH, events).history) <==>
            forall n :: 0 <= n < |events| ==> !ClicksUnseenAt(events, n)
  {
    if events != [] {
      var n := |events| - 1;
      SubmittedOnceExactly(events[..n]);
      OnceStep(events[..n], events[n]);
      assert Replay(FRESH, events) == Next(Replay(FRESH, events[..n]), events[n]);
      assert ClicksUnseenAt(events, n) <==> ClicksUnseen(Replay(FRESH, events[..n]), events[n]);
      hide Replay, Next, SubmittedOnce, ClicksUnseenAt, ClicksUnseen;
      forall m | 0 <= m < n
        ensures ClicksUnseenAt(events[..n], m) == ClicksUnseenAt(events, m)
      {
        SameClick(events, n, m);
      }
    }
  }

  lemma OnceStep(before: seq<Event>, e: Event)
    ensures var s := Replay(FRESH, before);
            SubmittedOnce(Next(s, e).history) <==> SubmittedOnce(s.history) && !ClicksUnseen(s, e)
  {
    var s := Replay(FRESH, before);
    NextDoes(s, e);
    var c := EffectOf(s, e);
    assert c.Did? && c.effect.Click? <==> e.ClickSubmit? && In(s, e.id, Recorded);
    assert c.Did? && c.effect.Click? ==> c.effect.job == s.runs[e.id].job;
    if c.Did? && c.effect.Click? {
      RepeatsExactlyWhenUnseen(before, e.id);
    }
    hide Next, EffectOf, Replay, SubmittedOnce, Unseen, Unsettled;
    if c.Did? && SubmittedOnce(s.history + [c.effect]) {
      SubmittedOnceBefore(s.history, c.effect);
    }
    if c.Did? && SubmittedOnce(s.history) && (c.effect.Click? ==> !Unsettled(s.history, c.effect.job)) {
      SubmittedOncePush(s.history, c.effect);
    }
  }

  // ---------- What a check lets through ----------

  /** The jobs whose records say, by the statuses themselves, that they were submitted less than a day before `now`. */
  function CountedJobs(ledger: Ledger, now: int): set<JobId> {
    set job | job in ledger && ledger[job].status in {Applied, Unconfirmed, NeedsOwner}
              && ledger[job].appliedAt.Some? && now - ledger[job].appliedAt.value < 86_400_000
  }

  /** A check starts a run exactly when the job has no record, or one that needs answers, was a dry run or failed, and,
      for a run that submits, fewer than the limit were submitted in the last day. */
  lemma CheckStartsExactly(s: State, id: RunId, job: JobId, submit: bool, maxPerDay: nat, now: int)
    requires id !in s.runs
    ensures var t := Next(s, Check(id, job, submit, maxPerDay, now));
            && (id in t.runs <==>
                  && (job in s.ledger ==> s.ledger[job].status in {NeedsAnswers, DryRun, Failed})
                  && (submit ==> |CountedJobs(s.ledger, now)| < maxPerDay))
            && (id !in t.runs ==> t == s)
            && (id in t.runs ==> t == s.(runs := s.runs[id := Run(job, submit, now, now, Checked, |s.history|)]))
  {
    assert Recent(s.ledger, now) == CountedJobs(s.ledger, now);
    StatusesSplit(s.ledger, job);
  }

  lemma StatusesSplit(ledger: Ledger, job: JobId)
    ensures IsFinal(ledger, job) <==> job in ledger && ledger[job].status !in {NeedsAnswers, DryRun, Failed}
  {
    if job in ledger {
      match ledger[job].status {
        case Applied =>
        case Unconfirmed =>
        case NeedsAnswers =>
        case NeedsOwner =>
        case DryRun =>
        case Failed =>
        case Skipped =>
      }
    }
  }

  /** What each later step of a run stores. */
  lemma StepsStore(s: State, id: RunId, missing: bool, now: int, outcome: Status)
    requires id in s.runs
    ensures var r := s.runs[id];
            var t := Next(s, StopBeforeSubmit(id, missing));
            if r.phase == Locked && (missing || !r.submit) then
              && id !in t.runs && t.locks == s.locks - {r.job}
              && t.ledger == s.ledger[r.job := Entry(if missing then NeedsAnswers else DryRun,
                                                     if r.job in s.ledger then s.ledger[r.job].appliedAt else None)]
            else t == s
    ensures var r := s.runs[id];
            var t := Next(s, RecordIntent(id, now));
            if r.phase == Locked && r.submit then
              t.ledger == s.ledger[r.job := Entry(Unconfirmed, Some(now))] && t.locks == s.locks
            else t == s
    ensures var r := s.runs[id];
            var t := Next(s, RecordOutcome(id, outcome));
            if r.phase == Clicked && outcome in {Applied, NeedsOwner, Failed, Unconfirmed} then
              && id !in t.runs && t.locks == s.locks - {r.job}
              && t.ledger == s.ledger[r.job := Entry(outcome, if outcome == Failed then None else Some(r.stamp))]
            else t == s
  {
  }

  /** A run that gives up lets its lock go if it took one; a click is remembered, and comes after the record. */
  lemma StepsEnd(s: State, id: RunId)
    requires id in s.runs
    ensures var r := s.runs[id];
            && Next(s, Abandon(id)) == s.(runs := s.runs - {id}, locks := if r.phase == Checked then s.locks else s.locks - {r.job})
            && Next(s, ClickSubmit(id)) ==
               if r.phase == Recorded
               then s.(runs := s.runs[id := r.(phase := Clicked)], history := s.history + [Click(r.job, Some(id))])
               else s
  {
  }

  /** Only a job that has not been submitted or skipped can be skipped; when it was submitted before is kept. */
  lemma SkipStores(s: State, job: JobId)
    ensures Next(s, Skip(job)) ==
            if job in s.ledger && s.ledger[job].status !in {NeedsAnswers, DryRun, Failed} then s
            else s.(ledger := s.ledger[job := Entry(Skipped, if job in s.ledger then s.ledger[job].appliedAt else None)],
                    history := s.history + [Wrote(job, None, Skipped)])
  {
    StatusesSplit(s.ledger, job);
  }

  // ---------- The lock ----------

  /** A free lock is taken, a held one ends the run. */
  lemma LockTakes(s: State, id: RunId)
    requires In(s, id, Checked)
    ensures var t, r := Next(s, Lock(id)), s.runs[id];
            if r.job in s.locks then t == s.(runs := s.runs - {id})
            else t == s.(runs := s.runs[id := r.(phase := Locked)], locks := s.locks + {r.job})
  {
  }

  predicate PastLock(s: State, id: RunId, job: JobId) {
    id in s.runs && s.runs[id].job == job && s.runs[id].phase != Checked
  }

  ghost predicate OnePastLock(s: State, job: JobId) {
    && (forall id :: PastLock(s, id, job) ==> job in s.locks)
    && (forall a, b :: PastLock(s, a, job) && PastLock(s, b, job) ==> a == b)
  }

  /** A run past the lock was so before, or takes it now; whoever ends lets go of its own lock only. */
  lemma PastLockNext(s: State, e: Event, id: RunId, job: JobId)
    requires OnePastLock(s, job) && e != LockExpires(job) && PastLock(Next(s, e), id, job)
    ensures PastLock(s, id, job) || (e == Lock(id) && job !in s.locks)
    ensures job in Next(s, e).locks
  {
    hide IsFinal, Recent, Written;
    var other := if e.Abandon? then e.id else Actor(e);
    if PastLock(s, id, job) {
      assert PastLock(s, other, job) ==> other == id;
    }
  }

  lemma OnePastLockNext(s: State, e: Event, job: JobId)
    requires OnePastLock(s, job) && e != LockExpires(job)
    ensures OnePastLock(Next(s, e), job)
  {
    var t := Next(s, e);
    forall id | PastLock(t, id, job)
      ensures job in t.locks
    {
      PastLockNext(s, e, id, job);
    }
    forall a, b | PastLock(t, a, job) && PastLock(t, b, job)
      ensures a == b
    {
      PastLockNext(s, e, a, job);
      PastLockNext(s, e, b, job);
    }
  }

  /** Over all runs: unless its lock expires, no two runs work on a job at once, and the one that does holds the lock. */
  lemma {:induction false} OneRunPerJob(events: seq<Event>, job: JobId)
    requires LockExpires(job) !in events
    ensures OnePastLock(Replay(FRESH, events), job)
  {
    if events != [] {
      var n := |events| - 1;
      OneRunPerJob(events[..n], job);
      OnePastLockNext(Replay(FRESH, events[..n]), events[n], job);
    }
  }

  // ---------- Recorded and skipped jobs ----------

  /** Over all runs: while the last thing written to a job's record is a skip, or that it was applied to, is unconfirmed
      or needs its owner, no check on it starts a run. */
  lemma RecordedJobIsRefused(events: seq<Event>, m: nat, e: Event)
    requires var h := Replay(FRESH, events).history;
             m < |h| && h[m].Wrote? && h[m].status in {Skipped, Applied, Unconfirmed, NeedsOwner}
             && forall k :: m < k < |h| && h[k].job == h[m].job ==> h[k].Click?
    requires e.Check? && e.job == Replay(FRESH, events).history[m].job
    ensures Next(Replay(FRESH, events), e) == Replay(FRESH, events)
  {
    TracedRun(events);
    var s := Replay(FRESH, events);
    hide Replay;
    assert Reflects(s, e.job);
    assert Records(s.history[m], e.job) && LastRecord(s.history, e.job) == m;
  }

  /** The job was skipped and its owner has not edited the record since. */
  predicate Skipping(history: seq<Effect>, job: JobId) {
    history != [] &&
      (var last := history[|history| - 1];
       if last == Wrote(job, None, Skipped) then true
       else !(last.Edited? && last.job == job) && Skipping(history[..|history| - 1], job))
  }

  lemma SkippingPush(history: seq<Effect>, e: Effect, job: JobId)
    ensures Skipping(history + [e], job) <==>
            e == Wrote(job, None, Skipped) || (!(e.Edited? && e.job == job) && Skipping(history, job))
  {
    assert (history + [e])[..|history|] == history;
  }

  /** A skipped job keeps its record, and no undisturbed run is on it. */
  ghost predicate SkipsKept(s: State) {
    && (forall job :: Skipping(s.history, job) ==> job in s.ledger && s.ledger[job].status == Skipped)
    && (forall id :: id in s.runs && Undisturbed(s, id) ==> !Skipping(s.history, s.runs[id].job))
    && (forall id :: id in s.runs ==> s.runs[id].since <= |s.history|)
  }

  lemma SkipsKeptRun(s: State, e: Event, id: RunId)
    requires SkipsKept(s) && (Acts(s, e) ==> Undisturbed(s, Actor(e))) && id in Next(s, e).runs && Undisturbed(Next(s, e), id)
    ensures !Skipping(Next(s, e).history, Next(s, e).runs[id].job)
  {
    var c, t := EffectOf(s, e), Next(s, e);
    NextDoes(s, e);
    assert Continues(s, e, id);
    assert id !in s.runs ==> t.history == s.history;
    hide Next, EffectOf, Skipping;
    var job := t.runs[id].job;
    if id in s.runs && c.Did? {
      UndisturbedPush(s, t, c.effect, id);
      SkippingPush(s.history, c.effect, job);
    }
  }

  lemma SkipsKeptLedger(s: State, e: Event, job: JobId)
    requires SkipsKept(s) && (Acts(s, e) ==> Undisturbed(s, Actor(e))) && Skipping(Next(s, e).history, job)
    ensures job in Next(s, e).ledger && Next(s, e).ledger[job].status == Skipped
  {
    var c := EffectOf(s, e);
    NextDoes(s, e);
    NextLedger(s, e, job);
    ActorActs(s, e);
    hide Next, EffectOf, Skipping;
    if c.Did? {
      SkippingPush(s.history, c.effect, job);
    }
  }

  /** An effect of a run is that run acting. */
  lemma ActorActs(s: State, e: Event)
    ensures EffectOf(s, e).Did? && EffectOf(s, e).effect.who.Some? ==>
              Acts(s, e) && Actor(e) in s.runs && s.runs[Actor(e)].job == EffectOf(s, e).effect.job
    ensures EffectOf(s, e).Did? && EffectOf(s, e).effect.who.None? ==>
              EffectOf(s, e).effect.Edited? || EffectOf(s, e).effect == Wrote(EffectOf(s, e).effect.job, None, Skipped)
  {
  }

  lemma SkipsKeptNext(s: State, e: Event)
    requires SkipsKept(s) && (Acts(s, e) ==> Undisturbed(s, Actor(e)))
    ensures SkipsKept(Next(s, e))
  {
    NextDoes(s, e);
    hide Next, EffectOf, Skipping, Undisturbed;
    forall job | Skipping(Next(s, e).history, job)
      ensures job in Next(s, e).ledger && Next(s, e).ledger[job].status == Skipped
    {
      SkipsKeptLedger(s, e, job);
    }
    forall id | id in Next(s, e).runs && Undisturbed(Next(s, e), id)
      ensures !Skipping(Next(s, e).history, Next(s, e).runs[id].job)
    {
      SkipsKeptRun(s, e, id);
    }
    forall id | id in Next(s, e).runs
      ensures Next(s, e).runs[id].since <= |Next(s, e).history|
    {
      assert Continues(s, e, id);
    }
  }

  lemma {:induction false} SkipsKeptThroughout(events: seq<Event>)
    requires NonOverlapping(FRESH, events)
    ensures SkipsKept(Replay(FRESH, events))
  {
    if events != [] {
      var before := events[..|events| - 1];
      SkipsKeptThroughout(before);
      SkipsKeptNext(Replay(FRESH, before), events[|events| - 1]);
    }
  }

  /** A click after a skip has an owner's edit between them. */
  ghost predicate SkipsRespected(history: seq<Effect>) {
    forall i, j :: 0 <= i < j < |history| && history[j].Click? && history[i] == Wrote(history[j].job, None, Skipped) ==>
      exists k :: i < k < j && history[k].Edited? && history[k].job == history[j].job
  }

  lemma {:induction false} SkippedUnlessEdited(history: seq<Effect>, job: JobId, i: nat)
    requires i < |history| && history[i] == Wrote(job, None, Skipped) && !Skipping(history, job)
    ensures exists k :: i < k < |history| && history[k].Edited? && history[k].job == job
  {
    var n := |history| - 1;
    if !(history[n].Edited? && history[n].job == job) {
      SkippedUnlessEdited(history[..n], job, i);
      var k :| i < k < n && history[..n][k].Edited? && history[..n][k].job == job;
      assert history[k] == history[..n][k];
    }
  }

  lemma SkipsRespectedPush(history: seq<Effect>, e: Effect)
    requires SkipsRespected(history) && (e.Click? ==> !Skipping(history, e.job))
    ensures SkipsRespected(history + [e])
  {
    var h := history + [e];
    forall i, j | 0 <= i < j < |h| && h[j].Click? && h[i] == Wrote(h[j].job, None, Skipped)
      ensures exists k :: i < k < j && h[k].Edited? && h[k].job == h[j].job
    {
      if j == |history| {
        SkippedUnlessEdited(history, e.job, i);
        var k :| i < k < |history| && history[k].Edited? && history[k].job == e.job;
        assert h[k] == history[k];
      } else {
        var k :| i < k < j && history[k].Edited? && history[k].job == history[j].job;
        assert h[k] == history[k];
      }
    }
  }

  /** Over runs that do not overlap on a job, each of which may die at any step: no submit click on a skipped job
      comes before its owner has edited the record. */
  lemma {:induction false} SkippedNeverSubmitted(events: seq<Event>)
    requires NonOverlapping(FRESH, events)
    ensures SkipsRespected(Replay(FRESH, events).history)
  {
    if events != [] {
      var before, e := events[..|events| - 1], events[|events| - 1];
      SkippedNeverSubmitted(before);
      SkipsKeptThroughout(before);
      var s := Replay(FRESH, before);
      NextDoes(s, e);
      ActorActs(s, e);
      var c := EffectOf(s, e);
      assert c.Did? && c.effect.Click? ==> c.effect.who.Some?;
      if c.Did? {
        SkipsRespectedPush(s.history, c.effect);
      }
    }
  }

  /** Over all runs: only a run that was to submit ever clicks, and it has recorded its intent. */
  lemma {:induction false} OnlySubmittersClick(events: seq<Event>)
    ensures forall id :: id in Replay(FRESH, events).runs && Replay(FRESH, events).runs[id].phase in {Recorded, Clicked} ==>
              Replay(FRESH, events).runs[id].submit
  {
    if events != [] {
      OnlySubmittersClick(events[..|events| - 1]);
    }
  }

  // ---------- The rolling limit ----------

  /** The jobs counted as submitted in the day that starts at `from`. */
  function InWindow(ledger: Ledger, from: int): set<JobId> {
    set job | job in ledger && ledger[job].status in SUBMITTED && ledger[job].appliedAt.Some?
              && from <= ledger[job].appliedAt.value < from + DAY_MS
  }

  /** The submitting runs between their check and their end. */
  function Open(s: State): set<RunId> {
    set id | id in s.runs && s.runs[id].submit
  }

  /** The jobs of those that can still count in the day that starts at `from`. */
  function MayCount(s: State, from: int): set<JobId> {
    set id | id in s.runs && s.runs[id].submit && s.runs[id].checkTime < from + DAY_MS :: s.runs[id].job
  }

  /** A run's stamp is not earlier than its check. */
  predicate StampedInOrder(s: State, e: Event) {
    e.RecordIntent? && e.id in s.runs ==> s.runs[e.id].checkTime <= e.now
  }

  /** The limit is fixed, the owner leaves the records alone, the clock does not run backwards within a run, and
      at most `most` submitting runs are open at a time. */
  predicate AtMostOpen(s: State, events: seq<Event>, limit: nat, most: nat) {
    && |Open(Replay(s, events))| <= most
    && (events == [] ||
         (var before := events[..|events| - 1];
          var e := events[|events| - 1];
          && AtMostOpen(s, before, limit, most)
          && !e.OwnerEdits?
          && (e.Check? ==> e.maxPerDay == limit)
          && StampedInOrder(Replay(s, before), e)))
  }

  /** What is counted in a day, and what may still be, stays within the bound. */
  ghost predicate WithinBound(s: State, bound: nat) {
    && (forall id :: id in s.runs ==> s.runs[id].checkTime <= s.runs[id].stamp)
    && forall from: int :: |InWindow(s.ledger, from) + MayCount(s, from)| <= bound
  }

  lemma {:induction false} SubsetSize<T>(a: set<T>, b: set<T>)
    requires a <= b
    ensures |a| <= |b|
  {
    if a != {} {
      var x :| x in a;
      SubsetSize(a - {x}, b - {x});
    }
  }

  lemma {:induction false} ImageSize(runs: map<RunId, Run>, ids: set<RunId>)
    requires forall id :: id in ids ==> id in runs
    ensures |(set id | id in ids :: runs[id].job)| <= |ids|
  {
    if ids != {} {
      var x :| x in ids;
      ImageSize(runs, ids - {x});
      var less := set id | id in ids - {x} :: runs[id].job;
      assert (set id | id in ids :: runs[id].job) == less + {runs[x].job};
    }
  }

  /** A new submitting run: fewer than the limit are counted in any day it can still reach. */
  lemma BoundAfterCheck(s: State, t: State, now: int, limit: nat, most: nat, from: int)
    requires |Recent(s.ledger, now)| < limit && t.ledger == s.ledger && |Open(t)| <= most
    requires now < from + DAY_MS
    ensures |InWindow(t.ledger, from) + MayCount(t, from)| <= limit - 1 + most
  {
    SubsetSize(InWindow(t.ledger, from), Recent(s.ledger, now));
    var ids := set id | id in Open(t) && t.runs[id].checkTime < from + DAY_MS;
    SubsetSize(ids, Open(t));
    ImageSize(t.runs, ids);
    assert MayCount(t, from) == set id | id in ids :: t.runs[id].job;
    UnionSize(InWindow(t.ledger, from), MayCount(t, from));
  }

  lemma UnionSize<T>(a: set<T>, b: set<T>)
    ensures |a + b| <= |a| + |b|
  {
    assert a + b == a + (b - a);
    SubsetSize(b - a, b);
  }

  /** Steps that write for an open run, or end runs: nothing new comes into any day. */
  lemma BoundShrinks(s: State, t: State, bound: nat)
    requires WithinBound(s, bound)
    requires forall id :: id in t.runs ==> t.runs[id].checkTime <= t.runs[id].stamp
    requires forall from: int :: InWindow(t.ledger, from) + MayCount(t, from) <= InWindow(s.ledger, from) + MayCount(s, from)
    ensures WithinBound(t, bound)
  {
    forall from: int
      ensures |InWindow(t.ledger, from) + MayCount(t, from)| <= bound
    {
      SubsetSize(InWindow(t.ledger, from) + MayCount(t, from), InWindow(s.ledger, from) + MayCount(s, from));
    }
  }

  /** An entry written by an open run counts, if at all, in a day that run may count in. */
  lemma WriteWithin(s: State, e: Event, from: int)
    requires (e.RecordIntent? || e.RecordOutcome? || e.StopBeforeSubmit? || e.Skip?) && StampedInOrder(s, e)
    requires forall id :: id in s.runs ==> s.runs[id].checkTime <= s.runs[id].stamp
    requires forall id :: id in s.runs && s.runs[id].phase in {Recorded, Clicked} ==> s.runs[id].submit
    ensures InWindow(Next(s, e).ledger, from) <= InWindow(s.ledger, from) + MayCount(s, from)
  {
    var t := Next(s, e);
    forall job | job in InWindow(t.ledger, from)
      ensures job in InWindow(s.ledger, from) + MayCount(s, from)
    {
      if job !in InWindow(s.ledger, from) {
        var id := e.id;
        assert job == s.runs[id].job && s.runs[id].submit && s.runs[id].checkTime < from + DAY_MS;
      }
    }
  }

  /** What is open after a step was open before, on the same terms, unless the step is a check. */
  lemma MayCountShrinks(s: State, e: Event, from: int)
    requires !e.Check?
    ensures MayCount(Next(s, e), from) <= MayCount(s, from)
  {
    RunsKept(s, e);
    hide Next;
    var t := Next(s, e);
    forall job | job in MayCount(t, from)
      ensures job in MayCount(s, from)
    {
      var id :| id in t.runs && t.runs[id].submit && t.runs[id].checkTime < from + DAY_MS && t.runs[id].job == job;
      assert id in s.runs && s.runs[id].job == job;
    }
  }

  lemma RunsKept(s: State, e: Event)
    requires !e.Check?
    ensures forall id :: id in Next(s, e).runs ==>
              id in s.runs && Next(s, e).runs[id].(phase := Checked, stamp := 0) == s.runs[id].(phase := Checked, stamp := 0)
  {
  }

  lemma StampsKept(s: State, e: Event)
    requires StampedInOrder(s, e)
    requires forall id :: id in s.runs ==> s.runs[id].checkTime <= s.runs[id].stamp
    requires forall id :: id in s.runs && s.runs[id].phase in {Recorded, Clicked} ==> s.runs[id].submit
    ensures forall id :: id in Next(s, e).runs ==> Next(s, e).runs[id].checkTime <= Next(s, e).runs[id].stamp
    ensures forall id :: id in Next(s, e).runs && Next(s, e).runs[id].phase in {Recorded, Clicked} ==> Next(s, e).runs[id].submit
  {
  }

  lemma LedgerKept(s: State, e: Event)
    requires !(e.RecordIntent? || e.RecordOutcome? || e.StopBeforeSubmit? || e.Skip? || e.OwnerEdits?)
    ensures Next(s, e).ledger == s.ledger
  {
  }

  /** Only runs that submit get as far as recording their intent. */
  ghost predicate SubmittersRecord(s: State) {
    forall id :: id in s.runs && s.runs[id].phase in {Recorded, Clicked} ==> s.runs[id].submit
  }

  lemma BoundCheck(s: State, e: Event, limit: nat, most: nat)
    requires most >= 1 && WithinBound(s, limit + most - 1) && SubmittersRecord(s)
    requires e.Check? && e.maxPerDay == limit && |Open(Next(s, e))| <= most
    ensures WithinBound(Next(s, e), limit + most - 1)
  {
    var t := Next(s, e);
    StampsKept(s, e);
    forall from: int
      ensures |InWindow(t.ledger, from) + MayCount(t, from)| <= limit + most - 1
    {
      if t != s && e.submit && e.now < from + DAY_MS {
        BoundAfterCheck(s, t, e.now, limit, most, from);
      } else {
        SameMayCount(s, e, from);
      }
    }
  }

  lemma SameMayCount(s: State, e: Event, from: int)
    requires e.Check? && (Next(s, e) == s || !e.submit || e.now >= from + DAY_MS)
    ensures MayCount(Next(s, e), from) == MayCount(s, from) && Next(s, e).ledger == s.ledger
  {
    var t := Next(s, e);
    if t != s {
      assert forall id :: id in t.runs && id != e.id ==> id in s.runs && t.runs[id] == s.runs[id];
      assert forall id :: id in s.runs ==> id != e.id && id in t.runs;
    }
  }

  lemma BoundNext(s: State, e: Event, limit: nat, most: nat)
    requires most >= 1 && WithinBound(s, limit + most - 1) && SubmittersRecord(s)
    requires !e.OwnerEdits? && (e.Check? ==> e.maxPerDay == limit) && StampedInOrder(s, e) && |Open(Next(s, e))| <= most
    ensures WithinBound(Next(s, e), limit + most - 1) && SubmittersRecord(Next(s, e))
  {
    StampsKept(s, e);
    if e.Check? {
      BoundCheck(s, e, limit, most);
    } else {
      var t := Next(s, e);
      forall from: int
        ensures InWindow(t.ledger, from) + MayCount(t, from) <= InWindow(s.ledger, from) + MayCount(s, from)
      {
        MayCountShrinks(s, e, from);
        if e.RecordIntent? || e.RecordOutcome? || e.StopBeforeSubmit? || e.Skip? {
          WriteWithin(s, e, from);
        } else {
          LedgerKept(s, e);
        }
      }
      hide Next;
      BoundShrinks(s, t, limit + most - 1);
    }
  }

  lemma {:induction false} BoundRun(events: seq<Event>, limit: nat, most: nat)
    requires most >= 1 && AtMostOpen(FRESH, events, limit, most)
    ensures WithinBound(Replay(FRESH, events), limit + most - 1) && SubmittersRecord(Replay(FRESH, events))
  {
    if events == [] {
      forall from: int
        ensures |InWindow(FRESH.ledger, from) + MayCount(FRESH, from)| <= limit + most - 1
      {
        assert InWindow(FRESH.ledger, from) + MayCount(FRESH, from) == {};
      }
    } else {
      var before := events[..|events| - 1];
      BoundRun(before, limit, most);
      BoundNext(Replay(FRESH, before), events[|events| - 1], limit, most);
    }
  }

  /** With a fixed limit, however runs overlap: if at most `most` submitting runs are open at a time, no 24-hour
      window ever holds more counted submissions than the limit and the other open runs together. */
  lemma OverlapLimit(events: seq<Event>, limit: nat, most: nat, from: int)
    requires most >= 1 && AtMostOpen(FRESH, events, limit, most)
    ensures |InWindow(Replay(FRESH, events).ledger, from)| <= limit + (most - 1)
  {
    BoundRun(events, limit, most);
    var s := Replay(FRESH, events);
    hide Replay;
    assert |InWindow(s.ledger, from) + MayCount(s, from)| <= limit + most - 1;
    SubsetSize(InWindow(s.ledger, from), InWindow(s.ledger, from) + MayCount(s, from));
  }

  /** With a fixed limit and one submitting run at a time, no 24-hour window ever holds more counted submissions
      than the limit, although the count is taken before the stamp it guards. */
  lemma RollingLimit(events: seq<Event>, limit: nat, from: int)
    requires AtMostOpen(FRESH, events, limit, 1)
    ensures |InWindow(Replay(FRESH, events).ledger, from)| <= limit
  {
    OverlapLimit(events, limit, 1, from);
  }
}
