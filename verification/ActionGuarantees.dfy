/** What holds in every run of the action queue, from the proposal on. */
module ActionGuarantees {
  import opened Common
  import opened ActionQueue
  import opened ActionWorker
  import opened ActionRuns

  predicate Sound(w: World) {
    Fenced(w.db) && Authority(w.db) && CallsRecorded(w) && RetriesAccounted(w.db)
  }

  lemma SoundNext(w: World, e: Event)
    requires Sound(w)
    ensures Sound(Next(w, e))
  {
    FencedNext(w, e);
    AuthorityNext(w, e);
    CallsRecordedNext(w, e);
    RetriesNext(w, e);
  }

  lemma {:induction false} SoundRun(w: World, events: seq<Event>)
    requires Proposed(w)
    ensures Sound(Replay(w, events))
  {
    if events != [] {
      SoundRun(w, events[..|events| - 1]);
      SoundNext(Replay(w, events[..|events| - 1]), Last(events));
    }
  }

  lemma ReplayLast(w: World, events: seq<Event>)
    requires events != []
    ensures Replay(w, events) == Next(Replay(w, events[..|events| - 1]), Last(events))
  {
    hide Next;
  }

  lemma ReplayPush(w: World, events: seq<Event>, e: Event)
    ensures Replay(w, events + [e]) == Next(Replay(w, events), e)
  {
    hide Next;
    assert (events + [e])[..|events|] == events;
  }

  lemma {:induction false} ReplayAppend(w: World, first: seq<Event>, more: seq<Event>)
    ensures Replay(w, first + more) == Replay(Replay(w, first), more)
  {
    if more == [] {
      assert first + more == first;
    } else {
      var all := first + more;
      assert all[..|all| - 1] == first + more[..|more| - 1];
      ReplayAppend(w, first, more[..|more| - 1]);
    }
  }

  lemma {:induction false} ToolFixed(w: World, events: seq<Event>)
    requires Proposed(w)
    ensures Replay(w, events).db.action.tool == w.db.action.tool
  {
    if events != [] {
      var before := events[..|events| - 1];
      ToolFixed(w, before);
      SoundRun(w, before);
      ExtendsNext(Replay(w, before), Last(events));
    }
  }

  // ---------- Many actions in one queue ----------

  /** One step of a queue holding many actions: it concerns one of them. */
  function NextAmong(queue: map<ActionId, World>, id: ActionId, e: Event): map<ActionId, World> {
    if id in queue then queue[id := Next(queue[id], e)] else queue
  }

  function ReplayAll(queue: map<ActionId, World>, steps: seq<(ActionId, Event)>): map<ActionId, World> {
    if steps == [] then queue
    else NextAmong(ReplayAll(queue, steps[..|steps| - 1]), Last(steps).0, Last(steps).1)
  }

  function EventsOf(steps: seq<(ActionId, Event)>, id: ActionId): seq<Event> {
    if steps == [] then []
    else EventsOf(steps[..|steps| - 1], id) + if Last(steps).0 == id then [Last(steps).1] else []
  }

  /** Whatever the other actions do, each action goes through a run of its own events: every
      guarantee below about one action holds of every action in the queue. */
  lemma {:induction false} EachActionRunsAlone(queue: map<ActionId, World>, steps: seq<(ActionId, Event)>, id: ActionId)
    requires id in queue
    ensures id in ReplayAll(queue, steps)
    ensures ReplayAll(queue, steps)[id] == Replay(queue[id], EventsOf(steps, id))
  {
    if steps != [] {
      var before := steps[..|steps| - 1];
      EachActionRunsAlone(queue, before, id);
      if Last(steps).0 == id {
        var events := EventsOf(steps, id);
        assert events[..|events| - 1] == EventsOf(before, id);
      } else {
        assert EventsOf(steps, id) == EventsOf(before, id);
      }
    }
  }

  // ---------- At most once ----------

  lemma {:induction false} OnceRun(w: World, events: seq<Event>)
    requires Proposed(w) && !w.db.action.tool.supportsIdempotency
    ensures Once(Replay(w, events))
  {
    if events != [] {
      var before := events[..|events| - 1];
      OnceRun(w, before);
      SoundRun(w, before);
      ToolFixed(w, before);
      OnceNext(Replay(w, before), Last(events));
    }
  }

  /** Without idempotency support, in every run: a call that the store has not recorded as a
      safe-to-retry failure is the last one there ever is. */
  lemma AtMostOnce(w: World, events: seq<Event>, i: nat, j: nat)
    requires Proposed(w) && !w.db.action.tool.supportsIdempotency
    requires i < j < |Replay(w, events).calls|
    ensures SafeFailure(Replay(w, events).calls[i])
  {
    OnceRun(w, events);
  }

  /** ... and at the moment of a further call every earlier one is already so recorded. */
  lemma NoCallWhileUncertain(w: World, events: seq<Event>, e: Event)
    requires Proposed(w) && !w.db.action.tool.supportsIdempotency
    requires |Next(Replay(w, events), e).calls| > |Replay(w, events).calls|
    ensures forall i :: 0 <= i < |Replay(w, events).calls| ==> SafeFailure(Replay(w, events).calls[i])
  {
    OnceRun(w, events);
    SoundRun(w, events);
    ToolFixed(w, events);
    InvokesOnlyAfterSafeFailures(Replay(w, events), e);
  }

  // ---------- Lease fencing ----------

  /** In every reachable state: attempts are numbered 1..attempt_count, at most one is open, and
      an executing row has exactly one open, the newest, held by the row's own lease owner. */
  lemma LeaseFencing(w: World, events: seq<Event>)
    requires Proposed(w)
    ensures var r := Replay(w, events).db;
            && (r.row.Some? ==> |r.attempts| == r.row.value.attemptCount)
            && (forall i :: 0 <= i < |r.attempts| ==> r.attempts[i].number == i + 1)
            && (forall i, j | 0 <= i < |r.attempts| && 0 <= j < |r.attempts| ::
                  r.attempts[i].status == InProgress && r.attempts[j].status == InProgress ==> i == j)
            && (r.row.Some? && r.row.value.status == Executing ==>
                  exists i :: 0 <= i < |r.attempts| && r.attempts[i].status == InProgress
                    && r.attempts[i].number == r.row.value.attemptCount
                    && r.row.value.leaseOwner == Some(r.attempts[i].leaseOwner))
  {
    SoundRun(w, events);
    var r := Replay(w, events).db;
    if r.row.Some? && r.row.value.status == Executing {
      assert r.attempts[|r.attempts| - 1].status == InProgress;
    }
  }

  /** An attempt once closed (displaced by a later lease, or settled) is never written again ... */
  lemma {:induction false} ClosedAttemptIsFinal(w: World, events: seq<Event>, more: seq<Event>, i: nat)
    requires Proposed(w)
    requires i < |Replay(w, events).db.attempts| && Replay(w, events).db.attempts[i].status != InProgress
    ensures i < |Replay(w, events + more).db.attempts|
    ensures Replay(w, events + more).db.attempts[i] == Replay(w, events).db.attempts[i]
  {
    ReplayAppend(w, events, more);
    if more == [] {
    } else {
      var shorter := more[..|more| - 1];
      ClosedAttemptIsFinal(w, events, shorter, i);
      ReplayAppend(w, events, shorter);
      SoundRun(w, events + shorter);
      ExtendsNext(Replay(w, events + shorter), Last(more));
    }
  }

  /** ... and its call, however late it comes back, cannot settle the row. */
  lemma DisplacedCallCannotSettle(w: World, events: seq<Event>, more: seq<Event>, call: nat, at: int)
    requires Proposed(w)
    requires call < |Replay(w, events + more).calls|
    requires var a := Replay(w, events + more).calls[call].attempt;
             1 <= a <= |Replay(w, events).db.attempts| && Replay(w, events).db.attempts[a - 1].status != InProgress
    ensures Next(Replay(w, events + more), Settle(call, at)).db == Replay(w, events + more).db
  {
    ClosedAttemptIsFinal(w, events, more, Replay(w, events + more).calls[call].attempt - 1);
  }

  // ---------- Owner authority ----------

  /** The approval goes through: the owner approved a pending action and nothing blocked it. */
  predicate Approves(w: World, e: Event) {
    && e.Approve?
    && w.db.action.status == Pending
    && e.evaluation.Evaluated? && !e.evaluation.blocked && !e.accountProblem
  }

  lemma OnlyApprovalApproves(w: World, e: Event)
    requires Sound(w)
    ensures var before, after := w.db.action.approvedAt, Next(w, e).db.action.approvedAt;
            if Approves(w, e) then before.None? && after == Some(e.at) else after == before
  {
    if e.Work? {
      var n := |Stretch(w.db, e.worker, e.instants, e.checks)|;
      ExtendsStretch(w.db, e.worker, e.instants, e.checks, if e.cut < n then e.cut else n - 1);
    }
  }

  lemma {:induction false} ApprovalHappened(w: World, events: seq<Event>)
    requires Proposed(w) && Replay(w, events).db.action.approvedAt.Some?
    ensures exists i :: 0 <= i < |events| && Approves(Replay(w, events[..i]), events[i])
              && events[i].at == Replay(w, events).db.action.approvedAt.value
  {
    if events != [] {
      var before := events[..|events| - 1];
      SoundRun(w, before);
      OnlyApprovalApproves(Replay(w, before), Last(events));
      if !Approves(Replay(w, before), Last(events)) {
        ApprovalHappened(w, before);
        var i :| 0 <= i < |before| && Approves(Replay(w, before[..i]), before[i])
                 && before[i].at == Replay(w, before).db.action.approvedAt.value;
        assert before[..i] == events[..i] && before[i] == events[i];
      }
    }
  }

  /** Every call ever made was made under a policy that did not block it, with the proposed
      arguments, on an action neither rejected nor stale, and approved if the policy asked for it. */
  lemma EveryCallAuthorised(w: World, events: seq<Event>, i: nat)
    requires Proposed(w) && i < |Replay(w, events).calls|
    ensures Authorised(Replay(w, events).calls[i], Replay(w, events).db.action)
  {
    SoundRun(w, events);
  }

  /** The event that makes a call: the policy asked at that very stretch, and, when it requires
      approval, the owner's approval is an earlier event of the run. */
  lemma CallAfterApproval(w: World, events: seq<Event>, e: Event)
    requires Proposed(w)
    requires |Next(Replay(w, events), e).calls| > |Replay(w, events).calls|
    ensures e.Work? && e.checks.evaluation.Evaluated? && !e.checks.evaluation.blocked
    ensures Replay(w, events).db.action.status !in {Rejected, Executed}
    ensures e.checks.evaluation.requiresApproval ==>
              exists i :: 0 <= i < |events| && Approves(Replay(w, events[..i]), events[i])
  {
    SoundRun(w, events);
    if e.checks.evaluation.requiresApproval {
      ApprovalHappened(w, events);
    }
  }

  lemma NeverApprovedAndRejected(w: World, events: seq<Event>)
    requires Proposed(w)
    ensures var a := Replay(w, events).db.action; a.approvedAt.None? || a.rejectedAt.None?
  {
    SoundRun(w, events);
  }

  // ---------- Approvals happen once and leave a runnable row ----------

  function Approvals(w: World, events: seq<Event>): nat {
    if events == [] then 0
    else
      var before := events[..|events| - 1];
      Approvals(w, before) + if Approves(Replay(w, before), Last(events)) then 1 else 0
  }

  lemma {:induction false} SingleApproval(w: World, events: seq<Event>)
    requires Proposed(w)
    ensures Approvals(w, events) == if Replay(w, events).db.action.approvedAt.Some? then 1 else 0
  {
    if events != [] {
      var before := events[..|events| - 1];
      SingleApproval(w, before);
      SoundRun(w, before);
      OnlyApprovalApproves(Replay(w, before), Last(events));
    }
  }

  /** The row goes back from stopped or withdrawn to queued. */
  predicate Requeues(w: World, e: Event) {
    && w.db.row.Some? && w.db.row.value.status in {Stopped, Withdrawn}
    && Next(w, e).db.row.Some? && Next(w, e).db.row.value.status !in {Stopped, Withdrawn}
  }

  /** Only an approval requeues, so a row is requeued at most once too. */
  lemma RequeuedOnlyByApproval(w: World, events: seq<Event>, e: Event)
    requires Proposed(w) && Requeues(Replay(w, events), e)
    ensures Approves(Replay(w, events), e) && Approvals(w, events) == 0
  {
    SoundRun(w, events);
    SingleApproval(w, events);
  }

  predicate Runnable(row: Option<Row>) {
    row.Some? && row.value.status in {Queued, Leased, Executing}
  }

  /** An approval leaves a row that is queued, or already in a worker's hands, exactly when it runs to its end or
      found the row in a worker's hands: dying between its two writes, it leaves nothing that will run. */
  lemma ApprovalLeavesRunnableRow(w: World, events: seq<Event>, e: Event)
    requires Proposed(w) && Approves(Replay(w, events), e)
    ensures var before := Replay(w, events).db.row;
            Runnable(Next(Replay(w, events), e).db.row) <==> e.cut > 0 || (before.Some? && Held(before.value))
  {
    SoundRun(w, events);
  }

  /** An approval that dies after its first write is lost for good: a stopped row and its calls never change again
      in any continuation, and where there was no row none appears unless the action is enqueued anew. */
  lemma CutApprovalIsLost(w: World, events: seq<Event>, e: Event, more: seq<Event>)
    requires Proposed(w) && Approves(Replay(w, events), e) && e.cut == 0
    requires var row := Replay(w, events).db.row; row.None? || row.value.status == Stopped
    requires Replay(w, events).db.row.None? ==> forall f :: f in more ==> !f.Enqueue?
    ensures var before, after := Replay(w, events), Replay(w, events + [e] + more);
            after.db.row == before.db.row && |after.calls| == |before.calls|
  {
    hide Replay, Next, Sound, Finished;
    SoundRun(w, events);
    ReplayPush(w, events, e);
    CutApproval(Replay(w, events), e);
    if Replay(w, events).db.row.Some? {
      FinishedForever(w, events + [e], more);
    } else {
      NeverEnqueued(w, events + [e], more);
    }
  }

  lemma CutApproval(w: World, e: Event)
    requires Approves(w, e) && e.cut == 0 && (w.db.row.None? || w.db.row.value.status == Stopped)
    ensures var t := Next(w, e);
            && t.db.row == w.db.row && t.calls == w.calls && t.db.action.status != Pending
            && (w.db.row.Some? ==> Finished(t.db))
  {
  }

  lemma NoRowNext(w: World, e: Event)
    requires Sound(w) && w.db.row.None? && w.db.action.status != Pending && !e.Enqueue?
    ensures var t := Next(w, e); t.db.row.None? && t.db.action.status != Pending && |t.calls| == |w.calls|
  {
  }

  lemma {:induction false} NeverEnqueued(w: World, events: seq<Event>, more: seq<Event>)
    requires Proposed(w) && Replay(w, events).db.row.None? && Replay(w, events).db.action.status != Pending
    requires forall f :: f in more ==> !f.Enqueue?
    ensures var before, after := Replay(w, events), Replay(w, events + more);
            after.db.row.None? && after.db.action.status != Pending && |after.calls| == |before.calls|
  {
    ReplayAppend(w, events, more);
    if more != [] {
      var shorter := more[..|more| - 1];
      NeverEnqueued(w, events, shorter);
      ReplayAppend(w, events, shorter);
      SoundRun(w, events + shorter);
      NoRowNext(Replay(w, events + shorter), Last(more));
    }
  }

  // ---------- What a pending action has in the queue ----------

  /** A pending action has no row, or a failed one that an approval may requeue. */
  predicate PendingTidy(r: Record) {
    r.action.status == Pending ==> r.row.None? || (r.row.value.status == Stopped && Requeued(r, 0).Ok?)
  }

  /** A stretch that sends a due action back to its owner dies between its status write and its stop. */
  predicate CutsPendingStop(w: World, e: Event) {
    && e.Work? && e.cut == 3
    && w.db.row.Some? && Due(w.db.row.value, e.instants.lease)
    && (var d := Decide(Claimed(w.db, e.worker, e.instants), e.checks, e.instants.check, e.worker.maxActionAgeMs);
        d.Stop? && d.write == Some(Pending))
  }

  lemma PendingTidyNext(w: World, e: Event)
    requires Sound(w) && PendingTidy(w.db)
    ensures PendingTidy(Next(w, e).db) <==> !CutsPendingStop(w, e)
  {
    if e.Work? && w.db.row.Some? && Due(w.db.row.value, e.instants.lease) {
      PendingTidyStretch(w.db, e);
    }
  }

  lemma PendingTidyStretch(r: Record, e: Event)
    requires e.Work? && Authority(r) && PendingTidy(r) && r.row.Some? && Due(r.row.value, e.instants.lease)
    ensures var states := Stretch(r, e.worker, e.instants, e.checks);
            var k := if e.cut < |states| then e.cut else |states| - 1;
            PendingTidy(states[k]) <==> !CutsPendingStop(World(r, []), e)
  {
  }

  predicate CutsPendingStopAt(w: World, events: seq<Event>, n: nat)
    requires n < |events|
  {
    CutsPendingStop(Replay(w, events[..n]), events[n])
  }

  ghost predicate TidyUpTo(w: World, events: seq<Event>, n: nat)
    requires n <= |events|
  {
    PendingTidy(Replay(w, events[..n]).db)
  }

  lemma SameTidy(w: World, events: seq<Event>, n: nat, m: nat)
    requires m <= n <= |events|
    ensures TidyUpTo(w, events[..n], m) == TidyUpTo(w, events, m)
  {
    hide Replay, PendingTidy;
    assert events[..n][..m] == events[..m];
  }

  lemma TidyStep(w: World, events: seq<Event>, n: nat)
    requires Proposed(w) && n < |events| && TidyUpTo(w, events, n)
    ensures TidyUpTo(w, events, n + 1) <==> !CutsPendingStopAt(w, events, n)
  {
    hide Replay, Next, PendingTidy, CutsPendingStop, Sound;
    SoundRun(w, events[..n]);
    assert events[..n + 1] == events[..n] + [events[n]];
    ReplayPush(w, events[..n], events[n]);
    PendingTidyNext(Replay(w, events[..n]), events[n]);
  }

  /** Throughout a run a pending action has no row or a failed one that may be requeued, exactly when no stretch of
      the run died between sending the action back to its owner and stopping its row. */
  lemma {:induction false} PendingTidyExactly(w: World, events: seq<Event>)
    requires Proposed(w)
    ensures (forall n :: 0 <= n <= |events| ==> TidyUpTo(w, events, n)) <==>
            (forall n :: 0 <= n < |events| ==> !CutsPendingStopAt(w, events, n))
  {
    if events == [] {
      assert events[..0] == events;
    } else {
      hide Replay, TidyUpTo, CutsPendingStopAt;
      var n := |events| - 1;
      PendingTidyExactly(w, events[..n]);
      forall m | 0 <= m <= n
        ensures TidyUpTo(w, events[..n], m) == TidyUpTo(w, events, m)
        ensures m < n ==> CutsPendingStopAt(w, events[..n], m) == CutsPendingStopAt(w, events, m)
      {
        SameTidy(w, events, n, m);
        if m < n {
          SamePendingStop(w, events, n, m);
        }
      }
      if TidyUpTo(w, events, n) {
        TidyStep(w, events, n);
      }
    }
  }

  lemma SamePendingStop(w: World, events: seq<Event>, n: nat, m: nat)
    requires m < n <= |events|
    ensures CutsPendingStopAt(w, events[..n], m) == CutsPendingStopAt(w, events, m)
  {
    hide Replay, CutsPendingStop;
    assert events[..n][..m] == events[..m];
  }

  // ---------- Absorbing outcomes ----------

  /** Nothing can lease this row again. */
  predicate Finished(r: Record) {
    r.row.Some? && !Resumable(r)
  }

  lemma FinishedStatuses(w: World, events: seq<Event>)
    requires Proposed(w) && Replay(w, events).db.row.Some?
    ensures var row := Replay(w, events).db.row.value;
            row.status in {Completed, DeadLetter, Withdrawn}
              || (row.status == Stopped && row.errorClass == Some(OutcomeUncertain))
            ==> Finished(Replay(w, events).db)
  {
    SoundRun(w, events);
  }

  lemma FinishedNext(w: World, e: Event)
    requires Sound(w) && Finished(w.db)
    ensures Finished(Next(w, e).db)
    ensures Next(w, e).db.row == w.db.row && Next(w, e).db.attempts == w.db.attempts
    ensures |Next(w, e).calls| == |w.calls|
  {
  }

  /** A finished row is never changed again: no lease, no attempt, no further call. */
  lemma {:induction false} FinishedForever(w: World, events: seq<Event>, more: seq<Event>)
    requires Proposed(w) && Finished(Replay(w, events).db)
    ensures var before, after := Replay(w, events), Replay(w, events + more);
            && Finished(after.db)
            && after.db.row == before.db.row && after.db.attempts == before.db.attempts
            && |after.calls| == |before.calls|
  {
    ReplayAppend(w, events, more);
    if more != [] {
      var shorter := more[..|more| - 1];
      FinishedForever(w, events, shorter);
      ReplayAppend(w, events, shorter);
      SoundRun(w, events + shorter);
      FinishedNext(Replay(w, events + shorter), Last(more));
    }
  }

  // ---------- An executed action stays executed ----------

  /** Nothing is still running that could overwrite the executed status. */
  predicate ExecutedSettled(w: World) {
    w.db.action.status == Executed ==> forall i :: 0 <= i < |w.calls| ==> w.calls[i].phase != Running
  }

  /** A stretch neither makes an action executed nor changes one that is, nor calls its tool. */
  lemma ExecutedStretch(r: Record, w: Worker, at: Instants, c: Checks, k: nat)
    requires k < |Stretch(r, w, at, c)|
    ensures Stretch(r, w, at, c)[k].action.status == Executed <==> r.action.status == Executed
    ensures r.action.status == Executed ==> !Invokes(r, w, at, c)
  {
  }

  /** A step takes the executed status away exactly when a call still running comes back as a failure, or the
      completion of a call just returned cannot be published. */
  lemma OverwritesExactly(w: World, e: Event)
    requires Sound(w) && w.db.action.status == Executed
    ensures Next(w, e).db.action.status != Executed <==>
            || (e.Return? && e.call < |w.calls| && w.calls[e.call].phase == Running && e.outcome.Failure?)
            || (e.PublishFails? && e.call < |w.calls| && w.calls[e.call].phase == Returned(Success))
  {
    hide Stretch, Invokes, Sound;
    if e.Work? {
      var n := |Stretch(w.db, e.worker, e.instants, e.checks)|;
      ExecutedStretch(w.db, e.worker, e.instants, e.checks, if e.cut < n then e.cut else n - 1);
    }
  }

  /** No completion of a returned call failed to be published. */
  predicate Reliable(events: seq<Event>) {
    forall e :: e in events ==> !e.PublishFails?
  }

  lemma ExecutedNext(w: World, e: Event)
    requires Sound(w) && Once(w) && ExecutedSettled(w) && !w.db.action.tool.supportsIdempotency && !e.PublishFails?
    ensures ExecutedSettled(Next(w, e))
    ensures w.db.action.status == Executed ==> Next(w, e).db.action.status == Executed
  {
    hide Stretch, Invokes, Sound;
    if e.Work? {
      var n := |Stretch(w.db, e.worker, e.instants, e.checks)|;
      ExecutedStretch(w.db, e.worker, e.instants, e.checks, if e.cut < n then e.cut else n - 1);
    } else if e.Approve? || e.Reject? || e.Enqueue? || e.Cancel? || e.Renew? {
      assert Next(w, e).calls == w.calls;
    }
  }

  lemma {:induction false} ExecutedRun(w: World, events: seq<Event>)
    requires Proposed(w) && !w.db.action.tool.supportsIdempotency && Reliable(events)
    ensures ExecutedSettled(Replay(w, events))
  {
    if events != [] {
      var before := events[..|events| - 1];
      assert Last(events) in events;
      ExecutedRun(w, before);
      SoundRun(w, before);
      OnceRun(w, before);
      ToolFixed(w, before);
      ExecutedNext(Replay(w, before), Last(events));
    }
  }

  /** Without idempotency support, and while completions can be published, an action recorded as executed stays
      so, however late other workers come back. */
  lemma {:induction false} ExecutedForever(w: World, events: seq<Event>, more: seq<Event>)
    requires Proposed(w) && !w.db.action.tool.supportsIdempotency && Reliable(events + more)
    requires Replay(w, events).db.action.status == Executed
    ensures Replay(w, events + more).db.action.status == Executed
  {
    ReplayAppend(w, events, more);
    if more != [] {
      var shorter := more[..|more| - 1];
      assert events + more == (events + shorter) + [Last(more)];
      assert Last(more) in events + more && Reliable(events + shorter);
      ExecutedForever(w, events, shorter);
      ReplayAppend(w, events, shorter);
      ExecutedRun(w, events + shorter);
      SoundRun(w, events + shorter);
      OnceRun(w, events + shorter);
      ToolFixed(w, events + shorter);
      ExecutedNext(Replay(w, events + shorter), Last(more));
    }
  }

  // ---------- The tool succeeds at most once ----------

  /** Errors of the publisher do not declare the action safe to retry. */
  predicate PlainPublishErrors(events: seq<Event>) {
    forall e :: e in events && e.PublishFails? ==> !e.error.safeToRetry
  }

  /** The tool returned, whatever happened afterwards. */
  predicate Succeeded(c: Call) {
    (c.phase.Returned? || c.phase.Accepted? || c.phase.Refused?) && !c.phase.outcome.Failure?
  }

  /** The call came back from a tool that returned, with a plain error of the publisher if with any. */
  predicate Plain(c: Call) {
    (c.phase.Returned? || c.phase.Accepted? || c.phase.Refused?) && c.phase.outcome.Unpublished? ==>
      !c.phase.outcome.error.safeToRetry
  }

  predicate UnpublishedPlain(w: World) {
    forall i :: 0 <= i < |w.calls| ==> Plain(w.calls[i])
  }

  lemma UnpublishedPlainNext(w: World, e: Event)
    requires UnpublishedPlain(w) && (e.PublishFails? ==> !e.error.safeToRetry)
    ensures UnpublishedPlain(Next(w, e))
  {
    hide Stretch, Invokes, Settlement;
  }

  lemma {:induction false} UnpublishedPlainRun(w: World, events: seq<Event>)
    requires Proposed(w) && PlainPublishErrors(events)
    ensures UnpublishedPlain(Replay(w, events))
  {
    if events != [] {
      assert Last(events) in events;
      UnpublishedPlainRun(w, events[..|events| - 1]);
      UnpublishedPlainNext(Replay(w, events[..|events| - 1]), Last(events));
    }
  }

  /** Without idempotency support, and unless a publisher's error itself asks for a retry: once the tool has
      returned there is never another call, whether or not its completion could be published. */
  lemma SucceedsAtMostOnce(w: World, events: seq<Event>, i: nat, j: nat)
    requires Proposed(w) && !w.db.action.tool.supportsIdempotency && PlainPublishErrors(events)
    requires i < j < |Replay(w, events).calls|
    ensures !Succeeded(Replay(w, events).calls[i])
  {
    AtMostOnce(w, events, i, j);
    UnpublishedPlainRun(w, events);
  }
}
