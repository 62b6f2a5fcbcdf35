/** The queue's stateful objects: the store that runs the SQL statements, the worker that
    drives them, and the approval manager. Each method is tied to the function of the stored
    record that the run guarantees are about. */
module ActionQueueStore {
  import opened Common
  import opened ActionQueue
  import opened ActionWorker
  import opened ActionRuns

  predicate DueRecord(r: Record, now: int) {
    r.row.Some? && Due(r.row.value, now)
  }

  /** ORDER BY next_attempt_at, created_at. */
  predicate NoLater(a: Row, b: Row) {
    a.nextAttemptAt < b.nextAttemptAt || (a.nextAttemptAt == b.nextAttemptAt && a.createdAt <= b.createdAt)
  }

  /** `id` is due and no due row comes strictly before it. */
  predicate NextDue(records: map<ActionId, Record>, id: ActionId, now: int) {
    && id in records && DueRecord(records[id], now)
    && forall other :: other in records && DueRecord(records[other], now) ==>
         NoLater(records[id].row.value, records[other].row.value)
  }

  lemma {:induction false} NextDueAmong(records: map<ActionId, Record>, ids: set<ActionId>) returns (id: ActionId)
    requires ids != {}
    requires forall other :: other in ids ==> other in records && records[other].row.Some?
    ensures id in ids
    ensures forall other :: other in ids ==> NoLater(records[id].row.value, records[other].row.value)
    decreases ids
  {
    var one :| one in ids;
    var rest := ids - {one};
    id := one;
    if rest != {} {
      var best := NextDueAmong(records, rest);
      if !NoLater(records[one].row.value, records[best].row.value) {
        id := best;
      }
    }
    forall other | other in ids
      ensures NoLater(records[id].row.value, records[other].row.value)
    {
      assert other == one || other in rest;
    }
  }

  /** Whenever some row is due, one is next. */
  lemma NextDueExists(records: map<ActionId, Record>, due: ActionId, now: int)
    requires due in records && DueRecord(records[due], now)
    ensures exists id :: NextDue(records, id, now)
  {
    var ids := set other | other in records && DueRecord(records[other], now);
    assert due in ids;
    var id := NextDueAmong(records, ids);
    assert NextDue(records, id, now);
  }

  /** The next row to lease is due (waiting and ripe, or held under a lease that has run out), and no other due row has
      an earlier next attempt, or an equal one and an earlier creation. */
  lemma NextDueMeans(records: map<ActionId, Record>, id: ActionId, now: int)
    ensures NextDue(records, id, now) <==>
            && id in records && Ripe(records[id], now)
            && forall other :: other in records && Ripe(records[other], now) ==>
                 var a, b := records[id].row.value, records[other].row.value;
                 a.nextAttemptAt < b.nextAttemptAt || (a.nextAttemptAt == b.nextAttemptAt && a.createdAt <= b.createdAt)
  {
  }

  predicate Ripe(r: Record, now: int) {
    && r.row.Some?
    && (var row := r.row.value;
        || ((row.status == Queued || row.status == RetryWait) && row.nextAttemptAt <= now)
        || ((row.status == Leased || row.status == Executing) && row.leaseExpiresAt.Some? && row.leaseExpiresAt.value <= now))
  }

  class Store {
    var records: map<ActionId, Record>

    constructor ()
      ensures records == map[]
    {
      records := map[];
    }

    /** Commit a new value for one action; every other action keeps its own. */
    method Put(id: ActionId, r: Record)
      modifies this
      ensures records == old(records)[id := r]
    {
      records := records[id := r];
    }

    method EnqueueAction(id: ActionId, arguments: string, now: int) returns (out: Result<Row>)
      modifies this
      ensures id !in old(records) ==> out.Err? && records == old(records)
      ensures id in old(records) ==>
                && records == old(records)[id := Enqueued(old(records)[id], arguments, now)]
                && Some(records[id].row.value) == records[id].row && out == Ok(records[id].row.value)
    {
      if id !in records { return Err; }
      if records[id].row.None? {
        Put(id, records[id].(row := Some(FreshRow(arguments, now))));
      }
      out := Ok(records[id].row.value);
    }

    method CancelUnstartedAction(id: ActionId) returns (cancelled: bool)
      modifies this
      ensures cancelled <==> id in old(records) && CancelledUnstarted(old(records)[id]).Some?
      ensures records == if cancelled then old(records)[id := CancelledUnstarted(old(records)[id]).value] else old(records)
    {
      if id !in records || records[id].row.None? { return false; }
      var row := records[id].row.value;
      if row.status !in {Queued, RetryWait} || records[id].action.status == Executed { return false; }
      var r := records[id].(row := Some(row.(status := Withdrawn, errorClass := Some(NonRetryable))));
      Put(id, r.(action := r.action.(status := Cancelled)));
      cancelled := true;
    }

    method UpdateStatus(id: ActionId, status: ActionStatus)
      modifies this
      ensures records == if id in old(records) then old(records)[id := WithStatus(old(records)[id], status)] else old(records)
    {
      if id in records {
        Put(id, records[id].(action := records[id].action.(status := status)));
      }
    }

    method StopLeasedAction(id: ActionId, owner: WorkerId, status: QueueStatus, cause: ErrorClass) returns (ok: bool)
      modifies this
      ensures ok <==> id in old(records) && StoppedLease(old(records)[id], owner, status, cause).Ok?
      ensures ok <==> status in {Stopped, Withdrawn, DeadLetter} && id in old(records) && HeldBy(old(records)[id], Leased, owner)
      ensures records == if ok then old(records)[id := StoppedLease(old(records)[id], owner, status, cause).value] else old(records)
    {
      if status !in {Stopped, Withdrawn, DeadLetter} { return false; }
      if id !in records || !HeldBy(records[id], Leased, owner) { return false; }
      var row := records[id].row.value;
      row := row.(status := status, leaseOwner := None, leaseExpiresAt := None, errorClass := Some(cause));
      Put(id, records[id].(row := Some(row)));
      ok := true;
    }

    /** A stopped or withdrawn row whose outcome is known and that needs no review. */
    predicate MayRunAgain(row: Option<Row>) {
      && row.Some? && row.value.status in {Stopped, Withdrawn}
      && row.value.errorClass != Some(OutcomeUncertain) && row.value.errorClass != Some(RecoveryReviewRequired)
    }

    method RequeueAction(id: ActionId, now: int) returns (ok: bool)
      modifies this
      ensures ok <==> id in old(records) && Requeued(old(records)[id], now).Ok?
      ensures ok <==> id in old(records) && MayRunAgain(old(records)[id].row)
      ensures records == if ok then old(records)[id := Requeued(old(records)[id], now).value] else old(records)
    {
      if id !in records || records[id].row.None? { return false; }
      var row := records[id].row.value;
      if row.errorClass == Some(RecoveryReviewRequired) { return false; }
      if row.errorClass == Some(OutcomeUncertain) { return false; }
      if row.status !in {Stopped, Withdrawn} { return false; }
      row := row.(status := Queued, nextAttemptAt := now, leaseOwner := None, leaseExpiresAt := None, errorClass := None);
      Put(id, records[id].(row := Some(row)));
      ok := true;
    }

    /** The two leasing statements, in order. */
    method Claim(id: ActionId, owner: WorkerId, leaseMs: int, now: int)
      requires id in records && records[id].row.Some?
      modifies this
      ensures records == old(records)[id := OpenAttemptsClosed(LeasedTo(old(records)[id], owner, leaseMs, now), now)]
    {
      var row := records[id].row.value;
      Put(id, records[id].(row := Some(row.(status := Leased, leaseOwner := Some(owner), leaseExpiresAt := Some(now + leaseMs)))));
      Put(id, OpenAttemptsClosed(records[id], now));
    }

    /** Claims the earliest due or expired row of the whole queue, or nothing when none is due. */
    method LeaseNextAction(owner: WorkerId, leaseMs: int, now: int) returns (out: Result<Option<ActionId>>)
      modifies this
      ensures out.Err? <==> owner == "" || leaseMs <= 0
      ensures out.Err? ==> records == old(records)
      ensures out == Ok(None) ==> records == old(records) && forall id :: id in records ==> !DueRecord(records[id], now)
      ensures out.Ok? && out.value.Some? ==>
                var id := out.value.value;
                && NextDue(old(records), id, now)
                && records == old(records)[id := OpenAttemptsClosed(LeasedTo(old(records)[id], owner, leaseMs, now), now)]
                && !DueRecord(records[id], now)
    {
      if owner == "" || leaseMs <= 0 { return Err; }
      if id :| id in records && DueRecord(records[id], now) {
        NextDueExists(records, id, now);
        var next :| next in records && NextDue(records, next, now);
        Claim(next, owner, leaseMs, now);
        return Ok(Some(next));
      }
      out := Ok(None);
    }

    method LeaseActionByActionId(id: ActionId, owner: WorkerId, leaseMs: int, now: int) returns (out: Result<bool>)
      modifies this
      ensures out.Err? <==> id == "" || owner == ""
      ensures out.Ok? ==> (out.value <==> id in old(records) && DueRecord(old(records)[id], now))
      ensures records == if out == Ok(true)
                         then old(records)[id := OpenAttemptsClosed(LeasedTo(old(records)[id], owner, leaseMs, now), now)]
                         else old(records)
    {
      if id == "" || owner == "" { return Err; }
      var due := id in records && DueRecord(records[id], now);
      if due {
        Claim(id, owner, leaseMs, now);
      }
      out := Ok(due);
    }

    method RenewActionLease(id: ActionId, owner: WorkerId, leaseMs: int, now: int) returns (out: Result<bool>)
      modifies this
      ensures out.Err? <==> id == "" || owner == "" || leaseMs <= 0
      ensures out.Ok? ==> (out.value <==> (id in old(records) &&
                             (HeldBy(old(records)[id], Leased, owner) || HeldBy(old(records)[id], Executing, owner))))
      ensures records == if out.Ok? && id in old(records)
                         then old(records)[id := Renewed(old(records)[id], owner, leaseMs, now)] else old(records)
    {
      if id == "" || owner == "" || leaseMs <= 0 { return Err; }
      var held := id in records && (HeldBy(records[id], Leased, owner) || HeldBy(records[id], Executing, owner));
      if held {
        var row := records[id].row.value;
        Put(id, records[id].(row := Some(row.(leaseExpiresAt := Some(now + leaseMs)))));
      }
      out := Ok(held);
    }

    method BeginActionAttempt(id: ActionId, owner: WorkerId, now: int) returns (number: Option<nat>)
      modifies this
      ensures number.Some? <==> id in old(records) && Begun(old(records)[id], owner, now).Ok?
      ensures records == if number.Some? then old(records)[id := Begun(old(records)[id], owner, now).value] else old(records)
      ensures number.Some? ==> records[id].row.Some? && number.value == records[id].row.value.attemptCount
    {
      if id !in records || !HeldBy(records[id], Leased, owner) { return None; }
      var row := records[id].row.value;
      if row.leaseExpiresAt.None? || row.leaseExpiresAt.value <= now { return None; }
      var n := row.attemptCount + 1;
      var r := records[id].(attempts := records[id].attempts + [Attempt(n, owner, InProgress, now, None, None, None)]);
      Put(id, r.(row := Some(row.(status := Executing, attemptCount := n))));
      number := Some(n);
    }

    method SettleAttempt(id: ActionId, number: nat, owner: WorkerId, status: QueueStatus, attemptStatus: AttemptStatus,
                         error: Option<string>, cause: Option<ErrorClass>, next: Option<int>, now: int) returns (ok: bool)
      modifies this
      ensures ok <==> (id in old(records)
                       && Settled(old(records)[id], number, owner, status, attemptStatus, error, cause, next, now).Ok?)
      ensures records == if ok
                then old(records)[id := Settled(old(records)[id], number, owner, status, attemptStatus, error, cause, next, now).value]
                else old(records)
    {
      if id !in records || !AttemptExists(records[id], number) { return false; }
      var r := records[id];
      var attempt := r.attempts[number - 1];
      if attempt.status != InProgress || attempt.leaseOwner != owner { return false; }
      if !HeldBy(r, Executing, owner) { return false; }
      var row := r.row.value.(status := status, leaseOwner := None, leaseExpiresAt := None, errorClass := cause);
      if next.Some? { row := row.(nextAttemptAt := next.value); }
      attempt := attempt.(status := attemptStatus, finishedAt := Some(now), error := error, errorClass := cause);
      Put(id, r.(row := Some(row), attempts := r.attempts[number - 1 := attempt]));
      ok := true;
    }

    method CompleteActionAttempt(id: ActionId, number: nat, owner: WorkerId, now: int) returns (ok: bool)
      modifies this
      ensures ok <==> id in old(records) && AttemptCompleted(old(records)[id], number, owner, now).Ok?
      ensures records == if ok then old(records)[id := AttemptCompleted(old(records)[id], number, owner, now).value] else old(records)
    {
      ok := SettleAttempt(id, number, owner, Completed, Succeeded, None, None, None, now);
    }

    method FailActionAttempt(id: ActionId, number: nat, owner: WorkerId, error: string, cause: ErrorClass, now: int)
      returns (ok: bool)
      modifies this
      ensures ok <==> id in old(records) && AttemptFailed(old(records)[id], number, owner, error, cause, now).Ok?
      ensures records == if ok then old(records)[id := AttemptFailed(old(records)[id], number, owner, error, cause, now).value] else old(records)
    {
      if id !in records || !AttemptExists(records[id], number) { return false; }
      var retryable := cause == Retryable && number < MAX_ATTEMPTS;
      var exhausted := cause == Retryable && !retryable;
      var status := if retryable then RetryWait else if exhausted then DeadLetter else Stopped;
      var next := if retryable then now + RetryDelayMs(number) else now;
      ok := SettleAttempt(id, number, owner, status, Closed, Some(error), Some(cause), Some(next), now);
    }
  }

  class QueueWorker {
    const store: Store
    const self: Worker

    /** A worker without a name of its own gets a fresh one. */
    constructor (store: Store, self: Worker, newId: WorkerId)
      requires newId != ""
      ensures this.store == store && this.self == self.(id := if self.id == "" then newId else self.id)
      ensures this.self.id != ""
    {
      this.store := store;
      this.self := if self.id == "" then self.(id := newId) else self;
    }

    /** From the lease to the external call, without yielding. `states` lists what was stored
        after every statement: exactly the states of `Stretch`. */
    method ProcessAction(id: ActionId, at: Instants, c: Checks) returns (started: Result<bool>, ghost states: seq<Record>)
      requires self.id != ""
      modifies store
      ensures started.Err? <==> id == ""
      ensures id == "" || id !in old(store.records) ==> store.records == old(store.records) && started != Ok(true)
      ensures id != "" && id in old(store.records) ==>
                && states == Stretch(old(store.records)[id], self, at, c)
                && store.records == old(store.records)[id := Last(states)]
                && (started == Ok(true) <==> Invokes(old(store.records)[id], self, at, c))
    {
      ghost var before := store.records;
      states := [];
      var leased := store.LeaseActionByActionId(id, self.id, self.leaseMs, at.lease);
      if leased.Err? { return Err, []; }
      if !leased.value { return Ok(false), if id in before then [before[id]] else []; }
      ghost var rest;
      var called;
      called, rest := ExecuteLeased(id, at, c);
      return Ok(called), [before[id], LeasedTo(before[id], self.id, self.leaseMs, at.lease)] + rest;
    }

    /** One scheduler tick: the earliest due action of the whole queue goes through its stretch. */
    method ProcessNext(at: Instants, c: Checks) returns (picked: Result<Option<ActionId>>, started: bool, ghost states: seq<Record>)
      requires self.id != ""
      modifies store
      ensures picked.Err? <==> self.leaseMs == 0
      ensures picked.Err? || picked.value.None? ==> store.records == old(store.records) && !started
      ensures picked == Ok(None) ==> forall id :: id in store.records ==> !DueRecord(store.records[id], at.lease)
      ensures picked.Ok? && picked.value.Some? ==>
                var id := picked.value.value;
                && NextDue(old(store.records), id, at.lease)
                && states == Stretch(old(store.records)[id], self, at, c)
                && store.records == old(store.records)[id := Last(states)]
                && (started <==> Invokes(old(store.records)[id], self, at, c))
    {
      ghost var before := store.records;
      picked := store.LeaseNextAction(self.id, self.leaseMs, at.lease);
      if picked.Err? || picked.value.None? { return picked, false, []; }
      var id := picked.value.value;
      ghost var rest;
      started, rest := ExecuteLeased(id, at, c);
      states := [before[id], LeasedTo(before[id], self.id, self.leaseMs, at.lease)] + rest;
    }

    method ExecuteLeased(id: ActionId, at: Instants, c: Checks) returns (started: bool, ghost states: seq<Record>)
      requires id in store.records && HeldBy(store.records[id], Leased, self.id)
      modifies store
      ensures var r := old(store.records)[id];
              var d := Decide(r, c, at.check, self.maxActionAgeMs);
              && states == AfterClaim(r, self, at, d)
              && store.records == old(store.records)[id := Last(states)]
              && (started <==> d == Start && Begun(r, self.id, at.begin).Ok?)
    {
      started := false;
      var action := store.records[id].action;
      var item := store.records[id].row.value;
      if action.status == Rejected || action.rejectedAt.Some? {
        states := StopWith(id, None, Withdrawn, OwnerAttentionRequired, at);
        return;
      }
      if action.status == Executed {
        states := CompleteRecorded(id, at);
        return;
      }
      if c.run.InRun? && c.run.cancelRequested {
        if item.attemptCount > 0 {
          states := StopWith(id, None, Stopped, OwnerAttentionRequired, at);
          return;
        }
        states := StopWith(id, Some(Cancelled), Withdrawn, NonRetryable, at);
        return;
      }
      if c.run.InRun? && c.run.deadlineExpired {
        if item.attemptCount > 0 {
          states := StopWith(id, None, Stopped, OwnerAttentionRequired, at);
          return;
        }
        states := StopWith(id, Some(Blocked), Withdrawn, NonRetryable, at);
        return;
      }
      if c.evaluation.Unresolved? {
        states := StopWith(id, None, Stopped, NonRetryable, at);
        return;
      }
      if c.run.InRun? && c.run.goalInvalid {
        states := StopWith(id, Some(Blocked), Withdrawn, OwnerAttentionRequired, at);
        return;
      }
      if c.evaluation.blocked {
        states := StopWith(id, Some(Blocked), Withdrawn, NonRetryable, at);
        return;
      }
      if action.fromPackage && c.packageProblem {
        states := StopWith(id, Some(Blocked), Withdrawn, NonRetryable, at);
        return;
      }
      if action.createdAt.None? || at.check - action.createdAt.value > self.maxActionAgeMs {
        states := StopWith(id, Some(Failed), Stopped, OwnerAttentionRequired, at);
        return;
      }
      if c.evaluation.requiresApproval && action.approvedAt.None? {
        states := StopWith(id, Some(Pending), Stopped, OwnerAttentionRequired, at);
        return;
      }
      if c.accountProblem {
        states := StopWith(id, Some(Failed), Stopped, OwnerAttentionRequired, at);
        return;
      }
      if item.arguments != action.arguments {
        states := StopWith(id, Some(Failed), Stopped, OwnerAttentionRequired, at);
        return;
      }
      if RecoveredUncertain(store.records[id]) && !action.tool.supportsIdempotency {
        states := StopWith(id, Some(Failed), Stopped, OutcomeUncertain, at);
        return;
      }
      ghost var r := store.records[id];
      var number := store.BeginActionAttempt(id, self.id, at.begin);
      started := number.Some?;
      states := [r, store.records[id]];
    }

    /** The status write, if any, then the stop: two statements. */
    method StopWith(id: ActionId, write: Option<ActionStatus>, status: QueueStatus, cause: ErrorClass, at: Instants)
      returns (ghost states: seq<Record>)
      requires id in store.records && HeldBy(store.records[id], Leased, self.id)
      modifies store
      ensures states == AfterClaim(old(store.records)[id], self, at, Stop(write, status, cause))
      ensures store.records == old(store.records)[id := Last(states)]
    {
      ghost var r := store.records[id];
      if write.Some? {
        store.UpdateStatus(id, write.value);
      }
      ghost var written := store.records[id];
      var ok := store.StopLeasedAction(id, self.id, status, cause);
      states := [r, written, store.records[id]];
    }

    /** The action already ran: record an attempt and complete it without calling the tool. */
    method CompleteRecorded(id: ActionId, at: Instants) returns (ghost states: seq<Record>)
      requires id in store.records && HeldBy(store.records[id], Leased, self.id)
      modifies store
      ensures states == AfterClaim(old(store.records)[id], self, at, AlreadyExecuted)
      ensures store.records == old(store.records)[id := Last(states)]
    {
      ghost var r := store.records[id];
      var number := store.BeginActionAttempt(id, self.id, at.begin);
      ghost var begun := store.records[id];
      if number.Some? {
        var ok := store.CompleteActionAttempt(id, number.value, self.id, at.begin);
      }
      states := [r, begun, store.records[id]];
    }

    /** The executor after the tool: its status write, then the publishing of it. `states` lists what was stored;
        when publishing a success raises an error, `failed` is stored over `executed`. */
    method Returned(id: ActionId, o: Outcome, publishError: Option<ToolError>) returns (result: Outcome, ghost states: seq<Record>)
      requires id in store.records && !o.Unpublished?
      modifies store
      ensures result == if publishError.None? then o
                        else if o.Success? then Unpublished(publishError.value) else Failure(publishError.value)
      ensures states == var r := old(store.records)[id];
                        if o.Failure? then [WithStatus(r, Failed)]
                        else if publishError.None? then [WithStatus(r, Executed)]
                        else [WithStatus(r, Executed), WithStatus(r, Failed)]
      ensures store.records == old(store.records)[id := Last(states)]
    {
      result := o;
      if o.Success? {
        store.UpdateStatus(id, Executed);
        states := [store.records[id]];
        if publishError.Some? {
          store.UpdateStatus(id, Failed);
          states := states + [store.records[id]];
          result := Unpublished(publishError.value);
        }
      } else {
        store.UpdateStatus(id, Failed);
        states := [store.records[id]];
        if publishError.Some? { result := Failure(publishError.value); }
      }
    }

    /** The worker's settlement after the call, classified as the run model classifies it. */
    method SettleCall(id: ActionId, c: Call, at: int) returns (ok: bool)
      requires id in store.records && c.phase.Returned? && c.worker == self.id
      modifies store
      ensures ok <==> Settlement(old(store.records)[id], c, at).Ok?
      ensures store.records == if ok then old(store.records)[id := Settlement(old(store.records)[id], c, at).value] else old(store.records)
    {
      if c.phase.outcome.Success? {
        ok := store.CompleteActionAttempt(id, c.attempt, self.id, at);
      } else {
        var e := c.phase.outcome.error;
        var tool := store.records[id].action.tool;
        var cause := Classify(e);
        if cause == Retryable && !tool.supportsIdempotency && !e.safeToRetry {
          cause := OwnerAttentionRequired;
        }
        ok := store.FailActionAttempt(id, c.attempt, self.id, e.message, cause, at);
      }
    }
  }

  class ApprovalManager {
    const store: Store

    constructor (store: Store)
      ensures this.store == store
    {
      this.store := store;
    }

    /** `states` lists what was stored after each of the two writes of an approval that goes through. */
    method ApproveAction(id: ActionId, at: int, evaluation: Evaluation, accountProblem: bool)
      returns (approved: bool, ghost states: seq<Record>)
      modifies store
      ensures approved <==> (id in old(store.records) && old(store.records)[id].action.status == Pending
                             && evaluation.Evaluated? && !evaluation.blocked && !accountProblem)
      ensures approved ==> states == ApprovalStates(old(store.records)[id], at)
      ensures id !in old(store.records) ==> store.records == old(store.records)
      ensures id in old(store.records) ==>
                store.records == old(store.records)[id := AfterApprove(old(store.records)[id], Approve(at, evaluation, accountProblem, 1))]
    {
      approved, states := false, [];
      if id !in store.records || store.records[id].action.status != Pending || evaluation.Unresolved? {
        return;
      }
      if accountProblem || evaluation.blocked {
        store.UpdateStatus(id, Blocked);
        return;
      }
      var action := store.records[id].action;
      store.Put(id, store.records[id].(action := action.(status := Approved, approvedAt := Some(at))));
      ghost var decided := store.records[id];
      var row := store.records[id].row;
      if row.Some? && row.value.status in {Stopped, Withdrawn} {
        var ok := store.RequeueAction(id, at);
      } else {
        var enqueued := store.EnqueueAction(id, action.arguments, at);
      }
      approved, states := true, [decided, store.records[id]];
    }

    method RejectAction(id: ActionId, at: int) returns (rejected: bool)
      modifies store
      ensures rejected <==> id in old(store.records) && old(store.records)[id].action.status == Pending
      ensures store.records == if rejected then old(store.records)[id := RejectedBy(old(store.records)[id], at)] else old(store.records)
    {
      rejected := id in store.records && store.records[id].action.status == Pending;
      if rejected {
        var action := store.records[id].action;
        store.Put(id, store.records[id].(action := action.(status := Rejected, rejectedAt := Some(at))));
      }
    }
  }
}
