/** Whole runs of one action: every interleaving of approvals, worker stretches cut short by
    a crash, lease renewals, external calls that return late or never, and settlements. */
module ActionRuns {
  import opened Common
  import opened ActionQueue
  import opened ActionWorker

  /** How a call comes back: the tool returned and its completion was published, the tool failed, or the tool
      returned but publishing its completion raised an error. */
  datatype Outcome = Success | Failure(error: ToolError) | Unpublished(error: ToolError)

  /** `Accepted`: the store took the settlement; `Refused`: it threw; `Lost`: the process died. */
  datatype Phase = Running | Returned(outcome: Outcome) | Accepted(outcome: Outcome) | Refused(outcome: Outcome) | Lost

  /** One invocation of the tool, with what was true when it happened. */
  datatype Call = Call(
    attempt: nat,
    worker: WorkerId,
    arguments: string,
    checkedAt: int,
    maxActionAgeMs: int,
    evaluation: Evaluation,
    approvedAt: Option<int>,
    rejectedAt: Option<int>,
    phase: Phase)

  datatype World = World(db: Record, calls: seq<Call>)

  datatype Event =
    | Enqueue(arguments: string, at: int)
    | Approve(at: int, evaluation: Evaluation, accountProblem: bool, cut: nat)
    | Reject(at: int)
    | Cancel
    | Work(worker: Worker, instants: Instants, checks: Checks, cut: nat)
    | Renew(owner: WorkerId, leaseMs: nat, at: int)
    | Return(call: nat, outcome: Outcome)
    | PublishFails(call: nat, error: ToolError)
    | Settle(call: nat, at: int)
    | Crash(owner: WorkerId)

  function Last<T>(s: seq<T>): T
    requires s != []
  {
    s[|s| - 1]
  }

  /** The stored states of an approval: the decision, then the queue row. */
  function ApprovalStates(r: Record, at: int): (states: seq<Record>)
    ensures |states| == 2
  {
    var approved := ApprovedBy(r, at);
    [approved,
     if r.row.Some? && r.row.value.status in {Stopped, Withdrawn} then OrSame(Requeued(approved, at), approved)
     else Enqueued(approved, r.action.arguments, at)]
  }

  function AfterApprove(r: Record, e: Event): Record
    requires e.Approve?
  {
    if r.action.status != Pending || e.evaluation.Unresolved? then r
    else if e.accountProblem || e.evaluation.blocked then WithStatus(r, Blocked)
    else ApprovalStates(r, e.at)[if e.cut == 0 then 0 else 1]
  }

  function NewCall(r: Record, e: Event): Call
    requires e.Work? && Invokes(r, e.worker, e.instants, e.checks)
  {
    Call(r.row.value.attemptCount + 1, e.worker.id, r.row.value.arguments, e.instants.check, e.worker.maxActionAgeMs,
         e.checks.evaluation, r.action.approvedAt, r.action.rejectedAt, Running)
  }

  /** A stretch that dies after `cut` statements leaves that state; one that does not may call the tool. */
  function AfterWork(w: World, e: Event): World
    requires e.Work?
  {
    var states := Stretch(w.db, e.worker, e.instants, e.checks);
    if e.cut < |states| then World(states[e.cut], w.calls)
    else World(Last(states),
               if Invokes(w.db, e.worker, e.instants, e.checks) then w.calls + [NewCall(w.db, e)] else w.calls)
  }

  /** The executor writes the action's status as soon as the tool is done; what is then published is a statement
      of its own. A call comes back as `Unpublished` only through `PublishFails`. */
  function AfterReturn(w: World, i: nat, o: Outcome): World
    requires i < |w.calls|
  {
    if w.calls[i].phase == Running && !o.Unpublished? then
      World(WithStatus(w.db, if o.Success? then Executed else Failed), w.calls[i := w.calls[i].(phase := Returned(o))])
    else w
  }

  /** Publishing raises an error: after a success the executor now writes `failed` as well; after a failure the new
      error replaces the old one. */
  function AfterPublishFails(w: World, i: nat, error: ToolError): World
    requires i < |w.calls|
  {
    var c := w.calls[i];
    if !c.phase.Returned? then w
    else if c.phase.outcome.Success? then
      World(WithStatus(w.db, Failed), w.calls[i := c.(phase := Returned(Unpublished(error)))])
    else
      w.(calls := w.calls[i := c.(phase := Returned(c.phase.outcome.(error := error)))])
  }

  function Settlement(r: Record, c: Call, at: int): Result<Record>
    requires c.phase.Returned?
  {
    if c.phase.outcome.Success? then AttemptCompleted(r, c.attempt, c.worker, at)
    else
      var e := c.phase.outcome.error;
      AttemptFailed(r, c.attempt, c.worker, e.message, RecordedClass(e, r.action.tool), at)
  }

  function AfterSettle(w: World, i: nat, at: int): World
    requires i < |w.calls|
  {
    var c := w.calls[i];
    if !c.phase.Returned? then w
    else
      match Settlement(w.db, c, at)
      case Ok(r) => World(r, w.calls[i := c.(phase := Accepted(c.phase.outcome))])
      case Err => World(w.db, w.calls[i := c.(phase := Refused(c.phase.outcome))])
  }

  function LoseIf(c: Call, owner: WorkerId): Call {
    if c.worker == owner && (c.phase == Running || c.phase.Returned?) then c.(phase := Lost) else c
  }

  function AfterCrash(w: World, owner: WorkerId): World {
    w.(calls := seq(|w.calls|, i requires 0 <= i < |w.calls| => LoseIf(w.calls[i], owner)))
  }

  function Next(w: World, e: Event): World {
    match e
    case Enqueue(arguments, at) =>
      if w.db.action.status == Approved then w.(db := Enqueued(w.db, arguments, at)) else w
    case Approve(_, _, _, _) => w.(db := AfterApprove(w.db, e))
    case Reject(at) => if w.db.action.status == Pending then w.(db := RejectedBy(w.db, at)) else w
    case Cancel => if CancelledUnstarted(w.db).Some? then w.(db := CancelledUnstarted(w.db).value) else w
    case Work(_, _, _, _) => AfterWork(w, e)
    case Renew(owner, leaseMs, at) => w.(db := Renewed(w.db, owner, leaseMs, at))
    case Return(i, o) => if i < |w.calls| then AfterReturn(w, i, o) else w
    case PublishFails(i, error) => if i < |w.calls| then AfterPublishFails(w, i, error) else w
    case Settle(i, at) => if i < |w.calls| then AfterSettle(w, i, at) else w
    case Crash(owner) => AfterCrash(w, owner)
  }

  /** A freshly recorded decision: no queue row, nobody approved or rejected it yet. */
  predicate Proposed(w: World) {
    && w.calls == []
    && w.db.row.None?
    && w.db.attempts == []
    && w.db.action.approvedAt.None?
    && w.db.action.rejectedAt.None?
    && w.db.action.status in {Pending, Approved, Blocked, Cancelled}
  }

  function Replay(w: World, events: seq<Event>): World {
    if events == [] then w else Next(Replay(w, events[..|events| - 1]), Last(events))
  }

  // ---------- Lease fencing ----------

  predicate Held(row: Row) {
    row.status in {Leased, Executing}
  }

  /** Attempts are numbered 1, 2, ...; only the newest can be open; an executing row has exactly
      that one open, for the row's own lease owner. */
  predicate Fenced(r: Record) {
    && (forall i :: 0 <= i < |r.attempts| ==> r.attempts[i].number == i + 1)
    && (forall i :: 0 <= i < |r.attempts| - 1 ==> r.attempts[i].status != InProgress)
    && (r.row.None? ==> r.attempts == [])
    && (r.row.Some? ==>
          var row := r.row.value;
          && row.attemptCount == |r.attempts|
          && (row.leaseOwner.Some? <==> Held(row))
          && (row.leaseExpiresAt.Some? <==> Held(row))
          && (row.status == Executing ==>
                r.attempts != [] && Last(r.attempts).status == InProgress && row.leaseOwner == Some(Last(r.attempts).leaseOwner))
          && (r.attempts != [] && Last(r.attempts).status == InProgress ==> Held(row)))
  }

  lemma FencedClaim(r: Record, w: Worker, at: Instants)
    requires Fenced(r) && r.row.Some?
    ensures Fenced(LeasedTo(r, w.id, w.leaseMs, at.lease))
    ensures Fenced(Claimed(r, w, at))
    ensures forall i :: 0 <= i < |r.attempts| ==> Claimed(r, w, at).attempts[i].status != InProgress
  {
  }

  lemma FencedBegun(r: Record, owner: WorkerId, now: int)
    requires Fenced(r) && Begun(r, owner, now).Ok?
    requires forall i :: 0 <= i < |r.attempts| ==> r.attempts[i].status != InProgress
    ensures Fenced(Begun(r, owner, now).value)
  {
  }

  lemma FencedAfterClaim(r: Record, w: Worker, at: Instants, d: Decision, k: nat)
    requires Fenced(r) && r.row.Some? && k < |AfterClaim(r, w, at, d)|
    requires d.Stop? ==> d.status in {Stopped, Withdrawn}
    requires forall i :: 0 <= i < |r.attempts| ==> r.attempts[i].status != InProgress
    ensures Fenced(AfterClaim(r, w, at, d)[k])
  {
    if !d.Stop? && Begun(r, w.id, at.begin).Ok? {
      FencedBegun(r, w.id, at.begin);
    }
  }

  /** A stop never leaves the row runnable, and sends an action back to pending only for its owner's approval. */
  lemma DecisionShape(r: Record, c: Checks, now: int, maxAgeMs: int)
    requires r.row.Some?
    ensures var d := Decide(r, c, now, maxAgeMs);
            && (d.Stop? ==> d.status in {Stopped, Withdrawn})
            && (d.Stop? && d.write == Some(Pending) ==>
                  && d.status == Stopped && d.cause == OwnerAttentionRequired
                  && r.action.approvedAt.None? && r.action.rejectedAt.None?)
  {
  }

  lemma FencedStretch(r: Record, w: Worker, at: Instants, c: Checks, k: nat)
    requires Fenced(r) && k < |Stretch(r, w, at, c)|
    ensures Fenced(Stretch(r, w, at, c)[k])
  {
    hide Decide, AfterClaim, Fenced;
    if r.row.Some? && Due(r.row.value, at.lease) {
      FencedClaim(r, w, at);
      DecisionShape(Claimed(r, w, at), c, at.check, w.maxActionAgeMs);
      if k >= 2 {
        var claimed := Claimed(r, w, at);
        FencedAfterClaim(claimed, w, at, Decide(claimed, c, at.check, w.maxActionAgeMs), k - 2);
      }
    }
  }

  lemma FencedSettle(w: World, i: nat, at: int)
    requires i < |w.calls| && Fenced(w.db)
    ensures Fenced(AfterSettle(w, i, at).db)
  {
    hide RecordedClass;
  }

  lemma FencedNext(w: World, e: Event)
    requires Fenced(w.db)
    ensures Fenced(Next(w, e).db)
  {
    hide Stretch, Invokes, AfterSettle;
    if e.Work? {
      var n := |Stretch(w.db, e.worker, e.instants, e.checks)|;
      FencedStretch(w.db, e.worker, e.instants, e.checks, if e.cut < n then e.cut else n - 1);
    } else if e.Settle? && e.call < |w.calls| {
      FencedSettle(w, e.call, e.at);
    }
  }

  // ---------- Owner authority ----------

  /** A pending action has no row, a row some worker still holds (its process died between the
      two writes of a stop), or a stopped row that an approval may requeue. */
  predicate AwaitsApproval(row: Option<Row>) {
    || row.None?
    || Held(row.value)
    || (row.value.status == Stopped
        && row.value.errorClass !in {Some(OutcomeUncertain), Some(RecoveryReviewRequired)})
  }

  predicate Authority(r: Record) {
    && (r.action.approvedAt.None? || r.action.rejectedAt.None?)
    && (r.action.status == Pending ==>
          r.action.approvedAt.None? && r.action.rejectedAt.None? && AwaitsApproval(r.row))
  }

  /** What was true when the tool was called. */
  predicate Authorised(c: Call, a: Action) {
    && c.evaluation.Evaluated? && !c.evaluation.blocked
    && (c.evaluation.requiresApproval ==> c.approvedAt.Some?)
    && (c.approvedAt.Some? ==> a.approvedAt == c.approvedAt)
    && c.rejectedAt.None?
    && c.arguments == a.arguments
    && a.createdAt.Some? && c.checkedAt - a.createdAt.value <= c.maxActionAgeMs
  }

  /** Calls belong to attempts, newest last. */
  predicate CallsListed(w: World) {
    && (forall i :: 0 <= i < |w.calls| ==>
          && 1 <= w.calls[i].attempt <= |w.db.attempts|
          && w.calls[i].worker == w.db.attempts[w.calls[i].attempt - 1].leaseOwner
          && Authorised(w.calls[i], w.db.action))
    && (forall i, j :: 0 <= i < j < |w.calls| ==> w.calls[i].attempt < w.calls[j].attempt)
  }

  /** A call that has come back for the executing attempt has already overwritten a pending status. */
  predicate PendingNotReturned(w: World) {
    w.db.row.Some? && w.db.row.value.status == Executing && w.db.action.status == Pending ==>
      forall i :: 0 <= i < |w.calls| && w.calls[i].attempt == |w.db.attempts| ==> !w.calls[i].phase.Returned?
  }

  predicate CallsRecorded(w: World) {
    CallsListed(w) && PendingNotReturned(w)
  }

  lemma AuthorityStretch(r: Record, w: Worker, at: Instants, c: Checks, k: nat)
    requires Authority(r) && k < |Stretch(r, w, at, c)|
    ensures Authority(Stretch(r, w, at, c)[k])
  {
  }

  lemma AuthorityNext(w: World, e: Event)
    requires Fenced(w.db) && Authority(w.db) && CallsRecorded(w)
    ensures Authority(Next(w, e).db)
  {
    hide Stretch, Invokes;
    if e.Work? {
      var n := |Stretch(w.db, e.worker, e.instants, e.checks)|;
      AuthorityStretch(w.db, e.worker, e.instants, e.checks, if e.cut < n then e.cut else n - 1);
    }
  }

  /** Every statement keeps the proposal and the lease owners of existing attempts, only the
      approval sets the approval time, and attempts are only added. */
  predicate Extends(before: Record, after: Record) {
    && after.action.arguments == before.action.arguments
    && after.action.createdAt == before.action.createdAt
    && after.action.tool == before.action.tool
    && (before.action.approvedAt.Some? ==> after.action.approvedAt == before.action.approvedAt)
    && |before.attempts| <= |after.attempts|
    && (forall i :: 0 <= i < |before.attempts| ==> after.attempts[i].leaseOwner == before.attempts[i].leaseOwner)
    // an attempt that is closed is never written again
    && (forall i :: 0 <= i < |before.attempts| && before.attempts[i].status != InProgress ==>
          after.attempts[i] == before.attempts[i])
  }

  lemma ExtendsClaim(r: Record, w: Worker, at: Instants)
    requires Fenced(r) && r.row.Some?
    ensures Extends(r, r) && Extends(r, LeasedTo(r, w.id, w.leaseMs, at.lease)) && Extends(r, Claimed(r, w, at))
  {
  }

  lemma ExtendsAfterClaim(r: Record, w: Worker, at: Instants, d: Decision, k: nat)
    requires Fenced(r) && r.row.Some? && k < |AfterClaim(r, w, at, d)|
    requires forall i :: 0 <= i < |r.attempts| ==> r.attempts[i].status != InProgress
    ensures Extends(r, AfterClaim(r, w, at, d)[k])
    ensures AfterClaim(r, w, at, d)[k].action.approvedAt == r.action.approvedAt
  {
  }

  lemma ExtendsFurther(a: Record, b: Record, c: Record)
    requires Extends(a, b) && Extends(b, c)
    ensures Extends(a, c)
  {
  }

  lemma ExtendsStretch(r: Record, w: Worker, at: Instants, c: Checks, k: nat)
    requires Fenced(r) && k < |Stretch(r, w, at, c)|
    ensures Extends(r, Stretch(r, w, at, c)[k])
    ensures Stretch(r, w, at, c)[k].action.approvedAt == r.action.approvedAt
  {
    hide Decide, AfterClaim, Fenced;
    if r.row.Some? && Due(r.row.value, at.lease) {
      FencedClaim(r, w, at);
      ExtendsClaim(r, w, at);
      if k >= 2 {
        var claimed := Claimed(r, w, at);
        var d := Decide(claimed, c, at.check, w.maxActionAgeMs);
        ExtendsAfterClaim(claimed, w, at, d, k - 2);
        ExtendsFurther(r, claimed, AfterClaim(claimed, w, at, d)[k - 2]);
      }
    }
  }

  lemma ExtendsSettle(w: World, i: nat, at: int)
    requires i < |w.calls| && Fenced(w.db)
    ensures Extends(w.db, AfterSettle(w, i, at).db)
  {
    hide RecordedClass;
  }

  lemma ExtendsNext(w: World, e: Event)
    requires Fenced(w.db) && (e.Approve? ==> Authority(w.db))
    ensures Extends(w.db, Next(w, e).db)
  {
    hide Stretch, Invokes, AfterSettle;
    if e.Work? {
      var n := |Stretch(w.db, e.worker, e.instants, e.checks)|;
      ExtendsStretch(w.db, e.worker, e.instants, e.checks, if e.cut < n then e.cut else n - 1);
    } else if e.Settle? && e.call < |w.calls| {
      ExtendsSettle(w, e.call, e.at);
    }
  }

  lemma CallsListedFrame(before: World, after: World)
    requires CallsListed(before) && Extends(before.db, after.db)
    requires |after.calls| == |before.calls|
    requires forall i :: 0 <= i < |before.calls| ==> after.calls[i] == before.calls[i].(phase := after.calls[i].phase)
    ensures CallsListed(after)
  {
    forall i | 0 <= i < |after.calls|
      ensures 1 <= after.calls[i].attempt <= |after.db.attempts|
      ensures after.calls[i].worker == after.db.attempts[after.calls[i].attempt - 1].leaseOwner
      ensures Authorised(after.calls[i], after.db.action)
    {
      assert Authorised(before.calls[i], before.db.action);
    }
  }

  /** A stretch either leaves the row not executing, leaves everything alone, or opens a new attempt. */
  lemma ExecutingAfterStretch(r: Record, w: Worker, at: Instants, c: Checks, k: nat)
    requires k < |Stretch(r, w, at, c)|
    ensures var s := Stretch(r, w, at, c)[k];
            s.row.Some? && s.row.value.status == Executing ==> s == r || |s.attempts| == |r.attempts| + 1
  {
  }

  lemma InvokedStretch(r: Record, e: Event)
    requires e.Work? && Fenced(r) && Invokes(r, e.worker, e.instants, e.checks)
    ensures var s := Last(Stretch(r, e.worker, e.instants, e.checks));
            var c := NewCall(r, e);
            && |s.attempts| == |r.attempts| + 1
            && c.attempt == |s.attempts|
            && c.worker == Last(s.attempts).leaseOwner
            && Last(s.attempts).status == InProgress
            && s.action == r.action
            && Authorised(c, s.action)
  {
  }

  lemma CallsRecordedKept(w: World, s: Record)
    requires CallsRecorded(w) && Extends(w.db, s)
    requires s.row.Some? && s.row.value.status == Executing ==> s == w.db || |s.attempts| == |w.db.attempts| + 1
    ensures CallsRecorded(World(s, w.calls))
  {
    hide Authorised, Extends;
    CallsListedFrame(w, World(s, w.calls));
  }

  lemma CallsRecordedAdded(w: World, c: Call)
    requires CallsRecorded(w) && c.phase == Running && Authorised(c, w.db.action)
    requires c.attempt == |w.db.attempts| >= 1 && c.worker == Last(w.db.attempts).leaseOwner
    requires forall i :: 0 <= i < |w.calls| ==> w.calls[i].attempt < c.attempt
    ensures CallsRecorded(World(w.db, w.calls + [c]))
  {
    hide Authorised;
  }

  lemma CallsRecordedWork(w: World, e: Event)
    requires e.Work? && Fenced(w.db) && CallsRecorded(w)
    ensures CallsRecorded(Next(w, e))
  {
    hide Stretch, Invokes, Authorised, Extends, PendingNotReturned;
    var n := |Stretch(w.db, e.worker, e.instants, e.checks)|;
    var k := if e.cut < n then e.cut else n - 1;
    var s := Stretch(w.db, e.worker, e.instants, e.checks)[k];
    ExtendsStretch(w.db, e.worker, e.instants, e.checks, k);
    ExecutingAfterStretch(w.db, e.worker, e.instants, e.checks, k);
    CallsRecordedKept(w, s);
    if e.cut >= n && Invokes(w.db, e.worker, e.instants, e.checks) {
      InvokedStretch(w.db, e);
      CallsRecordedAdded(World(s, w.calls), NewCall(w.db, e));
    }
  }

  lemma CallsRecordedReturn(w: World, i: nat, o: Outcome)
    requires i < |w.calls| && Fenced(w.db) && CallsRecorded(w)
    ensures CallsRecorded(AfterReturn(w, i, o))
  {
    CallsListedFrame(w, AfterReturn(w, i, o));
  }

  lemma CallsRecordedPublishFails(w: World, i: nat, error: ToolError)
    requires i < |w.calls| && Fenced(w.db) && CallsRecorded(w)
    ensures CallsRecorded(AfterPublishFails(w, i, error))
  {
    hide Authorised;
    CallsListedFrame(w, AfterPublishFails(w, i, error));
  }

  lemma CallsRecordedSettle(w: World, i: nat, at: int)
    requires i < |w.calls| && Fenced(w.db) && CallsRecorded(w)
    ensures CallsRecorded(AfterSettle(w, i, at))
  {
    ExtendsSettle(w, i, at);
    hide Authorised, Extends, CallsListed, RecordedClass;
    CallsListedFrame(w, AfterSettle(w, i, at));
  }

  lemma CallsRecordedNext(w: World, e: Event)
    requires Fenced(w.db) && Authority(w.db) && CallsRecorded(w)
    ensures CallsRecorded(Next(w, e))
  {
    hide Stretch, Invokes, Authorised, CallsListed;
    match e
    case Work(_, _, _, _) => CallsRecordedWork(w, e);
    case Return(i, o) => if i < |w.calls| { CallsRecordedReturn(w, i, o); }
    case PublishFails(i, error) => if i < |w.calls| { CallsRecordedPublishFails(w, i, error); }
    case Settle(i, at) => if i < |w.calls| { CallsRecordedSettle(w, i, at); }
    case _ =>
      ExtendsNext(w, e);
      hide Extends, AfterWork, AfterReturn, AfterPublishFails, AfterSettle;
      CallsListedFrame(w, Next(w, e));
  }

  // ---------- What can still run, and how often ----------

  /** The row may be leased again, now or after an approval. */
  predicate Resumable(r: Record) {
    && r.row.Some?
    && (|| r.row.value.status in {Queued, RetryWait, Leased, Executing}
        || (r.row.value.status == Stopped && r.action.status == Pending))
  }

  /** Closed by lease expiry, or by a retryable failure below the attempt limit. */
  predicate Retried(a: Attempt) {
    && a.status == Closed
    && (a.error == Some(LEASE_EXPIRED) || (a.errorClass == Some(Retryable) && a.number < MAX_ATTEMPTS))
  }

  predicate RetriesAccounted(r: Record) {
    && (forall i :: 0 <= i < |r.attempts| - 1 ==> Retried(r.attempts[i]))
    && (Resumable(r) && r.attempts != [] ==> Last(r.attempts).status == InProgress || Retried(Last(r.attempts)))
  }

  lemma RetriesClaim(r: Record, w: Worker, at: Instants)
    requires Fenced(r) && RetriesAccounted(r) && r.row.Some? && Due(r.row.value, at.lease)
    ensures RetriesAccounted(LeasedTo(r, w.id, w.leaseMs, at.lease))
    ensures forall i :: 0 <= i < |r.attempts| ==> Retried(Claimed(r, w, at).attempts[i])
  {
    forall i | 0 <= i < |r.attempts|
      ensures Retried(Claimed(r, w, at).attempts[i])
    {
      assert Claimed(r, w, at).attempts[i] == CloseIfOpen(r.attempts[i], at.lease);
      assert i == |r.attempts| - 1 || Retried(r.attempts[i]);
    }
  }

  lemma RetriesAfterClaim(r: Record, w: Worker, at: Instants, d: Decision, k: nat)
    requires r.row.Some? && k < |AfterClaim(r, w, at, d)|
    requires forall i :: 0 <= i < |r.attempts| ==> Retried(r.attempts[i])
    ensures RetriesAccounted(AfterClaim(r, w, at, d)[k])
  {
  }

  lemma RetriesStretch(r: Record, w: Worker, at: Instants, c: Checks, k: nat)
    requires Fenced(r) && RetriesAccounted(r) && k < |Stretch(r, w, at, c)|
    ensures RetriesAccounted(Stretch(r, w, at, c)[k])
  {
    hide Decide, AfterClaim, Retried;
    if r.row.Some? && Due(r.row.value, at.lease) {
      RetriesClaim(r, w, at);
      if k >= 2 {
        var claimed := Claimed(r, w, at);
        RetriesAfterClaim(claimed, w, at, Decide(claimed, c, at.check, w.maxActionAgeMs), k - 2);
      }
    }
  }

  lemma RetriesNext(w: World, e: Event)
    requires Fenced(w.db) && Authority(w.db) && CallsRecorded(w) && RetriesAccounted(w.db)
    ensures RetriesAccounted(Next(w, e).db)
  {
    hide Stretch, Invokes;
    if e.Work? {
      var n := |Stretch(w.db, e.worker, e.instants, e.checks)|;
      RetriesStretch(w.db, e.worker, e.instants, e.checks, if e.cut < n then e.cut else n - 1);
    }
  }

  // ---------- At most once ----------

  /** The store recorded this call as a failure the tool declared safe to retry. */
  predicate SafeFailure(c: Call) {
    && c.phase.Accepted?
    && !c.phase.outcome.Success?
    && Classify(c.phase.outcome.error) == Retryable
    && c.phase.outcome.error.safeToRetry
  }

  /** Every call but the newest failed safely; if the newest did not, the row cannot run again
      without meeting an open or expired attempt. */
  predicate Once(w: World) {
    && (forall i :: 0 <= i < |w.calls| - 1 ==> SafeFailure(w.calls[i]))
    && (w.calls != [] && !SafeFailure(Last(w.calls)) && Resumable(w.db) ==>
          InDoubt(w.db))
  }

  /** The newest attempt is open or was closed by lease expiry. */
  predicate InDoubt(r: Record) {
    r.attempts != [] && (Last(r.attempts).status == InProgress || RecoveredUncertain(r))
  }

  lemma OnceAfterClaim(r: Record, w: Worker, at: Instants, d: Decision, k: nat)
    requires r.row.Some? && k < |AfterClaim(r, w, at, d)|
    ensures InDoubt(r) && Resumable(AfterClaim(r, w, at, d)[k]) ==> InDoubt(AfterClaim(r, w, at, d)[k])
  {
  }

  lemma OnceClaim(r: Record, w: Worker, at: Instants)
    requires Fenced(r) && r.row.Some? && Due(r.row.value, at.lease) && InDoubt(r)
    ensures InDoubt(LeasedTo(r, w.id, w.leaseMs, at.lease)) && InDoubt(Claimed(r, w, at))
  {
    assert Last(Claimed(r, w, at).attempts) == CloseIfOpen(Last(r.attempts), at.lease);
  }

  lemma OnceStretch(r: Record, w: Worker, at: Instants, c: Checks, k: nat)
    requires Fenced(r) && k < |Stretch(r, w, at, c)|
    ensures var s := Stretch(r, w, at, c)[k];
            && (Resumable(s) ==> Resumable(r))
            && (Resumable(s) && InDoubt(r) ==> InDoubt(s))
  {
    hide Decide, AfterClaim, Fenced, InDoubt;
    if r.row.Some? && Due(r.row.value, at.lease) {
      if InDoubt(r) {
        OnceClaim(r, w, at);
      }
      if k >= 2 {
        var claimed := Claimed(r, w, at);
        OnceAfterClaim(claimed, w, at, Decide(claimed, c, at.check, w.maxActionAgeMs), k - 2);
      }
    }
  }

  lemma InvokesNotInDoubt(r: Record, w: Worker, at: Instants, c: Checks)
    requires Fenced(r) && !r.action.tool.supportsIdempotency && Invokes(r, w, at, c)
    ensures Resumable(r) && !InDoubt(r)
  {
    FencedClaim(r, w, at);
    if InDoubt(r) {
      OnceClaim(r, w, at);
    }
  }

  /** The one place a call is added: every earlier call failed safely. */
  lemma InvokesOnlyAfterSafeFailures(w: World, e: Event)
    requires Fenced(w.db) && Once(w) && !w.db.action.tool.supportsIdempotency
    requires e.Work? && Invokes(w.db, e.worker, e.instants, e.checks)
    ensures forall i :: 0 <= i < |w.calls| ==> SafeFailure(w.calls[i])
  {
    InvokesNotInDoubt(w.db, e.worker, e.instants, e.checks);
  }

  lemma OnceWork(w: World, e: Event)
    requires e.Work? && Fenced(w.db) && Once(w) && !w.db.action.tool.supportsIdempotency
    ensures Once(Next(w, e))
  {
    hide Stretch, Invokes, SafeFailure;
    var n := |Stretch(w.db, e.worker, e.instants, e.checks)|;
    OnceStretch(w.db, e.worker, e.instants, e.checks, if e.cut < n then e.cut else n - 1);
    if e.cut >= n && Invokes(w.db, e.worker, e.instants, e.checks) {
      InvokesOnlyAfterSafeFailures(w, e);
      InvokedStretch(w.db, e);
    }
  }

  lemma OnceReturn(w: World, i: nat, o: Outcome)
    requires i < |w.calls| && Fenced(w.db) && CallsRecorded(w) && Once(w)
    ensures Once(AfterReturn(w, i, o))
  {
    hide Authorised;
  }

  lemma OncePublishFails(w: World, i: nat, error: ToolError)
    requires i < |w.calls| && Fenced(w.db) && CallsRecorded(w) && Once(w)
    ensures Once(AfterPublishFails(w, i, error))
  {
    hide Authorised;
  }

  lemma OnceSettle(w: World, i: nat, at: int)
    requires i < |w.calls| && Fenced(w.db) && Authority(w.db) && CallsRecorded(w) && Once(w)
    requires !w.db.action.tool.supportsIdempotency
    ensures Once(AfterSettle(w, i, at))
  {
    hide Authorised, Classify;
  }

  lemma OnceNext(w: World, e: Event)
    requires Fenced(w.db) && Authority(w.db) && CallsRecorded(w) && Once(w) && !w.db.action.tool.supportsIdempotency
    ensures Once(Next(w, e))
  {
    hide Stretch, Invokes, AfterWork, AfterReturn, AfterPublishFails, AfterSettle;
    if e.Work? {
      OnceWork(w, e);
    } else if e.Return? && e.call < |w.calls| {
      OnceReturn(w, e.call, e.outcome);
    } else if e.PublishFails? && e.call < |w.calls| {
      OncePublishFails(w, e.call, e.error);
    } else if e.Settle? && e.call < |w.calls| {
      OnceSettle(w, e.call, e.at);
    }
  }
}
