/** The durable action queue: one action's audit row, queue row and attempt rows,
    and every SQL statement that changes them, as a function on the stored record. */
module ActionQueue {

  import opened Common

  type ActionId = string
  type WorkerId = string

  datatype ErrorClass =
    | Retryable | NonRetryable | AuthenticationRequired
    | OwnerAttentionRequired | RecoveryReviewRequired | OutcomeUncertain

  datatype ActionStatus = Pending | Approved | Blocked | Rejected | Executed | Failed | Cancelled

  datatype QueueStatus =
    | Queued | Leased | Executing | RetryWait | Completed | Stopped | DeadLetter | Withdrawn
  // `Stopped` is the queue status 'failed' and `Withdrawn` the queue status 'cancelled';
  // the other names are the stored ones.

  datatype AttemptStatus = InProgress | Succeeded | Closed
  // stored as 'executing', 'completed' and 'failed'

  datatype Tool = Tool(name: string, supportsIdempotency: bool)

  /** The agent_actions row. `createdAt` is None when its text is not a date. */
  datatype Action = Action(
    status: ActionStatus,
    tool: Tool,
    arguments: string,
    createdAt: Option<int>,
    approvedAt: Option<int>,
    rejectedAt: Option<int>,
    fromPackage: bool)

  /** The action_queue row; `action_id` is unique, so an action has at most one. */
  datatype Row = Row(
    status: QueueStatus,
    arguments: string,
    attemptCount: nat,
    nextAttemptAt: int,
    leaseOwner: Option<WorkerId>,
    leaseExpiresAt: Option<int>,
    errorClass: Option<ErrorClass>,
    createdAt: int)

  datatype Attempt = Attempt(
    number: nat,
    leaseOwner: WorkerId,
    status: AttemptStatus,
    startedAt: int,
    finishedAt: Option<int>,
    error: Option<string>,
    errorClass: Option<ErrorClass>)

  /** Everything stored about one action. `attempts` is in attempt-number order. */
  datatype Record = Record(action: Action, row: Option<Row>, attempts: seq<Attempt>)

  const LEASE_EXPIRED := "lease expired"
  const MAX_ATTEMPTS := 5
  const BASE_DELAY_MS := 1_000
  const MAX_DELAY_MS := 60_000

  // ---------- Retry delay ----------

  function Pow2(n: nat): (p: nat)
    ensures p >= 1
  {
    if n == 0 then 1 else 2 * Pow2(n - 1)
  }

  function RetryDelayMs(attemptNumber: nat): (ms: int)
    requires attemptNumber >= 1
  {
    Min(MAX_DELAY_MS, BASE_DELAY_MS * Pow2(attemptNumber - 1))
  }

  // ---------- Statements on the stored record ----------

  /** The WHERE clause shared by both leasing statements. */
  predicate Due(row: Row, now: int) {
    || (row.status in {Queued, RetryWait} && row.nextAttemptAt <= now)
    || (row.status in {Leased, Executing} && row.leaseExpiresAt.Some? && row.leaseExpiresAt.value <= now)
  }

  function FreshRow(arguments: string, now: int): Row {
    Row(Queued, arguments, 0, now, None, None, None, now)
  }

  /** INSERT ... ON CONFLICT(action_id) DO NOTHING. */
  function Enqueued(r: Record, arguments: string, now: int): Record {
    if r.row.Some? then r else r.(row := Some(FreshRow(arguments, now)))
  }

  function WithStatus(r: Record, status: ActionStatus): Record {
    r.(action := r.action.(status := status))
  }

  function ApprovedBy(r: Record, now: int): Record {
    r.(action := r.action.(status := Approved, approvedAt := Some(now)))
  }

  function RejectedBy(r: Record, now: int): Record {
    r.(action := r.action.(status := Rejected, rejectedAt := Some(now)))
  }

  /** One transaction over both tables; None when the guard did not match. */
  function CancelledUnstarted(r: Record): Option<Record> {
    if r.row.Some? && r.row.value.status in {Queued, RetryWait} && r.action.status != Executed then
      Some(WithStatus(r.(row := Some(r.row.value.(status := Withdrawn, errorClass := Some(NonRetryable)))), Cancelled))
    else
      None
  }

  function LeasedTo(r: Record, owner: WorkerId, leaseMs: int, now: int): Record
    requires r.row.Some?
  {
    r.(row := Some(r.row.value.(status := Leased, leaseOwner := Some(owner), leaseExpiresAt := Some(now + leaseMs))))
  }

  function CloseIfOpen(a: Attempt, now: int): Attempt {
    if a.status == InProgress then
      a.(status := Closed, finishedAt := Some(now), error := Some(LEASE_EXPIRED), errorClass := Some(Retryable))
    else a
  }

  /** The second leasing statement: every attempt still open is closed as expired. */
  function OpenAttemptsClosed(r: Record, now: int): Record {
    r.(attempts := seq(|r.attempts|, i requires 0 <= i < |r.attempts| => CloseIfOpen(r.attempts[i], now)))
  }

  predicate HeldBy(r: Record, status: QueueStatus, owner: WorkerId) {
    r.row.Some? && r.row.value.status == status && r.row.value.leaseOwner == Some(owner)
  }

  /** Any other status than these three is refused. */
  const STOP_STATUSES := {Stopped, Withdrawn, DeadLetter}

  function StoppedLease(r: Record, owner: WorkerId, status: QueueStatus, cause: ErrorClass): Result<Record> {
    if status in STOP_STATUSES && HeldBy(r, Leased, owner) then
      Ok(r.(row := Some(r.row.value.(status := status, leaseOwner := None, leaseExpiresAt := None,
                                     errorClass := Some(cause)))))
    else Err
  }

  function Requeued(r: Record, now: int): Result<Record> {
    if r.row.None? || r.row.value.errorClass in {Some(RecoveryReviewRequired), Some(OutcomeUncertain)}
       || r.row.value.status !in {Stopped, Withdrawn} then Err
    else
      Ok(r.(row := Some(r.row.value.(status := Queued, nextAttemptAt := now, leaseOwner := None,
                                     leaseExpiresAt := None, errorClass := None))))
  }

  function Renewed(r: Record, owner: WorkerId, leaseMs: int, now: int): Record {
    if HeldBy(r, Leased, owner) || HeldBy(r, Executing, owner) then
      r.(row := Some(r.row.value.(leaseExpiresAt := Some(now + leaseMs))))
    else r
  }

  /** One transaction: check the lease, insert attempt `attempt_count + 1`, mark the row executing. */
  function Begun(r: Record, owner: WorkerId, now: int): Result<Record> {
    if HeldBy(r, Leased, owner) && r.row.value.leaseExpiresAt.Some? && r.row.value.leaseExpiresAt.value > now then
      var number := r.row.value.attemptCount + 1;
      Ok(r.(attempts := r.attempts + [Attempt(number, owner, InProgress, now, None, None, None)],
            row := Some(r.row.value.(status := Executing, attemptCount := number))))
    else Err
  }

  predicate AttemptExists(r: Record, number: nat) {
    1 <= number <= |r.attempts|
  }

  /** One transaction: both the attempt and the row must still belong to `owner`. */
  function Settled(r: Record, number: nat, owner: WorkerId, status: QueueStatus, attemptStatus: AttemptStatus,
                   error: Option<string>, cause: Option<ErrorClass>, next: Option<int>, now: int): Result<Record>
  {
    if AttemptExists(r, number)
       && r.attempts[number - 1].status == InProgress && r.attempts[number - 1].leaseOwner == owner
       && HeldBy(r, Executing, owner)
    then
      var row := r.row.value;
      Ok(r.(attempts := r.attempts[number - 1 := r.attempts[number - 1].(status := attemptStatus, finishedAt := Some(now),
                                                                        error := error, errorClass := cause)],
            row := Some(row.(status := status, leaseOwner := None, leaseExpiresAt := None, errorClass := cause,
                             nextAttemptAt := if next.Some? then next.value else row.nextAttemptAt))))
    else Err
  }

  function AttemptCompleted(r: Record, number: nat, owner: WorkerId, now: int): Result<Record> {
    Settled(r, number, owner, Completed, Succeeded, None, None, None, now)
  }

  function FailureStatus(number: nat, cause: ErrorClass): QueueStatus {
    if cause != Retryable then Stopped else if number < MAX_ATTEMPTS then RetryWait else DeadLetter
  }

  function AttemptFailed(r: Record, number: nat, owner: WorkerId, error: string, cause: ErrorClass, now: int): Result<Record>
  {
    if !AttemptExists(r, number) then Err
    else
      var status := FailureStatus(number, cause);
      var next := if status == RetryWait then now + RetryDelayMs(number) else now;
      Settled(r, number, owner, status, Closed, Some(error), Some(cause), Some(next), now)
  }
}
