/** What the queue worker decides about a leased action, and the sequence of stored
    states its synchronous stretch passes through. */
module ActionWorker {
  import opened Common
  import opened ActionQueue

  // ---------- Error classification ----------

  /** The fields of a thrown error that the classifier and the worker read. `status` is 0 when absent. */
  datatype ToolError = ToolError(
    declaredClass: Option<ErrorClass>,
    ownerAttentionRequired: bool,
    code: string,
    status: int,
    safeToRetry: bool,
    message: string)

  const RETRYABLE_CODES := {"ETIMEDOUT", "ECONNRESET", "ECONNREFUSED", "ENETUNREACH", "EAI_AGAIN"}
  const AUTH_CODES := {"EAUTH", "UNAUTHENTICATED", "INVALID_CREDENTIALS"}

  function UpperChar(c: char): char {
    if 'a' <= c <= 'z' then ((c as int) - 32) as char else c
  }

  function Upper(s: string): string {
    seq(|s|, i requires 0 <= i < |s| => UpperChar(s[i]))
  }

  function Classify(e: ToolError): ErrorClass {
    if e.declaredClass.Some? then e.declaredClass.value
    else if e.ownerAttentionRequired then OwnerAttentionRequired
    else if Upper(e.code) in AUTH_CODES || e.status == 401 || e.status == 403 then AuthenticationRequired
    else if Upper(e.code) in RETRYABLE_CODES || e.status == 408 || e.status == 429 || e.status >= 500 then Retryable
    else NonRetryable
  }

  /** The class the worker records: without idempotency support only an error that says it
      is safe to retry stays retryable. */
  function RecordedClass(e: ToolError, tool: Tool): ErrorClass {
    if Classify(e) == Retryable && !tool.supportsIdempotency && !e.safeToRetry then OwnerAttentionRequired
    else Classify(e)
  }

  // ---------- The worker's decision ----------

  datatype RunState = NoRun | InRun(cancelRequested: bool, deadlineExpired: bool, goalInvalid: bool)

  /** `Unresolved`: the tool is unknown or the policy evaluation threw. */
  datatype Evaluation = Unresolved | Evaluated(blocked: bool, requiresApproval: bool)

  /** What the policy, run, goal, package and account oracles answer during one stretch. */
  datatype Checks = Checks(run: RunState, evaluation: Evaluation, packageProblem: bool, accountProblem: bool)

  datatype Worker = Worker(id: WorkerId, leaseMs: nat, maxActionAgeMs: int)

  /** The clock readings of one stretch: at the lease, at the freshness test, at the attempt. */
  datatype Instants = Instants(lease: int, check: int, begin: int)

  datatype Decision =
    | AlreadyExecuted
    | Stop(write: Option<ActionStatus>, status: QueueStatus, cause: ErrorClass)
    | Start

  predicate Stale(a: Action, now: int, maxAgeMs: int) {
    a.createdAt.None? || now - a.createdAt.value > maxAgeMs
  }

  predicate RecoveredUncertain(r: Record) {
    r.attempts != [] && r.attempts[|r.attempts| - 1].error == Some(LEASE_EXPIRED)
  }

  function Decide(r: Record, c: Checks, now: int, maxAgeMs: int): Decision
    requires r.row.Some?
  {
    var a := r.action;
    var tried := r.row.value.attemptCount > 0;
    if a.status == Rejected || a.rejectedAt.Some? then Stop(None, Withdrawn, OwnerAttentionRequired)
    else if a.status == Executed then AlreadyExecuted
    else if c.run.InRun? && c.run.cancelRequested then
      if tried then Stop(None, Stopped, OwnerAttentionRequired) else Stop(Some(Cancelled), Withdrawn, NonRetryable)
    else if c.run.InRun? && c.run.deadlineExpired then
      if tried then Stop(None, Stopped, OwnerAttentionRequired) else Stop(Some(Blocked), Withdrawn, NonRetryable)
    else if c.evaluation.Unresolved? then Stop(None, Stopped, NonRetryable)
    else if c.run.InRun? && c.run.goalInvalid then Stop(Some(Blocked), Withdrawn, OwnerAttentionRequired)
    else if c.evaluation.blocked then Stop(Some(Blocked), Withdrawn, NonRetryable)
    else if a.fromPackage && c.packageProblem then Stop(Some(Blocked), Withdrawn, NonRetryable)
    else if Stale(a, now, maxAgeMs) then Stop(Some(Failed), Stopped, OwnerAttentionRequired)
    else if c.evaluation.requiresApproval && a.approvedAt.None? then Stop(Some(Pending), Stopped, OwnerAttentionRequired)
    else if c.accountProblem then Stop(Some(Failed), Stopped, OwnerAttentionRequired)
    else if r.row.value.arguments != a.arguments then Stop(Some(Failed), Stopped, OwnerAttentionRequired)
    else if RecoveredUncertain(r) && !a.tool.supportsIdempotency then Stop(Some(Failed), Stopped, OutcomeUncertain)
    else Start
  }

  // ---------- The synchronous stretch ----------

  function OrSame(x: Result<Record>, r: Record): Record {
    if x.Ok? then x.value else r
  }

  /** The record after the two leasing statements. */
  function Claimed(r: Record, w: Worker, at: Instants): Record
    requires r.row.Some?
  {
    OpenAttemptsClosed(LeasedTo(r, w.id, w.leaseMs, at.lease), at.lease)
  }

  /** The stored states from the decision to the end of the stretch, the claimed record first. */
  function AfterClaim(r: Record, w: Worker, at: Instants, d: Decision): (states: seq<Record>)
    requires r.row.Some?
    ensures states != []
  {
    match d
    case Stop(write, status, cause) =>
      var written := if write.Some? then WithStatus(r, write.value) else r;
      [r, written, OrSame(StoppedLease(written, w.id, status, cause), written)]
    case AlreadyExecuted =>
      var begun := OrSame(Begun(r, w.id, at.begin), r);
      [r, begun, OrSame(AttemptCompleted(begun, begun.row.value.attemptCount, w.id, at.begin), begun)]
    case Start =>
      [r, OrSame(Begun(r, w.id, at.begin), r)]
  }

  /** Every stored state of one stretch, in order: the process can die after any of them. */
  function Stretch(r: Record, w: Worker, at: Instants, c: Checks): (states: seq<Record>)
    ensures states != []
  {
    if r.row.None? || !Due(r.row.value, at.lease) then [r]
    else
      var claimed := Claimed(r, w, at);
      [r, LeasedTo(r, w.id, w.leaseMs, at.lease)]
        + AfterClaim(claimed, w, at, Decide(claimed, c, at.check, w.maxActionAgeMs))
  }

  /** Does the whole stretch end by calling the tool? */
  predicate Invokes(r: Record, w: Worker, at: Instants, c: Checks) {
    && r.row.Some?
    && Due(r.row.value, at.lease)
    && Decide(Claimed(r, w, at), c, at.check, w.maxActionAgeMs) == Start
    && Begun(Claimed(r, w, at), w.id, at.begin).Ok?
  }
}
