/** What each step leaves stored, field by field: when a stretch calls the tool, what every refusal leaves behind,
    how errors are classed, and what approvals, returns and settlements write. */
module ActionDecisions {
  import opened Common
  import opened ActionQueue
  import opened ActionWorker
  import opened ActionRuns
  import opened ActionGuarantees

  // ---------- When the tool is called ----------

  /** Why a due action is not called, in the order in which the worker asks. */
  datatype Reason =
    | OwnerRejected | AlreadyDone | RunCancelled | PastDeadline | NotEvaluated | GoalInvalid | PolicyBlocks
    | PackageRefuses | TooOld | ApprovalMissing | AccountUnusable | PayloadChanged | OutcomeUnknown

  function Rank(x: Reason): nat {
    match x
    case OwnerRejected => 0
    case AlreadyDone => 1
    case RunCancelled => 2
    case PastDeadline => 3
    case NotEvaluated => 4
    case GoalInvalid => 5
    case PolicyBlocks => 6
    case PackageRefuses => 7
    case TooOld => 8
    case ApprovalMissing => 9
    case AccountUnusable => 10
    case PayloadChanged => 11
    case OutcomeUnknown => 12
  }

  /** The reason applies to the record as the stretch finds it. */
  predicate Applies(x: Reason, r: Record, e: Event)
    requires e.Work? && r.row.Some?
  {
    var a, run := r.action, e.checks.run;
    match x
    case OwnerRejected => a.status == Rejected || a.rejectedAt.Some?
    case AlreadyDone => a.status == Executed
    case RunCancelled => run.InRun? && run.cancelRequested
    case PastDeadline => run.InRun? && run.deadlineExpired
    case NotEvaluated => e.checks.evaluation == Unresolved
    case GoalInvalid => run.InRun? && run.goalInvalid
    case PolicyBlocks => e.checks.evaluation.Evaluated? && e.checks.evaluation.blocked
    case PackageRefuses => a.fromPackage && e.checks.packageProblem
    case TooOld => a.createdAt == None || e.instants.check - a.createdAt.value > e.worker.maxActionAgeMs
    case ApprovalMissing =>
      e.checks.evaluation.Evaluated? && e.checks.evaluation.requiresApproval && a.approvedAt == None
    case AccountUnusable => e.checks.accountProblem
    case PayloadChanged => r.row.value.arguments != a.arguments
    case OutcomeUnknown =>
      !a.tool.supportsIdempotency && r.attempts != []
      && (Last(r.attempts).status == InProgress || Last(r.attempts).error == Some("lease expired"))
  }

  /** The stretch finds a row it may take: waiting and due, or held under a lease that has run out. */
  predicate Takes(r: Record, e: Event) {
    && e.Work? && r.row.Some?
    && (var row := r.row.value;
        || (row.status == Queued && row.nextAttemptAt <= e.instants.lease)
        || (row.status == RetryWait && row.nextAttemptAt <= e.instants.lease)
        || (row.status == Leased && row.leaseExpiresAt.Some? && row.leaseExpiresAt.value <= e.instants.lease)
        || (row.status == Executing && row.leaseExpiresAt.Some? && row.leaseExpiresAt.value <= e.instants.lease))
  }

  /** The lease is still good when the attempt begins. */
  predicate InTime(e: Event)
    requires e.Work?
  {
    e.instants.begin < e.instants.lease + e.worker.leaseMs
  }

  lemma TakesIsDue(r: Record, e: Event)
    ensures Takes(r, e) <==> e.Work? && r.row.Some? && Due(r.row.value, e.instants.lease)
  {
  }

  /** Started: each reason in turn has been found not to apply ... */
  lemma StartHasNoReason(r: Record, s: Record, e: Event, x: Reason)
    requires e.Work? && r.row.Some? && s.row.Some? && s.action == r.action && s.row.value.arguments == r.row.value.arguments
    requires RecoveredUncertain(s) <==>
             r.attempts != [] && (Last(r.attempts).status == InProgress || Last(r.attempts).error == Some("lease expired"))
    requires Decide(s, e.checks, e.instants.check, e.worker.maxActionAgeMs) == Start
    ensures !Applies(x, r, e)
  {
    hide RecoveredUncertain;
  }

  /** ... and otherwise one of them applies. */
  lemma NotStartHasReason(r: Record, s: Record, e: Event)
    requires e.Work? && r.row.Some? && s.row.Some? && s.action == r.action && s.row.value.arguments == r.row.value.arguments
    requires RecoveredUncertain(s) <==>
             r.attempts != [] && (Last(r.attempts).status == InProgress || Last(r.attempts).error == Some("lease expired"))
    requires Decide(s, e.checks, e.instants.check, e.worker.maxActionAgeMs) != Start
    ensures exists x: Reason :: Applies(x, r, e)
  {
    hide RecoveredUncertain;
    assert Applies(OwnerRejected, r, e) || Applies(AlreadyDone, r, e) || Applies(RunCancelled, r, e)
        || Applies(PastDeadline, r, e) || Applies(NotEvaluated, r, e) || Applies(GoalInvalid, r, e)
        || Applies(PolicyBlocks, r, e) || Applies(PackageRefuses, r, e) || Applies(TooOld, r, e)
        || Applies(ApprovalMissing, r, e) || Applies(AccountUnusable, r, e) || Applies(PayloadChanged, r, e)
        || Applies(OutcomeUnknown, r, e);
  }

  lemma NoReasonIsStart(r: Record, e: Event)
    requires Fenced(r) && e.Work? && r.row.Some?
    ensures var d := Decide(Claimed(r, e.worker, e.instants), e.checks, e.instants.check, e.worker.maxActionAgeMs);
            d == Start <==> forall x: Reason :: !Applies(x, r, e)
  {
    hide Decide, Claimed, Fenced, Applies, RecoveredUncertain, AllAfterExpiry;
    ClaimedFacts(r, e);
    var s := Claimed(r, e.worker, e.instants);
    if Decide(s, e.checks, e.instants.check, e.worker.maxActionAgeMs) == Start {
      forall x: Reason
        ensures !Applies(x, r, e)
      {
        StartHasNoReason(r, s, e, x);
      }
    } else {
      NotStartHasReason(r, s, e);
    }
  }

  /** An open attempt is closed as expired; the others stay as they are. */
  function AfterExpiry(a: Attempt, now: int): Attempt {
    if a.status == InProgress then
      a.(status := Closed, finishedAt := Some(now), error := Some("lease expired"), errorClass := Some(Retryable))
    else a
  }

  function AllAfterExpiry(attempts: seq<Attempt>, now: int): (closed: seq<Attempt>)
    ensures |closed| == |attempts|
  {
    seq(|attempts|, i requires 0 <= i < |attempts| => AfterExpiry(attempts[i], now))
  }

  lemma ClaimedFacts(r: Record, e: Event)
    requires Fenced(r) && e.Work? && r.row.Some?
    ensures var s := Claimed(r, e.worker, e.instants);
            && s.action == r.action && s.attempts == AllAfterExpiry(r.attempts, e.instants.lease)
            && s.row == Some(r.row.value.(status := Leased, leaseOwner := Some(e.worker.id),
                                          leaseExpiresAt := Some(e.instants.lease + e.worker.leaseMs)))
            && (RecoveredUncertain(s) <==>
                  r.attempts != [] && (Last(r.attempts).status == InProgress || Last(r.attempts).error == Some("lease expired")))
  {
    var s := Claimed(r, e.worker, e.instants);
    if r.attempts != [] {
      assert Last(s.attempts) == CloseIfOpen(Last(r.attempts), e.instants.lease);
    }
  }

  /** In every state a run can reach: a step adds a call exactly when it is a stretch that is not cut short, finds a
      row it may take and no reason against the call, and begins the attempt while its lease is good. */
  lemma CallsExactly(w: World, events: seq<Event>, e: Event)
    requires Proposed(w)
    ensures var s := Replay(w, events);
            |Next(s, e).calls| > |s.calls| <==>
              Takes(s.db, e) && e.cut >= 4 && (forall x: Reason :: !Applies(x, s.db, e)) && InTime(e)
  {
    SoundRun(w, events);
    var s := Replay(w, events);
    hide Replay, Applies;
    TakesIsDue(s.db, e);
    if Takes(s.db, e) {
      NoReasonIsStart(s.db, e);
      StretchOfStart(s.db, e);
    }
    OnlyStretchesCall(s, e);
  }

  lemma OnlyStretchesCall(w: World, e: Event)
    ensures |Next(w, e).calls| > |w.calls| <==>
            (e.Work? && Invokes(w.db, e.worker, e.instants, e.checks)
             && e.cut >= |Stretch(w.db, e.worker, e.instants, e.checks)|)
  {
    hide Stretch, Invokes, Settlement;
  }

  lemma StretchOfStart(r: Record, e: Event)
    requires Takes(r, e) && Fenced(r)
    ensures var d := Decide(Claimed(r, e.worker, e.instants), e.checks, e.instants.check, e.worker.maxActionAgeMs);
            && (Invokes(r, e.worker, e.instants, e.checks) <==> d == Start && InTime(e))
            && (d == Start ==> |Stretch(r, e.worker, e.instants, e.checks)| == 4)
  {
    ClaimedFacts(r, e);
    hide Decide;
  }

  /** A called action: a new attempt is open for the worker, numbered next, and the call carries the proposal. */
  lemma CallLeaves(w: World, events: seq<Event>, e: Event)
    requires Proposed(w)
    requires var s := Replay(w, events);
             Takes(s.db, e) && e.cut >= 4 && (forall x: Reason :: !Applies(x, s.db, e)) && InTime(e)
    ensures var s := Replay(w, events);
            var t, n := Next(s, e), |s.db.attempts| + 1;
            && t.db.action == s.db.action
            && t.db.attempts == AllAfterExpiry(s.db.attempts, e.instants.lease)
                                  + [Attempt(n, e.worker.id, InProgress, e.instants.begin, None, None, None)]
            && t.db.row == Some(s.db.row.value.(status := Executing, attemptCount := n, leaseOwner := Some(e.worker.id),
                                                leaseExpiresAt := Some(e.instants.lease + e.worker.leaseMs)))
            && |t.calls| == |s.calls| + 1 && t.calls[..|s.calls|] == s.calls
            && (var c := Last(t.calls);
                c.attempt == n && c.worker == e.worker.id && c.arguments == s.db.action.arguments && c.phase == Running)
  {
    SoundRun(w, events);
    var s := Replay(w, events);
    hide Replay;
    assert !Applies(PayloadChanged, s.db, e);
    TakesIsDue(s.db, e);
    NoReasonIsStart(s.db, e);
    StretchOfStart(s.db, e);
    ClaimedFacts(s.db, e);
    hide Decide, Applies, Due, Authority, CallsRecorded, RetriesAccounted, AllAfterExpiry;
  }

  // ---------- What a refusal leaves ----------

  /** The action status, the row status and the error class after a refusal. */
  datatype Left = Left(action: ActionStatus, row: QueueStatus, cause: ErrorClass)

  function LeftBy(x: Reason, r: Record): Left
    requires r.row.Some? && x != AlreadyDone
  {
    var same, tried := r.action.status, r.row.value.attemptCount > 0;
    match x
    case OwnerRejected => Left(same, Withdrawn, OwnerAttentionRequired)
    case RunCancelled =>
      if tried then Left(same, Stopped, OwnerAttentionRequired) else Left(Cancelled, Withdrawn, NonRetryable)
    case PastDeadline =>
      if tried then Left(same, Stopped, OwnerAttentionRequired) else Left(Blocked, Withdrawn, NonRetryable)
    case NotEvaluated => Left(same, Stopped, NonRetryable)
    case GoalInvalid => Left(Blocked, Withdrawn, OwnerAttentionRequired)
    case PolicyBlocks => Left(Blocked, Withdrawn, NonRetryable)
    case PackageRefuses => Left(Blocked, Withdrawn, NonRetryable)
    case TooOld => Left(Failed, Stopped, OwnerAttentionRequired)
    case ApprovalMissing => Left(Pending, Stopped, OwnerAttentionRequired)
    case AccountUnusable => Left(Failed, Stopped, OwnerAttentionRequired)
    case PayloadChanged => Left(Failed, Stopped, OwnerAttentionRequired)
    case OutcomeUnknown => Left(Failed, Stopped, OutcomeUncertain)
  }

  /** The first reason that applies. */
  ghost predicate FirstReason(x: Reason, r: Record, e: Event)
    requires e.Work? && r.row.Some?
  {
    Applies(x, r, e) && forall y: Reason :: Rank(y) < Rank(x) ==> !Applies(y, r, e)
  }

  /** The decision is the one the reason stands for. */
  predicate DecidedBy(x: Reason, r: Record, d: Decision)
    requires r.row.Some?
  {
    if x == AlreadyDone then d == AlreadyExecuted
    else
      && d.Stop? && d.status == LeftBy(x, r).row && d.cause == LeftBy(x, r).cause
      && (if d.write.Some? then d.write.value else r.action.status) == LeftBy(x, r).action
  }

  lemma EarlyReasonDecides(x: Reason, r: Record, s: Record, e: Event)
    requires e.Work? && r.row.Some? && FirstReason(x, r, e) && Rank(x) <= 5
    requires s.action == r.action && s.row.Some? && s.row.value.attemptCount == r.row.value.attemptCount
    ensures DecidedBy(x, r, Decide(s, e.checks, e.instants.check, e.worker.maxActionAgeMs))
  {
    hide RecoveredUncertain, Stale;
    assert Rank(OwnerRejected) < Rank(x) ==> !Applies(OwnerRejected, r, e);
    assert Rank(AlreadyDone) < Rank(x) ==> !Applies(AlreadyDone, r, e);
    assert Rank(RunCancelled) < Rank(x) ==> !Applies(RunCancelled, r, e);
    assert Rank(PastDeadline) < Rank(x) ==> !Applies(PastDeadline, r, e);
    assert Rank(NotEvaluated) < Rank(x) ==> !Applies(NotEvaluated, r, e);
  }

  lemma LateReasonDecides(x: Reason, r: Record, s: Record, e: Event)
    requires e.Work? && r.row.Some? && FirstReason(x, r, e) && Rank(x) > 5
    requires s.action == r.action && s.row.Some? && s.row.value.arguments == r.row.value.arguments
    requires RecoveredUncertain(s) <==>
             r.attempts != [] && (Last(r.attempts).status == InProgress || Last(r.attempts).error == Some("lease expired"))
    ensures DecidedBy(x, r, Decide(s, e.checks, e.instants.check, e.worker.maxActionAgeMs))
  {
    hide RecoveredUncertain;
    assert !Applies(OwnerRejected, r, e) && !Applies(AlreadyDone, r, e) && !Applies(RunCancelled, r, e);
    assert !Applies(PastDeadline, r, e) && !Applies(NotEvaluated, r, e) && !Applies(GoalInvalid, r, e);
    assert Rank(PolicyBlocks) < Rank(x) ==> !Applies(PolicyBlocks, r, e);
    assert Rank(PackageRefuses) < Rank(x) ==> !Applies(PackageRefuses, r, e);
    assert Rank(TooOld) < Rank(x) ==> !Applies(TooOld, r, e);
    assert Rank(ApprovalMissing) < Rank(x) ==> !Applies(ApprovalMissing, r, e);
    assert Rank(AccountUnusable) < Rank(x) ==> !Applies(AccountUnusable, r, e);
    assert Rank(PayloadChanged) < Rank(x) ==> !Applies(PayloadChanged, r, e);
  }

  lemma FirstReasonDecides(x: Reason, r: Record, e: Event)
    requires Fenced(r) && e.Work? && r.row.Some? && FirstReason(x, r, e)
    ensures var d := Decide(Claimed(r, e.worker, e.instants), e.checks, e.instants.check, e.worker.maxActionAgeMs);
            DecidedBy(x, r, d)
  {
    hide Decide, Claimed, Fenced, FirstReason, Applies, RecoveredUncertain, AllAfterExpiry, DecidedBy;
    ClaimedFacts(r, e);
    if Rank(x) <= 5 {
      EarlyReasonDecides(x, r, Claimed(r, e.worker, e.instants), e);
    } else {
      LateReasonDecides(x, r, Claimed(r, e.worker, e.instants), e);
    }
  }

  /** In every state a run can reach: the first reason that applies decides what a stretch that is not cut short
      leaves stored, and nothing is called. */
  lemma RefusalLeaves(w: World, events: seq<Event>, e: Event, x: Reason)
    requires Proposed(w)
    requires var s := Replay(w, events); Takes(s.db, e) && e.cut >= 5 && FirstReason(x, s.db, e) && x != AlreadyDone
    ensures var s := Replay(w, events);
            var t, left := Next(s, e), LeftBy(x, s.db);
            && t.calls == s.calls
            && t.db.action == s.db.action.(status := left.action)
            && t.db.attempts == AllAfterExpiry(s.db.attempts, e.instants.lease)
            && t.db.row == Some(s.db.row.value.(status := left.row, leaseOwner := None, leaseExpiresAt := None,
                                                errorClass := Some(left.cause)))
  {
    SoundRun(w, events);
    var s := Replay(w, events);
    hide Replay;
    TakesIsDue(s.db, e);
    FirstReasonDecides(x, s.db, e);
    ClaimedFacts(s.db, e);
    hide Decide, Applies, FirstReason, Due, Fenced;
  }

  /** An action already executed gets an attempt that is complete, and its row is completed, without a call. */
  lemma CompletionLeaves(w: World, events: seq<Event>, e: Event)
    requires Proposed(w)
    requires var s := Replay(w, events); Takes(s.db, e) && e.cut >= 5 && FirstReason(AlreadyDone, s.db, e) && InTime(e)
    ensures var s := Replay(w, events);
            var t, n := Next(s, e), |s.db.attempts| + 1;
            && t.calls == s.calls && t.db.action == s.db.action
            && t.db.attempts == AllAfterExpiry(s.db.attempts, e.instants.lease)
                 + [Attempt(n, e.worker.id, Succeeded, e.instants.begin, Some(e.instants.begin), None, None)]
            && t.db.row == Some(s.db.row.value.(status := Completed, attemptCount := n, leaseOwner := None,
                                                leaseExpiresAt := None, errorClass := None))
  {
    hide Replay, Decide, Applies, FirstReason, Takes, Stretch, AfterClaim, Claimed, Next, AllAfterExpiry, Authority, CallsRecorded, RetriesAccounted;
    SoundRun(w, events);
    var s := Replay(w, events);
    assert s.db.row.Some? && e.Work? by {
      TakesIsDue(s.db, e);
    }
    FirstReasonDecides(AlreadyDone, s.db, e);
    ClaimedFacts(s.db, e);
    WholeStretch(s, e);
    CompletedAttempt(Claimed(s.db, e.worker, e.instants), e);
  }

  lemma WholeStretch(w: World, e: Event)
    requires Takes(w.db, e) && e.cut >= 5
    ensures var claimed := Claimed(w.db, e.worker, e.instants);
            var d := Decide(claimed, e.checks, e.instants.check, e.worker.maxActionAgeMs);
            && Next(w, e).db == Last(AfterClaim(claimed, e.worker, e.instants, d))
            && (d != Start ==> Next(w, e).calls == w.calls)
  {
    TakesIsDue(w.db, e);
    hide Decide, Due, Claimed;
  }

  lemma CompletedAttempt(r: Record, e: Event)
    requires e.Work? && r.row.Some? && r.row.value.attemptCount == |r.attempts| && InTime(e)
    requires HeldBy(r, Leased, e.worker.id) && r.row.value.leaseExpiresAt == Some(e.instants.lease + e.worker.leaseMs)
    ensures var states := AfterClaim(r, e.worker, e.instants, AlreadyExecuted);
            var n := |r.attempts| + 1;
            && |states| == 3 && states[2].action == r.action
            && states[2].attempts == r.attempts
                 + [Attempt(n, e.worker.id, Succeeded, e.instants.begin, Some(e.instants.begin), None, None)]
            && states[2].row == Some(r.row.value.(status := Completed, attemptCount := n, leaseOwner := None,
                                                  leaseExpiresAt := None, errorClass := None))
  {
    var begun := Begun(r, e.worker.id, e.instants.begin).value;
    assert begun.attempts[|r.attempts|].status == InProgress;
  }

  /** A row that is not due is left alone. */
  lemma NothingTaken(w: World, e: Event)
    requires e.Work? && !Takes(w.db, e)
    ensures Next(w, e) == w
  {
    TakesIsDue(w.db, e);
  }

  // ---------- How errors are classed ----------

  predicate SameLetter(c: char, d: char) {
    c == d || ('a' <= c <= 'z' && 'A' <= d <= 'Z' && (c as int) - ('a' as int) == (d as int) - ('A' as int))
  }

  /** Equal but for small letters where the code has capitals. */
  predicate Spells(s: string, code: string) {
    |s| == |code| && forall i :: 0 <= i < |s| ==> SameLetter(s[i], code[i])
  }

  predicate NoSmallLetters(s: string) {
    forall i :: 0 <= i < |s| ==> !('a' <= s[i] <= 'z')
  }

  lemma UpperSpells(s: string, code: string)
    requires NoSmallLetters(code)
    ensures Upper(s) == code <==> Spells(s, code)
  {
    if Upper(s) == code {
      forall i | 0 <= i < |s|
        ensures SameLetter(s[i], code[i])
      {
        assert Upper(s)[i] == UpperChar(s[i]);
      }
    }
  }

  predicate NamesAuthentication(code: string) {
    Spells(code, "EAUTH") || Spells(code, "UNAUTHENTICATED") || Spells(code, "INVALID_CREDENTIALS")
  }

  predicate NamesNetworkTrouble(code: string) {
    || Spells(code, "ETIMEDOUT") || Spells(code, "ECONNRESET") || Spells(code, "ECONNREFUSED")
    || Spells(code, "ENETUNREACH") || Spells(code, "EAI_AGAIN")
  }

  lemma CodesSpelled(code: string)
    ensures Upper(code) in AUTH_CODES <==> NamesAuthentication(code)
    ensures Upper(code) in RETRYABLE_CODES <==> NamesNetworkTrouble(code)
  {
    UpperSpells(code, "EAUTH");
    UpperSpells(code, "UNAUTHENTICATED");
    UpperSpells(code, "INVALID_CREDENTIALS");
    UpperSpells(code, "ETIMEDOUT");
    UpperSpells(code, "ECONNRESET");
    UpperSpells(code, "ECONNREFUSED");
    UpperSpells(code, "ENETUNREACH");
    UpperSpells(code, "EAI_AGAIN");
  }

  /** An error that says nothing of itself needs authentication by its code or status 401 or 403; otherwise it is
      retryable by its code or status 408, 429 or 500 and above; otherwise it is final. */
  lemma ClassedExactly(e: ToolError)
    requires e.declaredClass == None && !e.ownerAttentionRequired
    ensures Classify(e) == AuthenticationRequired <==> NamesAuthentication(e.code) || e.status in {401, 403}
    ensures Classify(e) == Retryable <==>
            && !NamesAuthentication(e.code)
            && (NamesNetworkTrouble(e.code) || e.status in {408, 429} || e.status >= 500)
            && e.status !in {401, 403}
    ensures Classify(e) in {AuthenticationRequired, Retryable, NonRetryable}
  {
    hide Upper, NamesAuthentication, NamesNetworkTrouble;
    CodesSpelled(e.code);
  }

  /** What an error declares goes before all else, then the owner's attention. */
  lemma DeclaredClassWins(e: ToolError, cause: ErrorClass)
    ensures e.declaredClass == Some(cause) ==> Classify(e) == cause
    ensures e.declaredClass == None && e.ownerAttentionRequired ==> Classify(e) == OwnerAttentionRequired
  {
  }

  // ---------- What the other steps leave ----------

  /** An approved action gets a fresh row, once. */
  lemma EnqueueLeaves(w: World, arguments: string, at: int)
    ensures var t := Next(w, Enqueue(arguments, at));
            if w.db.action.status == Approved && w.db.row.None?
            then t == w.(db := w.db.(row := Some(Row(Queued, arguments, 0, at, None, None, None, at))))
            else t == w
  {
  }

  /** The owner's word on a pending action, and only there. */
  lemma OwnerLeaves(w: World, at: int, evaluation: Evaluation, accountProblem: bool, cut: nat)
    ensures var t := Next(w, Reject(at));
            if w.db.action.status == Pending
            then t == w.(db := w.db.(action := w.db.action.(status := Rejected, rejectedAt := Some(at))))
            else t == w
    ensures var t := Next(w, Approve(at, evaluation, accountProblem, cut));
            if w.db.action.status != Pending || evaluation == Unresolved then t == w
            else if accountProblem || evaluation.blocked then t == w.(db := w.db.(action := w.db.action.(status := Blocked)))
            else t.calls == w.calls && t.db.attempts == w.db.attempts
                 && t.db.action == w.db.action.(status := Approved, approvedAt := Some(at))
  {
  }

  /** The row after an approval that runs to its end: queued afresh, queued again from a stop, or as it was. */
  lemma ApprovalQueues(w: World, at: int, evaluation: Evaluation)
    requires Sound(w) && w.db.action.status == Pending && evaluation.Evaluated? && !evaluation.blocked
    ensures Next(w, Approve(at, evaluation, false, 1)).db.row ==
            match w.db.row
            case None => Some(Row(Queued, w.db.action.arguments, 0, at, None, None, None, at))
            case Some(row) =>
              if row.status == Stopped
              then Some(row.(status := Queued, nextAttemptAt := at, leaseOwner := None, leaseExpiresAt := None, errorClass := None))
              else Some(row)
  {
  }

  /** Cancelling wins over a row that waits and an action not executed, and over nothing else. */
  lemma CancelLeaves(w: World)
    ensures var t := Next(w, Cancel);
            if w.db.row.Some? && w.db.row.value.status in {Queued, RetryWait} && w.db.action.status != Executed
            then t == w.(db := w.db.(action := w.db.action.(status := Cancelled),
                                     row := Some(w.db.row.value.(status := Withdrawn, errorClass := Some(NonRetryable)))))
            else t == w
  {
  }

  lemma RenewLeaves(w: World, owner: WorkerId, leaseMs: nat, at: int)
    ensures var t := Next(w, Renew(owner, leaseMs, at));
            if w.db.row.Some? && w.db.row.value.status in {Leased, Executing} && w.db.row.value.leaseOwner == Some(owner)
            then t == w.(db := w.db.(row := Some(w.db.row.value.(leaseExpiresAt := Some(at + leaseMs)))))
            else t == w
  {
  }

  /** A running call writes `executed` or `failed`, and nothing else. */
  lemma ReturnLeaves(w: World, i: nat, error: ToolError)
    requires i < |w.calls| && w.calls[i].phase == Running
    ensures Next(w, Return(i, Success)) ==
            World(w.db.(action := w.db.action.(status := Executed)), w.calls[i := w.calls[i].(phase := Returned(Success))])
    ensures Next(w, Return(i, Failure(error))) ==
            World(w.db.(action := w.db.action.(status := Failed)), w.calls[i := w.calls[i].(phase := Returned(Failure(error)))])
  {
  }

  /** The call's attempt is still the open one of an executing row. */
  predicate Current(w: World, i: nat) {
    && i < |w.calls| && w.calls[i].phase.Returned?
    && w.db.row.Some? && w.db.row.value.status == Executing && w.db.row.value.leaseOwner == Some(w.calls[i].worker)
    && w.calls[i].attempt == |w.db.attempts| >= 1
    && Last(w.db.attempts).status == InProgress && Last(w.db.attempts).leaseOwner == w.calls[i].worker
  }

  /** An error while the completion is published turns a success into a failure, and replaces the error of one. */
  lemma PublishLeaves(w: World, i: nat, error: ToolError)
    requires i < |w.calls| && w.calls[i].phase.Returned?
    ensures var t, o := Next(w, PublishFails(i, error)), w.calls[i].phase.outcome;
            if o == Success
            then t == World(w.db.(action := w.db.action.(status := Failed)),
                            w.calls[i := w.calls[i].(phase := Returned(Unpublished(error)))])
            else t == w.(calls := w.calls[i := w.calls[i].(phase := Returned(o.(error := error)))])
  {
  }

  /** A worker that dies leaves what is stored, and loses those of its calls that are not settled. */
  lemma CrashLeaves(w: World, owner: WorkerId, i: nat)
    requires i < |w.calls|
    ensures var t, c := Next(w, Crash(owner)), w.calls[i];
            && t.db == w.db && |t.calls| == |w.calls|
            && t.calls[i] == if c.worker == owner && (c.phase == Running || c.phase.Returned?) then c.(phase := Lost) else c
  {
  }

  /** Milliseconds before the next attempt, after the first, second, third and fourth. */
  const DELAYS := [1_000, 2_000, 4_000, 8_000]

  /** The class a failure is recorded under. */
  function CauseOf(e: ToolError, tool: Tool): ErrorClass {
    if Classify(e) != Retryable then Classify(e)
    else if tool.supportsIdempotency || e.safeToRetry then Retryable
    else OwnerAttentionRequired
  }

  /** A settlement closes attempt and row together: completed after a success; after a failure waiting out its delay
      while attempts are left, given up after the fifth, stopped when the failure is not to be retried. */
  lemma SettleLeaves(w: World, i: nat, at: int)
    requires Current(w, i)
    ensures var t, n, row := Next(w, Settle(i, at)), |w.db.attempts|, w.db.row.value;
            var last := Last(w.db.attempts);
            && t.db.action == w.db.action && |t.db.attempts| == n && t.db.attempts[..n - 1] == w.db.attempts[..n - 1]
            && t.calls == w.calls[i := w.calls[i].(phase := Accepted(w.calls[i].phase.outcome))]
            && (if w.calls[i].phase.outcome.Success? then
                  && t.db.attempts[n - 1] == last.(status := Succeeded, finishedAt := Some(at), error := None, errorClass := None)
                  && t.db.row == Some(row.(status := Completed, leaseOwner := None, leaseExpiresAt := None, errorClass := None))
                else
                  var error := w.calls[i].phase.outcome.error;
                  var cause := CauseOf(error, w.db.action.tool);
                  && t.db.attempts[n - 1] == last.(status := Closed, finishedAt := Some(at), error := Some(error.message),
                                                   errorClass := Some(cause))
                  && t.db.row == Some(row.(leaseOwner := None, leaseExpiresAt := None, errorClass := Some(cause),
                       status := if cause != Retryable then Stopped else if n < 5 then RetryWait else DeadLetter,
                       nextAttemptAt := if cause == Retryable && n < 5 then at + DELAYS[n - 1] else at)))
  {
    DelayTable();
    hide Classify, RetryDelayMs;
  }

  lemma DelayTable()
    ensures RetryDelayMs(1) == 1_000 && RetryDelayMs(2) == 2_000 && RetryDelayMs(3) == 4_000 && RetryDelayMs(4) == 8_000
  {
  }

  /** Any other settlement is refused and stores nothing. */
  lemma SettleRefused(w: World, i: nat, at: int)
    requires Sound(w) && i < |w.calls| && !Current(w, i)
    ensures Next(w, Settle(i, at)).db == w.db
  {
  }
}
