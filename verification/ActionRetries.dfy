/** How often an action is tried, and when. */
module ActionRetries {
  import opened Common
  import opened ActionQueue
  import opened ActionWorker
  import opened ActionRuns
  import opened ActionGuarantees

  // ---------- Bounded attempts ----------

  /** The step is a lease that closes an attempt left open by an expired one. */
  predicate ClosesOpen(w: World, e: Event) {
    && e.Work? && e.cut >= 2
    && w.db.row.Some? && Due(w.db.row.value, e.instants.lease)
    && w.db.attempts != [] && Last(w.db.attempts).status == InProgress
  }

  /** How many attempts of the run were closed by lease expiry. */
  function Closings(w: World, events: seq<Event>): nat {
    if events == [] then 0
    else
      var before := events[..|events| - 1];
      Closings(w, before) + if ClosesOpen(Replay(w, before), Last(events)) then 1 else 0
  }

  /** With `x` attempts closed by expiry: the limit and those, one fewer when another attempt may follow. */
  predicate Spent(r: Record, x: nat) {
    && |r.attempts| <= MAX_ATTEMPTS + x
    && (Resumable(r) && r.attempts != [] && Last(r.attempts).status != InProgress ==> |r.attempts| < MAX_ATTEMPTS + x)
  }

  lemma SpentClaim(r: Record, w: Worker, at: Instants, x: nat)
    requires Fenced(r) && Spent(r, x) && r.row.Some? && Due(r.row.value, at.lease)
    ensures Spent(LeasedTo(r, w.id, w.leaseMs, at.lease), x)
    ensures var y := if r.attempts != [] && Last(r.attempts).status == InProgress then x + 1 else x;
            var s := Claimed(r, w, at);
            Spent(s, y) && |s.attempts| == |r.attempts| < MAX_ATTEMPTS + y
  {
    var s := Claimed(r, w, at);
    assert r.attempts != [] ==> Last(s.attempts) == CloseIfOpen(Last(r.attempts), at.lease);
  }

  lemma SpentAfterClaim(r: Record, w: Worker, at: Instants, d: Decision, k: nat, x: nat)
    requires r.row.Some? && |r.attempts| < MAX_ATTEMPTS + x && k < |AfterClaim(r, w, at, d)|
    requires r.row.value.attemptCount == |r.attempts|
    requires d.Stop? ==> d.status in {Stopped, Withdrawn}
    ensures Spent(AfterClaim(r, w, at, d)[k], x)
  {
  }

  lemma SpentStretch(r: Record, w: Worker, at: Instants, c: Checks, k: nat, x: nat)
    requires Fenced(r) && Spent(r, x) && k < |Stretch(r, w, at, c)|
    ensures var closes := k >= 2 && r.attempts != [] && Last(r.attempts).status == InProgress;
            Spent(Stretch(r, w, at, c)[k], if closes then x + 1 else x)
  {
    hide Decide, AfterClaim, Spent;
    if r.row.Some? && Due(r.row.value, at.lease) {
      SpentClaim(r, w, at, x);
      FencedClaim(r, w, at);
      if k >= 2 {
        var claimed := Claimed(r, w, at);
        var y := if r.attempts != [] && Last(r.attempts).status == InProgress then x + 1 else x;
        DecisionShape(claimed, c, at.check, w.maxActionAgeMs);
        SpentAfterClaim(claimed, w, at, Decide(claimed, c, at.check, w.maxActionAgeMs), k - 2, y);
      }
    }
  }

  lemma SpentSettle(w: World, i: nat, at: int, x: nat)
    requires Sound(w) && Spent(w.db, x) && i < |w.calls|
    ensures Spent(AfterSettle(w, i, at).db, x)
  {
    hide RecordedClass, Authorised, RetriesAccounted;
  }

  lemma SpentNext(w: World, e: Event, x: nat)
    requires Sound(w) && Spent(w.db, x)
    ensures Spent(Next(w, e).db, if ClosesOpen(w, e) then x + 1 else x)
  {
    hide Stretch, Invokes, AfterSettle;
    if e.Work? {
      var n := |Stretch(w.db, e.worker, e.instants, e.checks)|;
      StretchLength(w.db, e.worker, e.instants, e.checks);
      SpentStretch(w.db, e.worker, e.instants, e.checks, if e.cut < n then e.cut else n - 1, x);
    } else if e.Settle? && e.call < |w.calls| {
      SpentSettle(w, e.call, e.at, x);
    }
  }

  lemma StretchLength(r: Record, w: Worker, at: Instants, c: Checks)
    ensures var n := |Stretch(r, w, at, c)|;
            if r.row.Some? && Due(r.row.value, at.lease) then n >= 4 else n == 1
  {
  }

  lemma {:induction false} SpentRun(w: World, events: seq<Event>)
    requires Proposed(w)
    ensures Spent(Replay(w, events).db, Closings(w, events))
  {
    if events != [] {
      var before := events[..|events| - 1];
      SpentRun(w, before);
      SoundRun(w, before);
      SpentNext(Replay(w, before), Last(events), Closings(w, before));
    }
  }

  /** The attempt count never passes the limit by more than the number of attempts that leases closed because
      they had expired. */
  lemma BoundedRetries(w: World, events: seq<Event>)
    requires Proposed(w) && Replay(w, events).db.row.Some?
    ensures Replay(w, events).db.row.value.attemptCount <= MAX_ATTEMPTS + Closings(w, events)
  {
    SpentRun(w, events);
    SoundRun(w, events);
  }

  // ---------- Retry delays ----------

  lemma {:induction false} Pow2Monotone(m: nat, n: nat)
    requires m <= n
    ensures Pow2(m) <= Pow2(n)
  {
    if m < n {
      Pow2Monotone(m, n - 1);
    }
  }

  /** The delay never shrinks as attempts are used up, doubles until it meets the cap, and never passes it. */
  lemma RetryDelayMonotone(m: nat, n: nat)
    requires 1 <= m <= n
    ensures 0 < RetryDelayMs(m) <= RetryDelayMs(n) <= MAX_DELAY_MS
    ensures RetryDelayMs(m + 1) == Min(MAX_DELAY_MS, 2 * RetryDelayMs(m))
  {
    Pow2Monotone(m - 1, n - 1);
  }

  datatype Span = Untimed | Timed(from: int, to: int)

  function TimeOf(e: Event): Span {
    match e
    case Enqueue(_, at) => Timed(at, at)
    case Approve(at, _, _, _) => Timed(at, at)
    case Reject(at) => Timed(at, at)
    case Work(_, at, _, _) => Timed(at.lease, at.begin)
    case Renew(_, _, at) => Timed(at, at)
    case Settle(_, at) => Timed(at, at)
    case _ => Untimed
  }

  function ClockAfter(clock: int, e: Event): int {
    if TimeOf(e).Timed? then TimeOf(e).to else clock
  }

  /** The latest clock reading of a run that started at `t0`. */
  function Clock(t0: int, events: seq<Event>): int {
    if events == [] then t0 else ClockAfter(Clock(t0, events[..|events| - 1]), Last(events))
  }

  /** The clock never runs backwards. */
  predicate InOrder(t0: int, events: seq<Event>) {
    events == [] ||
      (var before := events[..|events| - 1];
       var e := Last(events);
       && InOrder(t0, before)
       && (TimeOf(e).Timed? ==> Clock(t0, before) <= TimeOf(e).from <= TimeOf(e).to))
  }

  /** Closed by a retryable failure, not by lease expiry. */
  predicate BacksOff(a: Attempt) {
    a.status == Closed && a.errorClass == Some(Retryable) && a.error != Some(LEASE_EXPIRED) && a.finishedAt.Some?
  }

  function EarliestRetry(a: Attempt): int
    requires BacksOff(a)
  {
    a.finishedAt.value + if a.number >= 1 then RetryDelayMs(a.number) else 0
  }

  predicate Waited(r: Record, clock: int) {
    && (forall i :: 0 <= i < |r.attempts| - 1 && BacksOff(r.attempts[i]) ==>
          r.attempts[i + 1].startedAt >= EarliestRetry(r.attempts[i]))
    && (r.row.Some? && r.attempts != [] && BacksOff(Last(r.attempts)) ==>
          && (r.row.value.status == RetryWait ==> r.row.value.nextAttemptAt >= EarliestRetry(Last(r.attempts)))
          && (r.row.value.status in {Leased, Queued, Stopped} ==> clock >= EarliestRetry(Last(r.attempts))))
  }

  lemma WaitedClaim(r: Record, w: Worker, at: Instants, clock: int)
    requires Fenced(r) && Waited(r, clock) && r.row.Some? && Due(r.row.value, at.lease)
    requires clock <= at.lease
    ensures Waited(LeasedTo(r, w.id, w.leaseMs, at.lease), at.lease)
    ensures Waited(Claimed(r, w, at), at.lease)
  {
    var x := Claimed(r, w, at);
    forall i | 0 <= i < |x.attempts| - 1 && BacksOff(x.attempts[i])
      ensures x.attempts[i + 1].startedAt >= EarliestRetry(x.attempts[i])
    {
      assert x.attempts[i] == CloseIfOpen(r.attempts[i], at.lease);
    }
    if x.attempts != [] {
      assert Last(x.attempts) == CloseIfOpen(Last(r.attempts), at.lease);
    }
  }

  lemma WaitedBegun(r: Record, owner: WorkerId, clock: int, now: int)
    requires Waited(r, clock) && clock <= now && Begun(r, owner, now).Ok?
    ensures Waited(Begun(r, owner, now).value, now)
  {
    hide EarliestRetry;
    var next := Begun(r, owner, now).value.attempts;
    forall i | 0 <= i < |next| - 1 && BacksOff(next[i])
      ensures next[i + 1].startedAt >= EarliestRetry(next[i])
    {
      assert next[i] == r.attempts[i];
    }
  }

  lemma WaitedCompleted(r: Record, owner: WorkerId, now: int)
    requires Waited(r, now) && AttemptCompleted(r, |r.attempts|, owner, now).Ok?
    ensures Waited(AttemptCompleted(r, |r.attempts|, owner, now).value, now)
  {
    hide EarliestRetry;
    var next := AttemptCompleted(r, |r.attempts|, owner, now).value.attempts;
    forall i | 0 <= i < |next| - 1 && BacksOff(next[i])
      ensures next[i + 1].startedAt >= EarliestRetry(next[i])
    {
      assert next[i] == r.attempts[i];
    }
  }

  lemma WaitedAfterClaim(r: Record, w: Worker, at: Instants, d: Decision, k: nat)
    requires Fenced(r) && r.row.Some? && r.row.value.status == Leased && Waited(r, at.lease)
    requires at.lease <= at.begin && k < |AfterClaim(r, w, at, d)|
    requires d.Stop? ==> d.status in {Stopped, Withdrawn}
    ensures Waited(AfterClaim(r, w, at, d)[k], at.begin)
  {
    hide Waited;
    var next := AfterClaim(r, w, at, d)[k];
    if d.Stop? {
      WaitedKept(r, next, at.lease, at.begin);
    } else {
      WaitedKept(r, r, at.lease, at.begin);
      if Begun(r, w.id, at.begin).Ok? {
        var begun := Begun(r, w.id, at.begin).value;
        WaitedBegun(r, w.id, at.lease, at.begin);
        if AttemptCompleted(begun, |begun.attempts|, w.id, at.begin).Ok? {
          WaitedCompleted(begun, w.id, at.begin);
        }
      }
    }
  }

  lemma LeasedByClaim(r: Record, w: Worker, at: Instants)
    requires r.row.Some?
    ensures Claimed(r, w, at).row.Some? && Claimed(r, w, at).row.value.status == Leased
    ensures |Claimed(r, w, at).attempts| == |r.attempts|
  {
  }

  lemma WaitedStretch(r: Record, w: Worker, at: Instants, c: Checks, k: nat, clock: int)
    requires Fenced(r) && Waited(r, clock) && k < |Stretch(r, w, at, c)|
    requires clock <= at.lease <= at.begin
    ensures Waited(Stretch(r, w, at, c)[k], at.begin)
  {
    hide Decide, AfterClaim, Fenced, Waited, LeasedTo;
    WaitedKept(r, r, clock, at.begin);
    if r.row.Some? && Due(r.row.value, at.lease) {
      WaitedClaim(r, w, at, clock);
      FencedClaim(r, w, at);
      LeasedByClaim(r, w, at);
      DecisionShape(Claimed(r, w, at), c, at.check, w.maxActionAgeMs);
      WaitedKept(LeasedTo(r, w.id, w.leaseMs, at.lease), LeasedTo(r, w.id, w.leaseMs, at.lease), at.lease, at.begin);
      if k >= 2 {
        var claimed := Claimed(r, w, at);
        WaitedAfterClaim(claimed, w, at, Decide(claimed, c, at.check, w.maxActionAgeMs), k - 2);
      }
    }
  }

  lemma WaitedSettle(w: World, i: nat, at: int, clock: int)
    requires Sound(w) && Waited(w.db, clock) && i < |w.calls| && clock <= at
    ensures Waited(AfterSettle(w, i, at).db, at)
  {
    hide RecordedClass, Authorised, Authority, RetriesAccounted;
    var c := w.calls[i];
    if c.phase.Returned? && Settlement(w.db, c, at).Ok? {
      var r := AfterSettle(w, i, at).db;
      assert c.attempt == |w.db.attempts|;
      assert forall k :: 0 <= k < |r.attempts| - 1 ==> r.attempts[k] == w.db.attempts[k];
      assert forall k :: 0 <= k < |r.attempts| ==> r.attempts[k].startedAt == w.db.attempts[k].startedAt;
      assert r.row.value.status !in {Leased, Queued};
    }
  }

  /** Steps that leave the attempts alone. */
  lemma WaitedKept(before: Record, after: Record, clock: int, later: int)
    requires Waited(before, clock) && clock <= later && after.attempts == before.attempts
    requires after.row.Some? && after.attempts != [] ==> before.row.Some?
    requires before.row.Some? && after.row.Some? ==>
               var was, now := before.row.value, after.row.value;
               || (now.status == was.status && now.nextAttemptAt == was.nextAttemptAt)
               || now.status == Withdrawn
               || (now.status in {Queued, Stopped} && was.status in {Stopped, Leased})
    ensures Waited(after, later)
  {
    hide EarliestRetry;
  }

  lemma WaitedNext(w: World, e: Event, clock: int)
    requires Sound(w) && Waited(w.db, clock)
    requires TimeOf(e).Timed? ==> clock <= TimeOf(e).from <= TimeOf(e).to
    ensures Waited(Next(w, e).db, ClockAfter(clock, e))
  {
    if e.Work? {
      var n := |Stretch(w.db, e.worker, e.instants, e.checks)|;
      WaitedStretch(w.db, e.worker, e.instants, e.checks, if e.cut < n then e.cut else n - 1, clock);
    } else if e.Settle? && e.call < |w.calls| {
      WaitedSettle(w, e.call, e.at, clock);
    } else {
      WaitedKept(w.db, Next(w, e).db, clock, ClockAfter(clock, e));
    }
  }

  lemma {:induction false} WaitedRun(w: World, t0: int, events: seq<Event>)
    requires Proposed(w) && InOrder(t0, events)
    ensures Waited(Replay(w, events).db, Clock(t0, events))
  {
    if events != [] {
      var before := events[..|events| - 1];
      WaitedRun(w, t0, before);
      SoundRun(w, before);
      WaitedNext(Replay(w, before), Last(events), Clock(t0, before));
    }
  }

  /** With a clock that does not run backwards, the attempt after a retryable failure starts no
      sooner than the capped exponential delay, whatever crashes, stops or approvals lie between. */
  lemma RetryWaitsOutDelay(w: World, t0: int, events: seq<Event>, i: nat)
    requires Proposed(w) && InOrder(t0, events)
    requires i + 1 < |Replay(w, events).db.attempts| && BacksOff(Replay(w, events).db.attempts[i])
    ensures var a := Replay(w, events).db.attempts;
            a[i + 1].startedAt >= a[i].finishedAt.value + RetryDelayMs(i + 1)
  {
    hide RetryDelayMs, Replay;
    WaitedRun(w, t0, events);
    SoundRun(w, events);
  }

  // ---------- Bounded calls ----------

  /** Every worker is configured alike, and reads its clock in order. */
  predicate Uniform(events: seq<Event>, leaseMs: nat, maxAgeMs: nat) {
    forall e :: e in events ==> UniformEvent(e, leaseMs, maxAgeMs)
  }

  predicate UniformEvent(e: Event, leaseMs: nat, maxAgeMs: nat) {
    && (e.Work? ==> e.worker.leaseMs == leaseMs && e.worker.maxActionAgeMs == maxAgeMs
                    && e.instants.lease <= e.instants.check)
    && (e.Renew? ==> e.leaseMs == leaseMs)
  }

  /** The earliest time by which `x` leases can have expired. */
  function Elapsed(t0: int, leaseMs: nat, x: int): int {
    t0 + leaseMs * x
  }

  lemma ElapsedStep(t0: int, leaseMs: nat, x: int)
    ensures Elapsed(t0, leaseMs, x + 1) == Elapsed(t0, leaseMs, x) + leaseMs
  {
    assert leaseMs * (x + 1) == leaseMs * x + leaseMs;
  }

  lemma {:induction false} ElapsedMonotone(t0: int, leaseMs: nat, x: int, y: int)
    requires x <= y
    ensures Elapsed(t0, leaseMs, x) <= Elapsed(t0, leaseMs, y)
    decreases y - x
  {
    if x < y {
      ElapsedMonotone(t0, leaseMs, x, y - 1);
      ElapsedStep(t0, leaseMs, y - 1);
    }
  }

  /** `x` leases have expired: that took its time, and the present lease takes one more. */
  predicate Paced(r: Record, t0: int, leaseMs: nat, x: nat, clock: int) {
    && Elapsed(t0, leaseMs, x) <= clock
    && (r.row.Some? && Held(r.row.value) && r.row.value.leaseExpiresAt.Some? ==>
          r.row.value.leaseExpiresAt.value >= Elapsed(t0, leaseMs, x + 1))
  }

  lemma PacedClaim(r: Record, w: Worker, at: Instants, t0: int, x: nat, clock: int)
    requires Fenced(r) && Paced(r, t0, w.leaseMs, x, clock) && clock <= at.lease && r.row.Some? && Due(r.row.value, at.lease)
    ensures Paced(LeasedTo(r, w.id, w.leaseMs, at.lease), t0, w.leaseMs, x, at.lease)
    ensures var y := if r.attempts != [] && Last(r.attempts).status == InProgress then x + 1 else x;
            Paced(Claimed(r, w, at), t0, w.leaseMs, y, at.lease)
  {
    ElapsedStep(t0, w.leaseMs, x);
    ElapsedStep(t0, w.leaseMs, x + 1);
    hide Elapsed;
  }

  /** The rest of a stretch keeps the lease it took, or gives it up. */
  lemma PacedAfterClaim(r: Record, w: Worker, at: Instants, d: Decision, k: nat, t0: int, x: nat)
    requires r.row.Some? && Paced(r, t0, w.leaseMs, x, at.lease) && at.lease <= at.begin
    requires k < |AfterClaim(r, w, at, d)| && (d.Stop? ==> d.status in {Stopped, Withdrawn})
    ensures Paced(AfterClaim(r, w, at, d)[k], t0, w.leaseMs, x, at.begin)
  {
    hide Elapsed;
  }

  lemma PacedStretch(r: Record, w: Worker, at: Instants, c: Checks, k: nat, t0: int, x: nat, clock: int)
    requires Fenced(r) && Paced(r, t0, w.leaseMs, x, clock) && k < |Stretch(r, w, at, c)|
    requires clock <= at.lease <= at.begin
    ensures var closes := k >= 2 && r.attempts != [] && Last(r.attempts).status == InProgress;
            Paced(Stretch(r, w, at, c)[k], t0, w.leaseMs, if closes then x + 1 else x, at.begin)
  {
    hide Decide, AfterClaim, Elapsed, Claimed, LeasedTo, Fenced;
    if r.row.Some? && Due(r.row.value, at.lease) {
      PacedClaim(r, w, at, t0, x, clock);
      if k >= 2 {
        LeasedByClaim(r, w, at);
        var claimed := Claimed(r, w, at);
        var y := if r.attempts != [] && Last(r.attempts).status == InProgress then x + 1 else x;
        DecisionShape(claimed, c, at.check, w.maxActionAgeMs);
        PacedAfterClaim(claimed, w, at, Decide(claimed, c, at.check, w.maxActionAgeMs), k - 2, t0, y);
      }
    }
  }

  lemma PacedNext(w: World, e: Event, t0: int, leaseMs: nat, maxAgeMs: nat, x: nat, clock: int)
    requires Sound(w) && Paced(w.db, t0, leaseMs, x, clock) && UniformEvent(e, leaseMs, maxAgeMs)
    requires TimeOf(e).Timed? ==> clock <= TimeOf(e).from <= TimeOf(e).to
    ensures Paced(Next(w, e).db, t0, leaseMs, if ClosesOpen(w, e) then x + 1 else x, ClockAfter(clock, e))
  {
    ElapsedStep(t0, leaseMs, x);
    hide Stretch, Invokes, Elapsed, RecordedClass;
    if e.Work? {
      var n := |Stretch(w.db, e.worker, e.instants, e.checks)|;
      StretchLength(w.db, e.worker, e.instants, e.checks);
      PacedStretch(w.db, e.worker, e.instants, e.checks, if e.cut < n then e.cut else n - 1, t0, x, clock);
    }
  }

  /** A call on attempt `n` comes no sooner than the leases that must have expired before it. */
  predicate CallsPaced(calls: seq<Call>, t0: int, leaseMs: nat, maxAgeMs: nat) {
    forall i :: 0 <= i < |calls| ==>
      Elapsed(t0, leaseMs, calls[i].attempt - MAX_ATTEMPTS) <= calls[i].checkedAt && calls[i].maxActionAgeMs == maxAgeMs
  }

  lemma NewCallPaced(w: World, e: Event, t0: int, leaseMs: nat, maxAgeMs: nat, x: nat, clock: int)
    requires Sound(w) && Spent(w.db, x) && Paced(w.db, t0, leaseMs, x, clock) && UniformEvent(e, leaseMs, maxAgeMs)
    requires e.Work? && clock <= e.instants.lease && Invokes(w.db, e.worker, e.instants, e.checks)
    ensures var c := NewCall(w.db, e);
            Elapsed(t0, leaseMs, c.attempt - MAX_ATTEMPTS) <= c.checkedAt && c.maxActionAgeMs == maxAgeMs
  {
    SpentClaim(w.db, e.worker, e.instants, x);
    PacedClaim(w.db, e.worker, e.instants, t0, x, clock);
    var y := if w.db.attempts != [] && Last(w.db.attempts).status == InProgress then x + 1 else x;
    hide Elapsed;
    ElapsedMonotone(t0, leaseMs, NewCall(w.db, e).attempt - MAX_ATTEMPTS, y);
  }

  lemma CallsPacedNext(w: World, e: Event, t0: int, leaseMs: nat, maxAgeMs: nat, x: nat, clock: int)
    requires Sound(w) && Spent(w.db, x) && Paced(w.db, t0, leaseMs, x, clock) && UniformEvent(e, leaseMs, maxAgeMs)
    requires TimeOf(e).Timed? ==> clock <= TimeOf(e).from <= TimeOf(e).to
    requires CallsPaced(w.calls, t0, leaseMs, maxAgeMs)
    ensures CallsPaced(Next(w, e).calls, t0, leaseMs, maxAgeMs)
  {
    if e.Work? && Invokes(w.db, e.worker, e.instants, e.checks) {
      NewCallPaced(w, e, t0, leaseMs, maxAgeMs, x, clock);
    }
    hide Stretch, Invokes, Elapsed, Settlement;
  }

  lemma CountersLast(w: World, t0: int, events: seq<Event>)
    requires events != []
    ensures var before, e := events[..|events| - 1], Last(events);
            && Closings(w, events) == (if ClosesOpen(Replay(w, before), e) then Closings(w, before) + 1 else Closings(w, before))
            && Clock(t0, events) == ClockAfter(Clock(t0, before), e)
            && (InOrder(t0, events) ==>
                  InOrder(t0, before) && (TimeOf(e).Timed? ==> Clock(t0, before) <= TimeOf(e).from <= TimeOf(e).to))
  {
    hide Replay, ClosesOpen;
  }

  lemma {:induction false} PacedRun(w: World, t0: int, events: seq<Event>, leaseMs: nat, maxAgeMs: nat)
    requires Proposed(w) && InOrder(t0, events) && Uniform(events, leaseMs, maxAgeMs)
    ensures Paced(Replay(w, events).db, t0, leaseMs, Closings(w, events), Clock(t0, events))
    ensures CallsPaced(Replay(w, events).calls, t0, leaseMs, maxAgeMs)
  {
    if events != [] {
      hide Replay, Closings, Clock, InOrder, Next, Paced, CallsPaced, Spent, UniformEvent, TimeOf, ClockAfter, ClosesOpen, Sound;
      var before, e := events[..|events| - 1], Last(events);
      assert e in events;
      ReplayLast(w, events);
      CountersLast(w, t0, events);
      PacedRun(w, t0, before, leaseMs, maxAgeMs);
      SoundRun(w, before);
      SpentRun(w, before);
      var s, x := Replay(w, before), Closings(w, before);
      PacedNext(s, e, t0, leaseMs, maxAgeMs, x, Clock(t0, before));
      CallsPacedNext(s, e, t0, leaseMs, maxAgeMs, x, Clock(t0, before));
    }
  }

  lemma {:induction false} CallsFewerThanAttempts(w: World, n: nat)
    requires CallsListed(w) && n <= |w.calls|
    ensures n > 0 ==> n <= w.calls[n - 1].attempt
  {
    if n > 1 {
      CallsFewerThanAttempts(w, n - 1);
    }
  }

  lemma MulLess(a: nat, k: int, m: int)
    requires a * k < a * m
    ensures k < m
  {
    if m <= k {
      ElapsedMonotone(0, a, m, k);
    }
  }

  lemma QuotientBound(leaseMs: nat, k: int, age: nat)
    requires leaseMs >= 1 && leaseMs * k <= age
    ensures k <= age / leaseMs
  {
    var q := age / leaseMs;
    assert age == leaseMs * q + age % leaseMs;
    assert leaseMs * (q + 1) == leaseMs * q + leaseMs;
    MulLess(leaseMs, k, q + 1);
  }

  /** The attempts allowed, and the leases that fit into the age limit. */
  function CallLimit(leaseMs: nat, maxAgeMs: nat): nat
    requires leaseMs >= 1
  {
    MAX_ATTEMPTS + maxAgeMs / leaseMs
  }

  lemma OneCallBounded(w: World, i: nat, t0: int, leaseMs: nat, maxAgeMs: nat)
    requires CallsListed(w) && CallsPaced(w.calls, t0, leaseMs, maxAgeMs) && i < |w.calls| && leaseMs >= 1
    requires w.db.action.createdAt.Some? && w.db.action.createdAt.value <= t0
    ensures w.calls[i].attempt <= CallLimit(leaseMs, maxAgeMs)
  {
    assert Authorised(w.calls[i], w.db.action);
    QuotientBound(leaseMs, w.calls[i].attempt - MAX_ATTEMPTS, maxAgeMs);
  }

  /** With one lease time and one age limit for all workers, and a clock that does not run backwards from the time of
      the proposal: the tool is called at most as often as attempts are allowed and leases fit into the age limit,
      because every attempt beyond the limit needs a lease to run out and a stale action is not called again. */
  lemma BoundedCalls(w: World, t0: int, events: seq<Event>, leaseMs: nat, maxAgeMs: nat)
    requires Proposed(w) && InOrder(t0, events) && Uniform(events, leaseMs, maxAgeMs) && leaseMs >= 1
    requires w.db.action.createdAt.Some? && w.db.action.createdAt.value <= t0
    ensures var calls := Replay(w, events).calls;
            && |calls| <= CallLimit(leaseMs, maxAgeMs)
            && forall i :: 0 <= i < |calls| ==> calls[i].attempt <= CallLimit(leaseMs, maxAgeMs)
  {
    hide Replay, Closings, Clock, Paced, CallsPaced, CallsListed, Fenced, Authority, RetriesAccounted, InOrder, Uniform, CallLimit;
    PacedRun(w, t0, events, leaseMs, maxAgeMs);
    SoundRun(w, events);
    CreatedFixed(w, events);
    var s := Replay(w, events);
    forall i | 0 <= i < |s.calls|
      ensures s.calls[i].attempt <= CallLimit(leaseMs, maxAgeMs)
    {
      OneCallBounded(s, i, t0, leaseMs, maxAgeMs);
    }
    CallsFewerThanAttempts(s, |s.calls|);
  }

  lemma {:induction false} CreatedFixed(w: World, events: seq<Event>)
    requires Proposed(w)
    ensures Replay(w, events).db.action.createdAt == w.db.action.createdAt
  {
    if events != [] {
      var before := events[..|events| - 1];
      CreatedFixed(w, before);
      SoundRun(w, before);
      ExtendsNext(Replay(w, before), Last(events));
    }
  }
}
