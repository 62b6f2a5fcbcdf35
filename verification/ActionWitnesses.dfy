/** Runs that show where the queue's guarantees stop. One worker, configured once: it leases for one millisecond
    and takes actions up to five milliseconds old. */
module ActionWitnesses {
  import opened Common
  import opened ActionQueue
  import opened ActionWorker
  import opened ActionRuns
  import opened ActionGuarantees
  import opened ActionRetries

  const WORKER := Worker("w", 1, 5)

  const ALLOWED := Checks(NoRun, Evaluated(false, false), false, false)
  const CONFIRM := Checks(NoRun, Evaluated(false, true), false, false)

  const PLAIN_ERROR := ToolError(None, false, "", 0, false, "late")

  /** An autonomous proposal, recorded as approved by policy at time 0. */
  function Autonomous(tool: Tool): World {
    World(Record(Action(Approved, tool, "{}", Some(0), None, None, false), None, []), [])
  }

  /** A stretch at time `t`, which dies after `cut` statements if it has that many. */
  function WorkAt(t: int, checks: Checks, cut: nat): Event {
    Work(WORKER, Instants(t, t, t), checks, cut)
  }

  const ENQUEUE := Enqueue("{}", 0)

  lemma RunOne(w: World, e: Event)
    ensures Replay(w, [e]) == Next(w, e)
  {
    hide Next;
    assert [e][..0] == [];
  }

  lemma RunTwo(w: World, e: Event, f: Event)
    ensures Replay(w, [e, f]) == Next(Next(w, e), f)
  {
    hide Next;
    RunOne(w, e);
    assert [e, f] == [e] + [f];
    ReplayPush(w, [e], f);
  }

  /** Enqueued at time 0. */
  function Queued0(tool: Tool): World {
    Autonomous(tool).(db := Autonomous(tool).db.(row := Some(FreshRow("{}", 0))))
  }

  /** The first stretch calls the tool. */
  lemma FirstCall(tool: Tool)
    ensures Next(Autonomous(tool), ENQUEUE) == Queued0(tool)
    ensures var w := Next(Queued0(tool), WorkAt(0, ALLOWED, 10));
            && w.db.action == Autonomous(tool).db.action
            && |w.calls| == 1 && w.calls[0].phase == Running
            && w.db.row.Some? && w.db.row.value.attemptCount == 1 && w.db.row.value.arguments == "{}"
            && Due(w.db.row.value, 1)
  {
    var r, e := Queued0(tool).db, WorkAt(0, ALLOWED, 10);
    var claimed := Claimed(r, WORKER, e.instants);
    assert Decide(claimed, ALLOWED, 0, 5) == Start;
    assert Stretch(r, WORKER, e.instants, ALLOWED) == [r, LeasedTo(r, "w", 1, 0), claimed, Begun(claimed, "w", 0).value];
  }

  // ---------- Attempts without a bound ----------

  /** The tool has returned and the action is recorded as executed. */
  const EXECUTED := [ENQUEUE, WorkAt(0, ALLOWED, 10), Return(0, Success)]

  /** Then, each time the lease has run out, a stretch that dies between beginning an attempt and completing it. */
  function Reopened(n: nat): seq<Event> {
    if n == 0 then EXECUTED else Reopened(n - 1) + [WorkAt(n, ALLOWED, 3)]
  }

  predicate StillOpen(w: World, n: nat) {
    && w.db.action.status == Executed && w.db.action.rejectedAt.None?
    && w.db.row.Some? && w.db.row.value.attemptCount == n + 1 && Due(w.db.row.value, n + 1)
    && |w.calls| == 1
  }

  lemma ReopenStep(w: World, n: nat)
    requires StillOpen(w, n)
    ensures StillOpen(Next(w, WorkAt(n + 1, ALLOWED, 3)), n + 1)
  {
    var e := WorkAt(n + 1, ALLOWED, 3);
    var claimed := Claimed(w.db, WORKER, e.instants);
    assert Decide(claimed, ALLOWED, n + 1, 5) == AlreadyExecuted;
    assert Stretch(w.db, WORKER, e.instants, ALLOWED)[3] == Begun(claimed, "w", n + 1).value;
  }

  lemma ExecutedState(tool: Tool)
    ensures StillOpen(Replay(Autonomous(tool), EXECUTED), 0)
    ensures Replay(Autonomous(tool), EXECUTED).calls[0].phase == Returned(Success)
  {
    hide Next;
    FirstCall(tool);
    var a, b := [ENQUEUE, WorkAt(0, ALLOWED, 10)], Return(0, Success);
    RunTwo(Autonomous(tool), ENQUEUE, WorkAt(0, ALLOWED, 10));
    ReplayPush(Autonomous(tool), a, b);
    assert EXECUTED == a + [b];
    ReturnsWell(Replay(Autonomous(tool), a));
  }

  lemma ReturnsWell(w: World)
    requires |w.calls| == 1 && w.calls[0].phase == Running
    ensures Next(w, Return(0, Success)) == World(WithStatus(w.db, Executed), [w.calls[0].(phase := Returned(Success))])
  {
  }

  lemma {:induction false} ReopenedInOrder(n: nat)
    ensures InOrder(0, Reopened(n)) && Clock(0, Reopened(n)) == n && Uniform(Reopened(n), 1, 5)
  {
    var events := Reopened(n);
    if n == 0 {
      InOrderPush(0, [], ENQUEUE);
      InOrderPush(0, [ENQUEUE], WorkAt(0, ALLOWED, 10));
      InOrderPush(0, [ENQUEUE, WorkAt(0, ALLOWED, 10)], Return(0, Success));
      assert [] + [ENQUEUE] == [ENQUEUE] && [ENQUEUE] + [WorkAt(0, ALLOWED, 10)] == [ENQUEUE, WorkAt(0, ALLOWED, 10)];
      assert EXECUTED == [ENQUEUE, WorkAt(0, ALLOWED, 10)] + [Return(0, Success)];
    } else {
      ReopenedInOrder(n - 1);
      InOrderPush(0, Reopened(n - 1), WorkAt(n, ALLOWED, 3));
    }
  }

  lemma InOrderPush(t0: int, events: seq<Event>, e: Event)
    requires InOrder(t0, events) && (TimeOf(e).Timed? ==> Clock(t0, events) <= TimeOf(e).from <= TimeOf(e).to)
    ensures InOrder(t0, events + [e]) && Clock(t0, events + [e]) == ClockAfter(Clock(t0, events), e)
  {
    assert (events + [e])[..|events|] == events;
  }

  /** Lease expiry has no cap of its own: on a clock in order, with one fixed worker and a tool called once, any
      attempt count is reached, because completing an executed action opens an attempt that a crash leaves open. */
  lemma {:induction false} AttemptsUncapped(tool: Tool, n: nat)
    ensures Proposed(Autonomous(tool)) && InOrder(0, Reopened(n)) && Uniform(Reopened(n), 1, 5)
    ensures var w := Replay(Autonomous(tool), Reopened(n));
            |w.calls| == 1 && w.db.row.Some? && w.db.row.value.attemptCount == n + 1
  {
    ReopenedInOrder(n);
    StaysOpen(tool, n);
  }

  lemma {:induction false} StaysOpen(tool: Tool, n: nat)
    ensures StillOpen(Replay(Autonomous(tool), Reopened(n)), n)
  {
    hide Next, Replay, StillOpen;
    if n == 0 {
      ExecutedState(tool);
    } else {
      StaysOpen(tool, n - 1);
      ReopenStep(Replay(Autonomous(tool), Reopened(n - 1)), n - 1);
      ReplayPush(Autonomous(tool), Reopened(n - 1), WorkAt(n, ALLOWED, 3));
    }
  }

  // ---------- An executed status overwritten ----------

  /** Executed in every continuation; with `reliable`, of runs in which completions can be published. */
  ghost predicate StaysExecuted(tool: Tool, reliable: bool) {
    forall w: World, events: seq<Event>, more: seq<Event> ::
      Proposed(w) && w.db.action.tool == tool && (reliable ==> Reliable(events + more))
      && Replay(w, events).db.action.status == Executed
      ==> Replay(w, events + more).db.action.status == Executed
  }

  /** The completion of the first call cannot be published: the executor writes `failed` over `executed`. */
  lemma UnpublishedOverwrites(tool: Tool)
    ensures var w := Autonomous(tool);
            && Proposed(w) && Replay(w, EXECUTED).db.action.status == Executed
            && Replay(w, EXECUTED + [PublishFails(0, PLAIN_ERROR)]).db.action.status == Failed
  {
    hide Replay;
    ExecutedState(tool);
    ReplayPush(Autonomous(tool), EXECUTED, PublishFails(0, PLAIN_ERROR));
  }

  const TWO_CALLS := [ENQUEUE, WorkAt(0, ALLOWED, 10), WorkAt(1, ALLOWED, 10)]

  /** With idempotency support a second call is made when the first one's lease has run out. */
  lemma SecondCall(w: World, tool: Tool)
    requires tool.supportsIdempotency && w.db.action == Autonomous(tool).db.action
    requires |w.calls| == 1 && w.calls[0].phase == Running
    requires w.db.row.Some? && w.db.row.value.arguments == "{}" && Due(w.db.row.value, 1)
    ensures var t := Next(w, WorkAt(1, ALLOWED, 10));
            t.db.action == w.db.action && |t.calls| == 2 && t.calls[0] == w.calls[0] && t.calls[1].phase == Running
  {
    var e := WorkAt(1, ALLOWED, 10);
    var claimed := Claimed(w.db, WORKER, e.instants);
    assert Decide(claimed, ALLOWED, 1, 5) == Start;
    assert Stretch(w.db, WORKER, e.instants, ALLOWED)
        == [w.db, LeasedTo(w.db, "w", 1, 1), claimed, Begun(claimed, "w", 1).value];
  }

  lemma TwoCalls(tool: Tool)
    requires tool.supportsIdempotency
    ensures var w := Replay(Autonomous(tool), TWO_CALLS);
            |w.calls| == 2 && w.calls[0].phase == Running && w.calls[1].phase == Running
  {
    hide Next, Replay;
    FirstCall(tool);
    var a, b := [ENQUEUE, WorkAt(0, ALLOWED, 10)], WorkAt(1, ALLOWED, 10);
    RunTwo(Autonomous(tool), ENQUEUE, WorkAt(0, ALLOWED, 10));
    ReplayPush(Autonomous(tool), a, b);
    assert TWO_CALLS == a + [b];
    SecondCall(Replay(Autonomous(tool), a), tool);
  }

  /** The second call succeeds, and then the first comes back as a failure. */
  lemma LateFailureOverwrites(tool: Tool)
    requires tool.supportsIdempotency
    ensures var w := Autonomous(tool);
            var events := TWO_CALLS + [Return(1, Success)];
            && Proposed(w) && Replay(w, events).db.action.status == Executed
            && Replay(w, events + [Return(0, Failure(PLAIN_ERROR))]).db.action.status == Failed
  {
    hide Replay, Stretch, Invokes;
    TwoCalls(tool);
    var w := Autonomous(tool);
    ReplayPush(w, TWO_CALLS, Return(1, Success));
    ReplayPush(w, TWO_CALLS + [Return(1, Success)], Return(0, Failure(PLAIN_ERROR)));
  }

  lemma OverwrittenSomewhere(tool: Tool, reliable: bool)
    requires tool.supportsIdempotency || !reliable
    ensures !StaysExecuted(tool, reliable)
  {
    hide Replay;
    var w := Autonomous(tool);
    if tool.supportsIdempotency {
      LateFailureOverwrites(tool);
      var events, more := TWO_CALLS + [Return(1, Success)], [Return(0, Failure(PLAIN_ERROR))];
      assert Reliable(events + more);
      assert Replay(w, events + more).db.action.status == Failed;
    } else {
      UnpublishedOverwrites(tool);
      assert Replay(w, EXECUTED + [PublishFails(0, PLAIN_ERROR)]).db.action.status == Failed;
    }
  }

  /** An executed action stays executed in every run exactly when its tool lacks idempotency support and the runs
      are those in which completions can be published. */
  lemma StaysExecutedIff(tool: Tool, reliable: bool)
    ensures StaysExecuted(tool, reliable) <==> !tool.supportsIdempotency && reliable
  {
    hide Replay;
    if tool.supportsIdempotency || !reliable {
      OverwrittenSomewhere(tool, reliable);
    } else {
      forall w: World, events: seq<Event>, more: seq<Event>
        | Proposed(w) && w.db.action.tool == tool && Reliable(events + more)
          && Replay(w, events).db.action.status == Executed
        ensures Replay(w, events + more).db.action.status == Executed
      {
        ExecutedForever(w, events, more);
      }
    }
  }

  // ---------- Writes cut apart ----------

  lemma SentBack(tool: Tool)
    ensures var r, e := Queued0(tool).db, WorkAt(0, CONFIRM, 10);
            var states := Stretch(r, WORKER, e.instants, CONFIRM);
            && |states| == 5
            && states[3].action.status == Pending && states[3].row.Some? && states[3].row.value.status == Leased
            && states[4].action.status == Pending && states[4].row.Some? && states[4].row.value.status == Stopped
            && !Invokes(r, WORKER, e.instants, CONFIRM)
  {
    var r, e := Queued0(tool).db, WorkAt(0, CONFIRM, 10);
    var claimed := Claimed(r, WORKER, e.instants);
    assert Decide(claimed, CONFIRM, 0, 5) == Stop(Some(Pending), Stopped, OwnerAttentionRequired);
  }

  /** A process that dies between the two writes of a stop leaves a pending action whose row is
      still leased, so "pending with no row or a failed row" is not an invariant. */
  lemma PendingWhileLeased(tool: Tool)
    ensures var w := Autonomous(tool);
            var r := Replay(w, [ENQUEUE, WorkAt(0, CONFIRM, 3)]).db;
            && Proposed(w)
            && r.action.status == Pending && r.row.Some? && r.row.value.status == Leased
  {
    hide Replay, Stretch, Invokes;
    FirstCall(tool);
    SentBack(tool);
    RunTwo(Autonomous(tool), ENQUEUE, WorkAt(0, CONFIRM, 3));
  }

  const SENT_BACK := [ENQUEUE, WorkAt(0, CONFIRM, 10)]

  /** The owner approves, and the process dies before the row is requeued: nothing will ever run it. */
  lemma ApprovalLost(tool: Tool, more: seq<Event>)
    ensures var w := Autonomous(tool);
            var e := Approve(1, Evaluated(false, true), false, 0);
            && Proposed(w) && Approves(Replay(w, SENT_BACK), e)
            && Replay(w, SENT_BACK + [e]).db.action.status == Approved
            && (var after := Replay(w, SENT_BACK + [e] + more);
                after.db.row.Some? && after.db.row.value.status == Stopped && after.calls == [])
  {
    var w, e := Autonomous(tool), Approve(1, Evaluated(false, true), false, 0);
    hide Replay, Stretch, Invokes;
    FirstCall(tool);
    SentBack(tool);
    RunTwo(w, ENQUEUE, WorkAt(0, CONFIRM, 10));
    var before := Replay(w, SENT_BACK);
    assert before.db.action.status == Pending && before.db.row.value.status == Stopped && before.calls == [];
    ReplayPush(w, SENT_BACK, e);
    hide Next;
    CutApprovalIsLost(w, SENT_BACK, e, more);
  }
}
