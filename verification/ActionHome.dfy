/** A home: one store, driven by workers and the approval manager. Whatever they do, every action in it goes through
    a run of the model, so all that holds of runs holds of the stored records. */
module ActionHome {
  import opened Common
  import opened ActionQueue
  import opened ActionWorker
  import opened ActionRuns
  import opened ActionGuarantees
  import opened ActionQueueStore

  /** A stretch that nothing cuts short. */
  const WHOLE := 5

  lemma StretchIsShort(r: Record, w: Worker, at: Instants, c: Checks)
    ensures |Stretch(r, w, at, c)| <= WHOLE
  {
  }

  /** The world after a call returned, and after publishing it failed. */
  lemma ReturnedWorld(w: World, i: nat, o: Outcome, publishError: Option<ToolError>)
    requires i < |w.calls| && w.calls[i].phase == Running && !o.Unpublished?
    ensures var t := Next(w, Event.Return(i, o));
            var u := if publishError.None? then t else Next(t, PublishFails(i, publishError.value));
            && |u.calls| == |w.calls|
            && u.calls[i].phase == Phase.Returned(
                 if publishError.None? then o
                 else if o.Success? then Unpublished(publishError.value) else Failure(publishError.value))
            && u.db == WithStatus(w.db, if o.Success? && publishError.None? then Executed else Failed)
  {
  }

  class Home {
    const store: Store
    ghost var origin: map<ActionId, World>            // each action as it was proposed
    ghost var runs: map<ActionId, seq<Event>>         // what has happened to it since

    /** The action now: its record, and the calls made for it. */
    ghost function Now(id: ActionId): World
      requires id in origin && id in runs
      reads this
    {
      Replay(origin[id], runs[id])
    }

    /** Every stored record is where a run of the model from its proposal has arrived. */
    ghost predicate Valid()
      reads this, store
    {
      && store.records.Keys == runs.Keys == origin.Keys
      && forall id :: id in runs ==> Proposed(origin[id]) && Now(id).db == store.records[id]
    }

    constructor ()
      ensures Valid() && runs == map[] && fresh(store)
    {
      store := new Store();
      origin, runs := map[], map[];
    }

    /** What holds in every run holds of what is stored; here the invariant, and that a tool without idempotency
        support is never called again over a call that was not recorded as safe to retry. */
    lemma StoredIsSound(id: ActionId)
      requires Valid() && id in store.records
      ensures Sound(Now(id)) && Now(id).db == store.records[id]
      ensures !store.records[id].action.tool.supportsIdempotency ==>
                forall i :: 0 <= i < |Now(id).calls| - 1 ==> SafeFailure(Now(id).calls[i])
    {
      hide Replay, Sound, SafeFailure;
      var w, events := origin[id], runs[id];
      SoundRun(w, events);
      ToolFixed(w, events);
      if !store.records[id].action.tool.supportsIdempotency {
        forall i | 0 <= i < |Now(id).calls| - 1
          ensures SafeFailure(Now(id).calls[i])
        {
          AtMostOnce(w, events, i, i + 1);
        }
      }
    }

    /** A decision is recorded. */
    method Propose(id: ActionId, action: Action)
      requires Valid() && id !in store.records && Proposed(World(Record(action, None, []), []))
      modifies this, store
      ensures Valid() && runs == old(runs)[id := []] && Now(id) == World(Record(action, None, []), [])
    {
      ghost var w := World(Record(action, None, []), []);
      assert Replay(w, []) == w;
      hide Replay, Proposed;
      store.Put(id, Record(action, None, []));
      origin, runs := origin[id := w], runs[id := []];
    }

    /** Every operation is a step of the model. */
    ghost method Follow(id: ActionId, e: Event)
      requires id in store.records && store.records.Keys == runs.Keys == origin.Keys
      requires forall other :: other in runs ==> Proposed(origin[other])
      requires forall other :: other in runs && other != id ==> Now(other).db == store.records[other]
      requires store.records[id] == Next(Now(id), e).db
      modifies this`runs
      ensures Valid() && runs == old(runs)[id := old(runs)[id] + [e]]
      ensures Now(id) == Next(old(Now(id)), e)
    {
      hide Replay, Next, Proposed;
      ReplayPush(origin[id], runs[id], e);
      runs := runs[id := runs[id] + [e]];
    }

    /** The same for two steps that one call stores. */
    ghost method FollowBoth(id: ActionId, e: Event, f: Event)
      requires id in store.records && store.records.Keys == runs.Keys == origin.Keys
      requires forall other :: other in runs ==> Proposed(origin[other])
      requires forall other :: other in runs && other != id ==> Now(other).db == store.records[other]
      requires store.records[id] == Next(Next(Now(id), e), f).db
      modifies this`runs
      ensures Valid() && runs == old(runs)[id := old(runs)[id] + [e] + [f]]
      ensures Now(id) == Next(Next(old(Now(id)), e), f)
    {
      hide Replay, Next, Proposed;
      ReplayPush(origin[id], runs[id], e);
      ReplayPush(origin[id], runs[id] + [e], f);
      runs := runs[id := runs[id] + [e] + [f]];
    }

    /** An action decided by policy goes into the queue. */
    method Enqueue(id: ActionId, arguments: string, at: int)
      requires Valid() && id in store.records
      modifies this`runs, store
      ensures Valid() && runs == old(runs)[id := old(runs)[id] + [ActionRuns.Enqueue(arguments, at)]]
    {
      hide Replay, Proposed;
      if store.records[id].action.status == Approved {
        var row := store.EnqueueAction(id, arguments, at);
      }
      Follow(id, ActionRuns.Enqueue(arguments, at));
    }

    method Approve(manager: ApprovalManager, id: ActionId, at: int, evaluation: Evaluation, accountProblem: bool)
      requires Valid() && id in store.records && manager.store == store
      modifies this`runs, store
      ensures Valid()
      ensures runs == old(runs)[id := old(runs)[id] + [ActionRuns.Approve(at, evaluation, accountProblem, 1)]]
    {
      hide Replay, Proposed, AfterApprove;
      ghost var states;
      var approved;
      approved, states := manager.ApproveAction(id, at, evaluation, accountProblem);
      Follow(id, ActionRuns.Approve(at, evaluation, accountProblem, 1));
    }

    method Reject(manager: ApprovalManager, id: ActionId, at: int)
      requires Valid() && id in store.records && manager.store == store
      modifies this`runs, store
      ensures Valid() && runs == old(runs)[id := old(runs)[id] + [ActionRuns.Reject(at)]]
    {
      hide Replay, Proposed;
      var rejected := manager.RejectAction(id, at);
      Follow(id, ActionRuns.Reject(at));
    }

    method Cancel(id: ActionId)
      requires Valid() && id in store.records
      modifies this`runs, store
      ensures Valid() && runs == old(runs)[id := old(runs)[id] + [ActionRuns.Cancel]]
    {
      hide Replay, Proposed;
      var cancelled := store.CancelUnstartedAction(id);
      Follow(id, ActionRuns.Cancel);
    }

    /** A stretch on one action; the call it may end in is in the model's list from then on. */
    method Process(worker: QueueWorker, id: ActionId, at: Instants, c: Checks) returns (started: Result<bool>)
      requires Valid() && id != "" && id in store.records && worker.store == store && worker.self.id != ""
      modifies this`runs, store
      ensures Valid() && runs == old(runs)[id := old(runs)[id] + [Work(worker.self, at, c, WHOLE)]]
      ensures started == Ok(true) <==> |Now(id).calls| > |old(Now(id)).calls|
    {
      hide Replay, Proposed, Stretch, Invokes;
      StretchIsShort(store.records[id], worker.self, at, c);
      ghost var states;
      started, states := worker.ProcessAction(id, at, c);
      Follow(id, Work(worker.self, at, c, WHOLE));
    }

    /** A tick of the scheduler: some due action goes through its stretch, or nothing is due. */
    method Tick(worker: QueueWorker, at: Instants, c: Checks) returns (picked: Result<Option<ActionId>>)
      requires Valid() && worker.store == store && worker.self.id != ""
      modifies this`runs, store
      ensures Valid()
      ensures picked.Err? || picked.value.None? ==> runs == old(runs)
      ensures picked.Ok? && picked.value.Some? ==>
                var id := picked.value.value;
                id in old(runs) && runs == old(runs)[id := old(runs)[id] + [Work(worker.self, at, c, WHOLE)]]
    {
      hide Replay, Proposed, Stretch, Invokes, DueRecord;
      ghost var before := store.records;
      ghost var states;
      var started;
      picked, started, states := worker.ProcessNext(at, c);
      if picked.Ok? && picked.value.Some? {
        StretchIsShort(before[picked.value.value], worker.self, at, c);
        Follow(picked.value.value, Work(worker.self, at, c, WHOLE));
      }
    }

    method Renew(id: ActionId, owner: WorkerId, leaseMs: nat, at: int)
      requires Valid() && id != "" && id in store.records && owner != "" && leaseMs > 0
      modifies this`runs, store
      ensures Valid() && runs == old(runs)[id := old(runs)[id] + [ActionRuns.Renew(owner, leaseMs, at)]]
    {
      hide Replay, Proposed;
      var out := store.RenewActionLease(id, owner, leaseMs, at);
      Follow(id, ActionRuns.Renew(owner, leaseMs, at));
    }

    /** The tool of call `i` is done; `o` is how, and publishing it may fail. */
    method Return(worker: QueueWorker, id: ActionId, ghost i: nat, o: Outcome, publishError: Option<ToolError>)
      returns (result: Outcome)
      requires Valid() && id in store.records && worker.store == store && !o.Unpublished?
      requires i < |Now(id).calls| && Now(id).calls[i].phase == Running
      modifies this`runs, store
      ensures Valid() && i < |Now(id).calls| && Now(id).calls[i].phase == Phase.Returned(result)
      ensures runs == old(runs)[id := old(runs)[id] + [ActionRuns.Return(i, o)]
                                        + (if publishError.None? then [] else [PublishFails(i, publishError.value)])]
    {
      ghost var states;
      ReturnedWorld(Now(id), i, o, publishError);
      hide Replay, Proposed, Next;
      result, states := worker.Returned(id, o, publishError);
      if publishError.None? {
        ghost var events := runs[id] + [ActionRuns.Return(i, o)];
        assert events + [] == events;
        Follow(id, ActionRuns.Return(i, o));
      } else {
        FollowBoth(id, ActionRuns.Return(i, o), PublishFails(i, publishError.value));
      }
    }

    /** Call `i` has come back as `c` says, and its worker settles the attempt. */
    method Settle(worker: QueueWorker, id: ActionId, ghost i: nat, c: Call, at: int) returns (ok: bool)
      requires Valid() && id in store.records && worker.store == store && c.worker == worker.self.id
      requires i < |Now(id).calls| && Now(id).calls[i] == c && c.phase.Returned?
      modifies this`runs, store
      ensures Valid() && runs == old(runs)[id := old(runs)[id] + [ActionRuns.Settle(i, at)]]
    {
      hide Replay, Proposed, Settlement;
      ok := worker.SettleCall(id, c, at);
      Follow(id, ActionRuns.Settle(i, at));
    }

    /** A worker's process dies: nothing stored changes, its calls are lost. */
    ghost method Crash(id: ActionId, owner: WorkerId)
      requires Valid() && id in store.records
      modifies this`runs
      ensures Valid() && runs == old(runs)[id := old(runs)[id] + [ActionRuns.Crash(owner)]]
    {
      hide Replay, Proposed;
      Follow(id, ActionRuns.Crash(owner));
    }
  }
}
