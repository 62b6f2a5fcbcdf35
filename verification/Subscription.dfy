/** The bus and one subscription as the objects they are: fields changed in loops, with the
    publishers allowed to run between any two of the subscriber's atomic actions. */
module Subscription {
  import opened EventLog
  import opened EventBus
  import opened EventGuarantees

  /** `Failed`: reading the log raised an error. */
  datatype Received = Got(event: Event) | Nothing | Failed

  /** What happens at a point where the subscriber's thread can be interrupted, and whether a log read that
      comes next fails. */
  datatype Moment = Moment(steps: seq<Step>, readFails: bool)

  lemma PositionOf(log: seq<Event>, i: nat)
    requires Ordered(log) && i < |log|
    ensures Position(log, log[i].seq_) == i + 1
  {
    PositionSplits(log, log[i].seq_);
  }

  /** One event announced without interruption: the send and, if it was refused, the flag. */
  function AnnounceWhole(s: State): State {
    var t := Deliver(s);
    if t.dropping then Deliver(t) else t
  }

  /** The bus after `n` events announced without interruption. */
  function AfterAnnouncing(s: State, n: nat): State {
    if n == 0 then s else AnnounceWhole(AfterAnnouncing(s, n - 1))
  }

  lemma ReadFromPosition(log: seq<Event>, after: int)
    ensures var n, batch := Position(log, after), ReadAfter(log, after, REPLAY_BATCH);
            && n + |batch| <= |log| && batch == log[n..n + |batch|]
            && (batch == [] ==> n == |log|)
  {
  }

  lemma SameOwed(s: State, t: State)
    requires t.log == s.log && t.pattern == s.pattern && t.past.start == s.past.start
    requires t.past.dropped == s.past.dropped && t.cursor == s.cursor
    ensures Owed(t) == Owed(s) && Outstanding(t) == Outstanding(s)
  {
  }

  lemma HandedSoFar(s: State)
    requires Inv(s)
    ensures Ordered(s.past.handed) && (s.past.handed <= Owed(s) <==> !s.past.overtook) && (s.past.calm ==> !s.past.overtook)
  {
    HandedExact(s);
  }

  lemma ReadBatchIs(s: State)
    requires Inv(s) && s.pc == Refill
    ensures var batch := ReadAfter(s.log, s.cursor, REPLAY_BATCH);
            var matched := Matching(batch, s.pattern);
            && s.buffer == []
            && (batch != [] ==> s.cursor < Newest(batch) <= Newest(s.log))
            && ReadBatch(s) ==
               if matched != [] then s.(buffer := matched, pc := Top)
               else if batch != [] then s.(cursor := Newest(batch))
               else s.(needsReplay := false, pc := Receive)
  {
    ReadAfterCovers(s.log, s.pattern, s.cursor, REPLAY_BATCH);
    hide Matching, ReadAfter, Select;
    MatchingNone(s.pattern);
    assert s.buffer + Matching(ReadAfter(s.log, s.cursor, REPLAY_BATCH), s.pattern)
        == Matching(ReadAfter(s.log, s.cursor, REPLAY_BATCH), s.pattern);
  }

  lemma RefillDue(s: State)
    requires Inv(s) && s.pc == Refill
    ensures s.needsReplay
  {
  }

  lemma TimedOut(s: State)
    requires Inv(s) && TimesOut(s)
    ensures var t := s.(pc := Top);
            s.delivered == Newest(s.log) ==>
              (s.past.handed == Owed(t) <==> !s.past.overtook && !Outstanding(t)) && (s.past.calm ==> s.past.handed == Owed(t))
  {
    hide Inv, Owed, Outstanding;
    SameOwed(s, s.(pc := Top));
    if s.delivered == Newest(s.log) {
      TimeoutExact(s);
    }
  }

  lemma LogOrdered(s: State)
    requires Inv(s)
    ensures Ordered(s.log) && s.cursor >= 0
  {
  }

  lemma AllAnnounced(s: State)
    requires Inv(s) && Position(s.log, s.delivered) == |s.log|
    ensures s.delivered == Newest(s.log)
  {
    PositionSplits(s.log, s.delivered);
  }

  lemma AnnouncingNone(s: State)
    ensures AfterAnnouncing(s, 0) == s
  {
  }

  lemma {:induction false} AnnouncingMore(s: State, m: nat, n: nat)
    ensures AfterAnnouncing(AfterAnnouncing(s, m), n) == AfterAnnouncing(s, m + n)
  {
    hide AnnounceWhole;
    if n > 0 {
      AnnouncingMore(s, m, n - 1);
    }
  }

  class Feed {
    var log: seq<Event>
    var delivered: int
    var capacity: nat
    var channel: seq<Event>
    var lagged: bool
    var dropping: bool      // where the publisher that holds the bus lock stands
    const pattern: string
    var cursor: int
    var needsReplay: bool
    var buffer: seq<Event>
    ghost var pc: Pc
    ghost const start: int
    ghost var handed: seq<Event>
    ghost var dropped: set<Event>
    ghost var calm: bool
    ghost var overtook: bool

    ghost function View(): State
      reads this
    {
      State(log, delivered, capacity, channel, lagged, dropping, pattern, cursor, needsReplay, buffer, pc,
            Past(start, handed, dropped, calm, overtook))
    }

    ghost predicate Valid()
      reads this
    {
      Inv(View())
    }

    constructor (log: seq<Event>, delivered: int, capacity: nat, pattern: string, from: Cursor)
      requires BusReady(log, delivered)
      ensures View() == Subscribe(log, delivered, capacity, pattern, from)
      ensures Valid() && pc == Top && !dropping
    {
      var at := match from
        case Start => 0
        case After(seq_) => if seq_ > 0 then seq_ else 0
        case Now => delivered;
      this.log, this.delivered, this.pattern := log, delivered, pattern;
      this.capacity := if capacity >= 1 then capacity else 1;
      this.channel, this.lagged, this.dropping := [], false, false;
      this.cursor, this.start := at, at;
      this.needsReplay := !from.Now?;
      this.buffer, this.handed, this.pc := [], [], Top;
      this.dropped, this.calm, this.overtook := {}, true, false;
      new;
      SubscribeStarts(log, delivered, capacity, pattern, from);
    }

    /** The store gives the event the next sequence number. */
    method Publish(e: Event)
      requires Valid() && CanAppend(View(), e)
      modifies this`log
      ensures Valid() && View() == Append(old(View()), e)
    {
      hide Inv;
      ghost var v := View();
      log := log + [e];
      AppendKeeps(v, e);
    }

    /** `try_send`: the event goes into the channel, or is refused when that is full. */
    method TrySendNext(e: Event) returns (refused: bool)
      requires Valid() && !dropping && Position(log, delivered) < |log| && e == log[Position(log, delivered)]
      modifies this`delivered, this`channel, this`dropping, this`dropped
      ensures Valid() && View() == Deliver(old(View()))
      ensures delivered == e.seq_ && refused == dropping
    {
      hide Inv, Position;
      ghost var v := View();
      delivered := e.seq_;
      if MatchesPattern(pattern, e.kind) {
        if |channel| < capacity {
          channel := channel + [e];
        } else {
          dropping, dropped := true, dropped + {e};
        }
      }
      refused := dropping;
      DeliverKeeps(v);
    }

    /** `lagged.store(true)`, an atomic action of its own. */
    method StoreFlag()
      requires Valid() && dropping
      modifies this`lagged, this`dropping
      ensures Valid() && View() == Deliver(old(View())) && !dropping
    {
      hide Inv;
      ghost var v := View();
      lagged, dropping := true, false;
      DeliverKeeps(v);
    }

    /** One event of a delivery batch, with nothing happening in between: sent, or refused and flagged. */
    method AnnounceNext(e: Event)
      requires Valid() && !dropping && Position(log, delivered) < |log| && e == log[Position(log, delivered)]
      modifies this`delivered, this`channel, this`lagged, this`dropping, this`dropped
      ensures Valid() && !dropping && View() == AnnounceWhole(old(View()))
      ensures delivered == e.seq_
    {
      hide Inv, Position, Deliver;
      var refused := TrySendNext(e);
      if refused {
        StoreFlag();
      }
    }

    /** The events of one batch, in order; `n` is where the batch starts in the log. */
    method DeliverBatch(batch: seq<Event>, ghost n: nat)
      requires Valid() && !dropping
      requires n == Position(log, delivered) && n + |batch| <= |log| && batch == log[n..n + |batch|]
      modifies this`delivered, this`channel, this`lagged, this`dropping, this`dropped
      ensures Valid() && !dropping && Position(log, delivered) == n + |batch|
      ensures View() == AfterAnnouncing(old(View()), |batch|)
    {
      hide AnnounceWhole, Inv, Position;
      LogOrdered(View());
      for k := 0 to |batch|
        invariant Valid() && !dropping && Position(log, delivered) == n + k
        invariant View() == AfterAnnouncing(old(View()), k)
      {
        var e := batch[k];
        assert e == log[n + k];
        AnnounceNext(e);
        PositionOf(log, n + k);
      }
    }

    /** Everything appended but not announced goes out, batch by batch, under the lock; a pass in which the
        subscriber takes no step. */
    method DeliverPending() returns (total: nat)
      requires Valid() && !dropping
      modifies this`delivered, this`channel, this`lagged, this`dropping, this`dropped
      ensures Valid() && !dropping
      ensures delivered == Newest(log)
      ensures total == |log| - Position(log, old(delivered))
      ensures View() == AfterAnnouncing(old(View()), total)
    {
      hide AfterAnnouncing, ReadAfter, Inv, Newest, Position;
      ghost var before, first := View(), Position(log, delivered);
      AnnouncingNone(before);
      total := 0;
      var batch := ReadAfter(log, delivered, REPLAY_BATCH);
      while batch != []
        invariant Valid() && !dropping && Position(log, delivered) == first + total
        invariant View() == AfterAnnouncing(before, total)
        invariant batch == ReadAfter(log, delivered, REPLAY_BATCH)
        decreases |log| - total
      {
        ReadFromPosition(log, delivered);
        AnnouncingMore(before, total, |batch|);
        DeliverBatch(batch, first + total);
        total := total + |batch|;
        batch := ReadAfter(log, delivered, REPLAY_BATCH);
      }
      ReadFromPosition(log, delivered);
      AllAnnounced(View());
    }

    /** What publishers do while the subscriber's thread is between two actions: any number of appends, sends
        and flag stores, possibly stopping between a refused send and its flag. */
    method Interfere(steps: seq<Step>)
      requires Valid()
      modifies this`log, this`delivered, this`channel, this`lagged, this`dropping, this`dropped
      ensures Valid()
      ensures old(log) <= log && Newest(old(log)) <= Newest(log)
    {
      hide Inv, Deliver, Position;
      for i := 0 to |steps|
        invariant Valid() && old(log) <= log && Newest(old(log)) <= Newest(log)
      {
        match steps[i]
        case Publish(e) => if e.seq_ > Newest(log) { Publish(e); }
        case Announcing =>
          if dropping {
            StoreFlag();
          } else {
            var n := Position(log, delivered);
            if n < |log| { var refused := TrySendNext(log[n]); }
          }
        case _ =>
      }
    }

    /** The batch's matching events, and the sequence number it reaches. */
    method Sift(batch: seq<Event>) returns (matched: seq<Event>, after: int)
      ensures matched == Matching(batch, pattern)
      ensures after == if batch == [] then cursor else Newest(batch)
    {
      matched, after := [], cursor;
      for k := 0 to |batch|
        invariant after == if k == 0 then cursor else batch[k - 1].seq_
        invariant matched == Matching(batch[..k], pattern)
      {
        after := batch[k].seq_;
        assert batch[..k + 1][..k] == batch[..k];
        if MatchesPattern(pattern, batch[k].kind) {
          matched := matched + [batch[k]];
        }
      }
      assert batch[..|batch|] == batch;
    }

    /** One read of the log into the (empty) buffer. */
    method ReadOnce() returns (readOn: bool)
      requires Valid() && pc == Refill
      modifies this`cursor, this`buffer, this`needsReplay, this`pc
      ensures Valid()
      ensures if readOn then pc == Refill && buffer == [] && old(cursor) < cursor <= Newest(log)
              else cursor == old(cursor) && if buffer != [] then pc == Top else pc == Receive && !needsReplay
    {
      hide Inv, Matching, MatchesPattern, ReadAfter, ReadBatch, Newest;
      ghost var v := View();
      MatchingNone(pattern);
      ReadBatchKeeps(v);
      ReadBatchIs(v);
      var batch := ReadAfter(log, cursor, REPLAY_BATCH);
      var matched, after := Sift(batch);
      buffer := buffer + matched;
      readOn := buffer == [] && after > cursor;
      if readOn {
        cursor := after;
      } else if buffer != [] {
        pc := Top;
      } else {
        needsReplay, pc := false, Receive;
      }
      assert View() == ReadBatch(v);
    }

    /** The read raised an error: the call returns it, and the replay stays due. */
    method FailRead()
      requires Valid() && pc == Refill
      modifies this`pc
      ensures Valid() && pc == Top && needsReplay && View() == Next(old(View()), ReadFails)
    {
      NextKeeps(View(), ReadFails);
      RefillDue(View());
      pc := Top;
    }

    /** Refill the buffer from the log, skipping whole batches that are filtered out. `env[i..]`
        is what happens at the points still to come; returns how much of it has happened. */
    method RefillBuffer(env: seq<Moment>, i: nat) returns (j: nat, failed: bool)
      requires Valid() && pc == Refill && i <= |env|
      modifies this`log, this`delivered, this`channel, this`lagged, this`dropping, this`dropped,
               this`cursor, this`buffer, this`needsReplay, this`pc
      ensures Valid() && handed == old(handed) && old(log) <= log && i <= j <= |env|
      ensures if failed then pc == Top && needsReplay
              else if buffer != [] then pc == Top else pc == Receive && !needsReplay
      ensures i == j ==> channel == old(channel)
    {
      hide Inv, Newest;
      j, failed := i, false;
      var readOn := true;
      while readOn
        invariant Valid() && !failed
        invariant old(log) <= log && i <= j <= |env|
        invariant if readOn then pc == Refill else if buffer != [] then pc == Top else pc == Receive && !needsReplay
        invariant i == j ==> channel == old(channel)
        decreases |env| - j, if readOn then 1 else 0, Newest(log) - cursor
      {
        if j < |env| {
          Interfere(env[j].steps);
          j := j + 1;
          if env[j - 1].readFails {
            FailRead();
            return j, true;
          }
        }
        readOn := ReadOnce();
      }
    }

    /** Discard the channel. */
    method DrainChannel(env: seq<Moment>, i: nat) returns (j: nat)
      requires Valid() && pc == Drain && i <= |env|
      modifies this`log, this`delivered, this`channel, this`lagged, this`dropping, this`dropped, this`needsReplay, this`pc
      ensures Valid() && pc == Check && needsReplay && old(log) <= log && i <= j <= |env|
      ensures i == j ==> |channel| <= |old(channel)|
    {
      hide Inv, Newest;
      j := i;
      while channel != []
        invariant Valid() && pc == Drain && old(log) <= log && i <= j <= |env|
        invariant i == j ==> |channel| <= |old(channel)|
        decreases |env| - j, |channel|
      {
        DrainKeeps(View());
        channel := channel[1..];
        if j < |env| { Interfere(env[j].steps); j := j + 1; }
      }
      DrainKeeps(View());
      needsReplay, pc := true, Check;
    }

    /** Take the next buffered event. */
    method TakeBuffered() returns (e: Event)
      requires Valid() && pc == Top && buffer != []
      modifies this`buffer, this`cursor, this`handed
      ensures Valid() && View() == AtTop(old(View()))
      ensures handed == old(handed) + [e] && cursor == e.seq_
    {
      hide Inv;
      ghost var v := View();
      e := buffer[0];
      buffer := buffer[1..];
      cursor, handed := e.seq_, handed + [e];
      HandOutBuffered(v);
    }

    method LeaveTop()
      requires Valid() && pc == Top && buffer == []
      modifies this`pc
      ensures Valid() && pc == Swap
    {
      hide Inv;
      MoveKeeps(View(), Swap);
      pc := Swap;
    }

    /** `lagged.swap(false)`. */
    method SwapLagged() returns (was: bool)
      requires Valid() && pc == Swap
      modifies this`lagged, this`pc, this`calm
      ensures was == old(lagged) && !lagged && pc == (if was then Drain else Check)
      ensures Valid() && View() == AtSwap(old(View()))
    {
      hide Inv;
      SwapKeeps(View());
      calm := calm && !dropping;
      was, lagged := lagged, false;
      pc := if was then Drain else Check;
    }

    method ChooseSource()
      requires Valid() && pc == Check
      modifies this`pc
      ensures Valid() && pc == (if needsReplay then Refill else Receive)
    {
      hide Inv;
      MoveKeeps(View(), if needsReplay then Refill else Receive);
      pc := if needsReplay then Refill else Receive;
    }

    /** Check the lag flag; when it was set, discard the channel and ask for a replay. */
    method CheckLag(env: seq<Moment>, i: nat) returns (j: nat)
      requires Valid() && pc == Swap && buffer == [] && i <= |env|
      modifies this`log, this`delivered, this`channel, this`lagged, this`dropping, this`dropped, this`needsReplay, this`pc, this`calm
      ensures Valid() && pc == Check
      ensures old(log) <= log && i <= j <= |env|
      ensures i == j ==> |channel| <= |old(channel)|
    {
      hide Inv, Newest;
      j := i;
      var wasLagged := SwapLagged();
      if wasLagged {
        if j < |env| { Interfere(env[j].steps); j := j + 1; }
        j := DrainChannel(env, j);
      }
    }

    /** From the empty buffer to the point where either the buffer is refilled or the channel is read. */
    method CatchUp(env: seq<Moment>, i: nat) returns (j: nat, failed: bool)
      requires Valid() && pc == Swap && buffer == [] && i <= |env|
      modifies this
      ensures Valid() && handed == old(handed) && old(log) <= log && i <= j <= |env|
      ensures if failed then pc == Top && needsReplay else if buffer != [] then pc == Top else pc == Receive
      ensures i == j ==> |channel| <= |old(channel)|
    {
      hide Inv, Newest;
      failed := false;
      j := CheckLag(env, i);
      if j < |env| { Interfere(env[j].steps); j := j + 1; }
      ChooseSource();
      if needsReplay {
        j, failed := RefillBuffer(env, j);
      }
    }

    /** The head of the channel: an event to hand out, or a stale one to skip. */
    method TakeHead() returns (out: Received)
      requires Valid() && pc == Receive && channel != []
      modifies this`channel, this`cursor, this`handed, this`pc, this`overtook
      ensures Valid() && pc == Top && View() == AtReceive(old(View())) && !out.Failed?
      ensures out.Got? ==> handed == old(handed) + [out.event] && cursor == out.event.seq_
      ensures out.Nothing? ==> handed == old(handed)
      ensures |channel| < |old(channel)|
    {
      hide Inv, Overtakes;
      ghost var v := View();
      ReceiveKeeps(v);
      var e := channel[0];
      channel, pc, overtook := channel[1..], Top, overtook || Overtakes(v);
      out := Nothing;
      if e.seq_ > cursor {
        cursor, handed := e.seq_, handed + [e];
        out := Got(e);
      }
    }

    /** One receive from the channel: an event, a stale event to skip, or a timeout. */
    method TakeLive() returns (out: Received, stale: bool)
      requires Valid() && pc == Receive
      modifies this`channel, this`cursor, this`handed, this`pc, this`overtook
      ensures Valid() && pc == Top && View() == AtReceive(old(View())) && !out.Failed?
      ensures out.Got? ==> !stale && handed == old(handed) + [out.event] && cursor == out.event.seq_
      ensures out.Nothing? ==> handed == old(handed)
      ensures stale ==> out.Nothing? && |channel| < |old(channel)|
      ensures out.Nothing? && !stale && delivered == Newest(log) ==>
                && (handed == Owed(View()) <==> !overtook && !Outstanding(View()))
                && (calm ==> handed == Owed(View()))
    {
      hide Inv, Owed, Newest, Outstanding, Overtakes;
      if channel == [] {
        TimedOut(View());
        ReceiveNothing(View());
        pc := Top;
        return Nothing, false;
      }
      out := TakeHead();
      stale := out.Nothing?;
    }

    /** The next matching event, `Nothing` after a timeout, or a read error. `env` is what happens at each point
        where the subscriber's thread can be interrupted; it is arbitrary. Nothing is ever handed out of order
        or twice, and there is no gap exactly when no drop has been overtaken: never while swaps are calm. */
    method RecvTimeout(env: seq<Moment>) returns (out: Received)
      requires Valid() && pc == Top
      modifies this
      ensures Valid() && pc == Top && old(log) <= log
      ensures out.Got? ==> handed == old(handed) + [out.event] && cursor == out.event.seq_
      ensures !out.Got? ==> handed == old(handed)
      ensures out.Failed? ==> needsReplay
      ensures Ordered(handed) && (handed <= Owed(View()) <==> !overtook) && (calm ==> !overtook)
      ensures out.Nothing? && delivered == Newest(log) ==>
                && (handed == Owed(View()) <==> !overtook && !Outstanding(View()))
                && (calm ==> handed == Owed(View()))
    {
      hide Inv, Owed, AtTop, AtReceive, Outstanding, Ordered, Newest;
      var i := 0;
      while true
        invariant Valid() && pc == Top && old(log) <= log && i <= |env|
        invariant handed == old(handed)
        decreases |env| - i, if buffer == [] then 1 else 0, |channel|
      {
        if buffer != [] {
          var e := TakeBuffered();
          HandedSoFar(View());
          return Got(e);
        }
        LeaveTop();
        if i < |env| { Interfere(env[i].steps); i := i + 1; }
        var failed;
        i, failed := CatchUp(env, i);
        if failed {
          HandedSoFar(View());
          return Failed;
        }
        if buffer != [] { continue; }
        if i < |env| { Interfere(env[i].steps); i := i + 1; }
        var got, stale := TakeLive();
        if !stale {
          HandedSoFar(View());
          return got;
        }
      }
    }
  }
}
