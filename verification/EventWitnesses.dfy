/** Runs that show where the bus's promises stop. */
module EventWitnesses {
  import opened EventLog
  import opened EventBus
  import opened EventGuarantees

  const A := Event(1, "a", "")
  const B := Event(2, "a", "")
  const C := Event(3, "a", "")

  /** A subscription to everything, on an empty log, with room for one event. */
  const FIRST := Subscribe([], 0, 1, "*", Now)

  /** A fills the channel, B is refused; before the flag is stored the subscriber takes A, swaps the flag and
      comes to an empty channel. */
  const WINDOW := [
    Publish(A), Announcing, Publish(B), Announcing,
    Subscriber, Subscriber, Subscriber, Subscriber,
    Subscriber, Subscriber, Subscriber]

  /** Then the flag is stored, C is sent, and the subscriber receives it. */
  const RACE := WINDOW + [Announcing, Publish(C), Announcing, Subscriber]

  lemma RunPush(s: State, steps: seq<Step>, n: nat)
    requires n < |steps|
    ensures Run(s, steps[..n + 1]) == Next(Run(s, steps[..n]), steps[n])
  {
    hide Next;
    assert steps[..n + 1][..n] == steps[..n];
  }

  lemma RunNone(s: State, steps: seq<Step>)
    ensures Run(s, steps[..0]) == s
  {
  }

  lemma {:induction false} RunConcat(s: State, a: seq<Step>, b: seq<Step>)
    ensures Run(s, a + b) == Run(Run(s, a), b)
  {
    hide Next;
    var all := a + b;
    if b == [] {
      assert all == a;
    } else {
      assert all[..|all| - 1] == a + b[..|b| - 1];
      RunConcat(s, a, b[..|b| - 1]);
    }
  }

  /** After the first four steps: A is in the channel, B was refused, the flag is not stored yet. */
  lemma Refused()
    ensures Run(FIRST, WINDOW[..4]) == FIRST.(log := [A, B], delivered := 2, channel := [A], dropping := true, past := FIRST.past.(dropped := {B}))
  {
    hide Run, Deliver, Append;
    RunNone(FIRST, WINDOW);
    RunPush(FIRST, WINDOW, 0);
    RunPush(FIRST, WINDOW, 1);
    RunPush(FIRST, WINDOW, 2);
    RunPush(FIRST, WINDOW, 3);
    SendsA(FIRST);
    RefusesB(Deliver(Append(FIRST, A)));
  }

  lemma SendsA(s: State)
    requires s.log == [] && s.delivered == 0 && !s.dropping && s.channel == [] && s.capacity == 1 && s.pattern == "*"
    ensures Deliver(Append(s, A)) == s.(log := [A], delivered := 1, channel := [A])
  {
    var t := Append(s, A);
    assert t == s.(log := [A]);
    assert Position([A], 0) == 0;
    assert Deliver(t) == TrySend(t, A) && s.channel + [A] == [A];
  }

  lemma RefusesB(s: State)
    requires s.log == [A] && s.delivered == 1 && !s.dropping && s.channel == [A] && s.capacity == 1 && s.pattern == "*"
    requires s.past.dropped == {}
    ensures Deliver(Append(s, B)) == s.(log := [A, B], delivered := 2, dropping := true, past := s.past.(dropped := {B}))
  {
    var t := Append(s, B);
    assert [A] + [B] == [A, B] && t == s.(log := [A, B]);
    assert Position([A, B], 1) == 1;
    assert Deliver(t) == TrySend(t, B);
  }

  /** From the top of the loop to the channel, with nothing buffered, flagged or due. */
  lemma ToReceive(s: State)
    requires s.pc == Top && s.buffer == [] && !s.lagged && !s.needsReplay
    ensures Advance(Advance(Advance(s))) == s.(pc := Receive, past := s.past.(calm := s.past.calm && !s.dropping))
  {
  }

  lemma TakesHead(s: State, e: Event)
    requires s.pc == Receive && s.channel == [e] && e.seq_ > s.cursor
    ensures Advance(s) == s.(channel := [], pc := Top, cursor := e.seq_,
                             past := s.past.(handed := s.past.handed + [e], overtook := s.past.overtook || Overtakes(s)))
  {
  }

  lemma ThreeMore(s: State, steps: seq<Step>, n: nat)
    requires n + 3 <= |steps| && steps[n] == steps[n + 1] == steps[n + 2] == Subscriber
    ensures Run(s, steps[..n + 3]) == Advance(Advance(Advance(Run(s, steps[..n]))))
  {
    hide Run, Advance;
    RunPush(s, steps, n);
    RunPush(s, steps, n + 1);
    RunPush(s, steps, n + 2);
  }

  /** The subscriber's seven steps inside the window. */
  lemma WindowRun()
    ensures Run(FIRST, WINDOW) == FIRST.(log := [A, B], delivered := 2, dropping := true, cursor := 1, pc := Receive,
                                         past := Past(0, [A], {B}, false, false))
  {
    hide Run, Advance;
    Refused();
    ThreeMore(FIRST, WINDOW, 4);
    ToReceive(Run(FIRST, WINDOW[..4]));
    RunPush(FIRST, WINDOW, 7);
    TakesHead(Run(FIRST, WINDOW[..7]), A);
    ThreeMore(FIRST, WINDOW, 8);
    ToReceive(Run(FIRST, WINDOW[..8]));
    assert WINDOW[..11] == WINDOW;
  }

  lemma OwedAll(s: State)
    requires s.pattern == "*" && s.past.start == 0 && Ordered(s.log) && forall e :: e in s.log ==> e.seq_ >= 1
    ensures Owed(s) == s.log
  {
    SelectAll(s.log, Newest(s.log));
  }

  lemma {:induction false} SelectAll(log: seq<Event>, upTo: int)
    requires forall e :: e in log ==> 1 <= e.seq_ <= upTo
    ensures Select(log, "*", 0, upTo) == log
  {
    if log != [] {
      assert log[|log| - 1] in log;
      SelectAll(log[..|log| - 1], upTo);
    }
  }

  /** Everything is announced and `recv_timeout` returns nothing, yet B has not been handed out. */
  lemma TimesOutTooEarly()
    ensures BusReady([], 0)
    ensures var s := Run(FIRST, WINDOW);
            && TimesOut(s) && s.delivered == Newest(s.log) && !s.past.overtook
            && s.past.handed == [A] && Owed(s) == [A, B]
  {
    hide Run;
    WindowRun();
    OwedAll(Run(FIRST, WINDOW));
  }

  lemma FlagThenSend(s: State)
    requires s.log == [A, B] && s.delivered == 2 && s.dropping && s.channel == [] && s.capacity == 1 && s.pattern == "*"
    ensures Deliver(Append(Deliver(s), C)) == s.(log := [A, B, C], delivered := 3, channel := [C], lagged := true, dropping := false)
  {
    assert [A, B] + [C] == [A, B, C] && s.channel + [C] == [C];
    assert Position([A, B, C], 2) == 2;
    var t := Append(Deliver(s), C);
    assert t == s.(log := [A, B, C], lagged := true, dropping := false);
    assert Deliver(t) == TrySend(t, C);
  }

  /** B is lost: the flag comes too late, and C is received before anything is replayed. */
  lemma RaceLosesEvent()
    ensures BusReady([], 0)
    ensures var s := Run(FIRST, RACE); s.past.handed == [A, C] && Owed(s) == [A, B, C] && s.past.overtook
  {
    hide Run, Advance, Deliver, Append;
    WindowRun();
    var rest := [Announcing, Publish(C), Announcing, Subscriber];
    var s := Run(FIRST, WINDOW);
    RunConcat(FIRST, WINDOW, rest);
    RunNone(s, rest);
    RunPush(s, rest, 0);
    RunPush(s, rest, 1);
    RunPush(s, rest, 2);
    RunPush(s, rest, 3);
    assert rest[..4] == rest;
    FlagThenSend(s);
    var t := Run(s, rest[..3]);
    assert B in t.past.dropped && Overtakes(t);
    TakesHead(t, C);
    OwedAll(Run(FIRST, RACE));
  }

  const FILTERED := [Subscriber, Subscriber, Subscriber, Subscriber]

  lemma ReadsPast(s: State)
    requires s.log == [A] && s.cursor == 0 && s.pattern == "b" && s.buffer == []
    ensures ReadBatch(s) == s.(cursor := 1)
  {
    assert Position([A], 0) == 0 && ReadAfter([A], 0, REPLAY_BATCH) == [A];
    assert !MatchesPattern("b", "a");
    assert [A][..0] == [] && Matching([], "b") == [] && Matching([A], "b") == [];
  }

  /** A refill moves the cursor onto an entry that was filtered out: it is not the last event handed out. */
  lemma CursorPastFiltered()
    ensures BusReady([A], 1)
    ensures var s := Run(Subscribe([A], 1, 1, "b", Start), FILTERED);
            s.past.handed == [] && LastHanded(s) == 0 && s.cursor == 1
  {
    var s := Subscribe([A], 1, 1, "b", Start);
    hide Run, ReadBatch, AtReceive, AtDrain;
    RunNone(s, FILTERED);
    ThreeMore(s, FILTERED, 0);
    RunPush(s, FILTERED, 3);
    assert FILTERED[..4] == FILTERED;
    assert Run(s, FILTERED[..3]) == s.(pc := Refill);
    ReadsPast(s.(pc := Refill));
  }
}
