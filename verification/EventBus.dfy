/** Publishers and one subscription, interleaved one atomic step at a time. */
module EventBus {
  import opened EventLog

  /** Where the subscriber's thread stands inside `recv_timeout`. */
  datatype Pc = Top | Swap | Drain | Check | Refill | Receive

  /** History: where the subscription started, everything `recv_timeout` has returned, everything a full channel
      refused, whether every swap of the lag flag was taken outside the window between a refused send and its
      flag, and whether a receive has passed over a drop. */
  datatype Past = Past(start: int, handed: seq<Event>, dropped: set<Event>, calm: bool, overtook: bool)

  datatype State = State(
    // shared
    log: seq<Event>,
    delivered: int,
    capacity: nat,
    channel: seq<Event>,
    lagged: bool,
    dropping: bool,          // a publisher stands between a failed send and its flag store
    // the subscription
    pattern: string,
    cursor: int,
    needsReplay: bool,
    buffer: seq<Event>,
    pc: Pc,
    past: Past)

  // ---------- Publisher steps ----------

  /** The next sequence number is larger than every earlier one. */
  predicate CanAppend(s: State, e: Event) {
    e.seq_ > Newest(s.log)
  }

  function Append(s: State, e: Event): State {
    if CanAppend(s, e) then s.(log := s.log + [e]) else s
  }

  /** Try to send one event. A full channel refuses it; the flag is stored by a step of its own. */
  function TrySend(s: State, e: Event): State {
    var t := s.(delivered := e.seq_);
    if !MatchesPattern(s.pattern, e.kind) then t
    else if |s.channel| < s.capacity then t.(channel := s.channel + [e])
    else t.(dropping := true, past := s.past.(dropped := s.past.dropped + {e}))
  }

  /** The publisher's next atomic action: store the flag it owes, or try the first event not yet announced. */
  function Deliver(s: State): State {
    if s.dropping then s.(lagged := true, dropping := false)
    else
      var n := Position(s.log, s.delivered);
      if n < |s.log| then TrySend(s, s.log[n]) else s
  }

  // ---------- Subscriber steps ----------

  function HandOut(s: State, e: Event): State {
    s.(cursor := e.seq_, pc := Top, past := s.past.(handed := s.past.handed + [e]))
  }

  function ReadBatch(s: State): State {
    var batch := ReadAfter(s.log, s.cursor, REPLAY_BATCH);
    var after := if batch == [] then s.cursor else Newest(batch);
    var buffer := s.buffer + Matching(batch, s.pattern);
    if buffer == [] && after > s.cursor then s.(cursor := after)     // all filtered out: read on from there
    else if buffer != [] then s.(buffer := buffer, pc := Top)
    else s.(needsReplay := false, pc := Receive)
  }

  /** The next receive takes an event announced after a drop that the cursor has not reached. */
  predicate Overtakes(s: State) {
    && s.pc == Receive && s.channel != []
    && exists d :: d in s.past.dropped && s.cursor < d.seq_ < s.channel[0].seq_
  }

  /** Hand out the next buffered event, or go on to the lag flag. */
  function AtTop(s: State): State {
    if s.buffer != [] then HandOut(s, s.buffer[0]).(buffer := s.buffer[1..]) else s.(pc := Swap)
  }

  function AtSwap(s: State): State {
    s.(lagged := false, pc := if s.lagged then Drain else Check, past := s.past.(calm := s.past.calm && !s.dropping))
  }

  function AtDrain(s: State): State {
    if s.channel != [] then s.(channel := s.channel[1..]) else s.(needsReplay := true, pc := Check)
  }

  /** Take the head of the channel, which may be stale, or time out. */
  function AtReceive(s: State): State {
    if s.channel == [] then s.(pc := Top)
    else
      var e := s.channel[0];
      var t := s.(channel := s.channel[1..], pc := Top, past := s.past.(overtook := s.past.overtook || Overtakes(s)));
      if e.seq_ > s.cursor then HandOut(t, e) else t
  }

  function Advance(s: State): State {
    match s.pc
    case Top => AtTop(s)
    case Swap => AtSwap(s)
    case Drain => AtDrain(s)
    case Check => s.(pc := if s.needsReplay then Refill else Receive)
    case Refill => ReadBatch(s)
    case Receive => AtReceive(s)
  }

  datatype Step = Publish(event: Event) | Announcing | Subscriber | ReadFails

  function Next(s: State, step: Step): State {
    match step
    case Publish(e) => Append(s, e)
    case Announcing => Deliver(s)
    case Subscriber => Advance(s)
    case ReadFails => if s.pc == Refill then s.(pc := Top) else s   // the store error is returned
  }

  function Run(s: State, steps: seq<Step>): State {
    if steps == [] then s else Next(Run(s, steps[..|steps| - 1]), steps[|steps| - 1])
  }

  datatype Cursor = Start | After(at: int) | Now

  /** A subscription made under the bus lock, on a bus whose log is `log`. */
  function Subscribe(log: seq<Event>, delivered: int, capacity: nat, pattern: string, from: Cursor): State {
    var start := match from
      case Start => 0
      case After(at) => if at > 0 then at else 0
      case Now => delivered;
    State(log, delivered, if capacity >= 1 then capacity else 1, [], false, false,
          pattern, start, !from.Now?, [], Top, Past(start, [], {}, true, false))
  }

  // ---------- The invariant ----------

  ghost predicate WellFormed(s: State) {
    && s.capacity >= 1
    && Ordered(s.log) && (forall e :: e in s.log ==> e.seq_ >= 1)
    && 0 <= s.delivered <= Newest(s.log)
    && 0 <= s.past.start <= s.cursor && (s.cursor == s.past.start || s.cursor <= Newest(s.log))
    && (s.pc == Refill ==> s.needsReplay)
    && (s.pc == Receive ==> !s.needsReplay)
  }

  /** An announced event of the log that the subscription wants. */
  ghost predicate Announced(s: State, e: Event) {
    e in s.log && e.seq_ <= s.delivered && MatchesPattern(s.pattern, e.kind)
  }

  /** The channel and the drops are announced events; the channel is in order. */
  ghost predicate Sent(s: State) {
    && Ordered(s.channel)
    && (forall e :: e in s.channel ==> Announced(s, e))
    && (forall d :: d in s.past.dropped ==> Announced(s, d))
  }

  /** No replay is due: what the subscriber gets next comes from the channel. */
  ghost predicate Following(s: State) {
    !s.needsReplay && s.pc != Drain
  }

  /** Every announced event past the cursor was sent or dropped. */
  ghost predicate Accounted(s: State) {
    Following(s) ==> forall e :: Announced(s, e) && e.seq_ > s.cursor ==> e in s.channel || e in s.past.dropped
  }

  /** The buffer holds what comes next in the log. */
  ghost predicate Buffered(s: State) {
    && s.buffer <= Select(s.log, s.pattern, s.cursor, Newest(s.log))
    && (s.buffer != [] ==> s.needsReplay && s.pc == Top)
  }

  /** A dropped event the cursor has not reached. */
  ghost predicate Outstanding(s: State) {
    exists d :: d in s.past.dropped && d.seq_ > s.cursor
  }

  /** A drop that matters is flagged, or about to be. */
  ghost predicate Noticed(s: State) {
    Following(s) && Outstanding(s) ==> s.lagged || s.dropping
  }

  /** While every swap was calm, a receive finds an event from before all the drops. */
  ghost predicate FrontFirst(s: State) {
    && !s.past.overtook
    && (s.pc in {Check, Receive} && Following(s) && Outstanding(s) ==>
          s.channel != [] && forall d :: d in s.past.dropped && d.seq_ > s.cursor ==> s.channel[0].seq_ < d.seq_)
  }

  /** A dropped event that was passed over and never handed out. */
  ghost predicate Lost(s: State, d: Event) {
    Announced(s, d) && d in s.past.dropped && s.past.start < d.seq_ < LastHanded(s) && d !in s.past.handed
  }

  /** Handed out so far: wanted events in order; all of them, or else one is lost for good. */
  ghost predicate HandedRight(s: State) {
    && Ordered(s.past.handed)
    && (forall e :: e in s.past.handed ==> e in s.log && Wanted(e, s.pattern, s.past.start, s.cursor))
    && (!s.past.overtook ==> s.past.handed == Select(s.log, s.pattern, s.past.start, s.cursor))
    && (s.past.overtook ==> exists d :: Lost(s, d))
  }

  /** The number of the last event handed out, or where the subscription started. */
  function LastHanded(s: State): int {
    if s.past.handed == [] then s.past.start else s.past.handed[|s.past.handed| - 1].seq_
  }

  /** The cursor is that number, or the number of an entry that was filtered out. */
  ghost predicate CursorExplained(s: State) {
    s.cursor == LastHanded(s) || exists e :: e in s.log && e.seq_ == s.cursor && !MatchesPattern(s.pattern, e.kind)
  }

  ghost predicate Inv(s: State) {
    && WellFormed(s) && Sent(s) && Accounted(s) && Buffered(s) && Noticed(s)
    && HandedRight(s) && CursorExplained(s) && (s.past.calm ==> FrontFirst(s))
  }

  // ---------- Facts about ordered events ----------

  lemma OrderedHead(events: seq<Event>)
    requires Ordered(events) && events != []
    ensures forall e :: e in events ==> e.seq_ >= events[0].seq_
    ensures forall e :: e in events[1..] ==> e.seq_ > events[0].seq_
    ensures forall e :: e in events ==> e == events[0] || e in events[1..]
    ensures Ordered(events[1..])
  {
  }

  lemma OrderedPush(events: seq<Event>, e: Event)
    requires Ordered(events) && forall x :: x in events ==> x.seq_ < e.seq_
    ensures Ordered(events + [e])
  {
    assert forall i :: 0 <= i < |events| ==> events[i] in events;
  }

  lemma SameNumber(log: seq<Event>, a: Event, b: Event)
    requires Ordered(log) && a in log && b in log && a.seq_ == b.seq_
    ensures a == b
  {
  }

  lemma OnlyOne(events: seq<Event>, e: Event)
    requires Ordered(events) && e in events && forall x :: x in events ==> x == e
    ensures events == [e]
  {
    assert forall i :: 0 <= i < |events| ==> events[i] in events;
    assert |events| > 1 ==> events[0].seq_ < events[1].seq_;
  }

  lemma UpToNewest(log: seq<Event>, e: Event)
    requires Ordered(log) && e in log
    ensures e.seq_ <= Newest(log)
  {
  }

  // ---------- Publisher steps keep the invariant ----------

  /** Steps that hand nothing out and leave the cursor alone; more may have been dropped or appended. */
  lemma HandedFrame(s: State, t: State)
    requires HandedRight(s) && CursorExplained(s)
    requires s.log == t.log && s.delivered <= t.delivered && s.past.dropped <= t.past.dropped
    requires t.pattern == s.pattern && t.past.start == s.past.start && t.cursor == s.cursor
    requires t.past.handed == s.past.handed && t.past.overtook == s.past.overtook
    ensures HandedRight(t) && CursorExplained(t)
  {
    hide Select, MatchesPattern;
    if s.past.overtook {
      var d :| Lost(s, d);
      assert Lost(t, d);
    }
  }

  lemma AppendSelections(s: State, e: Event)
    requires WellFormed(s) && CanAppend(s, e)
    ensures var log := s.log + [e];
            && Select(log, s.pattern, s.past.start, s.cursor) == Select(s.log, s.pattern, s.past.start, s.cursor)
            && Select(s.log, s.pattern, s.cursor, Newest(s.log)) <= Select(log, s.pattern, s.cursor, Newest(log))
  {
    var log := s.log + [e];
    assert WellFormed(Append(s, e));
    SelectAppend(s.log, e, s.pattern, s.past.start, s.cursor);
    SelectAppend(s.log, e, s.pattern, s.cursor, Newest(s.log));
    if s.cursor <= Newest(s.log) {
      SelectSplit(log, s.pattern, s.cursor, Newest(s.log), Newest(log));
    } else {
      SelectNone(s.log, s.pattern, s.cursor, Newest(s.log));
    }
  }

  lemma AppendHanded(s: State, e: Event)
    requires WellFormed(s) && HandedRight(s) && CursorExplained(s) && CanAppend(s, e)
    ensures HandedRight(Append(s, e)) && CursorExplained(Append(s, e))
  {
    AppendSelections(s, e);
    hide Select, MatchesPattern;
    var t := Append(s, e);
    if s.past.overtook {
      var d :| Lost(s, d);
      assert Lost(t, d);
    }
  }

  lemma AppendSent(s: State, e: Event)
    requires WellFormed(s) && Sent(s) && Accounted(s) && CanAppend(s, e)
    ensures Sent(Append(s, e)) && Accounted(Append(s, e))
  {
    hide MatchesPattern, Ordered;
    var t := Append(s, e);
    assert forall x :: Announced(t, x) <==> Announced(s, x);
  }

  lemma AppendKeeps(s: State, e: Event)
    requires Inv(s)
    ensures Inv(Append(s, e))
  {
    hide Select, MatchesPattern, HandedRight, CursorExplained, Sent, Accounted;
    if CanAppend(s, e) {
      AppendSelections(s, e);
      AppendHanded(s, e);
      AppendSent(s, e);
    }
  }

  lemma NextAnnounced(s: State)
    requires WellFormed(s) && Position(s.log, s.delivered) < |s.log|
    ensures var e := s.log[Position(s.log, s.delivered)];
            && e in s.log && s.delivered < e.seq_ <= Newest(s.log)
            && forall x :: x in s.log && x.seq_ <= e.seq_ ==> x.seq_ <= s.delivered || x == e
  {
    hide Position;
    PositionSplits(s.log, s.delivered);
  }

  lemma TrySendAnnounces(s: State, e: Event)
    requires e in s.log && s.delivered < e.seq_
    requires forall x :: x in s.log && x.seq_ <= e.seq_ ==> x.seq_ <= s.delivered || x == e
    ensures forall x :: Announced(TrySend(s, e), x) <==> Announced(s, x) || (x == e && MatchesPattern(s.pattern, e.kind))
  {
    hide MatchesPattern;
  }

  lemma TrySendSent(s: State, e: Event)
    requires Sent(s) && e in s.log && s.delivered < e.seq_
    requires forall x :: x in s.log && x.seq_ <= e.seq_ ==> x.seq_ <= s.delivered || x == e
    ensures Sent(TrySend(s, e))
  {
    TrySendAnnounces(s, e);
    assert forall x :: x in s.channel ==> Announced(s, x) && x.seq_ < e.seq_;
    OrderedPush(s.channel, e);
    hide MatchesPattern, Announced, Ordered;
    var t := TrySend(s, e);
    assert forall x :: x in t.channel ==> x in s.channel || (x == e && MatchesPattern(s.pattern, e.kind));
    assert forall x :: x in t.past.dropped ==> x in s.past.dropped || (x == e && MatchesPattern(s.pattern, e.kind));
  }

  lemma TrySendAccounted(s: State, e: Event)
    requires Accounted(s) && e in s.log && s.delivered < e.seq_
    requires forall x :: x in s.log && x.seq_ <= e.seq_ ==> x.seq_ <= s.delivered || x == e
    ensures Accounted(TrySend(s, e))
  {
    TrySendAnnounces(s, e);
    hide MatchesPattern, Announced;
    var t := TrySend(s, e);
    if Following(t) {
      forall x | Announced(t, x) && x.seq_ > t.cursor
        ensures x in t.channel || x in t.past.dropped
      {
        assert Announced(s, x) || (x == e && MatchesPattern(s.pattern, e.kind));
      }
    }
  }

  lemma TrySendFront(s: State, e: Event)
    requires WellFormed(s) && Sent(s) && Noticed(s) && (s.past.calm ==> FrontFirst(s)) && !s.dropping && s.delivered < e.seq_
    ensures var t := TrySend(s, e); Noticed(t) && (t.past.calm ==> FrontFirst(t))
  {
    hide Select, MatchesPattern;
    var t := TrySend(s, e);
    if s.channel != [] {
      assert s.channel[0] in s.channel && Announced(s, s.channel[0]);
    }
    assert Outstanding(t) ==> Outstanding(s) || t.dropping;
  }

  lemma TrySendKeeps(s: State, e: Event)
    requires Inv(s) && !s.dropping && e in s.log && s.delivered < e.seq_ <= Newest(s.log)
    requires forall x :: x in s.log && x.seq_ <= e.seq_ ==> x.seq_ <= s.delivered || x == e
    ensures Inv(TrySend(s, e))
  {
    hide Select, MatchesPattern, HandedRight, CursorExplained, Sent, Accounted, Noticed, FrontFirst;
    TrySendSent(s, e);
    TrySendAccounted(s, e);
    TrySendFront(s, e);
    HandedFrame(s, TrySend(s, e));
  }

  /** The publisher's action, by cases: the flag it owes; nothing to announce; an event not asked for is passed; one
      asked for goes to the end of a channel with room, and is refused by a full one. */
  lemma DeliverDoes(s: State)
    requires WellFormed(s)
    ensures s.dropping ==> Deliver(s) == s.(lagged := true, dropping := false)
    ensures !s.dropping && s.delivered == Newest(s.log) ==> Deliver(s) == s
    ensures !s.dropping && s.delivered < Newest(s.log) ==>
              var t, n := Deliver(s), Position(s.log, s.delivered);
              && n < |s.log| && (forall i :: 0 <= i < n ==> s.log[i].seq_ <= s.delivered) && s.log[n].seq_ > s.delivered
              && (if !AsksFor(s.pattern, s.log[n].kind) then t == s.(delivered := s.log[n].seq_)
                  else if |s.channel| < s.capacity
                  then t == s.(delivered := s.log[n].seq_, channel := s.channel + [s.log[n]])
                  else t == s.(delivered := s.log[n].seq_, dropping := true,
                               past := s.past.(dropped := s.past.dropped + {s.log[n]})))
  {
    PositionSplits(s.log, s.delivered);
    var n := Position(s.log, s.delivered);
    hide Position, MatchesPattern, AsksFor;
    if n < |s.log| {
      MatchesExactly(s.pattern, s.log[n].kind);
    }
  }

  lemma FlagKeeps(s: State)
    requires Inv(s) && s.dropping
    ensures Inv(Deliver(s))
  {
    hide Select, MatchesPattern, HandedRight, CursorExplained;
    var t := Deliver(s);
    assert forall x :: Announced(t, x) <==> Announced(s, x);
    HandedFrame(s, t);
  }

  lemma DeliverKeeps(s: State)
    requires Inv(s)
    ensures Inv(Deliver(s))
  {
    hide Inv, Position, TrySend;
    InvParts(s);
    if s.dropping {
      FlagKeeps(s);
    } else if Position(s.log, s.delivered) < |s.log| {
      NextAnnounced(s);
      TrySendKeeps(s, s.log[Position(s.log, s.delivered)]);
    }
  }

  lemma InvParts(s: State)
    requires Inv(s)
    ensures WellFormed(s) && Sent(s) && HandedRight(s)
  {
  }

  // ---------- Subscriber steps keep the invariant ----------

  /** Handing out the very next wanted event. */
  lemma HandsNext(s: State, t: State, e: Event)
    requires WellFormed(s) && HandedRight(s) && e in s.log && s.cursor < e.seq_
    requires Select(s.log, s.pattern, s.cursor, e.seq_) == [e]
    requires t.log == s.log && t.pattern == s.pattern && t.past.start == s.past.start && t.past.dropped == s.past.dropped && t.delivered == s.delivered
    requires t.cursor == e.seq_ && t.past.handed == s.past.handed + [e] && t.past.overtook == s.past.overtook
    ensures HandedRight(t) && CursorExplained(t)
  {
    SelectMembers(s.log, s.pattern, s.cursor, e.seq_);
    assert e in Select(s.log, s.pattern, s.cursor, e.seq_);
    SelectSplit(s.log, s.pattern, s.past.start, s.cursor, e.seq_);
    hide Select, MatchesPattern;
    OrderedPush(s.past.handed, e);
    if s.past.overtook {
      var d :| Lost(s, d);
      assert Lost(t, d);
    }
  }

  /** Handing out an event past a drop: the drop is lost. */
  lemma HandsPast(s: State, t: State, e: Event)
    requires WellFormed(s) && HandedRight(s) && Sent(s) && Overtakes(s) && e == s.channel[0]
    requires t.log == s.log && t.pattern == s.pattern && t.past.start == s.past.start && t.past.dropped == s.past.dropped && t.delivered == s.delivered
    requires t.cursor == e.seq_ && t.past.handed == s.past.handed + [e] && t.past.overtook
    ensures HandedRight(t) && CursorExplained(t)
  {
    hide Select, MatchesPattern;
    var d :| d in s.past.dropped && s.cursor < d.seq_ < e.seq_;
    assert e in s.channel && Announced(s, e);
    OrderedPush(s.past.handed, e);
    assert Lost(t, d);
  }

  lemma SentFrame(s: State, t: State)
    requires Sent(s) && t.log == s.log && t.pattern == s.pattern && t.delivered == s.delivered
    requires t.channel == s.channel && t.past.dropped == s.past.dropped
    ensures Sent(t)
  {
    hide MatchesPattern, Ordered;
    assert forall x :: Announced(s, x) ==> Announced(t, x);
  }

  /** The first buffered event is the next one owed, and the rest of the buffer comes after it. */
  lemma BufferedNext(s: State)
    requires WellFormed(s) && Buffered(s) && s.buffer != []
    ensures var e := s.buffer[0];
            && e in s.log && s.cursor < e.seq_ <= Newest(s.log)
            && Select(s.log, s.pattern, s.cursor, e.seq_) == [e]
            && s.buffer[1..] <= Select(s.log, s.pattern, e.seq_, Newest(s.log))
  {
    var owed := Select(s.log, s.pattern, s.cursor, Newest(s.log));
    assert owed[0] == s.buffer[0] && owed[0] in owed;
    FirstSelected(s.log, s.pattern, s.cursor, Newest(s.log));
    SelectMembers(s.log, s.pattern, s.cursor, Newest(s.log));
    hide Select, MatchesPattern;
    assert s.buffer[1..] <= owed[1..];
  }

  lemma HandOutBuffered(s: State)
    requires Inv(s) && s.pc == Top && s.buffer != []
    ensures Inv(AtTop(s))
  {
    hide Select, MatchesPattern, Sent, HandedRight, CursorExplained;
    var e, t := s.buffer[0], AtTop(s);
    BufferedNext(s);
    HandsNext(s, t, e);
    SentFrame(s, t);
  }

  /** Everything in the log has been read: nothing is outstanding. */
  lemma ReplayDone(s: State)
    requires Inv(s) && s.pc == Refill && (s.log == [] || Newest(s.log) <= s.cursor)
    ensures Inv(s.(needsReplay := false, pc := Receive))
  {
    hide Select, MatchesPattern, HandedRight, CursorExplained;
    var t := s.(needsReplay := false, pc := Receive);
    forall e | e in s.log
      ensures e.seq_ <= s.cursor
    {
      UpToNewest(s.log, e);
    }
    assert forall x :: Announced(t, x) <==> Announced(s, x);
    assert !Outstanding(t);
    HandedFrame(s, t);
  }

  /** A batch that matched nothing: the cursor moves to its last entry. */
  lemma SkipKeeps(s: State, last: Event)
    requires Inv(s) && s.pc == Refill && last in s.log && s.cursor < last.seq_ && !MatchesPattern(s.pattern, last.kind)
    requires Select(s.log, s.pattern, s.cursor, last.seq_) == []
    ensures Inv(s.(cursor := last.seq_))
  {
    var t := s.(cursor := last.seq_);
    UpToNewest(s.log, last);
    SelectSplit(s.log, s.pattern, s.past.start, s.cursor, last.seq_);
    SelectSplit(s.log, s.pattern, s.cursor, last.seq_, Newest(s.log));
    hide Select;
    assert s.past.handed + [] == s.past.handed;
    assert s.buffer == [];
    if s.past.overtook {
      var d :| Lost(s, d);
      assert Lost(t, d);
    }
  }

  lemma FillKeeps(s: State, more: seq<Event>)
    requires Inv(s) && s.pc == Refill && more <= Select(s.log, s.pattern, s.cursor, Newest(s.log))
    ensures Inv(s.(buffer := more, pc := Top))
  {
    hide Select, MatchesPattern, HandedRight, CursorExplained;
    var t := s.(buffer := more, pc := Top);
    assert forall x :: Announced(t, x) <==> Announced(s, x);
    HandedFrame(s, t);
  }

  lemma MatchingLast(events: seq<Event>, pattern: string)
    requires events != [] && Matching(events, pattern) == []
    ensures !MatchesPattern(pattern, events[|events| - 1].kind)
  {
  }

  lemma ReadBatchKeeps(s: State)
    requires Inv(s) && s.pc == Refill
    ensures Inv(ReadBatch(s))
  {
    hide Select, Matching, MatchesPattern, ReadAfter, Sent, Accounted, Noticed, HandedRight, CursorExplained, FrontFirst;
    ReadAfterCovers(s.log, s.pattern, s.cursor, REPLAY_BATCH);
    var batch := ReadAfter(s.log, s.cursor, REPLAY_BATCH);
    assert s.buffer == [];
    if batch == [] {
      MatchingNone(s.pattern);
      ReplayDone(s);
    } else {
      var last, matched := batch[|batch| - 1], Matching(batch, s.pattern);
      assert s.buffer + matched == matched;
      if matched == [] {
        MatchingLast(batch, s.pattern);
        SkipKeeps(s, last);
      } else {
        SelectSplit(s.log, s.pattern, s.cursor, last.seq_, Newest(s.log));
        FillKeeps(s, matched);
      }
    }
  }

  lemma MatchingNone(pattern: string)
    ensures Matching([], pattern) == []
  {
  }

  /** The head of the channel comes right after the cursor unless a drop lies between. */
  lemma HeadIsNext(s: State)
    requires WellFormed(s) && Sent(s) && Accounted(s) && s.pc == Receive
    requires s.channel != [] && s.channel[0].seq_ > s.cursor && !Overtakes(s)
    ensures Select(s.log, s.pattern, s.cursor, s.channel[0].seq_) == [s.channel[0]]
  {
    var e := s.channel[0];
    var owed := Select(s.log, s.pattern, s.cursor, e.seq_);
    SelectMembers(s.log, s.pattern, s.cursor, e.seq_);
    hide Select, MatchesPattern;
    OrderedHead(s.channel);
    assert e in s.channel && Announced(s, e);
    forall x | x in owed
      ensures x == e
    {
      assert Announced(s, x) && x.seq_ > s.cursor;
      assert x.seq_ >= e.seq_;
      SameNumber(s.log, x, e);
    }
    OnlyOne(owed, e);
  }

  lemma ReceiveHands(s: State)
    requires Inv(s) && s.pc == Receive && s.channel != [] && s.channel[0].seq_ > s.cursor
    ensures HandedRight(AtReceive(s)) && CursorExplained(AtReceive(s))
  {
    hide Select, MatchesPattern, Accounted, Noticed, Buffered, FrontFirst;
    var e, t := s.channel[0], AtReceive(s);
    assert e in s.channel && Announced(s, e);
    if Overtakes(s) {
      HandsPast(s, t, e);
    } else {
      HeadIsNext(s);
      HandsNext(s, t, e);
    }
  }

  lemma CalmNeverOvertakes(s: State)
    requires Inv(s) && s.past.calm
    ensures !Overtakes(s)
  {
    hide Select, MatchesPattern;
    assert s.pc == Receive && Outstanding(s) ==> FrontFirst(s);
  }

  /** The channel without its head, which the cursor has reached. */
  lemma Popped(s: State, t: State)
    requires Sent(s) && Accounted(s) && Following(s) && s.channel != []
    requires t.log == s.log && t.pattern == s.pattern && t.delivered == s.delivered && t.past.dropped == s.past.dropped
    requires t.channel == s.channel[1..] && t.cursor >= s.channel[0].seq_ && t.cursor >= s.cursor
    ensures Sent(t) && Accounted(t)
  {
    hide MatchesPattern;
    OrderedHead(s.channel);
    forall x | Announced(t, x) && x.seq_ > t.cursor
      ensures x in t.channel || x in t.past.dropped
    {
      assert Announced(s, x) && x.seq_ > s.cursor;
    }
    assert forall x :: Announced(s, x) ==> Announced(t, x);
  }

  lemma PoppedNotices(s: State, t: State)
    requires Noticed(s) && Following(s) && t.past.dropped == s.past.dropped && t.cursor >= s.cursor
    requires t.lagged == s.lagged && t.dropping == s.dropping
    ensures Noticed(t)
  {
  }

  lemma HeadAnnounced(s: State)
    requires Inv(s) && s.pc == Receive && s.channel != []
    ensures Announced(s, s.channel[0]) && s.channel[0].seq_ <= Newest(s.log)
    ensures s.buffer == [] && Following(s)
  {
    hide Select, MatchesPattern;
    assert s.channel[0] in s.channel;
    UpToNewest(s.log, s.channel[0]);
  }

  lemma ReceiveChannel(s: State)
    requires Inv(s) && s.pc == Receive && s.channel != []
    ensures var t := AtReceive(s); WellFormed(t) && Sent(t) && Accounted(t) && Buffered(t) && Noticed(t)
  {
    HeadAnnounced(s);
    hide Select, MatchesPattern, Sent, Accounted, Noticed, HandedRight, CursorExplained, FrontFirst, Overtakes, Announced, Ordered;
    var t := AtReceive(s);
    Popped(s, t);
    PoppedNotices(s, t);
  }

  lemma StaleNeverOvertakes(s: State)
    requires s.channel != [] && s.channel[0].seq_ <= s.cursor
    ensures !Overtakes(s)
  {
  }

  lemma ReceiveNothing(s: State)
    requires Inv(s) && s.pc == Receive && s.channel == []
    ensures Inv(s.(pc := Top))
  {
    hide Select, MatchesPattern, HandedRight, CursorExplained;
    var t := s.(pc := Top);
    assert forall x :: Announced(t, x) <==> Announced(s, x);
    HandedFrame(s, t);
  }

  lemma ReceiveKeeps(s: State)
    requires Inv(s) && s.pc == Receive
    ensures Inv(AtReceive(s))
  {
    hide Select, MatchesPattern, HandedRight, CursorExplained, Sent, Accounted, Noticed, Overtakes;
    var t := AtReceive(s);
    if s.past.calm {
      CalmNeverOvertakes(s);
    }
    if s.channel != [] {
      ReceiveChannel(s);
      if s.channel[0].seq_ > s.cursor {
        ReceiveHands(s);
      } else {
        StaleNeverOvertakes(s);
        HandedFrame(s, t);
      }
    } else {
      ReceiveNothing(s);
    }
  }

  /** Steps that move only the program counter. */
  lemma MoveKeeps(s: State, pc: Pc)
    requires Inv(s) && pc in {Top, Swap, Check, Receive, Refill}
    requires match s.pc
             case Top => s.buffer == [] && pc == Swap
             case Check => pc == if s.needsReplay then Refill else Receive
             case _ => false
    ensures Inv(s.(pc := pc))
  {
    hide Select, MatchesPattern, HandedRight, CursorExplained;
    var t := s.(pc := pc);
    assert forall x :: Announced(t, x) <==> Announced(s, x);
    HandedFrame(s, t);
  }

  lemma SwapKeeps(s: State)
    requires Inv(s) && s.pc == Swap
    ensures Inv(AtSwap(s))
  {
    hide Select, MatchesPattern, HandedRight, CursorExplained;
    var t := AtSwap(s);
    assert forall x :: Announced(t, x) <==> Announced(s, x);
    HandedFrame(s, t);
  }

  lemma DrainKeeps(s: State)
    requires Inv(s) && s.pc == Drain
    ensures Inv(AtDrain(s))
  {
    hide Select, MatchesPattern, HandedRight, CursorExplained;
    var t := AtDrain(s);
    if s.channel != [] {
      OrderedHead(s.channel);
    }
    assert forall x :: Announced(t, x) <==> Announced(s, x);
    HandedFrame(s, t);
  }

  lemma AdvanceKeeps(s: State)
    requires Inv(s)
    ensures Inv(Advance(s))
  {
    hide Inv, AtSwap, AtDrain, AtReceive, ReadBatch;
    match s.pc
    case Top => if s.buffer != [] { HandOutBuffered(s); } else { MoveKeeps(s, Swap); }
    case Swap => SwapKeeps(s);
    case Drain => DrainKeeps(s);
    case Check => MoveKeeps(s, if s.needsReplay then Refill else Receive);
    case Refill => ReadBatchKeeps(s);
    case Receive => ReceiveKeeps(s);
  }

  lemma ReadFailsKeeps(s: State)
    requires Inv(s) && s.pc == Refill
    ensures Inv(s.(pc := Top))
  {
    hide Select, MatchesPattern, HandedRight, CursorExplained;
    var t := s.(pc := Top);
    assert forall x :: Announced(t, x) <==> Announced(s, x);
    HandedFrame(s, t);
  }

  lemma NextKeeps(s: State, step: Step)
    requires Inv(s)
    ensures Inv(Next(s, step))
  {
    hide Inv, Advance, Deliver, Append;
    match step
    case Publish(e) => AppendKeeps(s, e);
    case Announcing => DeliverKeeps(s);
    case Subscriber => AdvanceKeeps(s);
    case ReadFails => if s.pc == Refill { ReadFailsKeeps(s); }
  }

  lemma SubscribeStarts(log: seq<Event>, delivered: int, capacity: nat, pattern: string, from: Cursor)
    requires Ordered(log) && (forall e :: e in log ==> e.seq_ >= 1) && 0 <= delivered <= Newest(log)
    ensures Inv(Subscribe(log, delivered, capacity, pattern, from))
  {
    var s := Subscribe(log, delivered, capacity, pattern, from);
    SelectNone(log, pattern, s.past.start, s.past.start);
    hide Select, MatchesPattern;
  }
}
