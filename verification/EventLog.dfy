/** The append-only event log and the matching entries a subscription is owed. */
module EventLog {
  import opened Common

  datatype Event = Event(seq_: int, kind: string, data: string)

  const REPLAY_BATCH := 256

  predicate EndsWith(s: string, suffix: string) {
    |suffix| <= |s| && s[|s| - |suffix|..] == suffix
  }

  /** `*`, a domain prefix such as `action.*`, or an exact type. */
  predicate MatchesPattern(pattern: string, kind: string) {
    if pattern == "*" then true
    else if EndsWith(pattern, ".*") then
      var prefix := pattern[..|pattern| - 2];
      StartsWith(kind, prefix) && StartsWith(kind[|prefix|..], ".")
    else pattern == kind
  }

  /** A domain pattern selects exactly the types that extend the domain by a dot. */
  lemma DomainPattern(domain: string, kind: string)
    ensures MatchesPattern(domain + ".*", kind) <==> domain + "." <= kind
  {
    var pattern := domain + ".*";
    assert pattern[|pattern| - 2..] == ".*";
    assert pattern[..|pattern| - 2] == domain;
    if MatchesPattern(pattern, kind) {
      assert kind == domain + kind[|domain|..];
    }
    if domain + "." <= kind {
      assert kind[..|domain|] == domain && kind[|domain|] == '.';
    }
  }

  /** What a pattern asks for: everything, the types of a domain, or one type. */
  ghost predicate AsksFor(pattern: string, kind: string) {
    || pattern == "*"
    || (exists domain: string :: pattern == domain + ".*" && domain + "." <= kind)
    || (kind == pattern && !exists domain: string :: pattern == domain + ".*")
  }

  lemma DomainOf(pattern: string)
    ensures EndsWith(pattern, ".*") <==> exists domain: string :: pattern == domain + ".*"
  {
    if EndsWith(pattern, ".*") {
      assert pattern == pattern[..|pattern| - 2] + ".*";
    }
    if domain: string :| pattern == domain + ".*" {
      assert pattern[|pattern| - 2..] == ".*";
    }
  }

  /** A pattern matches exactly the types it asks for. */
  lemma MatchesExactly(pattern: string, kind: string)
    ensures MatchesPattern(pattern, kind) <==> AsksFor(pattern, kind)
  {
    DomainOf(pattern);
    if domain: string :| pattern == domain + ".*" {
      DomainPattern(domain, kind);
      forall other: string | pattern == other + ".*"
        ensures other == domain
      {
        assert pattern[..|pattern| - 2] == other && pattern[..|pattern| - 2] == domain;
      }
    }
  }

  /** A pattern that is neither the star nor a domain matches its own type and no other. */
  lemma ExactPattern(pattern: string, kind: string)
    requires pattern != "*" && !EndsWith(pattern, ".*")
    ensures MatchesPattern(pattern, kind) <==> kind == pattern
  {
  }

  predicate Ordered(log: seq<Event>) {
    forall i, j :: 0 <= i < j < |log| ==> log[i].seq_ < log[j].seq_
  }

  /** The largest sequence number, 0 for an empty log. */
  function Newest(log: seq<Event>): int {
    if log == [] then 0 else log[|log| - 1].seq_
  }

  predicate Wanted(e: Event, pattern: string, after: int, upTo: int) {
    after < e.seq_ <= upTo && MatchesPattern(pattern, e.kind)
  }

  /** The matching entries with `after < seq <= upTo`, in log order. */
  function Select(log: seq<Event>, pattern: string, after: int, upTo: int): seq<Event> {
    if log == [] then []
    else
      var rest := Select(log[..|log| - 1], pattern, after, upTo);
      var e := log[|log| - 1];
      if Wanted(e, pattern, after, upTo) then rest + [e] else rest
  }

  lemma {:induction false} SelectMembers(log: seq<Event>, pattern: string, after: int, upTo: int)
    requires Ordered(log)
    ensures Ordered(Select(log, pattern, after, upTo))
    ensures forall e :: e in Select(log, pattern, after, upTo) <==> e in log && Wanted(e, pattern, after, upTo)
  {
    if log != [] {
      var before := log[..|log| - 1];
      SelectMembers(before, pattern, after, upTo);
      var s := Select(before, pattern, after, upTo);
      assert log == before + [log[|log| - 1]];
      forall i | 0 <= i < |s|
        ensures s[i].seq_ < log[|log| - 1].seq_
      {
        assert s[i] in before;
      }
    }
  }

  lemma {:induction false} SelectNone(log: seq<Event>, pattern: string, after: int, upTo: int)
    requires forall e :: e in log ==> !Wanted(e, pattern, after, upTo)
    ensures Select(log, pattern, after, upTo) == []
  {
    if log != [] {
      assert log[|log| - 1] in log;
      SelectNone(log[..|log| - 1], pattern, after, upTo);
    }
  }

  lemma {:induction false} SelectSplit(log: seq<Event>, pattern: string, after: int, mid: int, upTo: int)
    requires Ordered(log) && after <= mid <= upTo
    ensures Select(log, pattern, after, upTo) == Select(log, pattern, after, mid) + Select(log, pattern, mid, upTo)
  {
    if log != [] {
      var before := log[..|log| - 1];
      SelectSplit(before, pattern, after, mid, upTo);
      if log[|log| - 1].seq_ <= mid {
        SelectNone(before, pattern, mid, upTo);
      }
    }
  }

  /** Entries appended beyond the range do not change it. */
  lemma SelectAppend(log: seq<Event>, e: Event, pattern: string, after: int, upTo: int)
    requires !Wanted(e, pattern, after, upTo)
    ensures Select(log + [e], pattern, after, upTo) == Select(log, pattern, after, upTo)
  {
    assert (log + [e])[..|log|] == log;
  }

  lemma {:induction false} SelectPrefixLog(log: seq<Event>, more: seq<Event>, pattern: string, after: int, upTo: int)
    requires Ordered(log + more) && ((log != [] && upTo <= Newest(log)) || upTo <= after)
    ensures Select(log + more, pattern, after, upTo) == Select(log, pattern, after, upTo)
  {
    if more == [] {
      assert log + more == log;
    } else {
      var shorter := more[..|more| - 1];
      var all := log + more;
      var last := more[|more| - 1];
      assert all == (log + shorter) + [last] && all[..|all| - 1] == log + shorter;
      SelectPrefixLog(log, shorter, pattern, after, upTo);
      if log != [] {
        assert all[|log| - 1] == log[|log| - 1] && all[|all| - 1] == last;
      }
      SelectAppend(log + shorter, last, pattern, after, upTo);
    }
  }

  /** Splitting off the first entry of a selection. */
  lemma FirstSelected(log: seq<Event>, pattern: string, after: int, upTo: int)
    requires Ordered(log) && Select(log, pattern, after, upTo) != []
    ensures var s := Select(log, pattern, after, upTo);
            && after < s[0].seq_ <= upTo
            && Select(log, pattern, after, s[0].seq_) == [s[0]]
            && Select(log, pattern, s[0].seq_, upTo) == s[1..]
  {
    SelectMembers(log, pattern, after, upTo);
    var s := Select(log, pattern, after, upTo);
    assert s[0] in s;
    var first := s[0].seq_;
    SelectSplit(log, pattern, after, first, upTo);
    var head := Select(log, pattern, after, first);
    var tail := Select(log, pattern, first, upTo);
    SelectMembers(log, pattern, after, first);
    SelectMembers(log, pattern, first, upTo);
    assert s[0] in head;
    assert head[0] == s[0];
    assert head[|head| - 1] in head;
  }

  /** How many entries have `seq <= after`. */
  function Position(log: seq<Event>, after: int): (n: nat)
    ensures n <= |log|
  {
    if log == [] || log[|log| - 1].seq_ <= after then |log| else Position(log[..|log| - 1], after)
  }

  lemma {:induction false} PositionSplits(log: seq<Event>, after: int)
    requires Ordered(log)
    ensures var n := Position(log, after);
            && (forall i :: 0 <= i < n ==> log[i].seq_ <= after)
            && (forall i :: n <= i < |log| ==> log[i].seq_ > after)
  {
    if log != [] && log[|log| - 1].seq_ > after {
      PositionSplits(log[..|log| - 1], after);
    }
  }

  /** SELECT ... WHERE seq > after ORDER BY seq LIMIT limit. */
  function ReadAfter(log: seq<Event>, after: int, limit: nat): seq<Event> {
    var n := Position(log, after);
    if |log| - n <= limit then log[n..] else log[n..n + limit]
  }

  /** One read of a replay: the entries after the cursor, from the first on, all of them or 256. */
  lemma OneRead(log: seq<Event>, after: int) returns (n: nat)
    requires Ordered(log)
    ensures n <= |log| && (forall i :: 0 <= i < n ==> log[i].seq_ <= after) && (forall i :: n <= i < |log| ==> log[i].seq_ > after)
    ensures ReadAfter(log, after, REPLAY_BATCH) == log[n..Min(|log|, n + 256)]
  {
    PositionSplits(log, after);
    n := Position(log, after);
  }

  function Matching(events: seq<Event>, pattern: string): seq<Event> {
    if events == [] then []
    else
      var rest := Matching(events[..|events| - 1], pattern);
      var e := events[|events| - 1];
      if MatchesPattern(pattern, e.kind) then rest + [e] else rest
  }

  lemma {:induction false} MatchingIsSelect(log: seq<Event>, pattern: string, after: int, n: nat, m: nat, upTo: int)
    requires n <= m <= |log|
    requires forall i :: 0 <= i < n ==> log[i].seq_ <= after
    requires forall i :: n <= i < m ==> after < log[i].seq_ <= upTo
    ensures Matching(log[n..m], pattern) == Select(log[..m], pattern, after, upTo)
  {
    if m == n {
      SelectNone(log[..m], pattern, after, upTo);
    } else {
      MatchingIsSelect(log, pattern, after, n, m - 1, upTo);
      assert log[n..m][..m - n - 1] == log[n..m - 1];
      assert log[..m][..m - 1] == log[..m - 1];
    }
  }

  /** One read: what it holds, in terms of the selection it covers. */
  lemma ReadAfterCovers(log: seq<Event>, pattern: string, after: int, limit: nat)
    requires Ordered(log) && limit >= 1
    ensures var batch := ReadAfter(log, after, limit);
            && (batch == [] ==> log == [] || Newest(log) <= after)
            && (batch != [] ==>
                  && after < Newest(batch) <= Newest(log)
                  && batch[|batch| - 1] in log
                  && Matching(batch, pattern) == Select(log, pattern, after, Newest(batch)))
  {
    hide Select, Matching, Position, MatchesPattern;
    PositionSplits(log, after);
    var n := Position(log, after);
    var batch := ReadAfter(log, after, limit);
    if batch != [] {
      var m := n + |batch|;
      assert batch == log[n..m];
      assert Newest(batch) == log[m - 1].seq_;
      MatchingIsSelect(log, pattern, after, n, m, Newest(batch));
      assert log == log[..m] + log[m..];
      SelectPrefixLog(log[..m], log[m..], pattern, after, Newest(batch));
    }
  }
}
