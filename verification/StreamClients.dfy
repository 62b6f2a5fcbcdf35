/** The two consumers of incremental text: the newline-delimited server input and the browser's
    event stream, with its bounded duplicate suppression. */
module StreamClients {
  import opened Common
  import opened JsText
  import opened Framing

  const NEWLINE := "\n"
  const BLANK_LINE := "\n\n"
  const MEMORY := 512

  // ---------- Newline-delimited input ----------

  /** The messages of a list of lines: trimmed, without the empty ones. */
  function Messages(lines: seq<string>): seq<string> {
    if lines == [] then []
    else
      var line := Trim(lines[|lines| - 1]);
      Messages(lines[..|lines| - 1]) + if line == "" then [] else [line]
  }

  lemma {:induction false} MessagesConcat(a: seq<string>, b: seq<string>)
    ensures Messages(a + b) == Messages(a) + Messages(b)
  {
    hide Trim;
    if b == [] {
      assert a + b == a;
    } else {
      var s := a + b;
      var line := Trim(b[|b| - 1]);
      var last := if line == "" then [] else [line];
      assert s[..|s| - 1] == a + b[..|b| - 1] && s[|s| - 1] == b[|b| - 1];
      MessagesConcat(a, b[..|b| - 1]);
      assert Messages(s) == Messages(s[..|s| - 1]) + last;
      assert Messages(b) == Messages(b[..|b| - 1]) + last;
      assert (Messages(a) + Messages(b[..|b| - 1])) + last == Messages(a) + (Messages(b[..|b| - 1]) + last);
    }
  }

  class LineReader {
    var buffer: string
    var handled: seq<string>      // the lines passed on, in order
    ghost var received: seq<string>

    /** Whatever the chunks were, the lines handled are those of the whole input. */
    ghost predicate Valid()
      reads this
    {
      var c := CutAll(Concat(received), NEWLINE);
      buffer == c.rest && handled == Messages(c.frames)
    }

    constructor ()
      ensures Valid() && received == []
    {
      buffer, handled, received := "", [], [];
      new;
      CutDone("", NEWLINE);
    }

    method OnData(chunk: string)
      requires Valid()
      modifies this
      ensures Valid() && received == old(received) + [chunk]
    {
      hide CutAll, IndexOf, Trim;
      ghost var earlier := CutAll(Concat(received), NEWLINE);
      HandleLines(chunk);
      received := received + [chunk];
      assert received[..|received| - 1] == old(received);
      CutExtended(Concat(old(received)), chunk, NEWLINE);
      MessagesConcat(earlier.frames, CutAll(earlier.rest + chunk, NEWLINE).frames);
    }

    /** The handler's loop: every complete line of the buffer is handled, the tail stays. */
    method HandleLines(chunk: string)
      modifies this`buffer, this`handled
      ensures var c := CutAll(old(buffer) + chunk, NEWLINE);
              buffer == c.rest && handled == old(handled) + Messages(c.frames)
    {
      hide CutAll, IndexOf, Trim;
      buffer := buffer + chunk;
      ghost var whole := CutAll(buffer, NEWLINE);
      ghost var lines: seq<string> := [];
      var newline := IndexOf(buffer, NEWLINE);
      while newline < |buffer|
        invariant newline == IndexOf(buffer, NEWLINE) <= |buffer|
        invariant whole == Cut(lines + CutAll(buffer, NEWLINE).frames, CutAll(buffer, NEWLINE).rest)
        invariant handled == old(handled) + Messages(lines)
        decreases |buffer|
      {
        CutStep(buffer, NEWLINE);
        var raw := buffer[..newline];
        var line := Trim(raw);
        buffer := buffer[newline + 1..];
        newline := IndexOf(buffer, NEWLINE);
        ghost var rest := CutAll(buffer, NEWLINE).frames;
        assert lines + ([raw] + rest) == (lines + [raw]) + rest;
        assert (lines + [raw])[..|lines|] == lines;
        lines := lines + [raw];
        if line != "" {
          handled := handled + [line];
        }
      }
      CutDone(buffer, NEWLINE);
      assert lines + [] == lines;
    }
  }

  // ---------- The event stream ----------

  datatype Fields = Fields(data: string, id: string)   // an absent id is the empty text

  function TakeField(f: Fields, line: string): Fields {
    if StartsWith(line, ":") then f
    else
      var g := if StartsWith(line, "data:") then f.(data := f.data + Trim(line[5..])) else f;
      if StartsWith(line, "id:") then g.(id := Trim(line[3..])) else g
  }

  function TakeFields(lines: seq<string>): Fields {
    if lines == [] then Fields("", "") else TakeField(TakeFields(lines[..|lines| - 1]), lines[|lines| - 1])
  }

  /** `split('\n')`: the complete lines and the last one. */
  function LinesOf(frame: string): seq<string> {
    var c := CutAll(frame, NEWLINE);
    c.frames + [c.rest]
  }

  function ParseFrame(frame: string): Fields {
    TakeFields(LinesOf(frame))
  }

  datatype Message = Message(id: string, data: string)

  /** The service's memory, and every message it has dispatched. */
  datatype Memory = Memory(lastId: string, seen: set<string>, order: seq<string>, sent: seq<Message>)

  function Remember(m: Memory, id: string): Memory {
    var order := m.order + [id];
    if |order| > MEMORY then m.(seen := (m.seen + {id}) - {order[0]}, order := order[1..])
    else m.(seen := m.seen + {id}, order := order)
  }

  /** `isJson` stands for `JSON.parse` not throwing. */
  function Dispatch(m: Memory, frame: string, isJson: string -> bool): Memory {
    var f := ParseFrame(frame);
    if f.data == "" || !isJson(f.data) then m
    else if f.id == "" then m.(sent := m.sent + [Message("", f.data)])
    else
      var named := m.(lastId := f.id);
      if f.id in m.seen then named
      else Remember(named, f.id).(sent := m.sent + [Message(f.id, f.data)])
  }

  function DispatchAll(m: Memory, frames: seq<string>, isJson: string -> bool): Memory {
    if frames == [] then m
    else Dispatch(DispatchAll(m, frames[..|frames| - 1], isJson), frames[|frames| - 1], isJson)
  }

  lemma {:induction false} DispatchConcat(m: Memory, a: seq<string>, b: seq<string>, isJson: string -> bool)
    ensures DispatchAll(m, a + b, isJson) == DispatchAll(DispatchAll(m, a, isJson), b, isJson)
  {
    if b == [] {
      assert a + b == a;
    } else {
      var s := a + b;
      assert s[..|s| - 1] == a + b[..|b| - 1];
      DispatchConcat(m, a, b[..|b| - 1], isJson);
    }
  }

  /** The ids of the dispatched messages that have one. */
  function Ids(sent: seq<Message>): seq<string> {
    if sent == [] then []
    else Ids(sent[..|sent| - 1]) + if sent[|sent| - 1].id == "" then [] else [sent[|sent| - 1].id]
  }

  predicate Distinct(s: seq<string>) {
    forall i, j :: 0 <= i < j < |s| ==> s[i] != s[j]
  }

  /** The same id is never dispatched twice within `MEMORY` dispatches of other ids. */
  predicate Spaced(ids: seq<string>) {
    forall i, j :: 0 <= i < j < |ids| && ids[i] == ids[j] ==> j - i > MEMORY
  }

  /** The newest `MEMORY` ids. */
  function Recent(ids: seq<string>): seq<string> {
    if |ids| <= MEMORY then ids else ids[|ids| - MEMORY..]
  }

  predicate Remembers(m: Memory) {
    && m.order == Recent(Ids(m.sent))
    && m.seen == (set id | id in m.order)
    && Distinct(m.order)
    && Spaced(Ids(m.sent))
  }

  const FORGETFUL := Memory("", {}, [], [])

  lemma DistinctPush(order: seq<string>, id: string)
    requires Distinct(order) && id !in order
    ensures Distinct(order + [id]) && (set x | x in order + [id]) == (set x | x in order) + {id}
  {
  }

  lemma DistinctTail(order: seq<string>)
    requires Distinct(order) && order != []
    ensures Distinct(order[1..]) && (set x | x in order[1..]) == (set x | x in order) - {order[0]}
  {
    var tail := order[1..];
    assert forall i :: 0 <= i < |tail| ==> tail[i] == order[i + 1];
    assert order == [order[0]] + tail;
  }

  lemma RememberKeeps(m: Memory, id: string)
    requires m.seen == (set x | x in m.order) && Distinct(m.order) && |m.order| <= MEMORY && id !in m.seen
    ensures var n := Remember(m, id);
            && n.seen == (set x | x in n.order) && Distinct(n.order) && |n.order| <= MEMORY
            && n.order == Recent(m.order + [id])
  {
    hide Distinct;
    DistinctPush(m.order, id);
    DistinctTail(m.order + [id]);
  }

  lemma RecentPush(ids: seq<string>, id: string)
    ensures Recent(ids + [id]) == Recent(Recent(ids) + [id])
  {
  }

  lemma RecentHolds(ids: seq<string>, k: nat)
    requires |ids| - MEMORY <= k < |ids|
    ensures ids[k] in Recent(ids)
  {
    if |ids| > MEMORY {
      assert Recent(ids)[k - (|ids| - MEMORY)] == ids[k];
    }
  }

  lemma SpacedPush(ids: seq<string>, id: string)
    requires Spaced(ids) && id !in Recent(ids)
    ensures Spaced(ids + [id])
  {
    forall k: nat | |ids| - MEMORY <= k < |ids|
      ensures ids[k] in Recent(ids)
    {
      RecentHolds(ids, k);
    }
  }

  lemma DispatchKeeps(m: Memory, frame: string, isJson: string -> bool)
    requires Remembers(m)
    ensures Remembers(Dispatch(m, frame, isJson))
  {
    hide ParseFrame;
    var f := ParseFrame(frame);
    var n := Dispatch(m, frame, isJson);
    if f.data != "" && isJson(f.data) {
      if f.id == "" {
        assert n.sent[..|n.sent| - 1] == m.sent;
        assert Ids(n.sent) == Ids(m.sent);
      } else if f.id !in m.seen {
        assert n.sent[..|n.sent| - 1] == m.sent;
        var ids := Ids(m.sent);
        RememberKeeps(m.(lastId := f.id), f.id);
        RecentPush(ids, f.id);
        SpacedPush(ids, f.id);
      }
    }
  }

  /** Across any sequence of frames the seen set is the contents of the order queue, which is
      duplicate-free, at most 512 long, and holds the newest ids; two dispatches of one id have at
      least 512 dispatches of ids between them. */
  lemma {:induction false} BoundedMemory(frames: seq<string>, isJson: string -> bool)
    ensures Remembers(DispatchAll(FORGETFUL, frames, isJson))
    ensures var m := DispatchAll(FORGETFUL, frames, isJson);
            && |m.order| <= 512 && m.seen == (set id | id in m.order) && Distinct(m.order)
            && forall i, j :: 0 <= i < j < |Ids(m.sent)| && Ids(m.sent)[i] == Ids(m.sent)[j] ==> j - i > 512
  {
    if frames == [] {
      assert Ids([]) == [];
    } else {
      var before := frames[..|frames| - 1];
      BoundedMemory(before, isJson);
      DispatchKeeps(DispatchAll(FORGETFUL, before, isJson), frames[|frames| - 1], isJson);
    }
  }

  class EventsService {
    const isJson: string -> bool
    var lastEventId: string
    var seenEventIds: set<string>
    var seenEventOrder: seq<string>
    var sent: seq<Message>
    ghost var frames: seq<string>      // every frame of every connection so far

    ghost function View(): Memory
      reads this
    {
      Memory(lastEventId, seenEventIds, seenEventOrder, sent)
    }

    /** The memory is that of all frames received so far, whatever the chunks and reconnections. */
    ghost predicate Valid()
      reads this
    {
      View() == DispatchAll(FORGETFUL, frames, isJson)
    }

    constructor (isJson: string -> bool)
      ensures Valid() && frames == [] && this.isJson == isJson
    {
      this.isJson := isJson;
      lastEventId, seenEventIds, seenEventOrder, sent, frames := "", {}, [], [], [];
    }

    method RememberEventId(id: string)
      modifies this`seenEventIds, this`seenEventOrder
      ensures View() == Remember(old(View()), id)
    {
      seenEventIds := seenEventIds + {id};
      seenEventOrder := seenEventOrder + [id];
      if |seenEventOrder| > MEMORY {
        seenEventIds := seenEventIds - {seenEventOrder[0]};
        seenEventOrder := seenEventOrder[1..];
      }
    }

    method ReadFields(frame: string) returns (data: string, id: string)
      ensures Fields(data, id) == ParseFrame(frame)
    {
      data, id := "", "";
      var lines := LinesOf(frame);
      for i := 0 to |lines|
        invariant Fields(data, id) == TakeFields(lines[..i])
      {
        var line := lines[i];
        assert lines[..i + 1][..i] == lines[..i];
        if !StartsWith(line, ":") {
          if StartsWith(line, "data:") { data := data + Trim(line[5..]); }
          if StartsWith(line, "id:") { id := Trim(line[3..]); }
        }
      }
      assert lines[..|lines|] == lines;
    }

    method DispatchFrame(frame: string)
      modifies this`lastEventId, this`seenEventIds, this`seenEventOrder, this`sent
      ensures View() == Dispatch(old(View()), frame, isJson)
    {
      var data, id := ReadFields(frame);
      if data == "" || !isJson(data) { return; }
      if id != "" { lastEventId := id; }
      if id != "" && id in seenEventIds { return; }
      if id != "" { RememberEventId(id); }
      sent := sent + [Message(id, data)];
    }

    /** One connection. The unterminated tail is dropped when the connection ends. */
    method Pump(chunks: seq<string>)
      requires Valid()
      modifies this
      ensures Valid()
      ensures frames == old(frames) + CutAll(Concat(chunks), BLANK_LINE).frames
      ensures Remembers(View())
    {
      hide CutAll, DispatchAll, Remembers;
      var buffer := "";
      ghost var cut := Cut([], "");
      for i := 0 to |chunks|
        invariant cut == CutChunks(chunks[..i], BLANK_LINE)
        invariant buffer == cut.rest
        invariant frames == old(frames) + cut.frames
        invariant Valid()
      {
        assert chunks[..i + 1][..i] == chunks[..i];
        ghost var more := CutAll(buffer + chunks[i], BLANK_LINE);
        buffer := Drain(buffer + chunks[i]);
        assert (old(frames) + cut.frames) + more.frames == old(frames) + (cut.frames + more.frames);
        cut := Cut(cut.frames + more.frames, more.rest);
      }
      assert chunks[..|chunks|] == chunks;
      ChunkingInvariant(chunks, BLANK_LINE);
      BoundedMemory(frames, isJson);
    }

    /** Dispatch every complete frame of the buffer; what is left is the tail. */
    method Drain(text: string) returns (buffer: string)
      requires Valid()
      modifies this
      ensures Valid()
      ensures frames == old(frames) + CutAll(text, BLANK_LINE).frames && buffer == CutAll(text, BLANK_LINE).rest
    {
      hide CutAll, IndexOf, Dispatch;
      buffer := text;
      ghost var done: seq<string> := [];
      var idx := IndexOf(buffer, BLANK_LINE);
      while idx < |buffer|
        invariant idx == IndexOf(buffer, BLANK_LINE) <= |buffer|
        invariant CutAll(text, BLANK_LINE) == Cut(done + CutAll(buffer, BLANK_LINE).frames, CutAll(buffer, BLANK_LINE).rest)
        invariant frames == old(frames) + done
        invariant Valid()
        decreases |buffer|
      {
        CutStep(buffer, BLANK_LINE);
        var frame := buffer[..idx];
        buffer := buffer[idx + 2..];
        idx := IndexOf(buffer, BLANK_LINE);
        ghost var rest := CutAll(buffer, BLANK_LINE).frames;
        assert done + ([frame] + rest) == (done + [frame]) + rest;
        DispatchFrame(frame);
        assert (frames + [frame])[..|frames|] == frames;
        frames := frames + [frame];
        done := done + [frame];
      }
      CutDone(buffer, BLANK_LINE);
    }
  }
}
