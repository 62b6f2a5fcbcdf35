/** What the stream clients take from their input, written as the input itself. */
module StreamMeaning {
  import opened Common
  import opened JsText
  import opened Framing
  import opened StreamClients

  // ---------- Newline-delimited messages ----------

  /** A line as it is sent: a message with white space around it, or white space alone. */
  datatype Sent = Sent(before: string, message: string, after: string)

  predicate Sendable(l: Sent) {
    && AllSpace(l.before) && Bare(l.message) && AllSpace(l.after)
    && '\n' !in l.before && '\n' !in l.message && '\n' !in l.after
  }

  function SentLine(l: Sent): string {
    l.before + l.message + l.after
  }

  function SentLines(sent: seq<Sent>): seq<string> {
    seq(|sent|, k requires 0 <= k < |sent| => SentLine(sent[k]))
  }

  /** The messages themselves, in order, without the empty ones. */
  function Said(sent: seq<Sent>): seq<string> {
    if sent == [] then []
    else Said(sent[..|sent| - 1]) + if sent[|sent| - 1].message == "" then [] else [sent[|sent| - 1].message]
  }

  lemma {:induction false} MessagesOfSent(sent: seq<Sent>)
    requires forall k :: 0 <= k < |sent| ==> Sendable(sent[k])
    ensures Messages(SentLines(sent)) == Said(sent)
  {
    hide Trim, AllSpace, Bare;
    if sent != [] {
      var front, last := sent[..|sent| - 1], sent[|sent| - 1];
      MessagesOfSent(front);
      assert SentLines(sent)[..|sent| - 1] == SentLines(front);
      TrimOf(last.before, last.message, last.after);
    }
  }

  /**
    * Messages sent one to a line, with any white space around them, are handled, all of them, in order, and nothing is
    * left over.
    */
  lemma SentLinesHandled(sent: seq<Sent>)
    requires forall k :: 0 <= k < |sent| ==> Sendable(sent[k])
    ensures var c := CutAll(Joined(SentLines(sent), "", "\n"), NEWLINE); Messages(c.frames) == Said(sent) && c.rest == ""
  {
    hide CutAll, Trim, AllSpace, Bare;
    var lines := SentLines(sent);
    assert forall k :: 0 <= k < |lines| ==> '\n' !in SentLine(sent[k]) && lines[k] == SentLine(sent[k]);
    LinesCut(lines, "");
    MessagesOfSent(sent);
  }

  // ---------- Fields of a frame ----------

  /** A `data:` line adds its trimmed rest to the data, an `id:` line replaces the id, a comment adds nothing. */
  lemma FieldContributes(f: Fields, x: string)
    ensures TakeField(f, "data:" + x) == f.(data := f.data + Trim(x))
    ensures TakeField(f, "id:" + x) == f.(id := Trim(x))
    ensures TakeField(f, ":" + x) == f
  {
    hide Trim;
    assert ("data:" + x)[5..] == x && ("id:" + x)[3..] == x;
    assert ("data:" + x)[0] == 'd' && ("id:" + x)[0] == 'i';
  }

  /** Any other line is passed over. */
  lemma OtherLinesPass(f: Fields, line: string)
    requires !(":" <= line) && !("data:" <= line) && !("id:" <= line)
    ensures TakeField(f, line) == f
  {
  }

  /** What a line adds to the data. */
  function DataIn(line: string): string {
    if "data:" <= line then Trim(line[5..]) else ""
  }

  function AllData(lines: seq<string>): string {
    if lines == [] then "" else AllData(lines[..|lines| - 1]) + DataIn(lines[|lines| - 1])
  }

  /** The data is what the `data:` lines add up to, in order; the id is that of the last `id:` line, if there is one. */
  lemma {:induction false} FieldsExactly(lines: seq<string>)
    ensures TakeFields(lines).data == AllData(lines)
    ensures if exists k :: 0 <= k < |lines| && "id:" <= lines[k]
            then exists k :: 0 <= k < |lines| && "id:" <= lines[k] && TakeFields(lines).id == Trim(lines[k][3..])
                             && forall m :: k < m < |lines| ==> !("id:" <= lines[m])
            else TakeFields(lines).id == ""
  {
    hide Trim;
    if lines != [] {
      var n := |lines| - 1;
      var front, last := lines[..n], lines[n];
      FieldsExactly(front);
      LineAdds(TakeFields(front), last);
      hide TakeField;
      if "id:" <= last {
        assert TakeFields(lines).id == Trim(lines[n][3..]);
      } else if k :| 0 <= k < n && "id:" <= front[k] && TakeFields(front).id == Trim(front[k][3..])
                     && forall m :: k < m < n ==> !("id:" <= front[m]) {
        assert lines[k] == front[k];
        assert forall m :: k < m < n ==> lines[m] == front[m];
      } else {
        assert forall k :: 0 <= k < n ==> lines[k] == front[k];
      }
    }
  }

  lemma LineAdds(f: Fields, line: string)
    ensures TakeField(f, line).data == f.data + DataIn(line)
    ensures TakeField(f, line).id == if "id:" <= line then Trim(line[3..]) else f.id
  {
    hide Trim;
    assert "data:" <= line ==> line[0] == 'd';
    assert "id:" <= line ==> line[0] == 'i';
    assert ":" <= line ==> line[0] == ':';
  }

  /** A frame written with an id and data reads back as them. */
  lemma FrameReadsBack(id: string, data: string)
    requires Bare(id) && Bare(data) && '\n' !in id && '\n' !in data
    ensures ParseFrame("id: " + id + "\n" + "data: " + data) == Fields(data, id)
  {
    hide CutAll, Trim, TakeField;
    var a, b := "id: " + id, "data: " + data;
    assert Joined([a], b, "\n") == a + "\n" + b by {
      assert [a][1..] == [] && Joined([], b, "\n") == b;
    }
    LinesCut([a], b);
    assert a + "\n" + b == "id: " + id + "\n" + "data: " + data;
    var lines := [a, b];
    assert LinesOf(a + "\n" + b) == lines;
    assert lines[..1] == [a] && [a][..0] == [];
    assert a == "id:" + (" " + id) && b == "data:" + (" " + data);
    FieldContributes(Fields("", ""), " " + id);
    FieldContributes(Fields("", id), " " + data);
    LeadingSpace(id);
    LeadingSpace(data);
    assert TakeFields([]) == Fields("", "") && TakeFields([a]) == Fields("", id);
    assert TakeFields(lines) == TakeField(TakeFields(lines[..1]), lines[1]);
    assert "" + data == data;
  }

  lemma LeadingSpace(s: string)
    requires Bare(s)
    ensures Trim(" " + s) == s
  {
    TrimOf(" ", s, "");
    assert " " + s + "" == " " + s;
  }

  // ---------- Dispatching ----------

  function Newest(ids: seq<string>, n: nat): seq<string> {
    if |ids| <= n then ids else ids[|ids| - n..]
  }

  /** After any frames, one more: dispatched exactly when it has data that parses and an id that is none of the last 512
      dispatched, or no id; the last id is kept whenever there is one. */
  lemma DispatchedExactly(frames: seq<string>, frame: string, isJson: string -> bool)
    ensures var m := DispatchAll(FORGETFUL, frames, isJson);
            var n, f := Dispatch(m, frame, isJson), ParseFrame(frame);
            var parses := f.data != "" && isJson(f.data);
            && n.sent == m.sent + (if parses && (f.id == "" || f.id !in Newest(Ids(m.sent), 512)) then [Message(f.id, f.data)] else [])
            && n.lastId == (if parses && f.id != "" then f.id else m.lastId)
  {
    hide ParseFrame;
    BoundedMemory(frames, isJson);
    var m := DispatchAll(FORGETFUL, frames, isJson);
    hide DispatchAll;
    assert m.order == Newest(Ids(m.sent), 512);
    assert m.sent + [] == m.sent;
  }
}
