/** Splitting a table row into its cells. */
module MarkdownTables {
  import opened JsText

  function Unpiped(s: string): string {
    var t := if s != "" && s[0] == '|' then s[1..] else s;
    if t != "" && t[|t| - 1] == '|' then t[..|t| - 1] else t
  }

  /** The row without its outer white space and outer pipes. */
  function RowBody(line: string): string {
    Unpiped(Trim(line))
  }

  /** The cells of `s`, the first of which begins with `cur`; an escaped pipe is text. */
  function SplitCells(s: string, cur: string): (cells: seq<string>)
    ensures cells != []
    decreases |s|
  {
    if s == "" then [Trim(cur)]
    else if s[0] == '\\' && |s| > 1 && s[1] == '|' then SplitCells(s[2..], cur + "|")
    else if s[0] == '|' then [Trim(cur)] + SplitCells(s[1..], "")
    else SplitCells(s[1..], cur + [s[0]])
  }

  function Cells(line: string): seq<string> {
    SplitCells(RowBody(line), "")
  }

  lemma SplitStep(s: string, j: nat, cur: string)
    requires j <= |s|
    ensures SplitCells(s[j..], cur)
         == if j == |s| then [Trim(cur)]
            else if s[j] == '\\' && j + 1 < |s| && s[j + 1] == '|' then SplitCells(s[j + 2..], cur + "|")
            else if s[j] == '|' then [Trim(cur)] + SplitCells(s[j + 1..], "")
            else SplitCells(s[j + 1..], cur + [s[j]])
  {
    var rest := s[j..];
    if j < |s| {
      assert rest[1..] == s[j + 1..];
      if j + 1 < |s| {
        assert rest[2..] == s[j + 2..];
      }
    }
  }

  method SplitTableRow(line: string) returns (cells: seq<string>)
    ensures cells == Cells(line)
  {
    hide SplitCells, Trim;
    var s := Trim(line);
    if s != "" && s[0] == '|' {
      s := s[1..];
    }
    if s != "" && s[|s| - 1] == '|' {
      s := s[..|s| - 1];
    }
    cells := SplitPipes(s);
  }

  method SplitPipes(s: string) returns (cells: seq<string>)
    ensures cells == SplitCells(s, "")
  {
    hide SplitCells, Trim;
    cells := [];
    var cur, j := "", 0;
    assert s[0..] == s;
    while j < |s|
      invariant j <= |s|
      invariant cells + SplitCells(s[j..], cur) == SplitCells(s, "")
    {
      var ch := s[j];
      SplitStep(s, j, cur);
      if ch == '\\' && j + 1 < |s| && s[j + 1] == '|' {
        cur, j := cur + "|", j + 2;
      } else if ch == '|' {
        assert cells + ([Trim(cur)] + SplitCells(s[j + 1..], "")) == cells + [Trim(cur)] + SplitCells(s[j + 1..], "");
        cells, cur, j := cells + [Trim(cur)], "", j + 1;
      } else {
        cur, j := cur + [ch], j + 1;
      }
    }
    SplitStep(s, j, cur);
    cells := cells + [Trim(cur)];
  }

  // ---------- Every row can be written so that it reads back ----------

  function Escaped(cell: string): string {
    if cell == "" then ""
    else (if cell[0] == '|' then "\\|" else [cell[0]]) + Escaped(cell[1..])
  }

  /** Cells with a space on both sides of each, pipes between them. */
  function Written(cells: seq<string>): (s: string)
    requires cells != []
    ensures s != ""
  {
    var first := " " + Escaped(cells[0]) + " ";
    if |cells| == 1 then first else first + "|" + Written(cells[1..])
  }

  function WrittenRow(cells: seq<string>): string
    requires cells != []
  {
    "|" + Written(cells) + "|"
  }

  function Trimmed(cells: seq<string>): seq<string> {
    seq(|cells|, i requires 0 <= i < |cells| => Trim(cells[i]))
  }

  lemma {:induction false} IndentAfterSpace(s: string)
    ensures Indent(" " + s) == 1 + Indent(s)
  {
    assert (" " + s)[1..] == s;
  }

  lemma {:induction false} IndentBeforeSpace(s: string)
    ensures Indent(s + " ") == if Indent(s) == |s| then |s| + 1 else Indent(s)
  {
    if s == "" {
      assert s + " " == " " + "";
      IndentAfterSpace("");
    } else {
      assert (s + " ")[1..] == s[1..] + " ";
      if IsSpace(s[0]) {
        IndentBeforeSpace(s[1..]);
      }
    }
  }

  lemma TrimPadded(s: string)
    ensures Trim(" " + s + " ") == Trim(s)
  {
    var padded := " " + s + " ";
    assert padded == " " + (s + " ");
    IndentAfterSpace(s + " ");
    IndentBeforeSpace(s);
    var n := Indent(s);
    if n == |s| {
      assert padded[Indent(padded)..] == "" && s[n..] == "";
    } else {
      assert padded[Indent(padded)..] == s[n..] + " ";
      assert (s[n..] + " ")[..|s| - n] == s[n..];
    }
  }

  lemma SplitText(c: char, rest: string, cur: string)
    requires c != '|' && (c == '\\' ==> rest == "" || rest[0] != '|')
    ensures SplitCells([c] + rest, cur) == SplitCells(rest, cur + [c])
  {
    hide Trim;
    assert ([c] + rest)[1..] == rest;
  }

  lemma SplitEscapedPipe(rest: string, cur: string)
    ensures SplitCells("\\|" + rest, cur) == SplitCells(rest, cur + "|")
  {
    hide Trim;
    assert ("\\|" + rest)[2..] == rest;
  }

  lemma SplitPipe(rest: string, cur: string)
    ensures SplitCells("|" + rest, cur) == [Trim(cur)] + SplitCells(rest, "")
  {
    hide Trim;
    assert ("|" + rest)[1..] == rest;
  }

  lemma SplitNothing(cur: string)
    ensures SplitCells("", cur) == [Trim(cur)]
  {
  }

  lemma NoBarePipe(cell: string, rest: string)
    requires cell != ""
    ensures Escaped(cell) != "" && (Escaped(cell) + rest)[0] != '|'
  {
  }

  /** A pipe written after the cell would be taken for an escaped one. */
  predicate EndsInEscape(cell: string) {
    cell != "" && cell[|cell| - 1] == '\\'
  }

  /** Escaped text goes into the current cell as it was. */
  lemma {:induction false} EscapedIsText(cell: string, rest: string, cur: string)
    requires EndsInEscape(cell) ==> rest == "" || rest[0] != '|'
    ensures SplitCells(Escaped(cell) + rest, cur) == SplitCells(rest, cur + cell)
    decreases |cell|
  {
    hide SplitCells;
    if cell == "" {
      assert Escaped(cell) + rest == rest && cur + cell == cur;
    } else {
      var c, tail := cell[0], Escaped(cell[1..]) + rest;
      assert cur + [c] + cell[1..] == cur + cell;
      EscapedIsText(cell[1..], rest, cur + [c]);
      if c == '|' {
        assert Escaped(cell) + rest == "\\|" + tail;
        SplitEscapedPipe(tail, cur);
      } else {
        assert Escaped(cell) + rest == [c] + tail;
        if |cell| > 1 {
          NoBarePipe(cell[1..], rest);
        } else {
          assert tail == rest;
        }
        SplitText(c, tail, cur);
      }
    }
  }

  /** One padded cell comes off, whatever ends it. */
  lemma CellReadsBack(cell: string, end: string)
    ensures SplitCells(" " + Escaped(cell) + " " + end, "") == SplitCells(end, " " + cell + " ")
  {
    hide SplitCells, Escaped;
    var rest := " " + end;
    assert " " + Escaped(cell) + " " + end == [' '] + (Escaped(cell) + rest);
    SplitText(' ', Escaped(cell) + rest, "");
    assert "" + [' '] == " ";
    EscapedIsText(cell, rest, " ");
    assert rest == [' '] + end;
    SplitText(' ', end, " " + cell);
  }

  lemma {:induction false} WrittenReadsBack(cells: seq<string>)
    requires cells != []
    ensures SplitCells(Written(cells), "") == Trimmed(cells)
  {
    hide SplitCells, Trim, Escaped;
    var cell, first := cells[0], " " + Escaped(cells[0]) + " ";
    TrimPadded(cell);
    if |cells| == 1 {
      assert Written(cells) == first + "";
      CellReadsBack(cell, "");
      SplitNothing(" " + cell + " ");
    } else {
      var more := Written(cells[1..]);
      assert Written(cells) == first + ("|" + more);
      CellReadsBack(cell, "|" + more);
      SplitPipe(more, " " + cell + " ");
      WrittenReadsBack(cells[1..]);
      assert Trimmed(cells) == [Trim(cell)] + Trimmed(cells[1..]);
    }
  }

  /** Any cells at all, backslashes and pipes included, can be written as a row that splits back into them. */
  lemma RowRoundTrip(cells: seq<string>)
    requires cells != []
    ensures Cells(WrittenRow(cells)) == Trimmed(cells)
  {
    var row, inner := WrittenRow(cells), Written(cells);
    assert row[0] == '|' && row[|row| - 1] == '|';
    assert Indent(row) == 0;
    assert row[0..] == row;
    assert Trim(row) == row;
    assert row[1..] == inner + "|";
    assert (inner + "|")[..|inner|] == inner;
    WrittenReadsBack(cells);
  }

  // ---------- What the cells of any text are ----------

  /** Escaped cells with a pipe between any two. */
  function Piped(cells: seq<string>): string
    requires cells != []
  {
    if |cells| == 1 then Escaped(cells[0]) else Escaped(cells[0]) + "|" + Piped(cells[1..])
  }

  predicate CanBePiped(cells: seq<string>) {
    cells != [] && forall k :: 0 <= k < |cells| - 1 ==> !EndsInEscape(cells[k])
  }

  lemma {:induction false} PipedReadsBack(cells: seq<string>)
    requires CanBePiped(cells)
    ensures SplitCells(Piped(cells), "") == Trimmed(cells)
  {
    hide SplitCells, Trim, Escaped;
    var cell, first := cells[0], Escaped(cells[0]);
    assert "" + cell == cell;
    if |cells| == 1 {
      assert Piped(cells) == first + "";
      EscapedIsText(cell, "", "");
      SplitNothing(cell);
    } else {
      var more := Piped(cells[1..]);
      assert Piped(cells) == first + ("|" + more);
      EscapedIsText(cell, "|" + more, "");
      SplitPipe(more, cell);
      PipedReadsBack(cells[1..]);
      assert Trimmed(cells) == [Trim(cell)] + Trimmed(cells[1..]);
    }
  }

  /** Text put in front of the first cell. */
  lemma PipedLonger(text: string, cells: seq<string>)
    requires cells != [] && text != "" && Escaped(text + cells[0]) == Escaped(text) + Escaped(cells[0])
    ensures Piped([text + cells[0]] + cells[1..]) == Escaped(text) + Piped(cells)
  {
    hide Escaped;
    var longer := [text + cells[0]] + cells[1..];
    if |cells| > 1 {
      assert longer[1..] == cells[1..];
      assert Piped(longer) == Escaped(text) + (Escaped(cells[0]) + "|" + Piped(cells[1..]));
    }
  }

  lemma EscapedOne(c: char, cell: string)
    ensures Escaped([c] + cell) == Escaped([c]) + Escaped(cell)
    ensures Escaped([c]) == if c == '|' then "\\|" else [c]
  {
    assert ([c] + cell)[1..] == cell && [c][1..] == "";
  }

  lemma EscapedNothing()
    ensures Escaped("") == ""
  {
  }

  lemma {:induction false} TextIsPiped(s: string) returns (cells: seq<string>)
    ensures CanBePiped(cells) && s == Piped(cells)
    decreases |s|
  {
    EscapedNothing();
    hide Escaped;
    if s == "" {
      cells := [""];
    } else if s[0] == '|' {
      var rest := TextIsPiped(s[1..]);
      cells := [""] + rest;
      assert cells[1..] == rest;
    } else {
      var escaped := s[0] == '\\' && |s| > 1 && s[1] == '|';
      var c, n := if escaped then '|' else s[0], if escaped then 2 else 1;
      var rest := TextIsPiped(s[n..]);
      EscapedOne(c, rest[0]);
      PipedLonger([c], rest);
      cells := [[c] + rest[0]] + rest[1..];
      assert rest[0] == "" && |rest| > 1 ==> s[n..] == "|" + Piped(rest[1..]);
      assert forall k :: 1 <= k < |cells| ==> cells[k] == rest[k];
      assert s == Escaped([c]) + s[n..];
    }
  }

  /** A text splits into cells exactly when they are trimmed from cells it was written with. */
  lemma SplitExactly(s: string, cells: seq<string>)
    ensures SplitCells(s, "") == cells <==>
            exists written: seq<string> :: CanBePiped(written) && s == Piped(written) && cells == Trimmed(written)
  {
    hide SplitCells, Trim, Piped;
    var written := TextIsPiped(s);
    PipedReadsBack(written);
    forall other: seq<string> | CanBePiped(other) && s == Piped(other)
      ensures SplitCells(s, "") == Trimmed(other)
    {
      PipedReadsBack(other);
    }
  }

  // ---------- What is taken off a row ----------

  /** A row is its body with an optional pipe on each side and white space outside; a side without a pipe does not
      begin or end in one. */
  predicate RowOf(line: string, before: string, lead: string, body: string, trail: string, after: string) {
    && AllSpace(before) && AllSpace(after) && lead in {"", "|"} && trail in {"", "|"}
    && (lead == "" && body != "" ==> body[0] != '|' && !IsSpace(body[0]))
    && (trail == "" && body != "" ==> body[|body| - 1] != '|' && !IsSpace(body[|body| - 1]))
    && line == before + (lead + body + trail) + after
  }

  lemma UnpipedExact(lead: string, body: string, trail: string)
    requires lead in {"", "|"} && trail in {"", "|"}
    requires lead == "" && body != "" ==> body[0] != '|'
    requires trail == "" && body != "" ==> body[|body| - 1] != '|'
    ensures Unpiped(lead + body + trail) == body
  {
    var s := lead + body + trail;
    if s != "" {
      var t := if s[0] == '|' then s[1..] else s;
      if lead == "" && body == "" {
        assert t == "";
      } else {
        assert t == body + trail;
        assert trail == "|" ==> t[..|t| - 1] == body;
      }
    }
  }

  lemma BodyOfRow(line: string, before: string, lead: string, body: string, trail: string, after: string)
    requires RowOf(line, before, lead, body, trail, after)
    ensures RowBody(line) == body
  {
    assert !IsSpace('|');
    hide Trim, IsSpace, AllSpace, Unpiped;
    CoreIsBare(lead, body, trail);
    TrimOf(before, lead + body + trail, after);
    UnpipedExact(lead, body, trail);
  }

  lemma CoreIsBare(lead: string, body: string, trail: string)
    requires lead in {"", "|"} && trail in {"", "|"} && !IsSpace('|')
    requires lead == "" && body != "" ==> !IsSpace(body[0])
    requires trail == "" && body != "" ==> !IsSpace(body[|body| - 1])
    ensures Bare(lead + body + trail)
  {
    hide IsSpace;
    var s := lead + body + trail;
    if s != "" {
      assert s[0] == if lead != "" then '|' else if body != "" then body[0] else '|';
      assert s[|s| - 1] == if trail != "" then '|' else if body != "" then body[|body| - 1] else '|';
    }
  }

  /** The body of a row is what is left of it without the white space and the pipes around it. */
  lemma RowBodyExactly(line: string, body: string)
    ensures RowBody(line) == body <==>
            exists before: string, lead: string, trail: string, after: string :: RowOf(line, before, lead, body, trail, after)
  {
    if RowBody(line) == body {
      var before, after := TrimSplits(line);
      RowIsWritten(line, before, Trim(line), after);
    }
    if before: string, lead: string, trail: string, after: string :| RowOf(line, before, lead, body, trail, after) {
      BodyOfRow(line, before, lead, body, trail, after);
    }
  }

  lemma UnpipedSplits(s: string) returns (lead: string, trail: string)
    ensures var body := Unpiped(s);
            && lead in {"", "|"} && trail in {"", "|"} && s == lead + body + trail
            && (lead == "" && body != "" ==> body[0] != '|' && body[0] == s[0])
            && (trail == "" && body != "" ==> body[|body| - 1] != '|' && body[|body| - 1] == s[|s| - 1])
  {
    lead := if s != "" && s[0] == '|' then "|" else "";
    var t := s[|lead|..];
    trail := if t != "" && t[|t| - 1] == '|' then "|" else "";
    assert t == Unpiped(s) + trail && s == lead + t;
  }

  lemma RowIsWritten(line: string, before: string, s: string, after: string)
    requires s == Trim(line) && Bare(s) && AllSpace(before) && AllSpace(after) && line == before + s + after
    ensures exists lead: string, trail: string :: RowOf(line, before, lead, RowBody(line), trail, after)
  {
    hide Trim, IsSpace, AllSpace, Unpiped;
    var lead, trail := UnpipedSplits(s);
    assert RowOf(line, before, lead, RowBody(line), trail, after);
  }
}
