/** What the line tests accept, and what they take from a line, written as the lines themselves. */
module MarkdownLines {
  import opened Common
  import opened JsText
  import opened MarkdownBlocks
  import opened MarkdownGrammar
  import F = Framing
  import L = MarkdownLists

  function Repeated(c: char, n: nat): (s: string)
    ensures |s| == n && forall k :: 0 <= k < n ==> s[k] == c
  {
    seq(n, _ => c)
  }

  lemma {:induction false} MarginExact(n: nat, rest: string)
    requires rest != "" ==> rest[0] != ' '
    ensures Margin(Repeated(' ', n) + rest) == n
  {
    var line := Repeated(' ', n) + rest;
    if n > 0 {
      MarginExact(n - 1, rest);
      assert line[1..] == Repeated(' ', n - 1) + rest;
    } else {
      assert line == rest;
    }
  }

  lemma {:induction false} MarginIsSpaces(line: string)
    ensures var n := Margin(line); (forall k :: 0 <= k < n ==> line[k] == ' ') && (n < |line| ==> line[n] != ' ')
  {
    if line != "" && line[0] == ' ' {
      MarginIsSpaces(line[1..]);
      assert forall k :: 1 <= k < Margin(line) ==> line[k] == line[1..][k - 1];
    }
  }

  lemma MarginSplits(line: string)
    ensures var n := Margin(line);
            line == Repeated(' ', n) + line[n..] && (n < |line| ==> line[n] != ' ')
  {
    hide Margin;
    MarginIsSpaces(line);
    assert line[..Margin(line)] == Repeated(' ', Margin(line));
  }

  lemma {:induction false} RunExact(c: char, n: nat, rest: string)
    requires rest != "" ==> rest[0] != c
    ensures RunOf(Repeated(c, n) + rest, c) == n
  {
    var s := Repeated(c, n) + rest;
    assert forall k :: 0 <= k < n ==> s[k] == c;
    assert n < |s| ==> s[n] == rest[0];
  }


  // ---------- Fences and quotes ----------

  /** A fence is three backquotes or three tildes after at most three spaces, and the rest of the line goes with it. */
  lemma FenceExactly(line: string, fence: string, rest: string)
    ensures FenceOf(line) == Some((fence, rest)) <==>
            fence in {"```", "~~~"} && L.SingleLine(rest)
            && exists n: nat :: n <= 3 && line == Repeated(' ', n) + (fence + rest)
  {
    if FenceOf(line) == Some((fence, rest)) {
      MarginSplits(line);
      var n := Margin(line);
      assert line[n..] == fence + rest;
    }
    if n: nat :| n <= 3 && line == Repeated(' ', n) + (fence + rest) && fence in {"```", "~~~"} && L.SingleLine(rest) {
      MarginExact(n, fence + rest);
      assert line[n..] == fence + rest && (fence + rest)[..3] == fence && (fence + rest)[3..] == rest;
    }
  }

  /** A quoted line: a sign after at most three spaces, one white space character if there is one, and the text. */
  predicate QuotedAs(line: string, n: nat, text: string) {
    && L.SingleLine(text)
    && (|| (line == Repeated(' ', n) + (">" + text) && (text != "" ==> !IsSpace(text[0])))
        || (|line| == n + 2 + |text| && IsSpace(line[n + 1]) && line == Repeated(' ', n) + (">" + [line[n + 1]] + text)))
  }

  lemma QuoteSplits(line: string, text: string)
    requires QuoteOf(line) == Some(text)
    ensures Margin(line) <= 3 && QuotedAs(line, Margin(line), text)
  {
    hide IsSpace, L.SingleLine, Margin, Repeated, Blank;
    var n := Margin(line);
    MarginSplits(line);
    var rest := line[n + 1..];
    assert line[n..] == ">" + rest;
    if rest != "" && IsSpace(rest[0]) {
      assert rest == [line[n + 1]] + text;
      assert ">" + rest == ">" + [line[n + 1]] + text;
    }
  }

  lemma QuoteExactly(line: string, text: string)
    ensures QuoteOf(line) == Some(text) <==> exists n: nat :: n <= 3 && QuotedAs(line, n, text)
  {
    hide QuotedAs;
    if QuoteOf(line) == Some(text) {
      QuoteSplits(line, text);
    }
    if n: nat :| n <= 3 && QuotedAs(line, n, text) {
      QuotedIsRead(line, n, text);
    }
  }

  lemma QuotedIsRead(line: string, n: nat, text: string)
    requires n <= 3 && QuotedAs(line, n, text)
    ensures QuoteOf(line) == Some(text)
  {
    hide IsSpace, L.SingleLine, Margin, Repeated, Blank;
    if line == Repeated(' ', n) + (">" + text) && (text != "" ==> !IsSpace(text[0])) {
      MarginExact(n, ">" + text);
      assert line[n] == '>' && line[n + 1..] == text;
    } else {
      var tail := ">" + [line[n + 1]] + text;
      MarginExact(n, tail);
      assert line[n] == '>' && line[n + 1..] == [line[n + 1]] + text;
      assert line[n + 1..][1..] == text;
    }
  }

  /** A line of a quote gives the text it quotes, or all of itself when it quotes none. */
  lemma UnquotedExactly(line: string, text: string)
    ensures Unquoted(line) == text <==>
            || (exists n: nat :: n <= 3 && QuotedAs(line, n, text))
            || (text == line && !exists n: nat, t: string :: n <= 3 && QuotedAs(line, n, t))
  {
    hide QuotedAs, QuoteOf;
    QuoteExactly(line, text);
    forall n: nat, t: string | n <= 3 && QuotedAs(line, n, t)
      ensures QuoteOf(line) == Some(t)
    {
      QuoteExactly(line, t);
    }
    if QuoteOf(line).Some? {
      QuoteExactly(line, QuoteOf(line).value);
    }
  }

  // ---------- List markers ----------

  /** A bullet, or digits with a dot or a parenthesis. */
  predicate IsMarker(mark: string, ordered: bool) {
    if ordered then
      |mark| >= 2 && mark[|mark| - 1] in {'.', ')'} && forall k :: 0 <= k < |mark| - 1 ==> IsDigit(mark[k])
    else mark in {"-", "*", "+"}
  }

  lemma {:induction false} DigitRunExact(s: string, n: nat)
    requires n <= |s| && (forall k :: 0 <= k < n ==> IsDigit(s[k])) && (n < |s| ==> !IsDigit(s[n]))
    ensures L.DigitRun(s) == n
  {
    if n > 0 {
      DigitRunExact(s[1..], n - 1);
    }
  }

  lemma {:induction false} DigitRunDigits(s: string)
    ensures var n := L.DigitRun(s); (forall k :: 0 <= k < n ==> IsDigit(s[k])) && (n < |s| ==> !IsDigit(s[n]))
  {
    if s != "" && IsDigit(s[0]) {
      DigitRunDigits(s[1..]);
      var n := L.DigitRun(s);
      assert forall k :: 1 <= k < n ==> s[k] == s[1..][k - 1];
    }
  }

  lemma MarkerLengthExact(mark: string, rest: string, ordered: bool)
    requires IsMarker(mark, ordered)
    ensures L.MarkerLength(mark + rest) == |mark| && IsDigit((mark + rest)[0]) == ordered
  {
    var s := mark + rest;
    assert forall k :: 0 <= k < |mark| ==> s[k] == mark[k];
    if ordered {
      DigitRunExact(s, |mark| - 1);
    }
  }

  lemma MarkerLengthMarks(s: string)
    requires L.MarkerLength(s) > 0
    ensures IsMarker(s[..L.MarkerLength(s)], IsDigit(s[0]))
  {
    DigitRunDigits(s);
    if s[0] in {'-', '*', '+'} {
      assert s[..1] == [s[0]];
    }
  }

  /** Indent, marker, white space, text: the parts of a list line. */
  predicate MarkedAs(line: string, m: L.Marker, pad: string, mark: string, gap: string) {
    && AllSpace(pad) && |pad| == m.indent && IsMarker(mark, m.ordered) && gap != "" && AllSpace(gap)
    && L.SingleLine(m.text) && (m.text != "" ==> !IsSpace(m.text[0]))
    && line == pad + (mark + (gap + m.text))
  }

  /** A list line is read as the marker it is written with. */
  lemma MarkerExactly(line: string, m: L.Marker)
    ensures L.MarkerOf(line) == Some(m) <==>
            exists pad: string, mark: string, gap: string :: MarkedAs(line, m, pad, mark, gap)
  {
    if L.MarkerOf(line) == Some(m) {
      MarkerSplits(line, m);
    }
    if pad: string, mark: string, gap: string :| MarkedAs(line, m, pad, mark, gap) {
      MarkedIsRead(line, m, pad, mark, gap);
    }
  }

  /** The white space after a marker, and the text after that. */
  lemma GapAndText(rest: string)
    ensures var n := Indent(rest);
            AllSpace(rest[..n]) && (rest[n..] != "" ==> !IsSpace(rest[n..][0])) && rest == rest[..n] + rest[n..]
  {
    hide IsSpace, Indent;
  }

  lemma Halves(s: string, n: nat)
    requires n <= |s|
    ensures s == s[..n] + s[n..]
  {
  }

  lemma MarkerSplits(line: string, m: L.Marker)
    requires L.MarkerOf(line) == Some(m)
    ensures var mark, rest := L.FromMarker(line), L.AfterMarker(line);
            MarkedAs(line, m, line[..Indent(line)], mark[..L.MarkerLength(mark)], rest[..Indent(rest)])
  {
    hide IsMarker, L.MarkerLength, L.SingleLine, IsSpace, IsDigit, Indent;
    var mark, rest := L.FromMarker(line), L.AfterMarker(line);
    MarkerLengthMarks(mark);
    GapAndText(rest);
    Halves(line, Indent(line));
    Halves(mark, L.MarkerLength(mark));
    hide L.FromMarker, L.AfterMarker;
  }

  lemma ReadsMarker(line: string, n: nat, body: string, k: nat, rest: string, gap: nat)
    requires n == Indent(line) && L.FromMarker(line) == body && body != "" && k == L.MarkerLength(body) > 0
    requires L.AfterMarker(line) == rest && Indent(rest) == gap >= 1 && L.SingleLine(rest[gap..])
    ensures L.MarkerOf(line) == Some(L.Marker(n, IsDigit(body[0]), rest[gap..]))
  {
    hide L.FromMarker, L.AfterMarker, IsSpace, IsDigit, L.SingleLine, L.MarkerLength, Indent;
  }

  lemma MarkedIsRead(line: string, m: L.Marker, pad: string, mark: string, gap: string)
    requires MarkedAs(line, m, pad, mark, gap)
    ensures L.MarkerOf(line) == Some(m)
  {
    MarkIsNoSpace(mark, m.ordered);
    hide IsMarker, IsSpace, IsDigit, L.SingleLine, L.MarkerLength, L.MarkerOf, Indent;
    var tail := gap + m.text;
    var body := mark + tail;
    assert body[0] == mark[0];
    IndentExact(pad, body);
    IndentExact(gap, m.text);
    MarkerLengthExact(mark, tail, m.ordered);
    DropsPrefix(pad, body);
    DropsPrefix(mark, tail);
    DropsPrefix(gap, m.text);
    ReadsMarker(line, |pad|, body, |mark|, tail, |gap|);
  }

  lemma MarkIsNoSpace(mark: string, ordered: bool)
    requires IsMarker(mark, ordered)
    ensures mark != "" && !IsSpace(mark[0])
  {
  }

  /** The lines a list takes: list markers, and lines that are indented and not blank. */
  lemma ListLineExactly(line: string)
    ensures ListLine(line) <==> L.MarkerOf(line).Some? || (!Blank(line) && IsSpace(line[0]))
  {
    BlankIsAllSpace(line);
    hide L.MarkerOf;
  }

  // ---------- Headings ----------

  /** Hashes, white space, the text and a closing of white space and hashes that takes as much as it can. */
  predicate HeadedAs(line: string, level: nat, text: string, margin: nat, gap: string, close: string) {
    && margin <= 3 && 1 <= level <= 6 && gap != "" && AllSpace(gap)
    && (text + close != "" ==> !IsSpace((text + close)[0]))
    && L.SingleLine(text) && Closing(close) && (forall k :: 0 <= k < |text| ==> !Closing((text + close)[k..]))
    && line == Repeated(' ', margin) + (Repeated('#', level) + (gap + (text + close)))
  }

  lemma TextEndMeans(s: string)
    ensures var n := TextEnd(s); Closing(s[n..]) && forall k :: 0 <= k < n ==> !Closing(s[k..])
  {
    hide Closing;
  }

  lemma TextEndExact(text: string, close: string)
    requires Closing(close) && forall k :: 0 <= k < |text| ==> !Closing((text + close)[k..])
    ensures TextEnd(text + close) == |text|
  {
    hide Closing;
    TextEndMeans(text + close);
    assert (text + close)[|text|..] == close;
  }

  lemma HashIsNoSpace()
    ensures !IsSpace('#')
  {
  }

  lemma DropsPrefix(a: string, b: string)
    ensures (a + b)[|a|..] == b
  {
  }

  lemma SameRunOf(s: string, c: char)
    ensures var n := RunOf(s, c); s == Repeated(c, n) + s[n..]
  {
  }

  lemma ReadsHeading(line: string, level: nat, body: string, n: nat)
    requires Margin(line) <= 3 && level == RunOf(line[Margin(line)..], '#') && 1 <= level <= 6
    requires Indent(AfterHashes(line)) >= 1 && HeadingBody(line) == body && n == TextEnd(body) && L.SingleLine(body[..n])
    ensures HeadingOf(line) == Some((level, body[..n]))
  {
    hide L.SingleLine, TextEnd, Margin, RunOf, Indent, AfterHashes, HeadingBody;
  }

  lemma HeadedIsRead(line: string, level: nat, text: string, margin: nat, gap: string, close: string)
    requires HeadedAs(line, level, text, margin, gap, close)
    ensures HeadingOf(line) == Some((level, text))
  {
    HashIsNoSpace();
    TextEndExact(text, close);
    hide Closing, L.SingleLine, IsSpace, TextEnd, Margin, RunOf, Indent, Repeated;
    var body := text + close;
    var rest := gap + body;
    var hashes := Repeated('#', level) + rest;
    assert hashes[0] == '#' && rest[0] == gap[0];
    MarginExact(margin, hashes);
    RunExact('#', level, rest);
    IndentExact(gap, body);
    DropsPrefix(Repeated(' ', margin), hashes);
    DropsPrefix(Repeated('#', level), rest);
    DropsPrefix(gap, body);
    assert line[margin + level..] == line[margin..][level..];
    assert body[..|text|] == text;
    assert AfterHashes(line) == rest && HeadingBody(line) == body;
    ReadsHeading(line, level, body, |text|);
  }

  lemma HeadingParts(line: string)
    ensures var level, rest := RunOf(line[Margin(line)..], '#'), AfterHashes(line);
            && line == Repeated(' ', Margin(line)) + (Repeated('#', level) + rest)
            && HeadingBody(line) == rest[Indent(rest)..]
            && (HeadingBody(line) != "" ==> !IsSpace(HeadingBody(line)[0]))
  {
    hide IsSpace, Margin, RunOf, Indent, Repeated;
    MarginSplits(line);
    var tail := line[Margin(line)..];
    SameRunOf(tail, '#');
    assert tail[RunOf(tail, '#')..] == AfterHashes(line);
  }

  lemma HeadingSplits(line: string)
    requires HeadingOf(line).Some?
    ensures var (level, text) := HeadingOf(line).value;
            exists margin: nat, gap: string, close: string :: HeadedAs(line, level, text, margin, gap, close)
  {
    hide Closing, L.SingleLine, IsSpace, TextEnd, Margin, RunOf, Indent, Repeated, AfterHashes, HeadingBody;
    var (level, text) := HeadingOf(line).value;
    var margin, rest, body := Margin(line), AfterHashes(line), HeadingBody(line);
    HeadingParts(line);
    var gap, close := rest[..Indent(rest)], body[|text|..];
    TextEndMeans(body);
    assert body == text + close && rest == gap + body;
    assert text + close != "" ==> !IsSpace((text + close)[0]);
    assert HeadedAs(line, level, text, margin, gap, close);
  }

  /** A line is read as the heading it is written as. */
  lemma HeadingExactly(line: string, level: nat, text: string)
    ensures HeadingOf(line) == Some((level, text)) <==>
            exists margin: nat, gap: string, close: string :: HeadedAs(line, level, text, margin, gap, close)
  {
    if HeadingOf(line) == Some((level, text)) {
      HeadingSplits(line);
    }
    if margin: nat, gap: string, close: string :| HeadedAs(line, level, text, margin, gap, close) {
      HeadedIsRead(line, level, text, margin, gap, close);
    }
  }

  // ---------- Rules ----------

  /** A mark before every gap. */
  function Marks(c: char, gaps: seq<string>): string {
    if gaps == [] then "" else [c] + gaps[0] + Marks(c, gaps[1..])
  }

  ghost predicate WrittenMarks(line: string, margin: nat, c: char, gaps: seq<string>) {
    && margin <= 3 && c in {'-', '*', '_'} && |gaps| >= 3 && (forall k :: 0 <= k < |gaps| ==> AllSpace(gaps[k]))
    && line == Repeated(' ', margin) + Marks(c, gaps)
  }

  lemma {:induction false} CountSkips(gap: string, tail: string, c: char)
    requires AllSpace(gap) && !IsSpace(c)
    ensures CountOf(gap + tail, c) == CountOf(tail, c)
  {
    hide IsSpace;
    if gap == "" {
      assert gap + tail == tail;
    } else {
      CountSkips(gap[1..], tail, c);
      assert (gap + tail)[1..] == gap[1..] + tail;
    }
  }

  lemma {:induction false} CountAtMost(t: string, b: string, c: char)
    requires AllSpace(b) && !IsSpace(c)
    ensures CountOf(t + b, c) <= |t|
  {
    hide IsSpace;
    if t == "" {
      CountSkips(b, "", c);
      assert t + b == b == b + "";
    } else {
      CountAtMost(t[1..], b, c);
      assert (t + b)[1..] == t[1..] + b;
    }
  }

  lemma TrimKeepsMarks(line: string, c: char)
    requires !IsSpace(c)
    ensures CountOf(line, c) <= |Trim(line)|
  {
    hide IsSpace, Trim, CountOf;
    var a, b := TrimSplits(line);
    assert line == a + (Trim(line) + b);
    CountSkips(a, Trim(line) + b, c);
    CountAtMost(Trim(line), b, c);
  }

  lemma {:induction false} MarksRead(c: char, gaps: seq<string>)
    requires !IsSpace(c) && forall k :: 0 <= k < |gaps| ==> AllSpace(gaps[k])
    ensures var s := Marks(c, gaps);
            && CountOf(s, c) == |gaps| && (gaps != [] ==> s != "" && s[0] == c)
            && forall k :: 0 <= k < |s| ==> s[k] == c || IsSpace(s[k])
  {
    hide IsSpace;
    if gaps != [] {
      MarksRead(c, gaps[1..]);
      var tail := Marks(c, gaps[1..]);
      CountSkips(gaps[0], tail, c);
      assert Marks(c, gaps)[1..] == gaps[0] + tail;
    }
  }

  lemma {:induction false} MarksWritten(s: string, c: char) returns (gaps: seq<string>)
    requires !IsSpace(c) && (s != "" ==> s[0] == c) && forall k :: 0 <= k < |s| ==> s[k] == c || IsSpace(s[k])
    ensures s == Marks(c, gaps) && |gaps| == CountOf(s, c) && forall k :: 0 <= k < |gaps| ==> AllSpace(gaps[k])
  {
    hide IsSpace, Indent;
    gaps := [];
    if s != "" {
      var rest := s[1..];
      var n := Indent(rest);
      var gap, tail := rest[..n], rest[n..];
      assert rest == gap + tail && (tail != "" ==> tail[0] == s[1 + n]);
      CountSkips(gap, tail, c);
      var more := MarksWritten(tail, c);
      gaps := [gap] + more;
      assert gaps[1..] == more && s == [c] + gap + tail;
    }
  }

  lemma MarksAreMarks()
    ensures forall c :: c in {'-', '*', '_'} ==> !IsSpace(c) && c != ' '
  {
  }

  /** A rule is three or more of one mark, white space after any of them, and at most three spaces in front. */
  lemma RuleExactly(line: string)
    ensures IsRuleLine(line) <==> exists margin: nat, c: char, gaps: seq<string> :: WrittenMarks(line, margin, c, gaps)
  {
    MarksAreMarks();
    hide IsSpace, Trim, Margin, Marks, CountOf, AllSpace;
    if IsRuleLine(line) {
      MarginSplits(line);
      var margin := Margin(line);
      var rest := line[margin..];
      var gaps := MarksWritten(rest, rest[0]);
      assert WrittenMarks(line, margin, rest[0], gaps);
    }
    if margin: nat, c: char, gaps: seq<string> :| WrittenMarks(line, margin, c, gaps) {
      WrittenMarksRead(line, margin, c, gaps);
    }
  }

  lemma WrittenMarksRead(line: string, margin: nat, c: char, gaps: seq<string>)
    requires WrittenMarks(line, margin, c, gaps)
    ensures IsRuleLine(line)
  {
    MarksAreMarks();
    SpaceIsSpace();
    var marks := Marks(c, gaps);
    MarksRead(c, gaps);
    MarginExact(margin, marks);
    hide IsSpace, Trim, Margin, Marks, CountOf;
    assert line[margin..] == marks;
    CountSkips(Repeated(' ', margin), marks, c);
    TrimKeepsMarks(line, c);
  }

  lemma SpaceIsSpace()
    ensures IsSpace(' ')
  {
  }

  // ---------- Table rows ----------

  ghost predicate WrittenRow(line: string, margin: nat, lead: string, a: string, b: string, trail: string) {
    && margin <= 3 && lead in {"", "|"} && a != "" && b != "" && trail in {"", "|"}
    && L.SingleLine(a) && L.SingleLine(b) && line == Repeated(' ', margin) + (lead + (a + ("|" + (b + trail))))
  }

  /** A table row is text on both sides of a pipe, with an optional pipe around it, after at most three spaces. */
  lemma TableRowExactly(line: string)
    ensures IsTableRowLine(line) <==>
            exists margin: nat, lead: string, a: string, b: string, trail: string :: WrittenRow(line, margin, lead, a, b, trail)
  {
    if IsTableRowLine(line) {
      var i :| 1 <= i < |line| - 1 && line[i] == '|';
      assert line == line[..i] + ("|" + line[i + 1..]);
      assert WrittenRow(line, 0, "", line[..i], line[i + 1..], "");
    }
    if margin: nat, lead: string, a: string, b: string, trail: string :| WrittenRow(line, margin, lead, a, b, trail) {
      RowRead(line, margin, lead, a, b, trail);
    }
  }

  lemma RowRead(line: string, margin: nat, lead: string, a: string, b: string, trail: string)
    requires WrittenRow(line, margin, lead, a, b, trail)
    ensures IsTableRowLine(line)
  {
    var front := Repeated(' ', margin) + (lead + a);
    assert line == front + ("|" + (b + trail));
    assert line[|front|] == '|';
  }

  // ---------- Table separators ----------

  /** One cell of a table separator. */
  datatype RuleCell = RuleCell(before: string, left: bool, dashes: nat, right: bool, after: string)

  predicate GoodCell(c: RuleCell) {
    AllSpace(c.before) && AllSpace(c.after) && c.dashes >= 2
  }

  function Colon(b: bool): string {
    if b then ":" else ""
  }

  function CellText(c: RuleCell): string {
    c.before + (Colon(c.left) + (Repeated('-', c.dashes) + (Colon(c.right) + c.after)))
  }

  /** Cells with pipes between them, and perhaps one at the end. */
  function RuleText(cells: seq<RuleCell>, closed: bool): string
    requires cells != []
  {
    CellText(cells[0])
      + (if |cells| > 1 then "|" + RuleText(cells[1..], closed) else if closed then "|" else "")
  }

  /** Reading one cell off a text. */
  lemma CellRead(c: RuleCell, tail: string)
    requires GoodCell(c) && (tail != "" ==> tail[0] == '|')
    ensures var a := SkipColon(SkipSpace(CellText(c) + tail));
            var n := RunOf(a, '-');
            n == c.dashes && SkipSpace(SkipColon(a[n..])) == tail
  {
    MarksAreNoSpace();
    hide IsSpace, Indent, RunOf, AllSpace;
    var e := c.after + tail;
    var d := Colon(c.right) + e;
    var dashes := Repeated('-', c.dashes) + d;
    var b := Colon(c.left) + dashes;
    assert CellText(c) + tail == c.before + b;
    assert dashes[0] == '-';
    assert b[0] in {':', '-'};
    IndentExact(c.before, b);
    DropsPrefix(c.before, b);
    assert SkipSpace(CellText(c) + tail) == b;
    assert SkipColon(b) == dashes;
    assert d != "" ==> d[0] != '-' by {
      AfterDashes(c, tail);
    }
    RunExact('-', c.dashes, d);
    DropsPrefix(Repeated('-', c.dashes), d);
    AfterColon(c, tail);
    IndentExact(c.after, tail);
    DropsPrefix(c.after, tail);
  }

  lemma MarksAreNoSpace()
    ensures !IsSpace(':') && !IsSpace('-') && !IsSpace('|')
  {
  }

  lemma AfterDashes(c: RuleCell, tail: string)
    requires GoodCell(c) && (tail != "" ==> tail[0] == '|')
    ensures var d := Colon(c.right) + (c.after + tail); d != "" ==> d[0] != '-'
  {
  }

  lemma AfterColon(c: RuleCell, tail: string)
    requires GoodCell(c) && (tail != "" ==> tail[0] == '|')
    ensures SkipColon(Colon(c.right) + (c.after + tail)) == c.after + tail
  {
    MarksAreNoSpace();
    hide IsSpace;
    var e := c.after + tail;
    assert c.after != "" ==> e[0] == c.after[0] && IsSpace(e[0]);
    assert e != "" ==> e[0] != ':';
    if c.right {
      DropsPrefix(":", e);
    } else {
      assert "" + e == e;
    }
  }

  /** A written separator is accepted ... */
  lemma {:induction false} RuleTextRead(cells: seq<RuleCell>, closed: bool)
    requires cells != [] && forall k :: 0 <= k < |cells| ==> GoodCell(cells[k])
    ensures IsRuleCells(RuleText(cells, closed))
  {
    var last := if closed then "|" else "";
    hide SkipColon, SkipSpace, RunOf, CellText, GoodCell, IsRuleCells;
    if |cells| > 1 {
      RuleTextRead(cells[1..], closed);
      CellFirst(cells[0], RuleText(cells[1..], closed));
    } else {
      CellLast(cells[0], last);
      assert RuleText(cells, closed) == CellText(cells[0]) + last;
    }
  }

  lemma CellLast(c: RuleCell, last: string)
    requires GoodCell(c) && last in {"", "|"}
    ensures IsRuleCells(CellText(c) + last)
  {
    assert c.dashes >= 2;
    hide SkipColon, SkipSpace, RunOf, CellText, GoodCell, IsRuleCells;
    CellRead(c, last);
    CellThen(CellText(c) + last, c.dashes, last);
  }

  lemma CellFirst(c: RuleCell, more: string)
    requires GoodCell(c) && IsRuleCells(more)
    ensures IsRuleCells(CellText(c) + ("|" + more))
  {
    assert c.dashes >= 2;
    hide SkipColon, SkipSpace, RunOf, CellText, GoodCell, IsRuleCells;
    var tail := "|" + more;
    CellRead(c, tail);
    DropsPrefix("|", more);
    CellThen(CellText(c) + tail, c.dashes, tail);
  }

  /** One cell and what follows it. */
  lemma CellThen(s: string, dashes: nat, tail: string)
    requires var a := SkipColon(SkipSpace(s)); RunOf(a, '-') == dashes >= 2 && SkipSpace(SkipColon(a[dashes..])) == tail
    ensures IsRuleCells(s) <==> tail == "" || tail == "|" || (tail[0] == '|' && IsRuleCells(tail[1..]))
  {
    hide SkipColon, SkipSpace, RunOf;
  }

  /** ... and what is accepted is a written separator. */
  lemma {:induction false} RuleCellsWritten(s: string) returns (cells: seq<RuleCell>, closed: bool)
    requires IsRuleCells(s)
    ensures cells != [] && (forall k :: 0 <= k < |cells| ==> GoodCell(cells[k])) && s == RuleText(cells, closed)
    decreases |s|
  {
    hide SkipColon, SkipSpace, RunOf, CellText, GoodCell, IsRuleCells, RuleText;
    AtLeastTwo(s);
    var cell, tail := CellOff(s);
    CellThen(s, RunOf(SkipColon(SkipSpace(s)), '-'), tail);
    if tail == "" || tail == "|" {
      cells, closed := [cell], tail == "|";
      RuleTextOne(cell, closed);
    } else {
      var rest;
      rest, closed := RuleCellsWritten(tail[1..]);
      cells := [cell] + rest;
      RuleTextMore(cell, rest, closed);
      assert tail == "|" + tail[1..];
    }
  }

  lemma RuleTextOne(cell: RuleCell, closed: bool)
    ensures RuleText([cell], closed) == CellText(cell) + if closed then "|" else ""
  {
  }

  lemma RuleTextMore(cell: RuleCell, rest: seq<RuleCell>, closed: bool)
    requires rest != []
    ensures RuleText([cell] + rest, closed) == CellText(cell) + ("|" + RuleText(rest, closed))
  {
    assert ([cell] + rest)[1..] == rest;
  }

  lemma AtLeastTwo(s: string)
    requires IsRuleCells(s)
    ensures RunOf(SkipColon(SkipSpace(s)), '-') >= 2
  {
    hide SkipColon, SkipSpace, RunOf;
  }

  lemma CellOff(s: string) returns (c: RuleCell, tail: string)
    requires RunOf(SkipColon(SkipSpace(s)), '-') >= 2
    ensures var a := SkipColon(SkipSpace(s)); tail == SkipSpace(SkipColon(a[RunOf(a, '-')..]))
    ensures GoodCell(c) && s == CellText(c) + tail && |tail| <= |s| - 2
  {
    var b := SkipSpace(s);
    var a := SkipColon(b);
    var n := RunOf(a, '-');
    var d := a[n..];
    var e := SkipColon(d);
    tail := SkipSpace(e);
    SkipsSpace(s);
    SkipsSpace(e);
    SkipsColon(b);
    SkipsColon(d);
    SameRunOf(a, '-');
    hide SkipSpace, SkipColon, RunOf, IsSpace, Indent, Repeated;
    c := RuleCell(s[..Indent(s)], |a| < |b|, n, |e| < |d|, e[..Indent(e)]);
    Reassociate(c.before, Colon(c.left), Repeated('-', n), Colon(c.right), c.after, tail);
  }

  lemma SkipsSpace(s: string)
    ensures var n := Indent(s); AllSpace(s[..n]) && s == s[..n] + SkipSpace(s)
  {
    hide IsSpace, Indent;
  }

  lemma SkipsColon(s: string)
    ensures s == Colon(|SkipColon(s)| < |s|) + SkipColon(s)
  {
  }

  lemma Reassociate(a: string, b: string, c: string, d: string, e: string, f: string)
    ensures a + (b + (c + (d + (e + f)))) == a + (b + (c + (d + e))) + f
  {
  }

  ghost predicate WrittenRule(line: string, cells: seq<RuleCell>, closed: bool) {
    cells != [] && (forall k :: 0 <= k < |cells| ==> GoodCell(cells[k])) && line == RuleText(cells, closed)
  }

  ghost predicate PipedRule(line: string, n: nat, cells: seq<RuleCell>, closed: bool) {
    n <= 3 && n < |line| && line[..n + 1] == Repeated(' ', n) + "|" && WrittenRule(line[n + 1..], cells, closed)
  }

  lemma WrittenRuleRead(line: string, cells: seq<RuleCell>, closed: bool)
    requires WrittenRule(line, cells, closed)
    ensures IsTableRuleLine(line)
  {
    hide IsRuleCells, RuleText, GoodCell, Margin;
    RuleTextRead(cells, closed);
    NoLeadingPipe(cells, closed);
  }

  lemma PipedRuleRead(line: string, n: nat, cells: seq<RuleCell>, closed: bool)
    requires PipedRule(line, n, cells, closed)
    ensures IsTableRuleLine(line)
  {
    hide IsRuleCells, RuleText, GoodCell, Margin, Repeated;
    var rest := line[n + 1..];
    RuleTextRead(cells, closed);
    assert line == Repeated(' ', n) + ("|" + rest);
    MarginExact(n, "|" + rest);
  }

  lemma TableRuleSplits(line: string)
    requires IsTableRuleLine(line)
    ensures || (exists cells: seq<RuleCell>, closed: bool :: WrittenRule(line, cells, closed))
            || (exists n: nat, cells: seq<RuleCell>, closed: bool :: PipedRule(line, n, cells, closed))
  {
    hide IsRuleCells, RuleText, GoodCell, Margin;
    var n := Margin(line);
    if n <= 3 && n < |line| && line[n] == '|' {
      MarginIsSpaces(line);
      assert line[..n + 1] == Repeated(' ', n) + "|";
      var cells, closed := RuleCellsWritten(line[n + 1..]);
      assert PipedRule(line, n, cells, closed);
    } else {
      var cells, closed := RuleCellsWritten(line);
      assert WrittenRule(line, cells, closed);
    }
  }

  /** A separator line is cells as they are written, or such cells after a leading pipe and at most three spaces. */
  lemma TableRuleExactly(line: string)
    ensures IsTableRuleLine(line) <==>
            || (exists cells: seq<RuleCell>, closed: bool :: WrittenRule(line, cells, closed))
            || (exists n: nat, cells: seq<RuleCell>, closed: bool :: PipedRule(line, n, cells, closed))
  {
    hide IsTableRuleLine, WrittenRule, PipedRule;
    if IsTableRuleLine(line) {
      TableRuleSplits(line);
    }
    if cells: seq<RuleCell>, closed: bool :| WrittenRule(line, cells, closed) {
      WrittenRuleRead(line, cells, closed);
    }
    if n: nat, cells: seq<RuleCell>, closed: bool :| PipedRule(line, n, cells, closed) {
      PipedRuleRead(line, n, cells, closed);
    }
  }

  /** Written cells do not start with a pipe. */
  lemma NoLeadingPipe(cells: seq<RuleCell>, closed: bool)
    requires cells != [] && GoodCell(cells[0])
    ensures var s := RuleText(cells, closed); var n := Margin(s); n < |s| ==> s[n] != '|'
  {
    var s, c := RuleText(cells, closed), cells[0];
    var b := Colon(c.left) + (Repeated('-', c.dashes) + (Colon(c.right) + c.after));
    assert CellText(c) == c.before + b && c.before + b <= s;
    assert b[0] in {':', '-'};
    MarginSplits(s);
    MarksAreNoSpace();
    hide RuleText, CellText, Margin, Colon, IsSpace;
    FirstMark(s, c.before, b, Margin(s));
  }

  lemma FirstMark(s: string, before: string, b: string, n: nat)
    requires before + b <= s && AllSpace(before) && b != "" && b[0] in {':', '-'} && n <= |s|
    requires forall k :: 0 <= k < n ==> s[k] == ' '
    ensures n < |s| ==> s[n] != '|'
  {
    MarksAreNoSpace();
    hide IsSpace;
    assert s[|before|] == b[0];
    assert forall k :: 0 <= k < |before| ==> s[k] == before[k];
  }

  // ---------- The kind of a block ----------

  /** Each kind, by what its first line is and is not. */
  lemma KindExactly(g: Grammar, lines: seq<string>, k: nat)
    requires k < |lines|
    ensures var line := lines[k];
            var code, heading, rule, quote := FenceOf(line).Some?, g.heading(line).Some?, g.isRule(line), QuoteOf(line).Some?;
            var table := g.isTableRow(line) && k + 1 < |lines| && g.isTableRule(lines[k + 1]);
            var marker := L.MarkerOf(line).Some?;
            && (KindOf(g, lines, k) == IsCode <==> code)
            && (KindOf(g, lines, k) == IsHeading <==> heading && !code)
            && (KindOf(g, lines, k) == IsRule <==> rule && !code && !heading)
            && (KindOf(g, lines, k) == IsQuote <==> quote && !code && !heading && !rule)
            && (KindOf(g, lines, k) == IsTable <==> table && !code && !heading && !rule && !quote)
            && (KindOf(g, lines, k) == IsList <==> marker && !code && !heading && !rule && !quote && !table)
            && (KindOf(g, lines, k) == IsParagraph <==> !code && !heading && !rule && !quote && !table && !marker)
  {
    hide FenceOf, QuoteOf, L.MarkerOf;
  }

  const MARKED_ROW := "- a | b"

  lemma MarkedRowMarker()
    ensures L.MarkerOf(MARKED_ROW) == Some(L.Marker(0, false, "a | b"))
  {
    assert MARKED_ROW == "" + ("-" + (" " + "a | b"));
    assert MarkedAs(MARKED_ROW, L.Marker(0, false, "a | b"), "", "-", " ");
    hide L.MarkerOf, MarkedAs;
    MarkerExactly(MARKED_ROW, L.Marker(0, false, "a | b"));
  }

  lemma MarkedRowChars()
    ensures var s := MARKED_ROW; |s| == 7 && s[0] == '-' && s[2] == 'a' && s[4] == '|' && s[0..] == s
    ensures Margin(MARKED_ROW) == 0 && !IsSpace('-') && !IsSpace('a')
  {
  }

  lemma MarkedRowIsNoOther()
    ensures FenceOf(MARKED_ROW) == None && QuoteOf(MARKED_ROW) == None && !Blank(MARKED_ROW)
  {
    MarkedRowChars();
    BlankIsAllSpace(MARKED_ROW);
    hide Blank, Margin, IsSpace;
    assert MARKED_ROW[..3][0] == '-';
  }

  lemma MarkedRowIsTableRow()
    ensures !IsRuleLine(MARKED_ROW) && HeadingOf(MARKED_ROW) == None
    ensures L.SingleLine(MARKED_ROW) ==> IsTableRowLine(MARKED_ROW)
  {
    MarkedRowChars();
    hide Margin, IsSpace, Trim, CountOf, Indent, TextEnd, L.SingleLine;
    assert RunOf(MARKED_ROW, '#') == 0;
  }

  lemma MarkedRowSingle()
    ensures L.SingleLine(MARKED_ROW)
  {
  }

  lemma TwoDashes(rest: string)
    requires rest != "" ==> rest[0] == '|'
    ensures var s := "--" + rest;
            && SkipColon(SkipSpace(s)) == s && RunOf(s, '-') == 2 && s[2..] == rest && SkipSpace(SkipColon(rest)) == rest
  {
    var s := "--" + rest;
    assert s == Repeated('-', 2) + rest;
    RunExact('-', 2, rest);
    assert Indent(s) == 0 && Indent(rest) == 0;
    assert s[0..] == s && rest[0..] == rest;
  }

  lemma TableRuleSample()
    ensures IsTableRuleLine("--|--")
  {
    TwoDashes("");
    TwoDashes("|--");
    assert "--" + "" == "--" && "--" + "|--" == "--|--" && "|--"[1..] == "--";
    hide SkipColon, SkipSpace, RunOf;
    assert IsRuleCells("--");
    assert IsRuleCells("--|--");
    assert Margin("--|--") == 0;
  }

  /** A list marker that is also a table row ends a paragraph, and then opens a table, not a list. */
  lemma MarkerOpensTable()
    ensures var lines := ["text", MARKED_ROW, "--|--"];
            && L.MarkerOf(lines[1]).Some? && KindOf(Docs(), lines, 1) == IsTable && !GoesOn(Docs(), lines, 1)
  {
    MarkedRowMarker();
    MarkedRowIsNoOther();
    MarkedRowIsTableRow();
    MarkedRowSingle();
    TableRuleSample();
    hide FenceOf, QuoteOf, IsRuleLine, HeadingOf, IsTableRowLine, IsTableRuleLine, L.MarkerOf, Blank;
  }

  // ---------- Contents ----------

  /** Lines joined into a text can be cut out of it again. */
  lemma JoinSplits(lines: seq<string>)
    requires lines != [] && forall k :: 0 <= k < |lines| ==> '\n' !in lines[k]
    ensures var c := F.CutAll(Join(lines), "\n"); c.frames + [c.rest] == lines
  {
    hide F.CutAll, Join, F.Joined;
    var front, last := lines[..|lines| - 1], lines[|lines| - 1];
    assert lines == front + [last];
    JoinIsJoined(front, last);
    F.LinesCut(front, last);
  }

  lemma {:induction false} JoinIsJoined(front: seq<string>, last: string)
    ensures Join(front + [last]) == F.Joined(front, last, "\n")
  {
    if front != [] {
      var shorter := front[..|front| - 1];
      assert (front + [last])[..|front|] == front && front == shorter + [front[|front| - 1]];
      JoinIsJoined(shorter, front[|front| - 1]);
      JoinedMore(shorter, front[|front| - 1], last);
    } else {
      assert front + [last] == [last];
    }
  }

  lemma {:induction false} JoinedMore(lines: seq<string>, x: string, y: string)
    ensures F.Joined(lines + [x], y, "\n") == F.Joined(lines, x, "\n") + "\n" + y
  {
    if lines == [] {
      assert [x][1..] == [] && lines + [x] == [x];
      assert F.Joined([], y, "\n") == y;
    } else {
      JoinedMore(lines[1..], x, y);
      assert (lines + [x])[1..] == lines[1..] + [x];
      var tail := F.Joined(lines[1..], x, "\n");
      assert lines[0] + "\n" + (tail + "\n" + y) == (lines[0] + "\n" + tail) + "\n" + y;
    }
  }

  lemma AlignedBy(a: string, t: string, b: string)
    requires AllSpace(a) && AllSpace(b) && t != "" && Bare(t)
    ensures var left, right := t[0] == ':', t[|t| - 1] == ':';
            AlignOf(a + t + b) == if left && right then Center else if right then Right else if left then Left else Unset
  {
    hide IsSpace, Trim;
    TrimOf(a, t, b);
  }

  /** Colons at both ends centre a column, one at the right or left aligns it there, none leaves it. */
  lemma AlignMarks(a: string, dashes: nat, b: string)
    requires AllSpace(a) && AllSpace(b) && dashes >= 1
    ensures var d := Repeated('-', dashes);
            && AlignOf(a + (":" + d + ":") + b) == Center && AlignOf(a + (d + ":") + b) == Right
            && AlignOf(a + (":" + d) + b) == Left && AlignOf(a + d + b) == Unset
  {
    var d := Repeated('-', dashes);
    assert !IsSpace(':') && !IsSpace('-');
    hide IsSpace, AlignOf, AllSpace;
    AlignedBy(a, ":" + d + ":", b);
    AlignedBy(a, d + ":", b);
    AlignedBy(a, ":" + d, b);
    AlignedBy(a, d, b);
  }
}
