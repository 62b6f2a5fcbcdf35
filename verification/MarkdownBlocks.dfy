/** Collecting lines of Markdown into blocks. */
module MarkdownBlocks {
  import opened Common
  import opened JsText
  import L = MarkdownLists
  import T = MarkdownTables

  datatype Align = Center | Right | Left | Unset

  datatype Block =
    | Code(lang: string, code: string)
    | Heading(level: nat, text: string)
    | Rule
    | Quote(inner: seq<Block>)
    | Table(header: seq<string>, aligns: seq<Align>, rows: seq<seq<string>>)
    | List(node: L.Node)
    | Paragraph(text: string)

  // ---------- Line tests ----------

  /** The tests left open: whatever they accept, collecting keeps its promises. */
  datatype Grammar = Grammar(
    heading: string -> Option<(nat, string)>,
    isRule: string -> bool,
    isTableRow: string -> bool,
    isTableRule: string -> bool)

  /** How many leading characters are the space character. */
  function Margin(line: string): (n: nat)
    ensures n <= |line|
  {
    if line == "" || line[0] != ' ' then 0 else 1 + Margin(line[1..])
  }

  /** `^ {0,3}(```|~~~)(.*)$`: the fence and what follows it. */
  function FenceOf(line: string): Option<(string, string)> {
    var n := Margin(line);
    var rest := line[n..];
    if n <= 3 && |rest| >= 3 && rest[..3] in {"```", "~~~"} && L.SingleLine(rest[3..]) then
      Some((rest[..3], rest[3..]))
    else None
  }

  /** `^ {0,3}>\s?(.*)$`: the quoted text, which is shorter than the line. */
  function QuoteOf(line: string): (q: Option<string>)
    ensures q.Some? ==> |q.value| < |line|
    ensures q.Some? ==> !Blank(line)
  {
    var n := Margin(line);
    if n <= 3 && n < |line| && line[n] == '>' then
      var rest := line[n + 1..];
      var text := if rest != "" && IsSpace(rest[0]) then rest[1..] else rest;
      BlankIsAllSpace(line);
      if L.SingleLine(text) then Some(text) else None
    else None
  }

  /** `^\s+\S` */
  predicate Indented(line: string) {
    0 < Indent(line) < |line|
  }

  predicate ListLine(line: string) {
    L.MarkerOf(line).Some? || Indented(line)
  }

  lemma ListLineNotBlank(line: string)
    requires ListLine(line)
    ensures !Blank(line)
  {
    BlankIsAllSpace(line);
    assert Indent(line) < |line|;
  }

  predicate TableLine(line: string) {
    '|' in line && !Blank(line)
  }

  /** Lines that end a paragraph by starting another block. */
  predicate Interrupts(g: Grammar, line: string) {
    || FenceOf(line).Some? || g.heading(line).Some? || QuoteOf(line).Some? || L.MarkerOf(line).Some?
    || g.isRule(line)
  }

  // ---------- Block contents ----------

  function Join(lines: seq<string>): string {
    if lines == [] then ""
    else if |lines| == 1 then lines[0]
    else Join(lines[..|lines| - 1]) + "\n" + lines[|lines| - 1]
  }

  function Unquoted(line: string): string {
    var q := QuoteOf(line);
    if q.Some? then q.value else line
  }

  function UnquotedLines(lines: seq<string>): seq<string> {
    seq(|lines|, i requires 0 <= i < |lines| => Unquoted(lines[i]))
  }

  function ListLines(lines: seq<string>): seq<string> {
    if lines == [] then []
    else
      var last := lines[|lines| - 1];
      ListLines(lines[..|lines| - 1]) + if ListLine(last) then [last] else []
  }

  function AlignOf(cell: string): Align {
    var t := Trim(cell);
    if t == "" then Unset
    else if t[0] == ':' && t[|t| - 1] == ':' then Center
    else if t[|t| - 1] == ':' then Right
    else if t[0] == ':' then Left
    else Unset
  }

  function Aligns(cells: seq<string>): seq<Align> {
    seq(|cells|, i requires 0 <= i < |cells| => AlignOf(cells[i]))
  }

  function Rows(lines: seq<string>): seq<seq<string>> {
    seq(|lines|, i requires 0 <= i < |lines| => T.Cells(lines[i]))
  }

  // ---------- What a block is ----------

  datatype Span = Span(lo: nat, hi: nat)

  /** Lines `lo..hi` are a longest run of lines that pass `test`. */
  ghost predicate Longest(lines: seq<string>, lo: nat, hi: nat, test: string -> bool) {
    && lo <= hi <= |lines|
    && (forall k :: lo <= k < hi ==> test(lines[k]))
    && (hi < |lines| ==> !test(lines[hi]))
  }

  datatype Kind = IsCode | IsHeading | IsRule | IsQuote | IsTable | IsList | IsParagraph

  /** The first line decides what a block is; the order of the tests matters. */
  function KindOf(g: Grammar, lines: seq<string>, lo: nat): Kind
    requires lo < |lines|
  {
    var line := lines[lo];
    if FenceOf(line).Some? then IsCode
    else if g.heading(line).Some? then IsHeading
    else if g.isRule(line) then IsRule
    else if QuoteOf(line).Some? then IsQuote
    else if g.isTableRow(line) && lo + 1 < |lines| && g.isTableRule(lines[lo + 1]) then IsTable
    else if L.MarkerOf(line).Some? then IsList
    else IsParagraph
  }

  /** Line `k` goes on with a paragraph: it is not blank, and standing alone it would be a paragraph, or a table that
      no list marker opens. */
  predicate GoesOn(g: Grammar, lines: seq<string>, k: nat)
    requires k < |lines|
  {
    !Blank(lines[k]) && KindOf(g, lines, k) in {IsParagraph, IsTable} && L.MarkerOf(lines[k]).None?
  }

  /** A paragraph reaches as far as lines go on with it. */
  ghost predicate ParagraphReaches(g: Grammar, lines: seq<string>, lo: nat, hi: nat) {
    && lo < hi <= |lines|
    && (forall k :: lo < k < hi ==> GoesOn(g, lines, k))
    && (hi < |lines| ==> !GoesOn(g, lines, hi))
  }

  lemma GoesOnUnlessInterrupted(g: Grammar, lines: seq<string>, k: nat)
    requires k < |lines|
    ensures GoesOn(g, lines, k) <==> !Blank(lines[k]) && !Interrupts(g, lines[k])
  {
    hide FenceOf, QuoteOf, L.MarkerOf, Blank;
  }

  /** What ends a paragraph is blank, starts a block of another kind, or is a list marker that opens a table. */
  lemma ParagraphEnds(g: Grammar, lines: seq<string>, lo: nat, hi: nat)
    requires ParagraphReaches(g, lines, lo, hi) && hi < |lines|
    ensures Blank(lines[hi]) || KindOf(g, lines, hi) in {IsCode, IsHeading, IsRule, IsQuote, IsList}
            || (KindOf(g, lines, hi) == IsTable && L.MarkerOf(lines[hi]).Some?)
  {
    hide FenceOf, QuoteOf, L.MarkerOf, Blank;
  }

  function Inside(fence: string): string -> bool {
    (line: string) => !StartsWith(line, fence)
  }

  ghost predicate IsCodeBlock(lines: seq<string>, s: Span, block: Block)
    requires s.lo < |lines| && FenceOf(lines[s.lo]).Some?
  {
    var (fence, lang) := FenceOf(lines[s.lo]).value;
    var from := s.lo + 1;
    exists close: nat :: Longest(lines, from, close, Inside(fence))
                      && s.hi == (if close < |lines| then close + 1 else close)
                      && block == Code(Trim(lang), Join(lines[from..close]))
  }

  ghost predicate IsTableBlock(lines: seq<string>, s: Span, block: Block)
    requires s.lo + 1 < |lines|
  {
    && Longest(lines, s.lo + 2, s.hi, (l: string) => '|' in l && !Blank(l))
    && block == Table(T.Cells(lines[s.lo]), Aligns(T.Cells(lines[s.lo + 1])), Rows(lines[s.lo + 2..s.hi]))
  }

  ghost predicate OnlyList(lines: seq<string>, lo: nat, hi: nat) {
    lo <= hi <= |lines| && forall k :: lo <= k < hi ==> ListLine(lines[k]) || Blank(lines[k])
  }

  /** No list line follows, however many blank lines do. */
  ghost predicate ListEnds(lines: seq<string>, hi: nat) {
    exists stop: nat :: Longest(lines, hi, stop, Blank) && (stop < |lines| ==> !ListLine(lines[stop]))
  }

  /** A list runs to its last item or indented line, over blank lines but never to a blank line. */
  ghost predicate IsListBlock(lines: seq<string>, s: Span, block: Block)
    requires s.lo < |lines|
  {
    && s.lo < s.hi && OnlyList(lines, s.lo, s.hi) && ListLine(lines[s.hi - 1]) && ListEnds(lines, s.hi)
    && block.List? && L.Stands(block.node, ListLines(lines[s.lo..s.hi]))
  }

  /** `block` is what the lines of span `s` stand for. */
  ghost predicate Describes(g: Grammar, lines: seq<string>, s: Span, block: Block)
    requires s.lo < |lines|
    decreases block, 0
  {
    var line := lines[s.lo];
    match KindOf(g, lines, s.lo)
    case IsCode => IsCodeBlock(lines, s, block)
    case IsHeading => s.hi == s.lo + 1 && block == Heading(g.heading(line).value.0, g.heading(line).value.1)
    case IsRule => s.hi == s.lo + 1 && block == Rule
    case IsQuote =>
      && Longest(lines, s.lo, s.hi, (l: string) => !Blank(l))
      && block.Quote? && Collected(g, UnquotedLines(lines[s.lo..s.hi]), block.inner)
    case IsTable => IsTableBlock(lines, s, block)
    case IsList => IsListBlock(lines, s, block)
    case IsParagraph =>
      && ParagraphReaches(g, lines, s.lo, s.hi)
      && block == Paragraph(Join(lines[s.lo..s.hi]))
  }

  /** The spans are in order and disjoint, and every non-blank line before `upto` lies in one. */
  ghost predicate Laid(lines: seq<string>, spans: seq<Span>, upto: nat) {
    && (forall i :: 0 <= i < |spans| ==> spans[i].lo < spans[i].hi <= |lines| && spans[i].hi <= upto)
    && (forall i :: 0 <= i < |spans| ==> !Blank(lines[spans[i].lo]))
    && (forall i, j :: 0 <= i < j < |spans| ==> spans[i].hi <= spans[j].lo)
    && (forall k :: 0 <= k < |lines| && k < upto && !Blank(lines[k]) ==> Placed(spans, k))
  }

  ghost predicate Placed(spans: seq<Span>, k: nat) {
    exists i :: 0 <= i < |spans| && spans[i].lo <= k < spans[i].hi
  }

  ghost predicate Tiled(g: Grammar, lines: seq<string>, spans: seq<Span>, blocks: seq<Block>, upto: nat)
    decreases blocks, 1
  {
    && Laid(lines, spans, upto)
    && |spans| == |blocks|
    && forall i :: 0 <= i < |blocks| ==> Describes(g, lines, spans[i], blocks[i])
  }

  /** `blocks` are the blocks of `lines`. */
  ghost predicate Collected(g: Grammar, lines: seq<string>, blocks: seq<Block>)
    decreases blocks, 2
  {
    exists spans :: Tiled(g, lines, spans, blocks, |lines|)
  }

  // ---------- Termination ----------

  function TotalLength(lines: seq<string>): nat {
    if lines == [] then 0 else |lines[0]| + TotalLength(lines[1..])
  }

  lemma {:induction false} UnquotedNoLonger(lines: seq<string>)
    ensures TotalLength(UnquotedLines(lines)) <= TotalLength(lines)
    ensures lines != [] && QuoteOf(lines[0]).Some? ==> TotalLength(UnquotedLines(lines)) < TotalLength(lines)
  {
    if lines != [] {
      UnquotedNoLonger(lines[1..]);
      assert UnquotedLines(lines)[1..] == UnquotedLines(lines[1..]);
    }
  }

  lemma {:induction false} PartNoLonger(lines: seq<string>, lo: nat, hi: nat)
    requires lo <= hi <= |lines|
    ensures TotalLength(lines[lo..hi]) <= TotalLength(lines)
    decreases |lines|
  {
    if lo < hi {
      if lo > 0 {
        PartNoLonger(lines[1..], lo - 1, hi - 1);
        assert lines[1..][lo - 1..hi - 1] == lines[lo..hi];
      } else {
        PartNoLonger(lines[1..], 0, hi - 1);
        assert lines[0..hi][1..] == lines[1..][0..hi - 1];
      }
    }
  }

  /** The lines inside a quote hold less text than the lines around it. */
  lemma QuoteShrinks(lines: seq<string>, lo: nat, hi: nat)
    requires lo < hi <= |lines| && QuoteOf(lines[lo]).Some?
    ensures TotalLength(UnquotedLines(lines[lo..hi])) < TotalLength(lines)
  {
    UnquotedNoLonger(lines[lo..hi]);
    PartNoLonger(lines, lo, hi);
  }

  // ---------- Collecting ----------

  method CollectCode(lines: seq<string>, lo: nat) returns (next: nat, block: Block)
    requires lo < |lines| && FenceOf(lines[lo]).Some?
    ensures lo < next <= |lines| + 1
    ensures IsCodeBlock(lines, Span(lo, if next <= |lines| then next else |lines|), block)
  {
    var fence := FenceOf(lines[lo]).value.0;
    var lang := Trim(FenceOf(lines[lo]).value.1);
    var code: seq<string> := [];
    var i := lo + 1;
    while i < |lines| && !StartsWith(lines[i], fence)
      invariant lo + 1 <= i <= |lines|
      invariant code == lines[lo + 1..i]
      invariant forall k :: lo + 1 <= k < i ==> !StartsWith(lines[k], fence)
    {
      code := code + [lines[i]];
      i := i + 1;
    }
    next, block := i + 1, Code(lang, Join(code));
    assert Longest(lines, lo + 1, i, Inside(fence));
  }

  method CollectQuoted(lines: seq<string>, lo: nat) returns (next: nat, quoted: seq<string>)
    requires lo < |lines| && QuoteOf(lines[lo]).Some?
    ensures lo < next <= |lines|
    ensures Longest(lines, lo, next, (l: string) => !Blank(l))
    ensures quoted == UnquotedLines(lines[lo..next])
  {
    hide Blank, QuoteOf;
    next, quoted := lo, [];
    while next < |lines| && (QuoteOf(lines[next]).Some? || (!Blank(lines[next]) && quoted != []))
      invariant lo <= next <= |lines|
      invariant forall k :: lo <= k < next ==> !Blank(lines[k])
      invariant quoted == UnquotedLines(lines[lo..next])
    {
      var m := QuoteOf(lines[next]);
      assert lines[lo..next + 1] == lines[lo..next] + [lines[next]];
      quoted := quoted + [if m.Some? then m.value else lines[next]];
      next := next + 1;
    }
  }

  method CollectTable(lines: seq<string>, lo: nat) returns (next: nat, block: Block)
    requires lo + 1 < |lines|
    ensures lo < next <= |lines|
    ensures IsTableBlock(lines, Span(lo, next), block)
  {
    hide T.Cells, Aligns, Blank;
    var header := T.SplitTableRow(lines[lo]);
    var marks := T.SplitTableRow(lines[lo + 1]);
    var rows: seq<seq<string>> := [];
    next := lo + 2;
    while next < |lines| && TableLine(lines[next])
      invariant lo + 2 <= next <= |lines|
      invariant forall k :: lo + 2 <= k < next ==> TableLine(lines[k])
      invariant rows == Rows(lines[lo + 2..next])
    {
      var row := T.SplitTableRow(lines[next]);
      assert lines[lo + 2..next + 1] == lines[lo + 2..next] + [lines[next]];
      rows := rows + [row];
      next := next + 1;
    }
    block := Table(header, Aligns(marks), rows);
  }

  lemma {:induction false} ListLinesOverBlanks(lines: seq<string>, lo: nat, mid: nat, hi: nat)
    requires lo <= mid <= hi <= |lines|
    requires forall k :: mid <= k < hi ==> Blank(lines[k])
    ensures ListLines(lines[lo..hi]) == ListLines(lines[lo..mid])
    decreases hi
  {
    hide ListLine, Blank;
    if mid < hi {
      ListLinesOverBlanks(lines, lo, mid, hi - 1);
      assert lines[lo..hi][..hi - lo - 1] == lines[lo..hi - 1];
      if ListLine(lines[hi - 1]) {
        ListLineNotBlank(lines[hi - 1]);
      }
    }
  }

  lemma KeepListLine(lines: seq<string>, lo: nat, hi: nat)
    requires lo <= hi < |lines| && ListLine(lines[hi])
    ensures ListLines(lines[lo..hi + 1]) == ListLines(lines[lo..hi]) + [lines[hi]]
  {
    hide ListLine;
    var part := lines[lo..hi + 1];
    assert part[..|part| - 1] == lines[lo..hi] && part[|part| - 1] == lines[hi];
  }

  method SkipBlanks(lines: seq<string>, from: nat) returns (j: nat)
    requires from < |lines| && Blank(lines[from])
    ensures from < j && Longest(lines, from, j, Blank)
  {
    j := from + 1;
    while j < |lines| && Blank(lines[j])
      invariant from < j <= |lines|
      invariant forall k :: from <= k < j ==> Blank(lines[k])
    {
      j := j + 1;
    }
  }

  /** What the scan has kept of the lines from `lo` up to `next`. */
  ghost predicate Scanned(lines: seq<string>, lo: nat, next: nat, kept: seq<string>) {
    OnlyList(lines, lo, next) && kept == ListLines(lines[lo..next])
  }

  lemma ScanStep(lines: seq<string>, lo: nat, next: nat, kept: seq<string>)
    requires Scanned(lines, lo, next, kept) && next < |lines| && ListLine(lines[next])
    ensures Scanned(lines, lo, next + 1, kept + [lines[next]])
  {
    hide ListLine, ListLines, Blank;
    KeepListLine(lines, lo, next);
  }

  lemma ScanOverBlanks(lines: seq<string>, lo: nat, next: nat, j: nat, kept: seq<string>)
    requires Scanned(lines, lo, next, kept) && Longest(lines, next, j, Blank)
    ensures Scanned(lines, lo, j, kept)
  {
    hide ListLine, ListLines, Blank;
    ListLinesOverBlanks(lines, lo, next, j);
  }

  lemma ScanStart(lines: seq<string>, lo: nat)
    requires lo <= |lines|
    ensures Scanned(lines, lo, lo, [])
  {
  }

  method ScanList(lines: seq<string>, lo: nat) returns (next: nat, kept: seq<string>)
    requires lo < |lines| && ListLine(lines[lo])
    ensures lo < next <= |lines| && ListLine(lines[next - 1]) && ListEnds(lines, next)
    ensures Scanned(lines, lo, next, kept)
  {
    hide ListLine, Blank, Scanned, Longest;
    kept := [];
    next := lo;
    ScanStart(lines, lo);
    while next < |lines|
      invariant lo <= next <= |lines| && Scanned(lines, lo, next, kept)
      invariant (next > lo && ListLine(lines[next - 1])) || (next < |lines| && ListLine(lines[next]))
    {
      var l := lines[next];
      if ListLine(l) {
        ScanStep(lines, lo, next, kept);
        kept := kept + [l];
        next := next + 1;
        continue;
      }
      if Blank(l) {
        var j := SkipBlanks(lines, next);
        if j < |lines| && ListLine(lines[j]) {
          ScanOverBlanks(lines, lo, next, j, kept);
          next := j;
          continue;
        }
        return;
      }
      NoBlanks(lines, next);
      return;
    }
    NoBlanks(lines, next);
  }

  lemma NoBlanks(lines: seq<string>, at: nat)
    requires at <= |lines| && (at < |lines| ==> !Blank(lines[at]))
    ensures Longest(lines, at, at, Blank)
  {
  }

  method CollectList(lines: seq<string>, lo: nat) returns (next: nat, block: Block)
    requires lo < |lines| && L.MarkerOf(lines[lo]).Some?
    ensures lo < next <= |lines|
    ensures IsListBlock(lines, Span(lo, next), block)
  {
    hide L.MarkerOf, Indented, Blank, ListEnds, L.Stands;
    var kept;
    next, kept := ScanList(lines, lo);
    var node := L.ParseListLines(kept);
    block := List(node);
  }

  method CollectParagraph(g: Grammar, lines: seq<string>, lo: nat) returns (next: nat, block: Block)
    requires lo < |lines|
    ensures lo < next <= |lines|
    ensures ParagraphReaches(g, lines, lo, next)
    ensures block == Paragraph(Join(lines[lo..next]))
  {
    hide Blank, Interrupts, Join, GoesOn;
    var text := [lines[lo]];
    next := lo + 1;
    while next < |lines| && !Blank(lines[next]) && !Interrupts(g, lines[next])
      invariant lo < next <= |lines|
      invariant forall k :: lo < k < next ==> GoesOn(g, lines, k)
      invariant text == lines[lo..next]
    {
      GoesOnUnlessInterrupted(g, lines, next);
      text := text + [lines[next]];
      next := next + 1;
    }
    if next < |lines| {
      GoesOnUnlessInterrupted(g, lines, next);
    }
    block := Paragraph(Join(text));
  }

  lemma BlankLinePassed(g: Grammar, lines: seq<string>, spans: seq<Span>, blocks: seq<Block>, i: nat)
    requires i < |lines| && Tiled(g, lines, spans, blocks, i) && Blank(lines[i])
    ensures Tiled(g, lines, spans, blocks, i + 1)
  {
  }

  lemma BlockAdded(
    g: Grammar, lines: seq<string>, spans: seq<Span>, blocks: seq<Block>, i: nat, next: nat, s: Span, block: Block)
    requires i < |lines| && Tiled(g, lines, spans, blocks, i) && !Blank(lines[i])
    requires i < next && s == Span(i, if next <= |lines| then next else |lines|)
    requires Describes(g, lines, s, block)
    ensures Tiled(g, lines, spans + [s], blocks + [block], next)
  {
    hide Describes, Blank;
    var more := spans + [s];
    forall k | 0 <= k < |lines| && k < next && !Blank(lines[k])
      ensures Placed(more, k)
    {
      if k < i {
        assert Placed(spans, k);
        var j :| 0 <= j < |spans| && spans[j].lo <= k < spans[j].hi;
        assert more[j] == spans[j];
      } else {
        assert more[|spans|] == s;
      }
    }
  }

  method CollectBlocks(g: Grammar, lines: seq<string>) returns (blocks: seq<Block>)
    ensures Collected(g, lines, blocks)
    decreases TotalLength(lines), 1
  {
    blocks := [];
    var i := 0;
    ghost var spans: seq<Span> := [];
    while i < |lines|
      invariant Tiled(g, lines, spans, blocks, i)
      decreases |lines| - i
    {
      var line := lines[i];
      if Blank(line) {
        BlankLinePassed(g, lines, spans, blocks, i);
        i := i + 1;
      } else {
        var next, block := CollectBlock(g, lines, i);
        ghost var s := Span(i, if next <= |lines| then next else |lines|);
        BlockAdded(g, lines, spans, blocks, i, next, s, block);
        blocks, spans, i := blocks + [block], spans + [s], next;
      }
    }
    TiledToEnd(g, lines, spans, blocks, i);
  }

  lemma TiledToEnd(g: Grammar, lines: seq<string>, spans: seq<Span>, blocks: seq<Block>, upto: nat)
    requires Tiled(g, lines, spans, blocks, upto) && upto >= |lines|
    ensures Collected(g, lines, blocks)
  {
    assert Tiled(g, lines, spans, blocks, |lines|);
  }

  method CollectBlock(g: Grammar, lines: seq<string>, lo: nat) returns (next: nat, block: Block)
    requires lo < |lines| && !Blank(lines[lo])
    ensures lo < next
    ensures Describes(g, lines, Span(lo, if next <= |lines| then next else |lines|), block)
    decreases TotalLength(lines), 0
  {
    var line := lines[lo];
    next := lo + 1;
    if FenceOf(line).Some? {
      next, block := CollectCode(lines, lo);
    } else if g.heading(line).Some? {
      block := Heading(g.heading(line).value.0, g.heading(line).value.1);
    } else if g.isRule(line) {
      block := Rule;
    } else if QuoteOf(line).Some? {
      var quoted;
      next, quoted := CollectQuoted(lines, lo);
      QuoteShrinks(lines, lo, next);
      var inner := CollectBlocks(g, quoted);
      block := Quote(inner);
    } else if g.isTableRow(line) && lo + 1 < |lines| && g.isTableRule(lines[lo + 1]) {
      next, block := CollectTable(lines, lo);
    } else if L.MarkerOf(line).Some? {
      next, block := CollectList(lines, lo);
    } else {
      next, block := CollectParagraph(g, lines, lo);
    }
  }

  // ---------- The lines determine the blocks ----------

  lemma SameRun(lines: seq<string>, lo: nat, hi: nat, hi': nat, test: string -> bool)
    requires Longest(lines, lo, hi, test) && Longest(lines, lo, hi', test)
    ensures hi == hi'
  {
  }

  lemma SameParagraph(g: Grammar, lines: seq<string>, lo: nat, hi: nat, hi': nat)
    requires ParagraphReaches(g, lines, lo, hi) && ParagraphReaches(g, lines, lo, hi')
    ensures hi == hi'
  {
    hide GoesOn;
  }

  lemma ListReachesNoFurther(lines: seq<string>, lo: nat, hi: nat, hi': nat)
    requires lo < hi && ListEnds(lines, hi)
    requires lo < hi' && OnlyList(lines, lo, hi') && ListLine(lines[hi' - 1])
    ensures hi' <= hi
  {
    ListLineNotBlank(lines[hi' - 1]);
    hide ListLine, Blank;
    var stop: nat :| Longest(lines, hi, stop, Blank) && (stop < |lines| ==> !ListLine(lines[stop]));
    assert stop < hi' ==> stop < hi;
  }

  lemma SameCode(lines: seq<string>, s: Span, s': Span, b: Block, b': Block)
    requires s.lo == s'.lo < |lines| && FenceOf(lines[s.lo]).Some?
    requires IsCodeBlock(lines, s, b) && IsCodeBlock(lines, s', b')
    ensures s == s' && b == b'
  {
    var (fence, lang) := FenceOf(lines[s.lo]).value;
    var from := s.lo + 1;
    var c: nat :| Longest(lines, from, c, Inside(fence)) && s.hi == (if c < |lines| then c + 1 else c)
               && b == Code(Trim(lang), Join(lines[from..c]));
    var c': nat :| Longest(lines, from, c', Inside(fence)) && s'.hi == (if c' < |lines| then c' + 1 else c')
                && b' == Code(Trim(lang), Join(lines[from..c']));
    SameRun(lines, from, c, c', Inside(fence));
  }

  lemma SameList(lines: seq<string>, s: Span, s': Span, b: Block, b': Block)
    requires s.lo == s'.lo < |lines|
    requires IsListBlock(lines, s, b) && IsListBlock(lines, s', b')
    ensures s == s' && b == b'
  {
    hide L.Stands, ListLine, Blank, ListEnds, ListLines;
    ListReachesNoFurther(lines, s.lo, s.hi, s'.hi);
    ListReachesNoFurther(lines, s.lo, s'.hi, s.hi);
    L.TreeIsDetermined(ListLines(lines[s.lo..s.hi]), b.node, b'.node);
  }

  /** A block is fixed by where it starts. */
  lemma {:induction false} SameBlock(g: Grammar, lines: seq<string>, s: Span, s': Span, b: Block, b': Block)
    requires s.lo == s'.lo < |lines|
    requires Describes(g, lines, s, b) && Describes(g, lines, s', b')
    ensures s == s' && b == b'
    decreases b, 0
  {
    hide FenceOf, QuoteOf, L.MarkerOf, Blank, Interrupts, Join, UnquotedLines, IsListBlock, Collected;
    match KindOf(g, lines, s.lo) {
      case IsCode => SameCode(lines, s, s', b, b');
      case IsHeading =>
      case IsRule =>
      case IsQuote =>
        SameRun(lines, s.lo, s.hi, s'.hi, (l: string) => !Blank(l));
        BlocksAreDetermined(g, UnquotedLines(lines[s.lo..s.hi]), b.inner, b'.inner);
      case IsTable => SameRun(lines, s.lo + 2, s.hi, s'.hi, (l: string) => '|' in l && !Blank(l));
      case IsList => SameList(lines, s, s', b, b');
      case IsParagraph =>
        SameParagraph(g, lines, s.lo, s.hi, s'.hi);
    }
  }

  /** Where the first `i` spans end. */
  ghost function EndOf(spans: seq<Span>, i: nat): nat
    requires i <= |spans|
  {
    if i == 0 then 0 else spans[i - 1].hi
  }

  ghost predicate InOrder(spans: seq<Span>) {
    && (forall i :: 0 <= i < |spans| ==> spans[i].lo < spans[i].hi)
    && (forall i, j :: 0 <= i < j < |spans| ==> spans[i].hi <= spans[j].lo)
  }

  lemma NotPlacedBetween(spans: seq<Span>, i: nat, k: nat)
    requires InOrder(spans) && i <= |spans| && EndOf(spans, i) <= k && (i < |spans| ==> k < spans[i].lo)
    ensures !Placed(spans, k)
  {
    forall j | 0 <= j < |spans|
      ensures !(spans[j].lo <= k < spans[j].hi)
    {
      if j < i {
        assert spans[j].hi <= spans[i - 1].hi;
      } else {
        assert spans[i].lo <= spans[j].lo;
      }
    }
  }

  /** Only blank lines lie between one span and the next, and after the last. */
  lemma GapsAreBlank(lines: seq<string>, spans: seq<Span>, i: nat)
    requires Laid(lines, spans, |lines|) && i <= |spans|
    ensures forall k :: EndOf(spans, i) <= k < |lines| && (i < |spans| ==> k < spans[i].lo) ==> Blank(lines[k])
  {
    hide Blank;
    assert InOrder(spans);
    forall k | EndOf(spans, i) <= k < |lines| && (i < |spans| ==> k < spans[i].lo)
      ensures Blank(lines[k])
    {
      NotPlacedBetween(spans, i, k);
    }
  }

  lemma StartsAfterEnd(lines: seq<string>, spans: seq<Span>, i: nat)
    requires Laid(lines, spans, |lines|) && i < |spans|
    ensures EndOf(spans, i) <= spans[i].lo < |lines| && !Blank(lines[spans[i].lo])
  {
    hide Blank;
    assert i > 0 ==> spans[i - 1].hi <= spans[i].lo;
  }

  /** Where one block ends decides whether another follows, and where it starts. */
  lemma SameStart(lines: seq<string>, spans: seq<Span>, spans': seq<Span>, i: nat)
    requires Laid(lines, spans, |lines|) && Laid(lines, spans', |lines|)
    requires i <= |spans| && i <= |spans'| && EndOf(spans, i) == EndOf(spans', i)
    ensures i < |spans| <==> i < |spans'|
    ensures i < |spans| ==> spans[i].lo == spans'[i].lo
  {
    GapsAreBlank(lines, spans, i);
    GapsAreBlank(lines, spans', i);
    hide Blank, Laid;
    if i < |spans| {
      StartsAfterEnd(lines, spans, i);
    }
    if i < |spans'| {
      StartsAfterEnd(lines, spans', i);
    }
  }

  lemma EndOfPrefix(spans: seq<Span>, spans': seq<Span>, i: nat)
    requires i <= |spans| && i <= |spans'| && spans[..i] == spans'[..i]
    ensures EndOf(spans, i) == EndOf(spans', i)
  {
    assert i > 0 ==> spans[..i][i - 1] == spans'[..i][i - 1];
  }

  lemma TiledAt(g: Grammar, lines: seq<string>, spans: seq<Span>, bs: seq<Block>, i: nat)
    requires Tiled(g, lines, spans, bs, |lines|) && i < |bs|
    ensures i < |spans| && spans[i].lo < |lines| && Describes(g, lines, spans[i], bs[i])
  {
    hide Describes, Blank;
  }

  lemma TiledIsLaid(g: Grammar, lines: seq<string>, spans: seq<Span>, bs: seq<Block>)
    requires Tiled(g, lines, spans, bs, |lines|)
    ensures Laid(lines, spans, |lines|) && |spans| == |bs|
  {
    hide Describes, Laid;
  }

  lemma SamePush<T>(a: seq<T>, b: seq<T>, i: nat)
    requires i < |a| && i < |b| && a[..i] == b[..i] && a[i] == b[i]
    ensures a[..i + 1] == b[..i + 1]
  {
    assert a[..i + 1] == a[..i] + [a[i]] && b[..i + 1] == b[..i] + [b[i]];
  }

  lemma {:induction false} SameSpans(
    g: Grammar, lines: seq<string>, spans: seq<Span>, spans': seq<Span>, bs: seq<Block>, bs': seq<Block>, i: nat)
    requires Tiled(g, lines, spans, bs, |lines|) && Tiled(g, lines, spans', bs', |lines|)
    requires i <= |bs| && i <= |bs'|
    ensures |spans| == |bs| && |spans'| == |bs'|
    ensures spans[..i] == spans'[..i] && bs[..i] == bs'[..i]
    decreases bs, 1, i
  {
    hide Tiled, Laid, Blank, Describes, EndOf;
    TiledIsLaid(g, lines, spans, bs);
    TiledIsLaid(g, lines, spans', bs');
    if i > 0 {
      var k := i - 1;
      SameSpans(g, lines, spans, spans', bs, bs', k);
      EndOfPrefix(spans, spans', k);
      SameStart(lines, spans, spans', k);
      TiledAt(g, lines, spans, bs, k);
      TiledAt(g, lines, spans', bs', k);
      SameBlock(g, lines, spans[k], spans'[k], bs[k], bs'[k]);
      SamePush(spans, spans', k);
      SamePush(bs, bs', k);
    }
  }

  /** Only one sequence of blocks is what the lines stand for. */
  lemma {:induction false} BlocksAreDetermined(g: Grammar, lines: seq<string>, bs: seq<Block>, bs': seq<Block>)
    requires Collected(g, lines, bs) && Collected(g, lines, bs')
    ensures bs == bs'
    decreases bs, 2
  {
    hide Tiled, Laid, Blank, Describes, EndOf;
    var spans: seq<Span> :| Tiled(g, lines, spans, bs, |lines|);
    var spans': seq<Span> :| Tiled(g, lines, spans', bs', |lines|);
    var n := if |bs| <= |bs'| then |bs| else |bs'|;
    TiledIsLaid(g, lines, spans, bs);
    TiledIsLaid(g, lines, spans', bs');
    SameSpans(g, lines, spans, spans', bs, bs', n);
    EndOfPrefix(spans, spans', n);
    SameStart(lines, spans, spans', n);
    assert bs[..n] == bs && bs'[..n] == bs';
  }
}
