/** The line tests of the documentation browser, and the blocks they make. */
module MarkdownGrammar {
  import opened Common
  import opened JsText
  import opened MarkdownBlocks
  import L = MarkdownLists

  /** How many leading characters are `c`. */
  function RunOf(s: string, c: char): (n: nat)
    ensures n <= |s| && (forall k :: 0 <= k < n ==> s[k] == c) && (n < |s| ==> s[n] != c)
  {
    if s == "" || s[0] != c then 0 else 1 + RunOf(s[1..], c)
  }

  // ---------- Headings ----------

  /** `\s*#*$` */
  predicate Closing(s: string) {
    var rest := s[Indent(s)..];
    RunOf(rest, '#') == |rest|
  }

  lemma ClosingNothing(s: string)
    ensures Closing(s[|s|..])
  {
    assert s[|s|..] == "";
  }

  /** Where the shortest text from `n` before a closing ends. */
  function TextEndFrom(s: string, n: nat): (m: nat)
    requires n <= |s|
    ensures n <= m <= |s| && Closing(s[m..]) && forall k :: n <= k < m ==> !Closing(s[k..])
    decreases |s| - n
  {
    ClosingNothing(s);
    if Closing(s[n..]) then n else TextEndFrom(s, n + 1)
  }

  function TextEnd(s: string): (n: nat)
    ensures n <= |s|
  {
    TextEndFrom(s, 0)
  }

  /** What follows the hashes, and what follows the white space after them. */
  function AfterHashes(line: string): string {
    line[Margin(line) + RunOf(line[Margin(line)..], '#')..]
  }

  function HeadingBody(line: string): string {
    AfterHashes(line)[Indent(AfterHashes(line))..]
  }

  /** `^ {0,3}(#{1,6})\s+(.*?)\s*#*$`: the level and the text. */
  function HeadingOf(line: string): Option<(nat, string)> {
    var level := RunOf(line[Margin(line)..], '#');
    var body := HeadingBody(line);
    if Margin(line) <= 3 && 1 <= level <= 6 && Indent(AfterHashes(line)) >= 1 && L.SingleLine(body[..TextEnd(body)]) then
      Some((level, body[..TextEnd(body)]))
    else None
  }

  // ---------- Rules ----------

  function CountOf(s: string, c: char): nat {
    if s == "" then 0 else (if s[0] == c then 1 else 0) + CountOf(s[1..], c)
  }

  /** Three or more of one mark and nothing else but white space, after at most three spaces. */
  predicate IsRuleLine(line: string) {
    var margin := Margin(line);
    var rest := line[margin..];
    && margin <= 3 && rest != "" && rest[0] in {'-', '*', '_'}
    && (forall k :: 0 <= k < |rest| ==> rest[k] == rest[0] || IsSpace(rest[k]))
    && CountOf(rest, rest[0]) >= 3
    && |Trim(line)| >= 3
  }

  // ---------- Tables ----------

  /** `^ {0,3}\|?(.+\|.+)\|?$`: some pipe is neither the first nor the last character of a single line. */
  predicate IsTableRowLine(line: string) {
    L.SingleLine(line) && exists i :: 1 <= i < |line| - 1 && line[i] == '|'
  }

  function SkipColon(s: string): (t: string)
    ensures |t| <= |s|
  {
    if s != "" && s[0] == ':' then s[1..] else s
  }

  function SkipSpace(s: string): (t: string)
    ensures |t| <= |s|
  {
    s[Indent(s)..]
  }

  /** `\s*:?-{2,}:?\s*(\|\s*:?-{2,}:?\s*)*\|?$` */
  predicate IsRuleCells(s: string)
    decreases |s|
  {
    var a := SkipColon(SkipSpace(s));
    var dashes := RunOf(a, '-');
    var b := SkipSpace(SkipColon(a[dashes..]));
    dashes >= 2 && (b == "" || b == "|" || (b[0] == '|' && IsRuleCells(b[1..])))
  }

  predicate IsTableRuleLine(line: string) {
    var margin := Margin(line);
    if margin <= 3 && margin < |line| && line[margin] == '|' then IsRuleCells(line[margin + 1..]) else IsRuleCells(line)
  }

  function Docs(): Grammar {
    Grammar(HeadingOf, IsRuleLine, IsTableRowLine, IsTableRuleLine)
  }

  /** The blocks of a page, by the browser's own line tests. */
  method CollectDocs(lines: seq<string>) returns (blocks: seq<Block>)
    ensures Collected(Docs(), lines, blocks)
    ensures forall other :: Collected(Docs(), lines, other) ==> other == blocks
  {
    blocks := CollectBlocks(Docs(), lines);
    forall other | Collected(Docs(), lines, other)
      ensures other == blocks
    {
      BlocksAreDetermined(Docs(), lines, other, blocks);
    }
  }
}
