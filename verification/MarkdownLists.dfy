/** Nesting list lines by their indent. */
module MarkdownLists {
  import opened Common
  import opened JsText

  // ---------- List markers ----------

  predicate IsLineTerminator(c: char) {
    c in {'\n', '\r', '\U{2028}', '\U{2029}'}
  }

  predicate SingleLine(s: string) {
    forall i :: 0 <= i < |s| ==> !IsLineTerminator(s[i])
  }

  /** What `.` does not match: the four line terminators. */
  lemma SingleLineExactly(s: string)
    ensures SingleLine(s) <==> '\n' !in s && '\r' !in s && '\U{2028}' !in s && '\U{2029}' !in s
  {
    if !SingleLine(s) {
      var i :| 0 <= i < |s| && IsLineTerminator(s[i]);
      assert s[i] in s;
    }
  }

  function DigitRun(s: string): (n: nat)
    ensures n <= |s|
  {
    if s == "" || !IsDigit(s[0]) then 0 else 1 + DigitRun(s[1..])
  }

  /** The length of a bullet or of a number with its dot or parenthesis; 0 when there is none. */
  function MarkerLength(s: string): (n: nat)
    ensures n <= |s|
  {
    if s == "" then 0
    else if s[0] in {'-', '*', '+'} then 1
    else
      var d := DigitRun(s);
      if 0 < d < |s| && s[d] in {'.', ')'} then d + 1 else 0
  }

  datatype Marker = Marker(indent: nat, ordered: bool, text: string)

  /** The line from its marker on, and from the end of its marker on. */
  function FromMarker(line: string): string {
    line[Indent(line)..]
  }

  function AfterMarker(line: string): string {
    FromMarker(line)[MarkerLength(FromMarker(line))..]
  }

  /** `^(\s*)([-*+]|\d+[.)])\s+(.*)$` */
  function MarkerOf(line: string): Option<Marker> {
    var mark, rest := FromMarker(line), AfterMarker(line);
    var text := rest[Indent(rest)..];
    if MarkerLength(mark) > 0 && Indent(rest) > 0 && SingleLine(text) then
      Some(Marker(Indent(line), IsDigit(mark[0]), text))
    else None
  }

  // ---------- The tree ----------

  /** An item and the list nested under it; `kind` is that list's type (true for ordered), unset while it is empty. */
  datatype Node = Node(num: nat, ordered: bool, text: string, kind: Option<bool>, items: seq<Node>)

  const ROOT := Node(0, false, "", None, [])

  /** One item of the outline: the item it is nested under (0 for the root), its own number, whether its marker is a number, its text. */
  datatype Entry = Entry(parent: nat, num: nat, ordered: bool, text: string)

  /** The items under `parent`, in pre-order. */
  function Preorder(parent: nat, items: seq<Node>): seq<Entry>
    decreases items
  {
    if items == [] then []
    else
      var last := items[|items| - 1];
      Preorder(parent, items[..|items| - 1]) + [Entry(parent, last.num, last.ordered, last.text)] + Preorder(last.num, last.items)
  }

  function Outline(root: Node): seq<Entry> {
    Preorder(root.num, root.items)
  }

  function LastItem(node: Node): (last: Node)
    requires node.items != []
    ensures last < node
  {
    node.items[|node.items| - 1]
  }

  /** How many items deep the newest item is. */
  function Depth(node: Node): nat {
    if node.items == [] then 0 else 1 + Depth(LastItem(node))
  }

  /** The item `d` levels down the path to the newest item. */
  function OnPath(node: Node, d: nat): Node
    requires d <= Depth(node)
  {
    if d == 0 then node else OnPath(LastItem(node), d - 1)
  }

  /** Append `item` to the list of the item `d` levels down the path. */
  function Insert(node: Node, d: nat, item: Node): Node
    requires d <= Depth(node)
    decreases d
  {
    if d == 0 then
      node.(kind := if node.kind.None? then Some(item.ordered) else node.kind, items := node.items + [item])
    else node.(items := node.items[|node.items| - 1 := Insert(LastItem(node), d - 1, item)])
  }

  /** Append to the text of the item `d` levels down the path. */
  function AddText(node: Node, d: nat, more: string): Node
    requires d <= Depth(node)
    decreases d
  {
    if d == 0 then node.(text := node.text + more)
    else node.(items := node.items[|node.items| - 1 := AddText(LastItem(node), d - 1, more)])
  }

  lemma {:induction false} InsertPath(node: Node, d: nat, item: Node)
    requires d <= Depth(node) && item.items == []
    ensures var t := Insert(node, d, item);
            && t.num == node.num && Depth(t) == d + 1 && OnPath(t, d + 1) == item
            && forall k :: 0 <= k <= d ==> OnPath(t, k).num == OnPath(node, k).num
    decreases d
  {
    if d > 0 {
      InsertPath(LastItem(node), d - 1, item);
      var t := Insert(node, d, item);
      assert LastItem(t) == Insert(LastItem(node), d - 1, item);
      forall k | 0 <= k <= d
        ensures OnPath(t, k).num == OnPath(node, k).num
      {
        if k > 0 {
          assert OnPath(LastItem(t), k - 1).num == OnPath(LastItem(node), k - 1).num;
        }
      }
    }
  }

  /** The items before the last one, and the last one's own entry. */
  function Earlier(node: Node): seq<Entry>
    requires node.items != []
  {
    Preorder(node.num, node.items[..|node.items| - 1])
  }

  function OwnEntry(node: Node): Entry
    requires node.items != []
  {
    var last := LastItem(node);
    Entry(node.num, last.num, last.ordered, last.text)
  }

  lemma OutlineSplit(node: Node)
    requires node.items != []
    ensures Outline(node) == Earlier(node) + [OwnEntry(node)] + Outline(LastItem(node))
  {
  }

  lemma InsertBelow(node: Node, d: nat, item: Node)
    requires 0 < d <= Depth(node)
    ensures var t := Insert(node, d, item);
            && t.items != [] && LastItem(t) == Insert(LastItem(node), d - 1, item)
            && Earlier(t) == Earlier(node)
            && SameItem(LastItem(t), LastItem(node)) && OwnEntry(t) == OwnEntry(node)
  {
    var t := Insert(node, d, item);
    assert t.items[..|t.items| - 1] == node.items[..|node.items| - 1];
  }

  /** The new item comes last in pre-order, under the item it was appended to. */
  lemma {:induction false} InsertOutline(node: Node, d: nat, item: Node)
    requires d <= Depth(node) && item.items == []
    ensures Outline(Insert(node, d, item)) == Outline(node) + [Entry(OnPath(node, d).num, item.num, item.ordered, item.text)]
    decreases d
  {
    var t := Insert(node, d, item);
    if d == 0 {
      assert t.items[..|t.items| - 1] == node.items;
      assert Preorder(item.num, item.items) == [] && OnPath(node, d) == node;
    } else {
      hide Outline, Earlier, OwnEntry, Insert;
      InsertOutline(LastItem(node), d - 1, item);
      InsertBelow(node, d, item);
      OutlineSplit(node);
      OutlineSplit(t);
      var entry := [Entry(OnPath(node, d).num, item.num, item.ordered, item.text)];
      var head := Earlier(node) + [OwnEntry(node)];
      assert head + (Outline(LastItem(node)) + entry) == head + Outline(LastItem(node)) + entry;
    }
  }

  /** Numbers go up along the pre-order. */
  predicate Increasing(outline: seq<Entry>) {
    forall i, j :: 0 <= i < j < |outline| ==> outline[i].num < outline[j].num
  }

  /** `outline` with text added to the item numbered `num`. */
  function Lengthened(outline: seq<Entry>, num: nat, more: string): seq<Entry> {
    seq(|outline|, i requires 0 <= i < |outline| =>
      if outline[i].num == num then outline[i].(text := outline[i].text + more) else outline[i])
  }

  lemma LengthenedElsewhere(outline: seq<Entry>, num: nat, more: string)
    requires forall i :: 0 <= i < |outline| ==> outline[i].num != num
    ensures Lengthened(outline, num, more) == outline
  {
  }

  predicate Lists(outline: seq<Entry>, num: nat) {
    exists i :: 0 <= i < |outline| && outline[i].num == num
  }

  lemma ListsBelow(head: seq<Entry>, own: Entry, tail: seq<Entry>, num: nat)
    requires own.num == num || Lists(tail, num)
    ensures Lists(head + [own] + tail, num)
  {
    var all := head + [own] + tail;
    assert all[|head|] == own;
    assert forall i :: 0 <= i < |tail| ==> all[|head| + 1 + i] == tail[i];
  }

  lemma {:induction false} PathIsListed(node: Node, d: nat)
    requires 1 <= d <= Depth(node)
    ensures Lists(Outline(node), OnPath(node, d).num)
    decreases d
  {
    var last := LastItem(node);
    assert OnPath(last, 0) == last && OwnEntry(node).num == last.num;
    OutlineSplit(node);
    hide Outline, Earlier, Lists, OwnEntry;
    if d > 1 {
      PathIsListed(last, d - 1);
    }
    ListsBelow(Earlier(node), OwnEntry(node), Outline(last), OnPath(node, d).num);
  }

  /** In an outline with rising numbers an item stands once: as the own entry ... */
  lemma LengthenedOwn(head: seq<Entry>, own: Entry, tail: seq<Entry>, more: string)
    requires Increasing(head + [own] + tail)
    ensures Lengthened(head + [own] + tail, own.num, more) == head + [own.(text := own.text + more)] + tail
  {
    var all := head + [own] + tail;
    assert forall i :: 0 <= i < |head| ==> all[i] == head[i];
    assert all[|head|] == own;
    assert forall i :: 0 <= i < |tail| ==> all[|head| + 1 + i] == tail[i];
  }

  lemma NumberedOnce(head: seq<Entry>, tail: seq<Entry>, num: nat)
    requires Increasing(head + tail) && Lists(tail, num)
    ensures Increasing(tail) && forall i :: 0 <= i < |head| ==> head[i].num != num
  {
    var all := head + tail;
    assert forall i :: 0 <= i < |head| ==> all[i] == head[i];
    assert forall i :: 0 <= i < |tail| ==> all[|head| + i] == tail[i];
    var k :| 0 <= k < |tail| && tail[k].num == num;
    assert all[|head| + k].num == num;
  }

  lemma LengthenedAfter(head: seq<Entry>, tail: seq<Entry>, num: nat, more: string)
    requires forall i :: 0 <= i < |head| ==> head[i].num != num
    ensures Lengthened(head + tail, num, more) == head + Lengthened(tail, num, more)
  {
  }

  /** ... or below it. */
  lemma LengthenedBelow(head: seq<Entry>, own: Entry, tail: seq<Entry>, num: nat, more: string)
    requires Increasing(head + [own] + tail) && Lists(tail, num)
    ensures Increasing(tail)
    ensures Lengthened(head + [own] + tail, num, more) == head + [own] + Lengthened(tail, num, more)
  {
    hide Increasing, Lists, Lengthened;
    NumberedOnce(head + [own], tail, num);
    LengthenedAfter(head + [own], tail, num, more);
  }

  lemma AddTextBelow(node: Node, d: nat, more: string)
    requires 0 < d <= Depth(node)
    ensures var t := AddText(node, d, more);
            && t.items != [] && LastItem(t) == AddText(LastItem(node), d - 1, more)
            && Earlier(t) == Earlier(node)
            && OwnEntry(t) == OwnEntry(node).(text := LastItem(t).text)
            && LastItem(t).text == (if d == 1 then LastItem(node).text + more else LastItem(node).text)
            && (d == 1 ==> Outline(LastItem(t)) == Outline(LastItem(node)))
  {
    var t := AddText(node, d, more);
    assert t.items[..|t.items| - 1] == node.items[..|node.items| - 1];
  }

  /** Adding text touches only the text of the one item. */
  lemma {:induction false} AddTextOutline(node: Node, d: nat, more: string)
    requires 1 <= d <= Depth(node) && Increasing(Outline(node))
    ensures Outline(AddText(node, d, more)) == Lengthened(Outline(node), OnPath(node, d).num, more)
    decreases d
  {
    var t, last, num := AddText(node, d, more), LastItem(node), OnPath(node, d).num;
    var head, own, tail := Earlier(node), OwnEntry(node), Outline(last);
    assert own.num == last.num && own.text == last.text && OnPath(last, 0) == last;
    hide Outline, Earlier, OwnEntry, AddText, Increasing, Lengthened, Lists;
    OutlineSplit(node);
    AddTextBelow(node, d, more);
    OutlineSplit(t);
    if d == 1 {
      LengthenedOwn(head, own, tail, more);
    } else {
      PathIsListed(last, d - 1);
      LengthenedBelow(head, own, tail, num, more);
      AddTextOutline(last, d - 1, more);
    }
  }

  lemma {:induction false} AddTextPath(node: Node, d: nat, more: string)
    requires d <= Depth(node)
    ensures var t := AddText(node, d, more);
            && t.num == node.num && Depth(t) == Depth(node)
            && forall k :: 0 <= k <= Depth(node) ==> OnPath(t, k).num == OnPath(node, k).num
    decreases d
  {
    var t := AddText(node, d, more);
    if d > 0 {
      var last := LastItem(node);
      AddTextPath(last, d - 1, more);
      assert LastItem(t) == AddText(last, d - 1, more);
      forall k | 0 <= k <= Depth(node)
        ensures OnPath(t, k).num == OnPath(node, k).num
      {
        if k > 0 {
          assert OnPath(LastItem(t), k - 1).num == OnPath(last, k - 1).num;
        }
      }
    } else if node.items != [] {
      assert LastItem(t) == LastItem(node);
    }
  }

  /** Every list in the tree takes its type from its first item. */
  predicate KindsFollowFirst(node: Node) {
    && node.kind == (if node.items == [] then None else Some(node.items[0].ordered))
    && forall i :: 0 <= i < |node.items| ==> KindsFollowFirst(node.items[i])
  }

  /** Equal but for the list underneath. */
  predicate SameItem(a: Node, b: Node) {
    a.num == b.num && a.ordered == b.ordered && a.text == b.text
  }

  lemma {:induction false} InsertKinds(node: Node, d: nat, item: Node)
    requires d <= Depth(node) && KindsFollowFirst(node) && KindsFollowFirst(item)
    ensures KindsFollowFirst(Insert(node, d, item)) && SameItem(Insert(node, d, item), node)
    decreases d
  {
    if d > 0 {
      InsertKinds(LastItem(node), d - 1, item);
    }
  }

  lemma {:induction false} AddTextKinds(node: Node, d: nat, more: string)
    requires d <= Depth(node) && KindsFollowFirst(node)
    ensures KindsFollowFirst(AddText(node, d, more)) && AddText(node, d, more).ordered == node.ordered
    ensures d > 0 ==> SameItem(AddText(node, d, more), node)
    decreases d
  {
    if d > 0 {
      AddTextKinds(LastItem(node), d - 1, more);
    }
  }

  // ---------- What the lines mean ----------

  /** The last of the earlier items (counted from 1) whose indent is below `x`; 0, the root, when there is none. */
  function Nearest(indents: seq<int>, x: int): (p: nat)
    ensures p <= |indents|
    ensures p > 0 ==> indents[p - 1] < x
    ensures forall m :: p <= m < |indents| ==> indents[m] >= x
  {
    var n := |indents|;
    if n == 0 || indents[n - 1] < x then n else Nearest(indents[..n - 1], x)
  }

  /** The indents of the marker lines and the outline they stand for. */
  datatype Listing = Listing(indents: seq<int>, entries: seq<Entry>)

  /** The meaning of a run of list lines, with no stack: both kinds of line look back over all the earlier markers. */
  function Listed(lines: seq<string>): Listing {
    if lines == [] then Listing([], [])
    else
      var before := Listed(lines[..|lines| - 1]);
      var line := lines[|lines| - 1];
      match MarkerOf(line)
      case Some(m) =>
        var parent := Nearest(before.indents, m.indent);
        Listing(before.indents + [m.indent],
                before.entries + [Entry(parent, |before.indents| + 1, m.ordered, m.text)])
      case None =>
        before.(entries := Lengthened(before.entries, Nearest(before.indents, Indent(line)), " " + Trim(line)))
  }

  /** The marker lines, in order. */
  function Markers(lines: seq<string>): seq<Marker> {
    if lines == [] then []
    else
      var m := MarkerOf(lines[|lines| - 1]);
      Markers(lines[..|lines| - 1]) + (if m.Some? then [m.value] else [])
  }

  /** Entry `j` is the item of marker line `j`: under the nearest earlier one with a smaller indent, its own text first. */
  ghost predicate ItemFor(markers: seq<Marker>, indents: seq<int>, entry: Entry, j: nat)
    requires |markers| == |indents| && j < |markers|
  {
    && indents[j] == markers[j].indent
    && entry.num == j + 1
    && entry.ordered == markers[j].ordered
    && markers[j].text <= entry.text
    && entry.parent == Nearest(indents[..j], markers[j].indent)
  }

  ghost predicate AllItems(markers: seq<Marker>, it: Listing) {
    && |it.indents| == |it.entries| == |markers|
    && forall j :: 0 <= j < |markers| ==> ItemFor(markers, it.indents, it.entries[j], j)
  }

  lemma AllItemsPush(markers: seq<Marker>, it: Listing, m: Marker)
    requires AllItems(markers, it)
    ensures var entry := Entry(Nearest(it.indents, m.indent), |it.indents| + 1, m.ordered, m.text);
            AllItems(markers + [m], Listing(it.indents + [m.indent], it.entries + [entry]))
  {
    hide Nearest;
    var n, indents := |markers|, it.indents + [m.indent];
    assert forall j :: 0 <= j <= n ==> indents[..j] == it.indents[..j];
    assert it.indents[..n] == it.indents;
    assert forall j :: 0 <= j < n ==> ItemFor(markers, it.indents, it.entries[j], j);
  }

  lemma AllItemsLengthened(markers: seq<Marker>, it: Listing, num: nat, more: string)
    requires AllItems(markers, it)
    ensures AllItems(markers, it.(entries := Lengthened(it.entries, num, more)))
  {
    hide Nearest;
    assert forall j :: 0 <= j < |markers| ==> ItemFor(markers, it.indents, it.entries[j], j);
  }

  lemma MarkersPush(lines: seq<string>, line: string)
    ensures Markers(lines + [line]) == Markers(lines) + if MarkerOf(line).Some? then [MarkerOf(line).value] else []
  {
    hide MarkerOf;
    assert (lines + [line])[..|lines|] == lines;
  }

  /** Each marker line is exactly one entry, in source order. */
  lemma {:induction false} MarkersAreItems(lines: seq<string>)
    ensures AllItems(Markers(lines), Listed(lines))
  {
    if lines != [] {
      hide Listed, Markers, MarkerOf, Nearest, AllItems, Indent, Trim;
      var front, line := lines[..|lines| - 1], lines[|lines| - 1];
      assert lines == front + [line];
      MarkersAreItems(front);
      MarkersPush(front, line);
      if MarkerOf(line).Some? {
        ListedMarker(front, line);
        AllItemsPush(Markers(front), Listed(front), MarkerOf(line).value);
      } else {
        ListedText(front, line);
        AllItemsLengthened(Markers(front), Listed(front), Nearest(Listed(front).indents, Indent(line)), " " + Trim(line));
      }
    }
  }

  lemma NearestIs(indents: seq<int>, x: int, p: nat)
    requires p <= |indents| && (p > 0 ==> indents[p - 1] < x) && forall m :: p <= m < |indents| ==> indents[m] >= x
    ensures Nearest(indents, x) == p
  {
    var q := Nearest(indents, x);
  }

  /** Item `p` is the parent of item `j` exactly when it is the nearest earlier item with a strictly smaller indent. */
  lemma ParentIsNearest(lines: seq<string>, j: nat, p: nat)
    requires j < |Listed(lines).entries|
    ensures |Listed(lines).indents| == |Listed(lines).entries|
    ensures var ind := Listed(lines).indents;
            Listed(lines).entries[j].parent == p
            <==> (p <= j && (p > 0 ==> ind[p - 1] < ind[j]) && forall m :: p <= m < j ==> ind[m] >= ind[j])
  {
    hide Listed, Markers, Nearest;
    MarkersAreItems(lines);
    var it := Listed(lines);
    var ind, before := it.indents, it.indents[..j];
    assert ItemFor(Markers(lines), ind, it.entries[j], j);
    assert forall m :: 0 <= m < j ==> before[m] == ind[m];
    if p <= j && (p > 0 ==> ind[p - 1] < ind[j]) && forall m :: p <= m < j ==> ind[m] >= ind[j] {
      NearestIs(before, ind[j], p);
    }
  }

  /** A line without a marker adds its trimmed text to one item: the nearest earlier one that is indented less than the
      line; and to none when there is no such item. */
  lemma ContinuationJoins(lines: seq<string>, line: string, j: nat)
    requires MarkerOf(line).None? && j < |Listed(lines).entries|
    ensures var before, after := Listed(lines), Listed(lines + [line]);
            && after.indents == before.indents && |before.indents| == |before.entries| == |after.entries|
            && (var ind, x := before.indents, Indent(line);
                var nearest := ind[j] < x && forall m :: j < m < |ind| ==> ind[m] >= x;
                after.entries[j] == if nearest then before.entries[j].(text := before.entries[j].text + " " + Trim(line))
                                    else before.entries[j])
  {
    hide Listed, Markers, Nearest, MarkerOf, Indent, Trim;
    MarkersAreItems(lines);
    ListedText(lines, line);
    var before := Listed(lines);
    assert ItemFor(Markers(lines), before.indents, before.entries[j], j);
    var x := Indent(line);
    var ind := before.indents;
    if ind[j] < x && forall m :: j < m < |ind| ==> ind[m] >= x {
      NearestIs(ind, x, j + 1);
    }
    assert before.entries[j].text + (" " + Trim(line)) == before.entries[j].text + " " + Trim(line);
  }

  /** `root` is the tree the lines stand for. */
  predicate Stands(root: Node, lines: seq<string>) {
    && SameItem(root, ROOT)
    && Outline(root) == Listed(lines).entries
    && KindsFollowFirst(root)
  }

  // ---------- The stack ----------

  /** The marker indent of an item on the path to the newest one, and the item's number. */
  datatype Frame = Frame(indent: int, num: nat)

  /** After frame `i - 1`, no item is indented less than frame `i`. */
  ghost predicate NoneBelow(stack: seq<Frame>, indents: seq<int>, i: nat)
    requires 1 <= i < |stack|
  {
    forall m :: stack[i - 1].num <= m < |indents| ==> indents[m] >= stack[i].indent
  }

  /** The stack is the skyline of the items so far: after a frame, no item is less indented than the next frame. */
  ghost predicate Skyline(stack: seq<Frame>, indents: seq<int>) {
    && stack != [] && stack[0] == Frame(-1, 0)
    && stack[|stack| - 1].num == |indents|
    && (forall i :: 1 <= i < |stack| ==> 1 <= stack[i].num <= |indents| && stack[i].indent == indents[stack[i].num - 1])
    && (forall i, j :: 0 <= i < j < |stack| ==> stack[i].num < stack[j].num && stack[i].indent < stack[j].indent)
    && forall i :: 1 <= i < |stack| ==> NoneBelow(stack, indents, i)
  }

  /** Frame `k` is the highest one indented less than `x`. */
  ghost predicate Found(stack: seq<Frame>, k: nat, x: int)
    requires k < |stack|
  {
    stack[k].indent < x && forall j :: k < j < |stack| ==> x <= stack[j].indent
  }

  lemma NothingAfter(stack: seq<Frame>, indents: seq<int>, k: nat, x: int)
    requires Skyline(stack, indents) && k < |stack| && Found(stack, k, x)
    ensures forall m :: stack[k].num <= m < |indents| ==> indents[m] >= x
  {
    if k + 1 < |stack| {
      assert NoneBelow(stack, indents, k + 1);
    }
  }

  /** Searching the stack finds what looking back over every item finds. */
  lemma FrameIsNearest(stack: seq<Frame>, indents: seq<int>, k: nat, x: int)
    requires Skyline(stack, indents) && k < |stack| && Found(stack, k, x)
    ensures stack[k].num == Nearest(indents, x)
  {
    var p := Nearest(indents, x);
    NothingAfter(stack, indents, k, x);
    assert k > 0 ==> indents[stack[k].num - 1] < x;
  }

  lemma PushKeepsSkyline(stack: seq<Frame>, indents: seq<int>, k: nat, x: int)
    requires Skyline(stack, indents) && k < |stack| && Found(stack, k, x)
    ensures Skyline(stack[..k + 1] + [Frame(x, |indents| + 1)], indents + [x])
  {
    NothingAfter(stack, indents, k, x);
    var next, more := stack[..k + 1] + [Frame(x, |indents| + 1)], indents + [x];
    assert forall i :: 0 <= i <= k ==> next[i] == stack[i];
    assert forall m :: 0 <= m < |indents| ==> more[m] == indents[m];
    assert forall i :: 0 <= i <= k ==> stack[i].indent < x && stack[i].num <= |indents|;
    forall i | 1 <= i < |next|
      ensures NoneBelow(next, more, i)
    {
      if i <= k {
        assert NoneBelow(stack, indents, i);
      }
    }
  }

  /** The stack stands for the path from the root to the newest item. */
  ghost predicate FollowsPath(stack: seq<Frame>, root: Node) {
    && |stack| == Depth(root) + 1
    && forall i :: 0 <= i < |stack| ==> OnPath(root, i).num == stack[i].num
  }

  ghost predicate Parsed(lines: seq<string>, stack: seq<Frame>, root: Node) {
    && Skyline(stack, Listed(lines).indents)
    && FollowsPath(stack, root)
    && Stands(root, lines)
  }

  lemma ParsedNothing()
    ensures Parsed([], [Frame(-1, 0)], ROOT) && Listed([]).indents == []
  {
  }

  lemma ParsedMeans(lines: seq<string>, stack: seq<Frame>, root: Node)
    requires Parsed(lines, stack, root)
    ensures Stands(root, lines)
  {
  }

  lemma BottomFrame(lines: seq<string>, stack: seq<Frame>, root: Node)
    requires Parsed(lines, stack, root)
    ensures stack != [] && stack[0] == Frame(-1, 0)
    ensures |stack| == Depth(root) + 1
  {
  }

  lemma ListedMarker(lines: seq<string>, line: string)
    requires MarkerOf(line).Some?
    ensures var before, m := Listed(lines), MarkerOf(line).value;
            var entry := Entry(Nearest(before.indents, m.indent), |before.indents| + 1, m.ordered, m.text);
            Listed(lines + [line]) == Listing(before.indents + [m.indent], before.entries + [entry])
  {
    assert (lines + [line])[..|lines|] == lines;
  }

  lemma ListedText(lines: seq<string>, line: string)
    requires MarkerOf(line).None?
    ensures var before := Listed(lines);
            var parent := Nearest(before.indents, Indent(line));
            Listed(lines + [line]) == before.(entries := Lengthened(before.entries, parent, " " + Trim(line)))
  {
    assert (lines + [line])[..|lines|] == lines;
  }

  lemma PushFollowsPath(stack: seq<Frame>, root: Node, k: nat, x: int, item: Node)
    requires FollowsPath(stack, root) && k < |stack| && item.items == []
    ensures FollowsPath(stack[..k + 1] + [Frame(x, item.num)], Insert(root, k, item))
    ensures OnPath(root, k).num == stack[k].num
  {
    InsertPath(root, k, item);
  }

  lemma StandsMarker(root: Node, lines: seq<string>, line: string, k: nat)
    requires Stands(root, lines) && MarkerOf(line).Some? && k <= Depth(root)
    requires OnPath(root, k).num == Nearest(Listed(lines).indents, MarkerOf(line).value.indent)
    ensures var m := MarkerOf(line).value;
            var item := Node(|Listed(lines).indents| + 1, m.ordered, m.text, None, []);
            Stands(Insert(root, k, item), lines + [line])
  {
    var m := MarkerOf(line).value;
    var item := Node(|Listed(lines).indents| + 1, m.ordered, m.text, None, []);
    assert KindsFollowFirst(item);
    hide KindsFollowFirst, Outline, MarkerOf, Insert, OnPath, Depth, Listed, Nearest;
    ListedMarker(lines, line);
    InsertOutline(root, k, item);
    InsertKinds(root, k, item);
  }

  lemma MarkerStep(lines: seq<string>, stack: seq<Frame>, root: Node, line: string, k: nat)
    requires Parsed(lines, stack, root) && MarkerOf(line).Some?
    requires k < |stack| && Found(stack, k, MarkerOf(line).value.indent)
    ensures var m := MarkerOf(line).value;
            var num := |Listed(lines).indents| + 1;
            Parsed(lines + [line], stack[..k + 1] + [Frame(m.indent, num)],
                   Insert(root, k, Node(num, m.ordered, m.text, None, [])))
  {
    hide Stands, Skyline, FollowsPath, MarkerOf, Insert, OnPath, Depth, Found, Listed, Nearest;
    var m := MarkerOf(line).value;
    var indents := Listed(lines).indents;
    var item := Node(|indents| + 1, m.ordered, m.text, None, []);
    BottomFrame(lines, stack, root);
    PushFollowsPath(stack, root, k, m.indent, item);
    FrameIsNearest(stack, indents, k, m.indent);
    PushKeepsSkyline(stack, indents, k, m.indent);
    ListedMarker(lines, line);
    StandsMarker(root, lines, line, k);
  }

  lemma EntriesNumbered(lines: seq<string>)
    ensures Increasing(Listed(lines).entries) && forall j :: 0 <= j < |Listed(lines).entries| ==> Listed(lines).entries[j].num > 0
  {
    hide Listed, Markers, Nearest;
    MarkersAreItems(lines);
    var it := Listed(lines);
    assert forall j :: 0 <= j < |it.entries| ==> ItemFor(Markers(lines), it.indents, it.entries[j], j);
  }

  lemma TextStep(lines: seq<string>, stack: seq<Frame>, root: Node, line: string, k: nat)
    requires Parsed(lines, stack, root) && MarkerOf(line).None?
    requires k < |stack| && Found(stack, k, Indent(line))
    ensures Parsed(lines + [line], stack, if k == 0 then root else AddText(root, k, " " + Trim(line)))
  {
    var before := Listed(lines);
    var more := " " + Trim(line);
    ListedText(lines, line);
    FrameIsNearest(stack, before.indents, k, Indent(line));
    EntriesNumbered(lines);
    BottomFrame(lines, stack, root);
    hide Listed, MarkerOf, Nearest, Indent, Trim, Skyline, Outline, AddText, KindsFollowFirst, Lengthened, Found;
    if k == 0 {
      LengthenedElsewhere(before.entries, 0, more);
    } else {
      AddTextOutline(root, k, more);
      AddTextPath(root, k, more);
      AddTextKinds(root, k, more);
    }
  }

  method ParseListLines(lines: seq<string>) returns (root: Node)
    ensures Stands(root, lines)
  {
    ParsedNothing();
    hide Parsed, Listed, MarkerOf, Indent, Trim, Insert, AddText, Depth;
    root := ROOT;
    assert lines[..0] == [];
    var stack := [Frame(-1, 0)];
    var items := 0;
    for i := 0 to |lines|
      invariant Parsed(lines[..i], stack, root)
      invariant items == |Listed(lines[..i]).indents|
    {
      var line := lines[i];
      assert lines[..i + 1] == lines[..i] + [line];
      BottomFrame(lines[..i], stack, root);
      match MarkerOf(line) {
        case Some(m) => {
          ghost var whole := stack;
          while |stack| > 1 && m.indent <= stack[|stack| - 1].indent
            invariant 1 <= |stack| <= |whole| && stack == whole[..|stack|]
            invariant forall j :: |stack| <= j < |whole| ==> m.indent <= whole[j].indent
          {
            stack := stack[..|stack| - 1];
          }
          var k := |stack| - 1;
          assert Found(whole, k, m.indent);
          MarkerStep(lines[..i], whole, root, line, k);
          ListedMarker(lines[..i], line);
          root := Insert(root, k, Node(items + 1, m.ordered, m.text, None, []));
          items := items + 1;
          stack := stack + [Frame(m.indent, items)];
        }
        case None => {
          var indent := Indent(line);
          var k := |stack| - 1;
          while k > 0 && indent <= stack[k].indent
            invariant 0 <= k < |stack|
            invariant forall j :: k < j < |stack| ==> indent <= stack[j].indent
          {
            k := k - 1;
          }
          TextStep(lines[..i], stack, root, line, k);
          ListedText(lines[..i], line);
          if k > 0 {
            root := AddText(root, k, " " + Trim(line));
          }
        }
      }
    }
    assert lines[..|lines|] == lines;
    ParsedMeans(lines, stack, root);
  }

  // ---------- The outline determines the tree ----------

  /** Numbers go up and stay above `p`. */
  predicate NumberedAbove(outline: seq<Entry>, p: nat) {
    Increasing(outline) && forall i :: 0 <= i < |outline| ==> outline[i].num > p
  }

  lemma NumberedParts(head: seq<Entry>, own: Entry, tail: seq<Entry>, p: nat)
    requires NumberedAbove(head + [own] + tail, p)
    ensures NumberedAbove(head, p) && NumberedAbove(tail, own.num) && own.num > p
  {
    var all := head + [own] + tail;
    assert forall i :: 0 <= i < |head| ==> all[i] == head[i];
    assert all[|head|] == own;
    assert forall i :: 0 <= i < |tail| ==> all[|head| + 1 + i] == tail[i];
  }

  /** Every entry lies under an item numbered above `p`. */
  predicate Deeper(outline: seq<Entry>, p: nat) {
    forall i :: 0 <= i < |outline| ==> outline[i].parent > p
  }

  lemma BelowIsDeeper(num: nat, items: seq<Node>, p: nat)
    requires NumberedAbove(Preorder(num, items), num) && p < num
    ensures Deeper(Preorder(num, items), p)
  {
    hide NumberedAbove, Preorder;
    ParentsAtLeast(num, items);
  }

  lemma {:induction false} ParentsAtLeast(p: nat, items: seq<Node>)
    requires NumberedAbove(Preorder(p, items), p)
    ensures forall i :: 0 <= i < |Preorder(p, items)| ==> Preorder(p, items)[i].parent >= p
    decreases items
  {
    if items != [] {
      var front, last := items[..|items| - 1], items[|items| - 1];
      NumberedParts(Preorder(p, front), Entry(p, last.num, last.ordered, last.text), Preorder(last.num, last.items), p);
      ParentsAtLeast(p, front);
      ParentsAtLeast(last.num, last.items);
    }
  }

  /** Two ways to cut one outline before its last direct item cut it at the same place. */
  lemma SameCut(h: seq<Entry>, e: Entry, t: seq<Entry>, h': seq<Entry>, e': Entry, t': seq<Entry>, p: nat)
    requires h + [e] + t == h' + [e'] + t'
    requires e.parent == e'.parent == p
    requires Deeper(t, p) && Deeper(t', p)
    ensures h == h' && e == e' && t == t'
  {
    var all, all' := h + [e] + t, h' + [e'] + t';
    assert all[|h|] == e && all'[|h'|] == e';
    assert forall i :: |h| < i < |all| ==> all[i].parent > p;
    assert forall i :: |h'| < i < |all'| ==> all'[i].parent > p;
    assert |h| == |h'|;
    assert all[..|h|] == h && all'[..|h'|] == h';
    assert all[|h| + 1..] == t && all'[|h'| + 1..] == t';
  }

  lemma SameNode(x: Node, y: Node)
    requires SameItem(x, y) && x.items == y.items && KindsFollowFirst(x) && KindsFollowFirst(y)
    ensures x == y
  {
  }

  lemma ItemsHaveKinds(x: Node)
    requires KindsFollowFirst(x)
    ensures forall i :: 0 <= i < |x.items| ==> KindsFollowFirst(x.items[i])
  {
  }

  lemma PreorderSplit(p: nat, items: seq<Node>)
    requires items != []
    ensures var last := items[|items| - 1];
            && Preorder(p, items) == Preorder(p, items[..|items| - 1]) + [Entry(p, last.num, last.ordered, last.text)]
                                       + Preorder(last.num, last.items)
            && items == items[..|items| - 1] + [last]
  {
  }

  lemma {:induction false} SameItems(p: nat, a: seq<Node>, b: seq<Node>)
    requires Preorder(p, a) == Preorder(p, b) && NumberedAbove(Preorder(p, a), p)
    requires forall i :: 0 <= i < |a| ==> KindsFollowFirst(a[i])
    requires forall i :: 0 <= i < |b| ==> KindsFollowFirst(b[i])
    ensures a == b
    decreases a
  {
    if a != [] {
      assert b != [];
      PreorderSplit(p, a);
      PreorderSplit(p, b);
      hide NumberedAbove, KindsFollowFirst, Preorder, Deeper;
      var x, y := a[|a| - 1], b[|b| - 1];
      var front, front' := a[..|a| - 1], b[..|b| - 1];
      var e, e' := Entry(p, x.num, x.ordered, x.text), Entry(p, y.num, y.ordered, y.text);
      NumberedParts(Preorder(p, front), e, Preorder(x.num, x.items), p);
      NumberedParts(Preorder(p, front'), e', Preorder(y.num, y.items), p);
      BelowIsDeeper(x.num, x.items, p);
      BelowIsDeeper(y.num, y.items, p);
      SameCut(Preorder(p, front), e, Preorder(x.num, x.items), Preorder(p, front'), e', Preorder(y.num, y.items), p);
      SameItems(p, front, front');
      ItemsHaveKinds(x);
      ItemsHaveKinds(y);
      SameItems(x.num, x.items, y.items);
      SameNode(x, y);
    }
  }

  /** Only one tree stands for given lines. */
  lemma TreeIsDetermined(lines: seq<string>, a: Node, b: Node)
    requires Stands(a, lines) && Stands(b, lines)
    ensures a == b
  {
    EntriesNumbered(lines);
    hide Listed, Preorder;
    ItemsHaveKinds(a);
    ItemsHaveKinds(b);
    SameItems(0, a.items, b.items);
    SameNode(a, b);
  }
}
