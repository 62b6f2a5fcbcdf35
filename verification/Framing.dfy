/** Cutting an incrementally received text at a separator. */
module Framing {
  import opened JsText

  /** The complete frames, and the unterminated tail. */
  datatype Cut = Cut(frames: seq<string>, rest: string)

  /** Cut a whole text at every leftmost separator. */
  function CutAll(s: string, sep: string): Cut
    requires sep != ""
    decreases |s|
  {
    var i := IndexOf(s, sep);
    if i == |s| then Cut([], s)
    else
      var tail := CutAll(s[i + |sep|..], sep);
      Cut([s[..i]] + tail.frames, tail.rest)
  }

  /** One turn of the framing loop: the first frame comes off, the rest is cut as before. */
  lemma CutStep(s: string, sep: string)
    requires sep != "" && IndexOf(s, sep) < |s|
    ensures var i := IndexOf(s, sep);
            && i + |sep| <= |s|
            && CutAll(s, sep) == Cut([s[..i]] + CutAll(s[i + |sep|..], sep).frames, CutAll(s[i + |sep|..], sep).rest)
  {
  }

  lemma CutDone(s: string, sep: string)
    requires sep != "" && IndexOf(s, sep) == |s|
    ensures CutAll(s, sep) == Cut([], s)
  {
  }

  /** What one more chunk adds to what was cut so far. */
  function Extend(c: Cut, chunk: string, sep: string): Cut
    requires sep != ""
  {
    var more := CutAll(c.rest + chunk, sep);
    Cut(c.frames + more.frames, more.rest)
  }

  function CutChunks(chunks: seq<string>, sep: string): Cut
    requires sep != ""
  {
    if chunks == [] then Cut([], "") else Extend(CutChunks(chunks[..|chunks| - 1], sep), chunks[|chunks| - 1], sep)
  }

  function Concat(chunks: seq<string>): string {
    if chunks == [] then "" else Concat(chunks[..|chunks| - 1]) + chunks[|chunks| - 1]
  }

  /** A separator found within `s` is found at the same place however `s` continues. */
  lemma IndexOfExtended(s: string, t: string, sep: string)
    requires sep != "" && IndexOf(s, sep) < |s|
    ensures IndexOf(s + t, sep) == IndexOf(s, sep)
  {
    var i := IndexOf(s, sep);
    var j := IndexOf(s + t, sep);
    assert (s + t)[i..i + |sep|] == s[i..i + |sep|];
    assert OccursAt(s + t, sep, i);
    if j < i {
      assert s[j..j + |sep|] == (s + t)[j..j + |sep|];
      assert OccursAt(s, sep, j);
    }
  }

  /** Appending to a text that starts with a complete frame. */
  lemma FirstFrameStays(s: string, t: string, sep: string)
    requires sep != "" && IndexOf(s, sep) < |s|
    ensures var i := IndexOf(s, sep);
            && i + |sep| <= |s| && IndexOf(s + t, sep) == i
            && (s + t)[..i] == s[..i] && (s + t)[i + |sep|..] == s[i + |sep|..] + t
  {
    hide IndexFrom;
    IndexOfExtended(s, t, sep);
    assert OccursAt(s, sep, IndexOf(s, sep));
  }

  lemma {:induction false} CutExtended(s: string, t: string, sep: string)
    requires sep != ""
    ensures CutAll(s + t, sep) == Extend(CutAll(s, sep), t, sep)
    decreases |s|
  {
    hide IndexOf, OccursAt, CutAll;
    var i := IndexOf(s, sep);
    if i < |s| {
      FirstFrameStays(s, t, sep);
      CutStep(s, sep);
      CutStep(s + t, sep);
      var tail := s[i + |sep|..];
      CutExtended(tail, t, sep);
      var d, more := CutAll(tail, sep), CutAll(CutAll(tail, sep).rest + t, sep);
      assert ([s[..i]] + d.frames) + more.frames == [s[..i]] + (d.frames + more.frames);
    } else {
      CutDone(s, sep);
    }
  }

  /** However the text is cut into chunks, the frames and the tail are those of the whole text. */
  lemma {:induction false} ChunkingInvariant(chunks: seq<string>, sep: string)
    requires sep != ""
    ensures CutChunks(chunks, sep) == CutAll(Concat(chunks), sep)
  {
    if chunks == [] {
      assert IndexOf("", sep) == 0;
    } else {
      var before := chunks[..|chunks| - 1];
      ChunkingInvariant(before, sep);
      CutExtended(Concat(before), chunks[|chunks| - 1], sep);
    }
  }

  /** Frames and tail put together again. */
  function Joined(frames: seq<string>, rest: string, sep: string): string {
    if frames == [] then rest else frames[0] + sep + Joined(frames[1..], rest, sep)
  }

  /** Each frame ends at the first separator after it starts; the tail holds none. */
  predicate Minimal(c: Cut, sep: string)
    requires sep != ""
  {
    && IndexOf(c.rest, sep) == |c.rest|
    && forall i :: 0 <= i < |c.frames| ==> IndexOf(c.frames[i] + sep, sep) == |c.frames[i]|
  }

  /** The cut loses nothing and stops at every separator ... */
  lemma {:induction false} CutIsFaithful(s: string, sep: string)
    requires sep != ""
    ensures var c := CutAll(s, sep); Joined(c.frames, c.rest, sep) == s && Minimal(c, sep)
    decreases |s|
  {
    hide IndexFrom, OccursAt;
    var i := IndexOf(s, sep);
    if i < |s| {
      SeparatorSplits(s, sep);
      var tail := s[i + |sep|..];
      CutIsFaithful(tail, sep);
      HeadFrame(s, sep);
      PrependMinimal(s[..i], CutAll(tail, sep), sep);
      assert ([s[..i]] + CutAll(tail, sep).frames)[1..] == CutAll(tail, sep).frames;
    }
  }

  lemma SeparatorSplits(s: string, sep: string)
    requires sep != "" && IndexOf(s, sep) < |s|
    ensures var i := IndexOf(s, sep); i + |sep| <= |s| && s == s[..i] + sep + s[i + |sep|..]
  {
  }

  lemma PrependMinimal(frame: string, c: Cut, sep: string)
    requires sep != "" && Minimal(c, sep) && IndexOf(frame + sep, sep) == |frame|
    ensures Minimal(Cut([frame] + c.frames, c.rest), sep)
  {
  }

  lemma HeadFrame(s: string, sep: string)
    requires sep != "" && IndexOf(s, sep) < |s|
    ensures IndexOf(s[..IndexOf(s, sep)] + sep, sep) == IndexOf(s, sep)
  {
    var i := IndexOf(s, sep);
    var head := s[..i] + sep;
    assert s == head + s[i + |sep|..];
    assert OccursAt(head, sep, i);
    if IndexOf(head, sep) < |head| {
      IndexOfExtended(head, s[i + |sep|..], sep);
    }
  }

  /** ... and is the only such cut. */
  lemma {:induction false} CutIsUnique(c: Cut, sep: string)
    requires sep != "" && Minimal(c, sep)
    ensures CutAll(Joined(c.frames, c.rest, sep), sep) == c
    decreases |c.frames|
  {
    hide IndexOf, OccursAt, CutAll;
    if c.frames == [] {
      CutDone(c.rest, sep);
    } else {
      var first, tail := c.frames[0], Cut(c.frames[1..], c.rest);
      CutIsUnique(tail, sep);
      var rest := Joined(tail.frames, tail.rest, sep);
      var s := Joined(c.frames, c.rest, sep);
      assert s == (first + sep) + rest;
      IndexOfExtended(first + sep, rest, sep);
      CutStep(s, sep);
      assert s[..|first|] == first && s[|first| + |sep|..] == rest;
      assert c.frames == [first] + tail.frames;
    }
  }

  // ---------- Lines ----------

  lemma NoNewline(s: string)
    ensures '\n' !in s ==> IndexOf(s, "\n") == |s|
  {
    var i := IndexOf(s, "\n");
    if i < |s| {
      assert s[i..i + 1] == "\n" && s[i] == '\n';
    }
  }

  lemma FirstNewline(line: string)
    requires '\n' !in line
    ensures IndexOf(line + "\n", "\n") == |line|
  {
    var s := line + "\n";
    assert s[|line|..|line| + 1] == "\n" && OccursAt(s, "\n", |line|);
    forall k: nat | k < |line|
      ensures !OccursAt(s, "\n", k)
    {
      assert s[k..k + 1][0] == line[k];
    }
  }

  /** Lines put together with newlines between them are cut apart again. */
  lemma LinesCut(lines: seq<string>, rest: string)
    requires '\n' !in rest && forall k :: 0 <= k < |lines| ==> '\n' !in lines[k]
    ensures CutAll(Joined(lines, rest, "\n"), "\n") == Cut(lines, rest)
  {
    hide IndexOf, CutAll;
    NoNewline(rest);
    forall k | 0 <= k < |lines|
      ensures IndexOf(lines[k] + "\n", "\n") == |lines[k]|
    {
      FirstNewline(lines[k]);
    }
    CutIsUnique(Cut(lines, rest), "\n");
  }
}
