/** The JavaScript string operations the browser code relies on. */
module JsText {

  /** White space and line terminators, as `trim` and `\s` take them. */
  predicate IsSpace(c: char) {
    || '\t' <= c <= '\r' || c == ' ' || c == '\U{00a0}' || c == '\U{1680}' || '\U{2000}' <= c <= '\U{200a}'
    || c in {'\U{2028}', '\U{2029}', '\U{202f}', '\U{205f}', '\U{3000}', '\U{feff}'}
  }

  /** The white space of ECMAScript, sections 12.2 and 12.3, character by character. */
  const SPACES := "\U{0009}\U{000a}\U{000b}\U{000c}\U{000d}\U{0020}\U{00a0}\U{1680}\U{2000}\U{2001}\U{2002}\U{2003}\U{2004}"
    + "\U{2005}\U{2006}\U{2007}\U{2008}\U{2009}\U{200a}\U{2028}\U{2029}\U{202f}\U{205f}\U{3000}\U{feff}"

  lemma SpacesAre(c: char)
    ensures IsSpace(c) <==> c in SPACES
  {
    if IsSpace(c) {
      var n := c as int;
      assert '\t' <= c <= '\r' ==> SPACES[n - 9] == c;
      assert '\U{2000}' <= c <= '\U{200a}' ==> SPACES[n - 0x2000 + 8] == c;
      assert SPACES[5] == ' ' && SPACES[6] == '\U{00a0}' && SPACES[7] == '\U{1680}' && SPACES[19] == '\U{2028}'
          && SPACES[20] == '\U{2029}' && SPACES[21] == '\U{202f}' && SPACES[22] == '\U{205f}' && SPACES[23] == '\U{3000}'
          && SPACES[24] == '\U{feff}';
    }
  }

  /** How many of the leading characters are white space. */
  function Indent(s: string): (n: nat)
    ensures n <= |s|
    ensures forall k :: 0 <= k < n ==> IsSpace(s[k])
    ensures n < |s| ==> !IsSpace(s[n])
  {
    if s == "" || !IsSpace(s[0]) then 0 else 1 + Indent(s[1..])
  }

  function TrimEnd(s: string): (t: string)
    ensures t <= s
    ensures t != "" ==> !IsSpace(t[|t| - 1])
    ensures forall k :: |t| <= k < |s| ==> IsSpace(s[k])
  {
    if s == "" || !IsSpace(s[|s| - 1]) then s else TrimEnd(s[..|s| - 1])
  }

  function Trim(s: string): string {
    TrimEnd(s[Indent(s)..])
  }

  predicate AllSpace(s: string) {
    forall k :: 0 <= k < |s| ==> IsSpace(s[k])
  }

  /** Neither end is white space. */
  predicate Bare(s: string) {
    s != "" ==> !IsSpace(s[0]) && !IsSpace(s[|s| - 1])
  }

  lemma {:induction false} IndentExact(a: string, rest: string)
    requires AllSpace(a) && (rest != "" ==> !IsSpace(rest[0]))
    ensures Indent(a + rest) == |a|
  {
    if a != "" {
      IndentExact(a[1..], rest);
      assert (a + rest)[1..] == a[1..] + rest;
    } else {
      assert a + rest == rest;
    }
  }

  lemma {:induction false} TrimEndExact(t: string, b: string)
    requires AllSpace(b) && (t != "" ==> !IsSpace(t[|t| - 1]))
    ensures TrimEnd(t + b) == t
  {
    if b != "" {
      var shorter := b[..|b| - 1];
      TrimEndExact(t, shorter);
      assert (t + b)[..|t + b| - 1] == t + shorter;
    } else {
      assert t + b == t;
    }
  }

  lemma TrimSplits(s: string) returns (a: string, b: string)
    ensures Bare(Trim(s)) && AllSpace(a) && AllSpace(b) && s == a + Trim(s) + b
  {
    hide IsSpace, Indent, TrimEnd;
    var n := Indent(s);
    var rest := s[n..];
    var t := TrimEnd(rest);
    a, b := s[..n], rest[|t|..];
    assert rest == t + b && s == a + rest;
    assert t != "" ==> t[0] == s[n];
  }

  /** Trimming takes white space off both ends, all of it and nothing else. */
  lemma TrimExactly(s: string, t: string)
    ensures Trim(s) == t <==> Bare(t) && exists a: string, b: string :: AllSpace(a) && AllSpace(b) && s == a + t + b
  {
    hide Trim, AllSpace, Bare;
    var a, b := TrimSplits(s);
    if a': string, b': string :| AllSpace(a') && AllSpace(b') && s == a' + t + b' && Bare(t) {
      TrimOf(a', t, b');
    }
  }

  lemma TrimOf(a: string, t: string, b: string)
    requires AllSpace(a) && AllSpace(b) && Bare(t)
    ensures Trim(a + t + b) == t
  {
    var s := a + t + b;
    if t == "" {
      IndentExact(a + b, "");
      assert a + b + "" == s && s[Indent(s)..] == "";
    } else {
      assert s == a + (t + b);
      IndentExact(a, t + b);
      assert s[|a|..] == t + b;
      TrimEndExact(t, b);
    }
  }

  predicate Blank(s: string) {
    Trim(s) == ""
  }

  /** A line is blank exactly when all of it is white space. */
  lemma BlankIsAllSpace(s: string)
    ensures Blank(s) <==> forall k :: 0 <= k < |s| ==> IsSpace(s[k])
  {
    var n := Indent(s);
    var rest := s[n..];
    if n < |s| {
      assert rest[0] == s[n];
    }
  }

  predicate OccursAt(s: string, part: string, i: nat) {
    i + |part| <= |s| && s[i..i + |part|] == part
  }

  /** `indexOf`: the leftmost occurrence, or the length of `s` when there is none. */
  function IndexOf(s: string, part: string): (i: nat)
    requires part != ""
    ensures i <= |s|
    ensures i < |s| ==> OccursAt(s, part, i)
    ensures forall k: nat :: k < i && k < |s| ==> !OccursAt(s, part, k)
    ensures i == |s| ==> forall k: nat :: !OccursAt(s, part, k)
  {
    IndexFrom(s, part, 0)
  }

  function IndexFrom(s: string, part: string, from: nat): (i: nat)
    requires part != "" && from <= |s|
    ensures from <= i <= |s|
    ensures i < |s| ==> OccursAt(s, part, i)
    ensures forall k: nat :: from <= k < i ==> !OccursAt(s, part, k)
    decreases |s| - from
  {
    if from == |s| || OccursAt(s, part, from) then from else IndexFrom(s, part, from + 1)
  }
}
