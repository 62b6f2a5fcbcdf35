/** Strict date text: parsing to seconds since the epoch, printing, and normalising. A text is
    its sequence of UTF-8 bytes, each written as a character. */
module DateText {
  import opened Common
  import opened CivilDate

  // ---------- Splitting ----------

  /** Where `c` first occurs, or the length. */
  function CharIndex(s: string, c: char): (i: nat)
    ensures i <= |s|
    ensures forall k :: 0 <= k < i ==> s[k] != c
    ensures i < |s| ==> s[i] == c
  {
    if s == [] || s[0] == c then 0 else 1 + CharIndex(s[1..], c)
  }

  function SplitOnce(s: string, c: char): Option<(string, string)> {
    var i := CharIndex(s, c);
    if i == |s| then None else Some((s[..i], s[i + 1..]))
  }

  function Split(s: string, c: char): (parts: seq<string>)
    ensures |parts| >= 1
    decreases |s|
  {
    var i := CharIndex(s, c);
    if i == |s| then [s] else [s[..i]] + Split(s[i + 1..], c)
  }

  // ---------- Numbers ----------

  function Value(s: string): nat
    requires forall i :: 0 <= i < |s| ==> IsDigit(s[i])
  {
    if s == [] then 0
    else
      assert IsDigit(s[|s| - 1]);
      10 * Value(s[..|s| - 1]) + ((s[|s| - 1] as int) - ('0' as int))
  }

  /** Exactly `len` ASCII digits. */
  function Num(s: string, len: nat): Option<nat> {
    if |s| == len && (forall i :: 0 <= i < |s| ==> IsDigit(s[i])) then Some(Value(s)) else None
  }

  function DigitChar(d: int): char
    requires 0 <= d <= 9
  {
    (d + '0' as int) as char
  }

  /** The decimal digits of `n`, at least `width` of them. */
  function Digits(n: nat, width: nat): (s: string)
    ensures |s| >= width && forall i :: 0 <= i < |s| ==> IsDigit(s[i])
    decreases n, width
  {
    if n == 0 && width == 0 then ""
    else Digits(n / 10, if width > 0 then width - 1 else 0) + [DigitChar(n % 10)]
  }

  /** Zero-padded integer formatting: the sign counts towards the width. */
  function Padded(n: int, width: nat): string
    requires width >= 1
  {
    if n >= 0 then Digits(n, width) else "-" + Digits(-n, width - 1)
  }

  // ---------- Parsing and printing ----------

  function ParseDate(date: string): Option<Civil> {
    var parts := Split(date, '-');
    if |parts| != 3 then None
    else
      var (y, m, d) := (Num(parts[0], 4), Num(parts[1], 2), Num(parts[2], 2));
      if y.None? || m.None? || d.None? then None
      else
        var c := Civil(y.value, m.value, d.value);
        if ValidDate(c) && c.year >= 1970 then Some(c) else None
  }

  function ParseClock(clock: string): Option<int> {
    var parts := Split(clock, ':');
    if |parts| != 3 then None
    else
      var (h, mi, s) := (Num(parts[0], 2), Num(parts[1], 2), Num(parts[2], 2));
      if h.None? || mi.None? || s.None? || h.value > 23 || mi.value > 59 || s.value > 59 then None
      else Some(h.value * 3600 + mi.value * 60 + s.value)
  }

  /** The offset after its sign character. */
  function ParseOffset(text: string): Option<int> {
    var halves := SplitOnce(text, ':');
    if halves.None? then None
    else
      var (oh, om) := (Num(halves.value.0, 2), Num(halves.value.1, 2));
      if oh.None? || om.None? || oh.value > 23 || om.value > 59 then None
      else Some(oh.value * 3600 + om.value * 60)
  }

  /** The text before the zone, and the zone's seconds east of UTC. */
  function ParseZone(time: string): Option<(string, int)> {
    var n := |time|;
    if n >= 1 && time[n - 1] == 'Z' then Some((time[..n - 1], 0))
    else if n > 6 && time[n - 6] in {'+', '-'} then
      var offset := ParseOffset(time[n - 5..]);
      if offset.None? then None
      else Some((time[..n - 6], if time[n - 6] == '-' then -offset.value else offset.value))
    else None
  }

  function ParseEpoch(input: string): Result<int> {
    var halves := SplitOnce(input, 'T');
    var date := ParseDate(if halves.Some? then halves.value.0 else input);
    if date.None? then Err
    else
      var day := DaysFromCivil(date.value) * 86_400;
      if halves.None? then Ok(day + 86_399)
      else
        var zone := ParseZone(halves.value.1);
        if zone.None? then Err
        else
          var clock := ParseClock(zone.value.0);
          if clock.None? then Err else Ok(day + clock.value - zone.value.1)
  }

  function FormatUtc(epoch: int): string {
    var secs := epoch % 86_400;
    var c := CivilFromDays(epoch / 86_400);
    Padded(c.year, 4) + "-" + Padded(c.month, 2) + "-" + Padded(c.day, 2)
      + "T" + Padded(secs / 3600, 2) + ":" + Padded(secs % 3600 / 60, 2) + ":" + Padded(secs % 60, 2) + "Z"
  }

  function Normalize(input: string): Result<string> {
    match ParseEpoch(input)
    case Ok(e) => Ok(FormatUtc(e))
    case Err => Err
  }

  // ---------- The accepted texts, written down directly ----------

  datatype Zone = Utc | East(hours: nat, minutes: nat) | West(hours: nat, minutes: nat)
  datatype Moment = EndOfDay | At(hour: nat, minute: nat, second: nat, zone: Zone)
  datatype Stamp = Stamp(date: Civil, moment: Moment)

  predicate Acceptable(t: Stamp) {
    && ValidDate(t.date) && 1970 <= t.date.year <= 9999
    && (t.moment.At? ==>
          && t.moment.hour <= 23 && t.moment.minute <= 59 && t.moment.second <= 59
          && (!t.moment.zone.Utc? ==> t.moment.zone.hours <= 23 && t.moment.zone.minutes <= 59))
  }

  function DateString(c: Civil): string
    requires c.year >= 0 && c.month >= 0 && c.day >= 0
  {
    Digits(c.year, 4) + "-" + Digits(c.month, 2) + "-" + Digits(c.day, 2)
  }

  function ClockString(h: nat, mi: nat, s: nat): string {
    Digits(h, 2) + ":" + Digits(mi, 2) + ":" + Digits(s, 2)
  }

  function ZoneString(z: Zone): string {
    match z
    case Utc => "Z"
    case East(h, m) => "+" + (Digits(h, 2) + ":" + Digits(m, 2))
    case West(h, m) => "-" + (Digits(h, 2) + ":" + Digits(m, 2))
  }

  function Text(t: Stamp): string
    requires Acceptable(t)
  {
    match t.moment
    case EndOfDay => DateString(t.date)
    case At(h, mi, s, z) => DateString(t.date) + "T" + (ClockString(h, mi, s) + ZoneString(z))
  }

  function ZoneSeconds(z: Zone): int {
    match z
    case Utc => 0
    case East(h, m) => h * 3600 + m * 60
    case West(h, m) => -(h * 3600 + m * 60)
  }

  /** The instant the text names; a date alone names the last second of its day. */
  function Instant(t: Stamp): int {
    DaysFromCivil(t.date) * 86_400
      + match t.moment
        case EndOfDay => 86_399
        case At(h, mi, s, z) => h * 3600 + mi * 60 + s - ZoneSeconds(z)
  }

  // ---------- Numbers: digits and values are inverse ----------

  lemma {:induction false} ValueOfDigits(n: nat, width: nat)
    ensures Value(Digits(n, width)) == n
    decreases n, width
  {
    if n != 0 || width != 0 {
      var shorter := Digits(n / 10, if width > 0 then width - 1 else 0);
      ValueOfDigits(n / 10, if width > 0 then width - 1 else 0);
      var s := Digits(n, width);
      assert s == shorter + [DigitChar(n % 10)];
      assert s[..|s| - 1] == shorter;
    }
  }

  lemma {:induction false} DigitsOfValue(s: string)
    requires forall i :: 0 <= i < |s| ==> IsDigit(s[i])
    ensures Digits(Value(s), |s|) == s
  {
    if s != [] {
      var init := s[..|s| - 1];
      DigitsOfValue(init);
      var d := (s[|s| - 1] as int) - ('0' as int);
      assert Value(s) == 10 * Value(init) + d;
      assert Value(s) / 10 == Value(init) && Value(s) % 10 == d;
      assert s == init + [s[|s| - 1]];
    }
  }

  lemma {:induction false} DigitsExact(n: nat, width: nat, limit: nat)
    requires n < limit && limit == Power10(width)
    ensures |Digits(n, width)| == width
  {
    if width > 0 {
      DigitsExact(n / 10, width - 1, Power10(width - 1));
    }
  }

  function Power10(n: nat): nat {
    if n == 0 then 1 else 10 * Power10(n - 1)
  }

  lemma {:induction false} ValueBound(s: string)
    requires forall i :: 0 <= i < |s| ==> IsDigit(s[i])
    ensures Value(s) < Power10(|s|)
  {
    if s != [] {
      ValueBound(s[..|s| - 1]);
    }
  }

  /** `num` accepts exactly the zero-padded numbers of its width. */
  lemma NumExact(s: string, len: nat, n: nat)
    ensures Num(s, len) == Some(n) <==> n < Power10(len) && s == Digits(n, len)
  {
    if Num(s, len) == Some(n) {
      DigitsOfValue(s);
      ValueBound(s);
    }
    if n < Power10(len) && s == Digits(n, len) {
      DigitsExact(n, len, Power10(len));
      ValueOfDigits(n, len);
    }
  }

  // ---------- Splitting: joining is its inverse ----------

  predicate Without(s: string, c: char) {
    forall i :: 0 <= i < |s| ==> s[i] != c
  }

  lemma CharIndexOfSeparator(a: string, c: char, b: string)
    requires Without(a, c)
    ensures CharIndex(a + [c] + b, c) == |a|
    ensures CharIndex(a, c) == |a|
  {
    var s := a + [c] + b;
    var i := CharIndex(s, c);
    assert s[|a|] == c;
    assert forall k :: 0 <= k < |a| ==> s[k] == a[k];
  }

  lemma SplitOnceExact(s: string, c: char, a: string, b: string)
    ensures SplitOnce(s, c) == Some((a, b)) <==> Without(a, c) && s == a + [c] + b
  {
    var i := CharIndex(s, c);
    if i < |s| {
      assert s == s[..i] + [c] + s[i + 1..];
    }
    if Without(a, c) && s == a + [c] + b {
      CharIndexOfSeparator(a, c, b);
      assert s[..|a|] == a && s[|a| + 1..] == b;
    }
  }

  lemma SplitOnceNone(s: string, c: char)
    ensures SplitOnce(s, c).None? <==> Without(s, c)
  {
  }

  lemma SplitStep(a: string, c: char, b: string)
    requires Without(a, c)
    ensures Split(a + [c] + b, c) == [a] + Split(b, c)
    ensures Split(a, c) == [a]
  {
    CharIndexOfSeparator(a, c, b);
    var s := a + [c] + b;
    assert s[..|a|] == a && s[|a| + 1..] == b;
  }

  /** The first part, and what is left to split. */
  lemma SplitHead(s: string, c: char) returns (rest: string)
    ensures var parts := Split(s, c);
            && Without(parts[0], c)
            && if |parts| == 1 then s == parts[0] else s == parts[0] + [c] + rest && Split(rest, c) == parts[1..]
  {
    var i := CharIndex(s, c);
    if i == |s| {
      rest := "";
    } else {
      rest := s[i + 1..];
      assert s == s[..i] + [c] + rest;
    }
  }

  lemma SplitJoined(x: string, y: string, z: string, c: char)
    requires Without(x, c) && Without(y, c) && Without(z, c)
    ensures Split(x + [c] + (y + [c] + z), c) == [x, y, z]
  {
    SplitStep(x, c, y + [c] + z);
    SplitStep(y, c, z);
    SplitStep(z, c, "");
  }

  lemma JoinSplit(s: string, c: char)
    requires |Split(s, c)| == 3
    ensures var p := Split(s, c);
            Without(p[0], c) && Without(p[1], c) && Without(p[2], c) && s == p[0] + [c] + (p[1] + [c] + p[2])
  {
    var p := Split(s, c);
    var rest := SplitHead(s, c);
    var last := SplitHead(rest, c);
    var _ := SplitHead(last, c);
  }

  // ---------- Each field: parsing accepts exactly the direct form ----------

  lemma DigitsWithout(n: nat, width: nat, c: char)
    requires !IsDigit(c)
    ensures Without(Digits(n, width), c)
  {
  }

  lemma TwoDigits(n: nat)
    requires n < 100
    ensures Num(Digits(n, 2), 2) == Some(n) && |Digits(n, 2)| == 2
  {
    assert Power10(2) == 100;
    hide Digits, Num;
    NumExact(Digits(n, 2), 2, n);
    DigitsExact(n, 2, 100);
  }

  lemma FourDigits(n: nat)
    requires n < 10_000
    ensures Num(Digits(n, 4), 4) == Some(n)
  {
    assert Power10(4) == 10_000;
    hide Digits, Num;
    NumExact(Digits(n, 4), 4, n);
  }

  lemma ParseDateOf(c: Civil)
    requires ValidDate(c) && 1970 <= c.year <= 9999
    ensures ParseDate(DateString(c)) == Some(c)
  {
    hide Digits, Num, Split;
    var y, m, d := Digits(c.year, 4), Digits(c.month, 2), Digits(c.day, 2);
    assert DateString(c) == y + ['-'] + (m + ['-'] + d);
    DigitsWithout(c.year, 4, '-');
    DigitsWithout(c.month, 2, '-');
    DigitsWithout(c.day, 2, '-');
    SplitJoined(y, m, d, '-');
    FourDigits(c.year);
    TwoDigits(c.month);
    TwoDigits(c.day);
  }

  lemma ParsedDateIs(date: string)
    requires ParseDate(date).Some?
    ensures var c := ParseDate(date).value;
            ValidDate(c) && 1970 <= c.year <= 9999 && date == DateString(c)
  {
    hide Split, Digits;
    var p := Split(date, '-');
    JoinSplit(date, '-');
    var c := ParseDate(date).value;
    assert Power10(4) == 10_000;
    NumExact(p[0], 4, c.year);
    NumExact(p[1], 2, c.month);
    NumExact(p[2], 2, c.day);
    assert date == p[0] + "-" + p[1] + "-" + p[2];
  }

  lemma ParseClockOf(h: nat, mi: nat, s: nat)
    requires h <= 23 && mi <= 59 && s <= 59
    ensures ParseClock(ClockString(h, mi, s)) == Some(h * 3600 + mi * 60 + s)
  {
    hide Digits, Num, Split;
    var a, b, c := Digits(h, 2), Digits(mi, 2), Digits(s, 2);
    assert ClockString(h, mi, s) == a + [':'] + (b + [':'] + c);
    DigitsWithout(h, 2, ':');
    DigitsWithout(mi, 2, ':');
    DigitsWithout(s, 2, ':');
    SplitJoined(a, b, c, ':');
    TwoDigits(h);
    TwoDigits(mi);
    TwoDigits(s);
  }

  lemma ParsedClockIs(clock: string) returns (h: nat, mi: nat, s: nat)
    requires ParseClock(clock).Some?
    ensures h <= 23 && mi <= 59 && s <= 59
    ensures clock == ClockString(h, mi, s) && ParseClock(clock).value == h * 3600 + mi * 60 + s
  {
    hide Split, Digits;
    var p := Split(clock, ':');
    JoinSplit(clock, ':');
    h, mi, s := Num(p[0], 2).value, Num(p[1], 2).value, Num(p[2], 2).value;
    NumExact(p[0], 2, h);
    NumExact(p[1], 2, mi);
    NumExact(p[2], 2, s);
    assert clock == p[0] + ":" + p[1] + ":" + p[2];
  }

  lemma ParseOffsetOf(h: nat, m: nat)
    requires h <= 23 && m <= 59
    ensures |Digits(h, 2) + ":" + Digits(m, 2)| == 5
    ensures ParseOffset(Digits(h, 2) + ":" + Digits(m, 2)) == Some(h * 3600 + m * 60)
  {
    hide Digits, Num, SplitOnce;
    var a, b := Digits(h, 2), Digits(m, 2);
    TwoDigits(h);
    TwoDigits(m);
    DigitsWithout(h, 2, ':');
    SplitOnceExact(a + ":" + b, ':', a, b);
  }

  lemma ParsedOffsetIs(text: string) returns (h: nat, m: nat)
    requires ParseOffset(text).Some?
    ensures h <= 23 && m <= 59
    ensures text == Digits(h, 2) + ":" + Digits(m, 2) && ParseOffset(text).value == h * 3600 + m * 60
  {
    var halves := SplitOnce(text, ':').value;
    SplitOnceExact(text, ':', halves.0, halves.1);
    h, m := Num(halves.0, 2).value, Num(halves.1, 2).value;
    NumExact(halves.0, 2, h);
    NumExact(halves.1, 2, m);
  }

  predicate GoodZone(z: Zone) {
    !z.Utc? ==> z.hours <= 23 && z.minutes <= 59
  }

  lemma ParseSigned(clock: string, sign: char, offset: string)
    requires |clock| >= 1 && |offset| == 5 && sign in {'+', '-'} && offset[4] != 'Z' && ParseOffset(offset).Some?
    ensures ParseZone(clock + ([sign] + offset)) ==
            Some((clock, if sign == '-' then -ParseOffset(offset).value else ParseOffset(offset).value))
  {
    hide ParseOffset;
    var time := clock + ([sign] + offset);
    var n := |time|;
    assert time[n - 6] == sign && time[n - 1] == offset[4];
    assert time[n - 5..] == offset;
    assert time[..n - 6] == clock;
  }

  lemma ParseUtc(clock: string)
    ensures ParseZone(clock + "Z") == Some((clock, 0))
  {
    var time := clock + "Z";
    assert time[..|time| - 1] == clock;
  }

  lemma ParseZoneOf(clock: string, z: Zone)
    requires GoodZone(z) && |clock| >= 1
    ensures ParseZone(clock + ZoneString(z)) == Some((clock, ZoneSeconds(z)))
  {
    hide ParseOffset, Digits, ParseZone;
    if z.Utc? {
      ParseUtc(clock);
    } else {
      var offset := Digits(z.hours, 2) + ":" + Digits(z.minutes, 2);
      ParseOffsetOf(z.hours, z.minutes);
      assert offset[4] == Digits(z.minutes, 2)[|Digits(z.minutes, 2)| - 1];
      ParseSigned(clock, ZoneString(z)[0], offset);
    }
  }

  lemma ParsedZoneIs(time: string) returns (z: Zone)
    requires ParseZone(time).Some?
    ensures GoodZone(z) && time == ParseZone(time).value.0 + ZoneString(z) && ParseZone(time).value.1 == ZoneSeconds(z)
  {
    var n := |time|;
    if time[n - 1] == 'Z' {
      z := Utc;
      assert time == time[..n - 1] + "Z";
    } else {
      var h, m := ParsedOffsetIs(time[n - 5..]);
      z := if time[n - 6] == '-' then West(h, m) else East(h, m);
      assert time == time[..n - 6] + ([time[n - 6]] + time[n - 5..]);
    }
  }

  // ---------- The whole text ----------

  lemma DateStringWithoutT(c: Civil)
    requires c.year >= 0 && c.month >= 0 && c.day >= 0
    ensures Without(DateString(c), 'T')
  {
    DigitsWithout(c.year, 4, 'T');
    DigitsWithout(c.month, 2, 'T');
    DigitsWithout(c.day, 2, 'T');
  }

  /** Every acceptable stamp is parsed to the instant it names ... */
  lemma ParsesText(t: Stamp)
    requires Acceptable(t)
    ensures ParseEpoch(Text(t)) == Ok(Instant(t))
  {
    hide DaysFromCivil, ParseDate, ParseZone, ParseClock, DateString, ClockString, ZoneString, SplitOnce, Digits;
    var date := DateString(t.date);
    ParseDateOf(t.date);
    DateStringWithoutT(t.date);
    if t.moment.EndOfDay? {
      SplitOnceNone(Text(t), 'T');
    } else {
      var h, mi, s, z := t.moment.hour, t.moment.minute, t.moment.second, t.moment.zone;
      var clock := ClockString(h, mi, s);
      SplitOnceExact(Text(t), 'T', date, clock + ZoneString(z));
      ParseClockOf(h, mi, s);
      ClockNotEmpty(h, mi, s);
      ParseZoneOf(clock, z);
    }
  }

  lemma ClockNotEmpty(h: nat, mi: nat, s: nat)
    ensures |ClockString(h, mi, s)| >= 1
  {
  }

  /** ... and nothing else is accepted. */
  lemma ParsedTextIs(input: string) returns (t: Stamp)
    requires ParseEpoch(input).Ok?
    ensures Acceptable(t) && input == Text(t) && ParseEpoch(input).value == Instant(t)
  {
    hide DaysFromCivil, ParseDate, ParseZone, ParseClock, SplitOnce, DateString, ClockString, ZoneString, DaysInMonth;
    var halves := SplitOnce(input, 'T');
    if halves.None? {
      ParsedDateIs(input);
      t := Stamp(ParseDate(input).value, EndOfDay);
    } else {
      var date, time := halves.value.0, halves.value.1;
      SplitOnceExact(input, 'T', date, time);
      ParsedDateIs(date);
      var z := ParsedZoneIs(time);
      var clock := ParseZone(time).value.0;
      var h, mi, s := ParsedClockIs(clock);
      t := Stamp(ParseDate(date).value, At(h, mi, s, z));
      assert input == Text(t);
    }
  }

  /** The strict grammar, both ways: a text parses to an instant exactly when it is the written
      form of an acceptable stamp naming that instant. */
  lemma ParseExact(input: string, epoch: int)
    ensures ParseEpoch(input) == Ok(epoch) <==>
            exists t: Stamp :: Acceptable(t) && input == Text(t) && epoch == Instant(t)
  {
    if ParseEpoch(input) == Ok(epoch) {
      var t := ParsedTextIs(input);
    }
    if t: Stamp :| Acceptable(t) && input == Text(t) && epoch == Instant(t) {
      ParsesText(t);
    }
  }

  /** A date alone means the last second of that day in UTC, and an offset east of UTC is taken off. */
  lemma DateAloneIsDayEnd(c: Civil, h: nat, m: nat)
    requires ValidDate(c) && 1970 <= c.year <= 9999 && h <= 23 && m <= 59
    ensures ParseEpoch(DateString(c)) == Ok(DaysFromCivil(c) * 86_400 + 86_399)
    ensures ParseEpoch(DateString(c) + "T" + (ClockString(0, 0, 0) + "Z")) == Ok(DaysFromCivil(c) * 86_400)
    ensures ParseEpoch(DateString(c) + "T" + (ClockString(0, 0, 0) + ("+" + (Digits(h, 2) + ":" + Digits(m, 2)))))
         == Ok(DaysFromCivil(c) * 86_400 - h * 3600 - m * 60)
  {
    hide DaysFromCivil, ParseEpoch, DateString, ClockString, Digits;
    ParsesText(Stamp(c, EndOfDay));
    ParsesText(Stamp(c, At(0, 0, 0, Utc)));
    ParsesText(Stamp(c, At(0, 0, 0, East(h, m))));
  }

  // ---------- Printing ----------

  /** 9999-12-31T23:59:59Z. */
  const LAST_EPOCH := 253_402_300_799

  lemma EpochParts(epoch: int)
    ensures var days, secs := epoch / 86_400, epoch % 86_400;
            && epoch == days * 86_400 + secs && 0 <= secs < 86_400
            && secs / 3600 * 3600 + secs % 3600 / 60 * 60 + secs % 60 == secs
            && 0 <= secs / 3600 <= 23 && 0 <= secs % 3600 / 60 <= 59 && 0 <= secs % 60 <= 59
  {
    var secs := epoch % 86_400;
    assert secs == secs / 3600 * 3600 + secs % 3600;
    assert secs % 3600 == secs % 3600 / 60 * 60 + secs % 3600 % 60;
    assert secs % 3600 % 60 == secs % 60;
  }

  lemma BoundaryYears()
    ensures NewYear(1970) == 0 && NewYear(10_000) == 2_932_897
  {
    hide NewYear;
    NewYearFormula(1969);
    NewYearFormula(9999);
  }

  lemma YearRange(days: int)
    ensures ValidDate(CivilFromDays(days))
    ensures CivilFromDays(days).year >= 1970 <==> days >= 0
    ensures CivilFromDays(days).year <= 9999 <==> days <= 2_932_896
  {
    hide DaysFromCivil, CivilFromDays, NewYear, ValidDate;
    DaysRoundTrip(days);
    BoundaryYears();
    var c := CivilFromDays(days);
    YearFromDays(c, 1970);
    YearFromDays(c, 10_000);
  }

  /** The stamp `format_utc` prints. */
  function UtcStamp(epoch: int): Stamp {
    var secs := epoch % 86_400;
    Stamp(CivilFromDays(epoch / 86_400), At(secs / 3600, secs % 3600 / 60, secs % 60, Utc))
  }

  lemma PrintedAs(c: Civil, h: nat, mi: nat, s: nat)
    requires c.year >= 0 && c.month >= 0 && c.day >= 0
    ensures Padded(c.year, 4) + "-" + Padded(c.month, 2) + "-" + Padded(c.day, 2)
              + "T" + Padded(h, 2) + ":" + Padded(mi, 2) + ":" + Padded(s, 2) + "Z"
            == DateString(c) + "T" + (ClockString(h, mi, s) + "Z")
  {
    hide Digits;
  }

  lemma UtcStampInstant(epoch: int)
    requires 0 <= epoch <= LAST_EPOCH
    ensures Acceptable(UtcStamp(epoch))
    ensures Instant(UtcStamp(epoch)) == epoch
  {
    EpochParts(epoch);
    YearRange(epoch / 86_400);
    DaysRoundTrip(epoch / 86_400);
    hide DaysFromCivil, CivilFromDays, DaysInMonth;
  }

  lemma FormatIsText(epoch: int)
    requires 0 <= epoch <= LAST_EPOCH
    ensures Acceptable(UtcStamp(epoch))
    ensures FormatUtc(epoch) == Text(UtcStamp(epoch))
    ensures Instant(UtcStamp(epoch)) == epoch
  {
    hide Instant, CivilFromDays, DaysInMonth, Digits, Padded, DateString, ClockString;
    UtcStampInstant(epoch);
    var t := UtcStamp(epoch);
    PrintedAs(t.date, t.moment.hour, t.moment.minute, t.moment.second);
  }

  /** Printing and parsing are inverse on every second from 1970 to 9999. */
  lemma FormatRoundTrip(epoch: int)
    requires 0 <= epoch <= LAST_EPOCH
    ensures ParseEpoch(FormatUtc(epoch)) == Ok(epoch)
  {
    hide *;
    FormatIsText(epoch);
    ParsesText(UtcStamp(epoch));
  }

  /** The year is the only part of an accepted text before its first dash. */
  lemma TextYear(t: Stamp)
    requires Acceptable(t)
    ensures |Text(t)| > 4 && Text(t)[..4] == Digits(t.date.year, 4) && Text(t)[4] == '-'
    ensures |Digits(t.date.year, 4)| == 4
  {
    assert Power10(4) == 10_000;
    DigitsExact(t.date.year, 4, 10_000);
    hide Digits;
  }

  lemma FormatYear(epoch: int)
    ensures Padded(CivilFromDays(epoch / 86_400).year, 4) + "-" <= FormatUtc(epoch)
  {
    hide CivilFromDays, Padded;
  }

  /** A printed year that starts an accepted text is that text's year. */
  lemma PrintedYear(t: Stamp, y: int)
    requires Acceptable(t) && Padded(y, 4) + "-" <= Text(t)
    ensures y == t.date.year
  {
    hide Text, DaysInMonth;
    TextYear(t);
    var s, printed := Text(t), Padded(y, 4);
    assert printed[0] == s[0] == s[..4][0];
    assert y >= 0;
    assert forall k :: 0 <= k < |printed| ==> s[k] == (printed + "-")[k] == printed[k] && IsDigit(s[k]);
    assert !IsDigit(s[4]);
    assert |printed| == 4 && s[..4] == printed;
    ValueOfDigits(y, 4);
    ValueOfDigits(t.date.year, 4);
  }

  /** Outside those years the printed text is not accepted. */
  lemma FormatOutOfRange(epoch: int)
    requires epoch < 0 || epoch > LAST_EPOCH
    ensures ParseEpoch(FormatUtc(epoch)).Err?
  {
    hide ParseEpoch, FormatUtc, Text, Instant, CivilFromDays, DaysFromCivil, Padded, DaysInMonth;
    YearRange(epoch / 86_400);
    if ParseEpoch(FormatUtc(epoch)).Ok? {
      var t := ParsedTextIs(FormatUtc(epoch));
      FormatYear(epoch);
      PrintedYear(t, CivilFromDays(epoch / 86_400).year);
    }
  }

  /** Normalising an accepted text twice is normalising it once exactly when the instant it names
      stays within the years the parser accepts; an offset can move it out. */
  lemma NormalizeIdempotent(input: string)
    requires ParseEpoch(input).Ok?
    ensures var once := Normalize(input).value;
            Normalize(once) == Ok(once) <==> 0 <= ParseEpoch(input).value <= LAST_EPOCH
  {
    hide ParseEpoch, FormatUtc;
    var epoch := ParseEpoch(input).value;
    if 0 <= epoch <= LAST_EPOCH {
      FormatRoundTrip(epoch);
    } else {
      FormatOutOfRange(epoch);
    }
  }

  /** 1970-01-01T00:00:00+01:00. */
  const SAMPLE := Stamp(Civil(1970, 1, 1), At(0, 0, 0, East(1, 0)))

  /** An accepted text that names an instant before 1970, so that its normal form is refused. */
  lemma OffsetLeavesRange()
    ensures Acceptable(SAMPLE) && ParseEpoch(Text(SAMPLE)) == Ok(-3600)
    ensures Normalize(FormatUtc(-3600)).Err?
  {
    assert Acceptable(SAMPLE) && Instant(SAMPLE) == -3600;
    hide ParseEpoch, Text, FormatUtc, Instant;
    ParsesText(SAMPLE);
    FormatOutOfRange(-3600);
  }
}
