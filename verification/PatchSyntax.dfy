/** The pieces of a unified diff (POSIX.1-2008 XCU diff, "Diff -u or -U Output
    Format"): hunks, their rendering, and the two recognisers the reader uses, the
    hunk-header pattern and the header path. */
module PatchSyntax {
  import opened Text

  /** One body line of a hunk. */
  datatype Op =
    | Keep(text: string)
    | Del(text: string)
    | Add(text: string)
    | NoNewline

  datatype Hunk = Hunk(oldStart: nat, oldCount: nat, newStart: nat, newCount: nat, heading: string, ops: seq<Op>)

  /** A file is named with a/ or b/ in front, as git does, or bare, as diff does. */
  datatype Path = DevNull | File(name: string) | Bare(name: string)

  const DEV_NULL := "/dev/null"

  // ----- rendering -----

  function RenderOp(op: Op): (line: string)
    ensures line != ""
  {
    match op
    case Keep(t) => " " + t
    case Del(t) => "-" + t
    case Add(t) => "+" + t
    case NoNewline => "\\ No newline at end of file"
  }

  function RenderOps(ops: seq<Op>): (lines: seq<string>)
    ensures |lines| == |ops|
    ensures forall k :: 0 <= k < |ops| ==> lines[k] == RenderOp(ops[k])
  {
    if ops == [] then [] else [RenderOp(ops[0])] + RenderOps(ops[1..])
  }

  lemma DecimalOneLine(n: nat)
    ensures OneLine(Decimal(n))
  {
    var s := Decimal(n);
    assert forall c <- s :: DIGITS.Has(c);
  }

  /** A count of 1 is omitted. */
  function RenderRange(start: nat, count: nat): (r: string)
    ensures OneLine(r)
  {
    DecimalOneLine(start);
    DecimalOneLine(count);
    if count == 1 then Decimal(start) else Decimal(start) + ([','] + Decimal(count))
  }

  function RenderSide(sign: char, start: nat, count: nat): (r: string)
    ensures sign != '\n' ==> OneLine(r)
  {
    [' ', sign] + RenderRange(start, count)
  }

  function RenderHeader(h: Hunk): (line: string)
    ensures line != "" && (OneLine(h.heading) ==> OneLine(line))
  {
    "@@" + (RenderSide('-', h.oldStart, h.oldCount) + (RenderSide('+', h.newStart, h.newCount) + (" @@" + h.heading)))
  }

  function RenderHunk(h: Hunk): (lines: seq<string>)
    ensures |lines| == 1 + |h.ops|
  {
    [RenderHeader(h)] + RenderOps(h.ops)
  }

  function RenderHunks(hs: seq<Hunk>): seq<string>
  {
    if hs == [] then [] else RenderHunk(hs[0]) + RenderHunks(hs[1..])
  }

  function RenderPath(p: Path, side: char): string
  {
    match p
    case DevNull => DEV_NULL
    case File(name) => [side, '/'] + name
    case Bare(name) => name
  }

  // ----- the hunk header pattern -----

  /** The largest value of a 64-bit Go int; an out-of-range start saturates there,
      because the parse error of the number is ignored. */
  const MAX_INT: nat := 0x7FFF_FFFF_FFFF_FFFF

  /** Where an optional ",digits" group at position i of a line ends. */
  function SkipCount(line: string, i: nat): (j: nat)
    requires i <= |line|
    ensures i <= j <= |line|
  {
    if i < |line| && line[i] == ',' && SpanFrom(line, i + 1, DIGITS) > i + 1 then SpanFrom(line, i + 1, DIGITS) else i
  }

  /** A range found in a line: its first number, and where the range ends. */
  datatype Range = Range(from: nat, to: nat, end: nat)

  /** Blanks, a sign, digits and an optional count, all from position i on. */
  function ScanRange(line: string, i: nat, sign: char): (r: Option<Range>)
    requires i <= |line|
    ensures r.Some? ==> i < r.value.from < r.value.to <= r.value.end <= |line|
  {
    var b := SpanFrom(line, i, BLANKS);
    if b == i || b == |line| || line[b] != sign then None
    else
      var d := SpanFrom(line, b + 1, DIGITS);
      if d == b + 1 then None else Some(Range(b + 1, d, SkipCount(line, d)))
  }

  lemma ScannedDigits(line: string, i: nat, sign: char)
    requires i <= |line| && ScanRange(line, i, sign).Some?
    ensures var r := ScanRange(line, i, sign).value; AllDigits(line[r.from..r.to])
  {
    SpanFromHas(line, SpanFrom(line, i, BLANKS) + 1, DIGITS);
  }

  function Saturate(n: nat): nat
  {
    if n > MAX_INT then MAX_INT else n
  }

  /** The two ranges of a hunk header and the closing mark; the first range, or None when the
      pattern does not match. */
  function ScanHeader(line: string): (r: Option<Range>)
    ensures r.Some? ==> |line| > 2 && ScanRange(line, 2, '-') == r
  {
    if !StartsWith(line, "@@") || ScanRange(line, 2, '-').None? then None
    else
      var one := ScanRange(line, 2, '-').value;
      var two := ScanRange(line, one.end, '+');
      if two.None? then None
      else
        var b := SpanFrom(line, two.value.end, BLANKS);
        if b > two.value.end && b + 2 <= |line| && line[b] == '@' && line[b + 1] == '@' then Some(one) else None
  }

  /** The submatch that is used: the old start. */
  function HeaderStart(line: string): Option<nat>
  {
    match ScanHeader(line)
    case None => None
    case Some(r) =>
      ScannedDigits(line, 2, '-');
      Some(Saturate(Value(line[r.from..r.to])))
  }

  predicate IsHeader(line: string)
  {
    ScanHeader(line).Some?
  }

  lemma SkipRenderedCount(line: string, i: nat, count: nat, tail: string)
    requires tail != "" && tail[0] == ' '
    requires i <= |line| && line[i..] == (if count == 1 then tail else [','] + (Decimal(count) + tail))
    ensures line[SkipCount(line, i)..] == tail
    ensures i < |line| && !DIGITS.Has(line[i])
  {
    if count != 1 {
      StandsAt(line, i, [','], Decimal(count) + tail);
      StandsAt(line, i + 1, Decimal(count), tail);
      var e := i + 1 + |Decimal(count)|;
      assert line[e] == line[e..][0];
      assert forall k :: i + 1 <= k < e ==> line[k] == Decimal(count)[k - i - 1];
      SpanFromExact(line, i + 1, e, DIGITS);
    } else {
      assert line[i] == line[i..][0];
    }
  }

  /** The parts of a rendered side, in front of tail. */
  lemma SideParts(sign: char, start: nat, count: nat, tail: string)
    ensures RenderSide(sign, start, count) + tail
            == [' ', sign] + (Decimal(start) + (if count == 1 then tail else [','] + (Decimal(count) + tail)))
  {
    hide Decimal;
    Assoc([' ', sign], RenderRange(start, count), tail);
    if count != 1 {
      Assoc(Decimal(start), [','] + Decimal(count), tail);
      Assoc([','], Decimal(count), tail);
    }
  }

  lemma ScanParts(line: string, i: nat, sign: char, digits: string, rest: string)
    requires sign == '-' || sign == '+'
    requires digits != "" && AllDigits(digits) && rest != "" && !DIGITS.Has(rest[0])
    requires i <= |line| && line[i..] == [' ', sign] + (digits + rest)
    ensures var d := i + 2 + |digits|;
            && d <= |line| && line[d..] == rest && line[i + 2..d] == digits
            && ScanRange(line, i, sign) == Some(Range(i + 2, d, SkipCount(line, d)))
  {
    hide SkipCount;
    var mark := [' ', sign];
    StandsAt(line, i, mark, digits + rest);
    StandsAt(line, i + 2, digits, rest);
    var d := i + 2 + |digits|;
    assert line[d] == line[d..][0];
    assert line[i] == mark[0] && line[i + 1] == mark[1];
    assert forall k :: i + 2 <= k < d ==> line[k] == digits[k - i - 2];
    SpanFromExact(line, i, i + 1, BLANKS);
    SpanFromExact(line, i + 2, d, DIGITS);
  }

  lemma ScanRenderedSide(line: string, i: nat, sign: char, start: nat, count: nat, tail: string)
    requires sign == '-' || sign == '+'
    requires tail != "" && tail[0] == ' '
    requires i <= |line| && line[i..] == RenderSide(sign, start, count) + tail
    ensures var r := ScanRange(line, i, sign);
            r.Some? && line[r.value.from..r.value.to] == Decimal(start) && line[r.value.end..] == tail
  {
    hide Decimal, RenderSide, ScanRange, SkipCount;
    var rest := if count == 1 then tail else [','] + (Decimal(count) + tail);
    SideParts(sign, start, count, tail);
    ScanParts(line, i, sign, Decimal(start), rest);
    SkipRenderedCount(line, i + 2 + |Decimal(start)|, count, tail);
  }

  lemma ClosingMark(line: string, i: nat, heading: string)
    requires i <= |line| && line[i..] == " @@" + heading
    ensures SpanFrom(line, i, BLANKS) == i + 1 && i + 3 <= |line| && line[i + 1] == '@' && line[i + 2] == '@'
  {
    var mark := " @@";
    StandsAt(line, i, mark, heading);
    assert line[i] == mark[0] && line[i + 1] == mark[1] && line[i + 2] == mark[2];
    SpanFromExact(line, i, i + 1, BLANKS);
  }

  /** A rendered header is recognised and gives back its old start. */
  lemma HeaderRoundTrip(h: Hunk)
    ensures IsHeader(RenderHeader(h)) && HeaderStart(RenderHeader(h)) == Some(Saturate(h.oldStart))
  {
    hide ScanRange, SkipCount, RenderSide, Decimal, Value;
    var tail := " @@" + h.heading;
    var newSide := RenderSide('+', h.newStart, h.newCount) + tail;
    var oldSide := RenderSide('-', h.oldStart, h.oldCount) + newSide;
    var line := RenderHeader(h);
    assert line[0] == '@' && line[1] == '@' && line[2..] == oldSide;
    SideBlank('+', h.newStart, h.newCount, tail);
    ScanRenderedSide(line, 2, '-', h.oldStart, h.oldCount, newSide);
    var one := ScanRange(line, 2, '-').value;
    ScanRenderedSide(line, one.end, '+', h.newStart, h.newCount, tail);
    var two := ScanRange(line, one.end, '+').value;
    ClosingMark(line, two.end, h.heading);
    ValueDecimal(h.oldStart);
  }

  lemma SideBlank(sign: char, start: nat, count: nat, tail: string)
    ensures var s := RenderSide(sign, start, count) + tail; s != "" && s[0] == ' '
  {
  }

  // ----- header paths -----

  /** Where the first tab stands, from position i on, or where s ends. */
  function TabIndex(s: string, i: nat): (j: nat)
    requires i <= |s|
    ensures i <= j <= |s|
    decreases |s| - i
  {
    if i == |s| || s[i] == '\t' then i else TabIndex(s, i + 1)
  }

  lemma {:induction false} TabIndexAt(s: string, i: nat)
    requires i <= |s|
    ensures forall k :: i <= k < TabIndex(s, i) ==> s[k] != '\t'
    ensures TabIndex(s, i) < |s| ==> s[TabIndex(s, i)] == '\t'
    decreases |s| - i
  {
    if i < |s| && s[i] != '\t' {
      TabIndexAt(s, i + 1);
    }
  }

  function CutAtTab(s: string): (t: string)
    ensures t <= s
  {
    s[..TabIndex(s, 0)]
  }

  /** The payload without surrounding white space and without a tab and what follows it. */
  function Token(raw: string): string
  {
    TrimSpace(CutAtTab(TrimSpace(raw)))
  }

  function StripSide(token: string): string
  {
    if token == DEV_NULL then token
    else if |token| > 2 && token[1] == '/' && (token[0] == 'a' || token[0] == 'b') then token[2..]
    else token
  }

  /** parsePatchPath. */
  function ParsePath(raw: string): string
  {
    StripSide(Token(raw))
  }

  /** Tab, line feed, vertical tab, form feed and carriage return, which follow one another,
      and the space. */
  predicate WhiteSpace(c: char)
  {
    '\t' <= c <= '\r' || c == ' '
  }

  /** A file name that survives in a header line. */
  predicate CleanName(name: string)
  {
    name != "" && '\t' !in name && !WhiteSpace(name[|name| - 1])
  }

  /** What trimming leaves: nothing but white space goes, and all of it at both ends. */
  lemma TrimSpaceExactly(s: string)
    ensures |TrimSpace(s)| <= |s|
    ensures TrimSpace(s) != "" ==> !SPACES.Has(TrimSpace(s)[0]) && !SPACES.Has(TrimSpace(s)[|TrimSpace(s)| - 1])
    ensures TrimSpace(s) == s <==> s == "" || (!SPACES.Has(s[0]) && !SPACES.Has(s[|s| - 1]))
  {
    var i := SpanFrom(s, 0, SPACES);
    var t := s[i..];
    SpanFromHas(s, 0, SPACES);
    SpanFromStops(s, 0, SPACES);
    TrimEndAt(t, |t|);
    if s != "" && !SPACES.Has(s[0]) {
      assert i == 0 && t == s;
    }
  }

  /** White space around a payload makes no difference. */
  lemma TrimSpaceAround(lead: string, s: string, trail: string)
    requires (forall c <- lead :: SPACES.Has(c)) && (forall c <- trail :: SPACES.Has(c))
    requires s != "" ==> !SPACES.Has(s[0]) && !SPACES.Has(s[|s| - 1])
    ensures TrimSpace(lead + s + trail) == s
  {
    var all := lead + s + trail;
    assert forall k :: 0 <= k < |lead| ==> all[k] == lead[k];
    assert forall k :: |lead| <= k < |lead| + |s| ==> all[k] == s[k - |lead|];
    assert forall k :: |lead| + |s| <= k < |all| ==> all[k] == trail[k - |lead| - |s|];
    if s == "" {
      SpanFromExact(all, 0, |all|, SPACES);
    } else {
      SpanFromExact(all, 0, |lead|, SPACES);
      var rest := all[|lead|..];
      assert rest == s + trail;
      TrimEndAt(rest, |rest|);
      TrimEndBack(rest, |rest|, |s|);
    }
  }

  /** What is left of the payload without white space around it and without a tab and what
      follows it. */
  lemma TokenExactly(raw: string)
    ensures |Token(raw)| <= |raw|
    ensures Token(raw) == raw <==> '\t' !in raw && (raw == "" || (!SPACES.Has(raw[0]) && !SPACES.Has(raw[|raw| - 1])))
  {
    TrimSpaceExactly(raw);
    var t := TrimSpace(raw);
    TabIndexAt(t, 0);
    TrimSpaceExactly(CutAtTab(t));
  }

  /** The token of a payload that starts with two plain characters is a prefix of it. */
  lemma TokenStarts(raw: string)
    requires |raw| >= 2 && !SPACES.Has(raw[0]) && !SPACES.Has(raw[1])
    ensures 2 <= |Token(raw)| && Token(raw) <= raw
  {
    TrimSpaceFront(raw);
    TrimEndAt(raw, |raw|);
    var t1 := TrimRight(raw);
    TabIndexAt(t1, 0);
    var t2 := CutAtTab(t1);
    assert |t2| >= 2 && t2[0] == raw[0] && t2[1] == raw[1];
    TrimSpaceFront(t2);
    TrimEndAt(t2, |t2|);
  }

  lemma TrimSpaceFront(s: string)
    requires s != "" ==> !SPACES.Has(s[0])
    ensures TrimSpace(s) == TrimRight(s)
  {
    assert s[0..] == s;
  }

  lemma StripToken(name: string, side: char, token: string)
    requires side == 'a' || side == 'b'
    requires 2 <= |token| && token <= [side, '/'] + name
    ensures |token| == 2 ==> StripSide(token) == token == [side, '/']
    ensures |token| > 2 ==> (StripSide(token) == name <==> token == [side, '/'] + name)
  {
    var raw := [side, '/'] + name;
    assert token[0] == raw[0] && token[1] == raw[1];
    assert token == raw[..|token|];
    assert DEV_NULL[0] == '/';
    assert raw[2..] == name;
    if |token| > 2 && token[2..] == name {
      assert |token| == |raw|;
    }
  }

  /** Reading back a rendered path gives the name exactly when the name is clean. */
  lemma {:induction false} PathRoundTrip(name: string, side: char)
    requires side == 'a' || side == 'b'
    ensures ParsePath(RenderPath(File(name), side)) == name <==> CleanName(name)
  {
    var raw := [side, '/'] + name;
    TokenExactly(raw);
    TokenStarts(raw);
    StripToken(name, side, Token(raw));
    assert '\t' in raw <==> '\t' in name;
    if name != "" {
      assert raw[|raw| - 1] == name[|name| - 1];
    }
  }

  /** White space around it, and a tab and what follows it, a timestamp say, are not part of
      the path. */
  lemma StampIsCut(lead: string, path: string, stamp: string)
    requires forall c <- lead :: SPACES.Has(c)
    requires path != "" && !SPACES.Has(path[0]) && !SPACES.Has(path[|path| - 1]) && '\t' !in path
    ensures Token(lead + path + "\t" + stamp) == path == Token(path)
  {
    var inner := "\t" + stamp;
    var e := TrimEnd(inner, |inner|);
    TrimEndAt(inner, |inner|);
    TrimEndHas(inner, |inner|);
    var kept := path + inner[..e];
    assert inner == inner[..e] + inner[e..];
    Assoc(lead + path, "\t", stamp);
    Assoc(lead + path, inner[..e], inner[e..]);
    Assoc(lead, path, inner[..e]);
    assert kept[0] == path[0] && kept[|kept| - 1] == if e == 0 then path[|path| - 1] else inner[e - 1];
    TrimSpaceAround(lead, kept, inner[e..]);
    TabIndexAt(kept, 0);
    assert forall k :: 0 <= k < |path| ==> kept[k] == path[k];
    assert e > 0 ==> kept[|path|] == '\t';
    assert CutAtTab(kept) == path;
    TrimSpaceExactly(path);
    TokenExactly(path);
  }

  /** A clean name is read back with or without a timestamp. */
  lemma StampedPath(name: string, side: char, stamp: string)
    requires (side == 'a' || side == 'b') && CleanName(name)
    ensures ParsePath(RenderPath(File(name), side) + "\t" + stamp) == name
  {
    var raw := [side, '/'] + name;
    assert raw[|raw| - 1] == name[|name| - 1];
    assert !SPACES.Has(raw[0]) && !SPACES.Has(raw[|raw| - 1]) && '\t' !in raw;
    assert ParsePath(raw + "\t" + stamp) == StripSide(Token(raw + "\t" + stamp));
    assert ParsePath(raw) == StripSide(Token(raw));
    assert RenderPath(File(name), side) == raw;
    assert "" + raw == raw;
    hide *;
    PathRoundTrip(name, side);
    StampIsCut("", raw, stamp);
  }

  /** The path begins with a/ or b/ and has more than that. */
  predicate HasSide(path: string)
  {
    |path| > 2 && path[1] == '/' && (path[0] == 'a' || path[0] == 'b')
  }

  /** A name that is read as it is. */
  predicate BareName(name: string)
  {
    '\t' !in name && (name == "" || (!WhiteSpace(name[0]) && !WhiteSpace(name[|name| - 1]))) && !HasSide(name)
  }

  /** A path without a/ or b/ in front is read as it is, and no other path is. */
  lemma BareRoundTrip(name: string)
    ensures ParsePath(name) == name <==> BareName(name)
  {
    TokenExactly(name);
    assert DEV_NULL[1] == 'd';
    if Token(name) == name && HasSide(name) {
      assert |StripSide(name)| < |name|;
    }
  }

  /** And so it is with white space in front and a timestamp behind. */
  lemma StampedBarePath(lead: string, name: string, stamp: string)
    requires forall c <- lead :: WhiteSpace(c)
    requires BareName(name) && name != ""
    ensures ParsePath(lead + name + "\t" + stamp) == name
  {
    StampIsCut(lead, name, stamp);
    BareRoundTrip(name);
    TokenExactly(name);
  }

  lemma ParseDevNull(stamp: string)
    ensures ParsePath(DEV_NULL) == DEV_NULL == ParsePath(DEV_NULL + "\t" + stamp)
  {
    assert |DEV_NULL| == 9 && DEV_NULL[0] == '/' && DEV_NULL[1] == 'd' && DEV_NULL[8] == 'l';
    StampedBarePath("", DEV_NULL, stamp);
    BareRoundTrip(DEV_NULL);
    assert "" + DEV_NULL == DEV_NULL;
  }
}
