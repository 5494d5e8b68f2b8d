/** Bounding a tool output by lines and bytes, and cutting a text between characters. */
module Truncate {
  import opened Text
  import opened Utf8

  // ----- cutToBytes -----

  /** utf8.RuneLen of the rune the loop reads: an invalid byte reads as U+FFFD, which is three
      bytes long, although the loop advances by one. */
  function RuneLen(s: string): (n: nat)
    requires s != ""
    ensures 0 < n
  {
    if Width(s) == 0 then 3 else Width(s)
  }

  /** The count the loop has reached when it stops, and the position in s it has read up to. */
  function CutLength(s: string, budget: int): nat
  {
    if s == "" || RuneLen(s) > budget then 0 else RuneLen(s) + CutLength(s[Advance(s)..], budget - RuneLen(s))
  }

  function CutPosition(s: string, budget: int): (k: nat)
    ensures k <= |s|
  {
    if s == "" || RuneLen(s) > budget then 0 else Advance(s) + CutPosition(s[Advance(s)..], budget - RuneLen(s))
  }

  /** None: the slice is out of range. */
  function Cut(s: string, budget: int): Option<string>
  {
    if CutLength(s, budget) <= |s| then Some(s[..CutLength(s, budget)]) else None
  }

  method CutToBytes(s: string, budget: int) returns (r: Option<string>)
    ensures r == Cut(s, budget)
  {
    hide Width;
    if budget <= 0 {
      assert s[..0] == "";
      return Some("");
    }
    var n, i := 0, 0;
    while i < |s|
      invariant 0 <= i <= |s| && 0 <= n <= budget
      invariant CutLength(s, budget) == n + CutLength(s[i..], budget - n)
    {
      var w := RuneLen(s[i..]);
      if n + w > budget {
        break;
      }
      n := n + w;
      assert s[i..][Advance(s[i..])..] == s[i + Advance(s[i..])..];
      i := i + Advance(s[i..]);
    }
    return if n > |s| then None else Some(s[..n]);
  }

  /** The count never passes the budget, so a cut of a text at least as long is in range. */
  lemma {:induction false} CutSafe(s: string, budget: int)
    ensures CutLength(s, budget) <= if budget < 0 then 0 else budget
    ensures budget <= |s| ==> Cut(s, budget).Some?
  {
    if s != "" && RuneLen(s) <= budget {
      CutSafe(s[Advance(s)..], budget - RuneLen(s));
    }
  }

  lemma WidthOfPrefix(s: string, k: nat)
    requires s != "" && Advance(s) <= k <= |s|
    ensures Width(s[..k]) == Width(s)
  {
    var p := s[..k];
    assert p[0] == s[0];
    assert k >= 2 ==> p[1] == s[1];
    assert k >= 3 ==> p[2] == s[2];
    assert k >= 4 ==> p[3] == s[3];
  }

  /** On valid UTF-8 the cut is the longest prefix of whole characters within the budget. */
  lemma {:induction false} CutLongest(s: string, budget: int, k: nat)
    requires Valid(s) && budget >= 0
    ensures CutLength(s, budget) <= |s| && CutLength(s, budget) <= budget
    ensures Boundary(s, CutLength(s, budget))
    ensures Boundary(s, k) && k <= budget ==> k <= CutLength(s, budget)
  {
    if s != "" && RuneLen(s) <= budget {
      CutLongest(s[Advance(s)..], budget - RuneLen(s), if k >= Advance(s) then k - Advance(s) else 0);
    }
  }

  /** How many bytes of s the loop reads as U+FFFD. */
  function InvalidBytes(s: string): nat
  {
    if s == "" then 0 else (if Width(s) == 0 then 1 else 0) + InvalidBytes(s[Advance(s)..])
  }

  lemma {:induction false} NoInvalidBytes(s: string)
    ensures InvalidBytes(s) == 0 <==> Valid(s)
  {
    if s != "" {
      NoInvalidBytes(s[Advance(s)..]);
    }
  }

  /** The cut runs ahead of the loop by two bytes for each invalid byte read. */
  lemma {:induction false} CutDisplacement(s: string, budget: int)
    ensures CutLength(s, budget) == CutPosition(s, budget) + 2 * InvalidBytes(s[..CutPosition(s, budget)])
  {
    hide Width;
    var k := CutPosition(s, budget);
    if s == "" || RuneLen(s) > budget {
      assert s[..k] == "";
    } else {
      var a := Advance(s);
      CutDisplacement(s[a..], budget - RuneLen(s));
      WidthOfPrefix(s, k);
      assert s[..k][a..] == s[a..][..k - a];
    }
  }

  lemma {:induction false} PositionIsBoundary(s: string, budget: int)
    ensures Boundary(s, CutPosition(s, budget))
  {
    if s != "" && RuneLen(s) <= budget {
      PositionIsBoundary(s[Advance(s)..], budget - RuneLen(s));
    }
  }

  lemma {:induction false} BoundaryBeyond(s: string, k: nat, d: nat)
    requires k <= |s| && Boundary(s, k)
    ensures Boundary(s, k + d) <==> Boundary(s[k..], d)
  {
    hide Width;
    if k == 0 {
      assert s[k..] == s;
    } else {
      var a := Advance(s);
      BoundaryBeyond(s[a..], k - a, d);
      assert s[a..][k - a..] == s[k..];
    }
  }

  /** The cut is where the loop stands exactly when every byte read so far was valid. */
  lemma CutIsPositionExactly(s: string, budget: int)
    ensures CutPosition(s, budget) <= CutLength(s, budget)
    ensures CutLength(s, budget) == CutPosition(s, budget) <==> Valid(s[..CutPosition(s, budget)])
  {
    CutDisplacement(s, budget);
    NoInvalidBytes(s[..CutPosition(s, budget)]);
  }

  /** When a cut breaks no character: exactly when two bytes for each invalid byte read are
      whole characters of what the loop has not read; so always if it read none. */
  lemma CutOnBoundaryExactly(s: string, budget: int)
    ensures var k := CutPosition(s, budget);
            Boundary(s, CutLength(s, budget)) <==> Boundary(s[k..], 2 * InvalidBytes(s[..k]))
  {
    var k := CutPosition(s, budget);
    CutDisplacement(s, budget);
    PositionIsBoundary(s, budget);
    BoundaryBeyond(s, k, 2 * InvalidBytes(s[..k]));
  }

  /** One invalid byte and a budget larger than the text: the slice is out of range. */
  lemma CutOutOfRange()
    ensures Cut([0x80 as char], 3).None?
  {
    assert [0x80 as char][1..] == "";
  }

  /** An invalid byte before it makes the cut split a valid two-byte character. */
  lemma CutSplitsCharacter()
    ensures var s := [0x80 as char, 'a', 0xC3 as char, 0xA9 as char];
            Cut(s, 3) == Some(s[..3]) && Boundary(s, 2) && Boundary(s, 4) && !Boundary(s, 3)
  {
    var s := [0x80 as char, 'a', 0xC3 as char, 0xA9 as char];
    var s1 := s[1..];
    var s2 := s1[1..];
    assert s1 == ['a', 0xC3 as char, 0xA9 as char];
    assert s2 == [0xC3 as char, 0xA9 as char];
    assert s2[2..] == "";
    assert Boundary(s2, 0) && Boundary(s2, 2) && !Boundary(s2, 1);
    assert Boundary(s1, 1) && Boundary(s1, 3) && !Boundary(s1, 2);
    assert CutLength(s1, 0) == 0;
  }

  // ----- the lines that fit -----

  predicate OverLimits(text: string, maxLines: int, maxBytes: int)
  {
    |Split(text)| > maxLines || |text| > maxBytes
  }

  /** A text is beyond the limits exactly when it has too many lines, one more than line
      feeds, or too many bytes. */
  lemma OverLimitsExactly(text: string, maxLines: int, maxBytes: int)
    ensures OverLimits(text, maxLines, maxBytes) <==> LineFeeds(text) >= maxLines || |text| > maxBytes
  {
    SplitCounts(text);
  }

  /** How many more whole lines fit after the first k. */
  function FitFrom(lines: seq<string>, k: nat, maxLines: int, maxBytes: int): (n: nat)
    requires k <= |lines|
    ensures k <= n <= |lines|
    decreases |lines| - k
  {
    if k == |lines| || k >= maxLines || |Join(lines[..k + 1])| > maxBytes then k
    else FitFrom(lines, k + 1, maxLines, maxBytes)
  }

  function Fit(lines: seq<string>, maxLines: int, maxBytes: int): (n: nat)
    ensures n <= |lines|
  {
    FitFrom(lines, 0, maxLines, maxBytes)
  }

  /** What is kept: the whole lines that fit, or else a cut of the first line. */
  function Kept(lines: seq<string>, maxLines: int, maxBytes: int): (kept: seq<string>)
    requires lines != []
    ensures |kept| <= |lines|
  {
    var n := Fit(lines, maxLines, maxBytes);
    if n == 0 && maxLines > 0 && |lines[0]| > maxBytes then
      CutSafe(lines[0], maxBytes);
      [Cut(lines[0], maxBytes).value]
    else lines[..n]
  }

  lemma JoinMore(lines: seq<string>, k: nat)
    requires k < |lines|
    ensures |Join(lines[..k + 1])| == |Join(lines[..k])| + |lines[k]| + if k > 0 then 1 else 0
  {
    if k > 0 {
      JoinAppend(lines[..k], [lines[k]]);
      assert lines[..k] + [lines[k]] == lines[..k + 1];
    } else {
      assert lines[..1] == [lines[0]];
    }
  }

  /** The accumulating loop of Truncate. */
  method KeepHead(lines: seq<string>, maxLines: int, maxBytes: int) returns (kept: seq<string>, bytes: nat)
    requires lines != []
    ensures kept == Kept(lines, maxLines, maxBytes)
    ensures bytes == |Join(kept)|
  {
    kept, bytes := [], 0;
    var i := 0;
    while i < |lines|
      invariant 0 <= i <= |lines|
      invariant kept == lines[..i] && bytes == |Join(kept)|
      invariant Fit(lines, maxLines, maxBytes) == FitFrom(lines, i, maxLines, maxBytes)
    {
      if i >= maxLines {
        break;
      }
      var line := lines[i];
      var lineBytes := |line|;
      if kept != [] {
        lineBytes := lineBytes + 1;
      }
      JoinMore(lines, i);
      if bytes + lineBytes > maxBytes {
        if kept != [] {
          break;
        }
        var cut := CutToBytes(line, maxBytes);
        CutSafe(line, maxBytes);
        kept := [cut.value];
        bytes := |cut.value|;
        return;
      }
      kept := kept + [line];
      bytes := bytes + lineBytes;
      i := i + 1;
    }
    if i == 0 {
      assert maxLines <= 0;
    }
  }

  function Opening(): string { "\n\n..." }

  function LinesThen(): string { " lines (" }

  function Closing(): string { " bytes) truncated...\n\n" }

  function Notice(removedLines: nat, removedBytes: nat, hint: string): string
  {
    Opening() + Decimal(removedLines) + LinesThen() + Decimal(removedBytes) + Closing() + hint
  }

  /** What Truncate returns beyond the limits, and the counts it reports. */
  function Preview(text: string, maxLines: int, maxBytes: int): string
  {
    Join(Kept(Split(text), maxLines, maxBytes))
  }

  function RemovedLines(text: string, maxLines: int, maxBytes: int): nat
  {
    |Split(text)| - |Kept(Split(text), maxLines, maxBytes)|
  }

  function Truncated(text: string, maxLines: int, maxBytes: int, hint: string): string
    requires |Preview(text, maxLines, maxBytes)| <= |text|
  {
    Preview(text, maxLines, maxBytes)
    + Notice(RemovedLines(text, maxLines, maxBytes), |text| - |Preview(text, maxLines, maxBytes)|, hint)
  }

  /** The preview is a prefix of the text within the byte limit; as far as it keeps whole
      lines it has as many as fit, and no more than the line limit. */
  lemma PreviewLaws(text: string, maxLines: int, maxBytes: int)
    ensures var p := Preview(text, maxLines, maxBytes);
            && p <= text
            && |p| <= (if maxBytes < 0 then 0 else maxBytes)
            && |Kept(Split(text), maxLines, maxBytes)| <= (if maxLines < 0 then 0 else maxLines)
  {
    var lines := Split(text);
    var n := Fit(lines, maxLines, maxBytes);
    JoinSplit(text);
    FitBounds(lines, 0, maxLines, maxBytes);
    if n == 0 && maxLines > 0 && |lines[0]| > maxBytes {
      CutSafe(lines[0], maxBytes);
      JoinPrefix(lines, 1);
      assert lines[..1] == [lines[0]];
    } else {
      JoinPrefix(lines, n);
    }
  }

  lemma {:induction false} JoinPrefix(lines: seq<string>, k: nat)
    requires k <= |lines|
    ensures Join(lines[..k]) <= Join(lines)
  {
    if k == |lines| {
      assert lines[..k] == lines;
    } else if k > 0 {
      JoinAppend(lines[..k], lines[k..]);
      assert lines[..k] + lines[k..] == lines;
    }
  }

  lemma {:induction false} FitBounds(lines: seq<string>, k: nat, maxLines: int, maxBytes: int)
    requires k <= |lines| && (k == 0 || (k <= maxLines && |Join(lines[..k])| <= maxBytes))
    ensures var n := FitFrom(lines, k, maxLines, maxBytes); n == 0 || (n <= maxLines && |Join(lines[..n])| <= maxBytes)
    decreases |lines| - k
  {
    if k < |lines| && k < maxLines && |Join(lines[..k + 1])| <= maxBytes {
      FitBounds(lines, k + 1, maxLines, maxBytes);
    }
  }

  /** No longer run of whole lines would have been within the limits. */
  lemma {:induction false} FitIsGreedy(lines: seq<string>, k: nat, j: nat, maxLines: int, maxBytes: int)
    requires k <= |lines| && k <= j <= |lines|
    requires j <= maxLines && |Join(lines[..j])| <= maxBytes
    ensures j <= FitFrom(lines, k, maxLines, maxBytes)
    decreases |lines| - k
  {
    if k < j {
      JoinPrefix(lines[..j], k + 1);
      assert lines[..j][..k + 1] == lines[..k + 1];
      FitIsGreedy(lines, k + 1, j, maxLines, maxBytes);
    }
  }

  /** Beyond the limits the text is replaced by the preview, a notice that accounts for every
      line and byte the preview leaves out, and the hint; within them it is unchanged. */
  method Truncate(text: string, maxLines: int, maxBytes: int, hint: string) returns (r: string)
    ensures Preview(text, maxLines, maxBytes) <= text
    ensures LineFeeds(text) < maxLines && |text| <= maxBytes ==> r == text
    ensures LineFeeds(text) >= maxLines || |text| > maxBytes ==> r == Truncated(text, maxLines, maxBytes, hint)
  {
    hide Notice, Kept;
    SplitCounts(text);
    PreviewLaws(text, maxLines, maxBytes);
    var lines := Split(text);
    var originalLines := |lines|;
    var originalBytes := |text|;
    if originalLines <= maxLines && originalBytes <= maxBytes {
      return text;
    }
    var kept, bytes := KeepHead(lines, maxLines, maxBytes);
    return Join(kept) + Notice(originalLines - |kept|, originalBytes - bytes, hint);
  }

  /** The whole accounting for a text beyond its limits. */
  lemma Accounting(text: string, maxLines: int, maxBytes: int)
    requires maxLines >= 0 && maxBytes >= 0 && OverLimits(text, maxLines, maxBytes)
    ensures var lines := Split(text); var kept := Kept(lines, maxLines, maxBytes); var p := Join(kept);
            && p <= text && |p| <= maxBytes && |kept| <= maxLines
            && |kept| + RemovedLines(text, maxLines, maxBytes) == |lines|
            && (forall j: nat :: j <= |lines| && j <= maxLines && |Join(lines[..j])| <= maxBytes ==>
                     |Join(lines[..j])| <= |p|)
            && (kept == lines[..|kept|]
                || (|lines[0]| > maxBytes && |kept| == 1 && Cut(lines[0], maxBytes) == Some(kept[0])))
            && (p == text ==> text == "" && maxLines == 0)
  {
    var lines := Split(text);
    var n := Fit(lines, maxLines, maxBytes);
    PreviewLaws(text, maxLines, maxBytes);
    JoinSplit(text);
    forall j: nat | j <= |lines| && j <= maxLines && |Join(lines[..j])| <= maxBytes
      ensures j <= n && |Join(lines[..j])| <= |Join(lines[..n])|
    {
      FitIsGreedy(lines, 0, j, maxLines, maxBytes);
      JoinPrefix(lines[..n], j);
      assert lines[..n][..j] == lines[..j];
    }
    CutSafe(lines[0], maxBytes);
    if Preview(text, maxLines, maxBytes) == text && |text| <= maxBytes {
      WholePreview(text, n, maxLines);
    }
  }

  /** Only the empty text can be its own preview, when not even one line is allowed. */
  lemma WholePreview(text: string, n: nat, maxLines: int)
    requires n <= |Split(text)| && n <= maxLines < |Split(text)| && Join(Split(text)[..n]) == text
    ensures text == "" && maxLines == 0
  {
    var lines := Split(text);
    JoinSplit(text);
    if n > 0 {
      JoinInjective(lines[..n], lines);
    }
    assert text == "" ==> lines == [""];
  }

  // ----- a text beyond its limits that comes back unchanged -----

  function LineFeeds(s: string): nat
  {
    if s == "" then 0 else (if s[0] == '\n' then 1 else 0) + LineFeeds(s[1..])
  }

  lemma {:induction false} FeedsAdd(a: string, b: string)
    ensures LineFeeds(a + b) == LineFeeds(a) + LineFeeds(b)
  {
    if a == "" {
      assert a + b == b;
    } else {
      FeedsAdd(a[1..], b);
      assert (a + b)[1..] == a[1..] + b;
    }
  }

  lemma {:induction false} NoFeeds(s: string)
    requires OneLine(s)
    ensures LineFeeds(s) == 0
  {
    if s != "" {
      NoFeeds(s[1..]);
    }
  }

  lemma {:induction false} SplitCounts(s: string)
    ensures |Split(s)| == LineFeeds(s) + 1
  {
    if s != "" {
      SplitCounts(s[1..]);
    }
  }

  lemma JoinCounts(ls: seq<string>)
    requires ls != [] && Lines(ls)
    ensures LineFeeds(Join(ls)) == |ls| - 1
  {
    SplitJoin(ls);
    SplitCounts(Join(ls));
  }

  lemma KeptLines(lines: seq<string>, maxLines: int, maxBytes: int)
    requires lines != [] && Lines(lines)
    ensures var kept := Kept(lines, maxLines, maxBytes); Lines(kept) && (kept == [] <==> maxLines <= 0)
  {
    CutSafe(lines[0], maxBytes);
    assert lines[..1] == [lines[0]];
  }

  /** The removed lines are the line feeds that follow the preview. */
  lemma RemovedCounts(text: string, maxLines: int, maxBytes: int)
    requires Preview(text, maxLines, maxBytes) <= text
    ensures var rest := text[|Preview(text, maxLines, maxBytes)|..];
            RemovedLines(text, maxLines, maxBytes) == LineFeeds(rest) + if maxLines <= 0 then 1 else 0
  {
    var kept, p := Kept(Split(text), maxLines, maxBytes), Preview(text, maxLines, maxBytes);
    KeptLines(Split(text), maxLines, maxBytes);
    if kept != [] {
      JoinCounts(kept);
    }
    hide Kept;
    SplitCounts(text);
    FeedsAdd(p, text[|p|..]);
    assert text == p + text[|p|..];
  }

  lemma FeedsAddAll(a: string, b: string, c: string, d: string, e: string, f: string)
    ensures LineFeeds(a + b + c + d + e + f)
         == LineFeeds(a) + LineFeeds(b) + LineFeeds(c) + LineFeeds(d) + LineFeeds(e) + LineFeeds(f)
  {
    FeedsAdd(a, b);
    FeedsAdd(a + b, c);
    FeedsAdd(a + b + c, d);
    FeedsAdd(a + b + c + d, e);
    FeedsAdd(a + b + c + d + e, f);
  }

  lemma TwoFeedsAnd(s: string, words: string)
    requires OneLine(words) && (s == ['\n', '\n'] + words || s == words + ['\n', '\n'])
    ensures LineFeeds(s) == 2
  {
    var two := ['\n', '\n'];
    assert two[1..] == ['\n'] && two[1..][1..] == "";
    NoFeeds(words);
    FeedsAdd(two, words);
    FeedsAdd(words, two);
  }

  lemma NoticeParts()
    ensures LineFeeds(Opening()) == 2 && LineFeeds(LinesThen()) == 0 && LineFeeds(Closing()) == 2
  {
    hide LineFeeds;
    TwoFeedsAnd(Opening(), "...");
    NoFeeds(LinesThen());
    TwoFeedsAnd(Closing(), " bytes) truncated...");
  }

  lemma NoticeFeeds(lines: nat, bytes: nat, hint: string)
    ensures LineFeeds(Notice(lines, bytes, hint)) == 4 + LineFeeds(hint)
  {
    hide Opening, Closing, LinesThen, LineFeeds, Decimal;
    NoticeParts();
    NoFeeds(Decimal(lines));
    NoFeeds(Decimal(bytes));
    FeedsAddAll(Opening(), Decimal(lines), LinesThen(), Decimal(bytes), Closing(), hint);
  }

  lemma SamePrefix(p: string, a: string, b: string)
    ensures p + a == p + b <==> a == b
  {
    assert (p + a)[|p|..] == a && (p + b)[|p|..] == b;
  }

  /** A text beyond its limits comes back unchanged exactly when it ends in the very notice
      that would replace its end: one with its own number of line feeds, four and those of
      the hint, as the lines removed, and with its own length as the bytes removed. */
  lemma UnchangedExactly(text: string, maxLines: int, maxBytes: int, hint: string)
    requires Preview(text, maxLines, maxBytes) <= text
    ensures var rest := text[|Preview(text, maxLines, maxBytes)|..];
            var feeds := 4 + LineFeeds(hint) + if maxLines <= 0 then 1 else 0;
            Truncated(text, maxLines, maxBytes, hint) == text <==> rest == Notice(feeds, |rest|, hint)
  {
    var p := Preview(text, maxLines, maxBytes);
    var rest := text[|p|..];
    var n := RemovedLines(text, maxLines, maxBytes);
    RemovedCounts(text, maxLines, maxBytes);
    hide Preview, RemovedLines, Notice;
    assert text == p + rest;
    NoticeFeeds(n, |rest|, hint);
    NoticeFeeds(4 + LineFeeds(hint) + if maxLines <= 0 then 1 else 0, |rest|, hint);
    SamePrefix(p, Notice(n, |rest|, hint), rest);
  }

  lemma Numerals()
    ensures Decimal(4) == ['4'] && Decimal(38) == ['3', '8']
  {
  }

  lemma NoticeOf38()
    ensures Notice(4, 38, "") == "\n\n...4 lines (38 bytes) truncated...\n\n"
  {
    hide Decimal;
    Numerals();
  }

  /** The first line is all that fits, and what follows counts itself. */
  lemma CountsItself(rest: string, m: nat)
    requires rest == Notice(4, m, "") && |rest| == m > 0 && rest[0] == '\n'
    ensures Preview("a" + rest, 1, 100) == "a"
    ensures Truncated("a" + rest, 1, 100, "") == "a" + rest
    ensures OverLimits("a" + rest, 1, 100)
  {
    hide Notice;
    SplitCons("a", rest[1..]);
    var text := "a" + rest;
    assert text == "a" + "\n" + rest[1..];
    var lines := Split(text);
    assert lines[..1] == ["a"];
    assert lines[..0 + 1] == ["a"];
    assert FitFrom(lines, 1, 1, 100) == 1;
    assert Fit(lines, 1, 100) == 1;
    assert text[1..] == rest;
    UnchangedExactly(text, 1, 100, "");
  }

  /** Four lines of 38 bytes after "a" that say just that: over the limit of one line, and
      returned as they are. */
  lemma UnchangedBeyondLimits()
    ensures var text := "a" + "\n\n...4 lines (38 bytes) truncated...\n\n";
            OverLimits(text, 1, 100) && Preview(text, 1, 100) == "a" && Truncated(text, 1, 100, "") == text
  {
    hide Notice, Preview, Truncated, OverLimits;
    NoticeOf38();
    CountsItself("\n\n...4 lines (38 bytes) truncated...\n\n", 38);
  }
}
