/** The reader on a printed patch, section by section: kept sections are read back, deleted
    ones walked past. */
module PatchReading {
  import opened Text
  import opened PatchSyntax
  import opened PatchParse
  import opened PatchSections
  import opened PatchPhantom

  // ----- the rendered lines are lines -----

  predicate Printed(lines: seq<string>)
  {
    forall k :: 0 <= k < |lines| ==> OneLine(lines[k]) && lines[k] != ""
  }

  lemma HunkPrinted(h: Hunk)
    requires OneLineHunk(h)
    ensures Printed(RenderHunk(h))
  {
    hide RenderHeader;
    forall k | 0 <= k < |h.ops|
      ensures OneLine(RenderOp(h.ops[k]))
    {
      assert OneLineOp(h.ops[k]);
    }
  }

  lemma {:induction false} HunksPrinted(hs: seq<Hunk>)
    requires OneLineHunks(hs)
    ensures Printed(RenderHunks(hs)) && (hs != [] ==> |RenderHunks(hs)| > 0)
  {
    hide RenderHunk, OneLineHunk;
    if hs != [] {
      HunkPrinted(hs[0]);
      HunksPrinted(hs[1..]);
    }
  }

  lemma PathPrinted(p: Path, side: char, sign: string)
    requires CleanPath(p) && OneLine(sign) && sign != "" && (side == 'a' || side == 'b')
    ensures OneLine(sign + RenderPath(p, side))
  {
    if p.DevNull? {
      AbsoluteOneLine(DEV_NULL);
    }
  }

  lemma AbsoluteOneLine(s: string)
    requires s == DEV_NULL
    ensures OneLine(s)
  {
  }

  lemma {:induction false} SectionsPrinted(ss: seq<Section>)
    requires AllWellFormed(ss)
    ensures Lines(RenderSections(ss))
  {
    hide RenderHunks, CleanPath, OneLineHunk;
    if ss != [] {
      assert WellFormed(ss[0]);
      PathPrinted(ss[0].from, 'a', "--- ");
      PathPrinted(ss[0].to, 'b', "+++ ");
      HunksPrinted(ss[0].hunks);
      SectionsPrinted(ss[1..]);
    }
  }

  // ----- one section -----

  lemma PathReadBack(p: Path, side: char)
    requires CleanPath(p) && (side == 'a' || side == 'b')
    ensures ParsePath(RenderPath(p, side)) == NameOf(p)
  {
    hide ParsePath, CleanName, BareName;
    match p
    case DevNull => ParseDevNull("");
    case File(name) => PathRoundTrip(name, side);
    case Bare(name) => BareRoundTrip(name);
  }

  lemma HeaderLine(sign: string, path: string)
    requires |sign| == 4
    ensures StartsWith(sign + path, sign) && (sign + path)[4..] == path
  {
  }

  /** The two header lines of a rendered section, as the reader sees them. */
  lemma SectionHeader(all: seq<string>, p: nat, s: Section)
    requires At(all, p, RenderSection(s)) && WellFormed(s)
    ensures At(all, p + 2, RenderHunks(s.hunks))
    ensures IsSafeFileHeader(all, p) && p + 1 < |all|
    ensures ParsePath(all[p][4..]) == NameOf(s.from)
    ensures ParsePath(all[p + 1][4..]) == NameOf(s.to)
  {
    hide RenderHunks, RenderPath, ParsePath, NameOf, OneLineHunk, CleanPath, IsHeader;
    var head := ["--- " + RenderPath(s.from, 'a'), "+++ " + RenderPath(s.to, 'b')];
    AtSplit(all, p, head, RenderHunks(s.hunks));
    AtIndex(all, p, head, 0);
    AtIndex(all, p, head, 1);
    HeaderLine("--- ", RenderPath(s.from, 'a'));
    HeaderLine("+++ ", RenderPath(s.to, 'b'));
    PathReadBack(s.from, 'a');
    PathReadBack(s.to, 'b');
    FirstHunk(all, p + 2, s.hunks);
  }

  /** The hunk text the reader gathers from the hunks at p. */
  lemma GatheredText(all: seq<string>, p: nat, hs: seq<Hunk>, last: bool)
    requires hs != [] && At(all, p, RenderHunks(hs))
    requires OneLineHunks(hs)
    requires var q := p + |RenderHunks(hs)|;
             Follows(all, q, last) && (!last && q < |all| ==> IsSafeFileHeader(all, q))
    ensures var q := p + |RenderHunks(hs)|; var end := SectionEnd(all, p, false);
            && (PhantomIn(hs, last) ==> HunkText(all[p..end]) != Join(RenderHunks(hs)) + "\n")
            && (!PhantomIn(hs, last) ==> end == (if last then q + 1 else q)
                                         && HunkText(all[p..end]) == Join(RenderHunks(hs)) + "\n")
  {
    hide RenderHunks, SectionEnd, HunkText, OneLineHunk, IsSafeFileHeader, PhantomIn, IsHeader, IsFrom;
    var body := RenderHunks(hs);
    HunksEnd(all, p, hs, last);
    HunksPrinted(hs);
    var end := SectionEnd(all, p, false);
    BlankTail(body);
    if PhantomIn(hs, last) {
      assert all[p..end] == body[..end - p];
      CutShort(body, all[p..end]);
    } else if last {
      assert all[p..end] == body + [""];
    }
  }

  /** A kept section reads back as itself, unless it holds a phantom: then its hunks are cut short. */
  lemma ReadKept(all: seq<string>, p: nat, s: Section, last: bool)
    requires At(all, p, RenderSection(s)) && WellFormed(s) && !s.to.DevNull?
    requires var q := p + |RenderSection(s)|; Follows(all, q, last) && (!last && q < |all| ==> IsSafeFileHeader(all, q))
    ensures var q := p + |RenderSection(s)|;
            !PhantomIn(s.hunks, last) ==> ParseFrom(all, p) == [FileOf(s)] + ParseFrom(all, if last then q + 1 else q)
    ensures PhantomIn(s.hunks, last) ==> ParseFrom(all, p) != [] && ParseFrom(all, p)[0] != FileOf(s)
  {
    hide RenderSection, RenderHunks, ParsePath, ParseFrom, SectionEnd, HunkText, At, Follows;
    hide OneLineHunk, CleanPath, IsFileHeader, IsSafeFileHeader, PhantomIn, Join;
    SectionHeader(all, p, s);
    SafeIsHeader(all, p);
    GatheredText(all, p + 2, s.hunks, last);
    ReadHeader(all, p);
  }

  lemma ReadHeader(all: seq<string>, p: nat)
    requires p + 1 < |all| && IsFileHeader(all, p) && ParsePath(all[p + 1][4..]) != DEV_NULL
    ensures var end := SectionEnd(all, p + 2, false);
            ParseFrom(all, p)
            == [PatchFile(ParsePath(all[p][4..]), ParsePath(all[p + 1][4..]), HunkText(all[p + 2..end]))]
               + ParseFrom(all, end)
  {
    hide ParsePath, SectionEnd, HunkText;
  }

  lemma SafeIsHeader(all: seq<string>, p: nat)
    requires p < |all| && IsSafeFileHeader(all, p)
    ensures IsFileHeader(all, p)
  {
  }

  lemma CutShort(body: seq<string>, cut: seq<string>)
    requires Printed(body) && cut < body && cut != []
    ensures HunkText(cut) != Join(body) + "\n"
  {
    assert cut == body[..|cut|];
    var text := Join(body) + "\n";
    if HunkText(cut) == text {
      assert (Join(cut) + "\n")[..|Join(cut)|] == Join(cut) && text[..|text| - 1] == Join(body);
      JoinInjective(cut, body);
      assert false;
    }
  }

  lemma BlankTail(body: seq<string>)
    requires Printed(body) && body != []
    ensures HunkText(body + [""]) == HunkText(body) == Join(body) + "\n"
  {
    assert (body + [""])[..|body|] == body;
  }

  // ----- deletions are walked past -----

  predicate NoAdditions(hs: seq<Hunk>)
  {
    forall j, k :: 0 <= j < |hs| && 0 <= k < |hs[j].ops| ==> !hs[j].ops[k].Add?
  }

  lemma HunkHasNoTo(all: seq<string>, p: nat, h: Hunk, k: nat)
    requires At(all, p, RenderHunk(h)) && p <= k <= p + |h.ops|
    requires forall m :: 0 <= m < |h.ops| ==> !h.ops[m].Add?
    ensures !IsTo(all[k])
  {
    hide IsHeader, IsFrom, IsTo, RenderOp, RenderHeader;
    HunkStartsWithHeader(all, p, h);
    Shapes(all[p]);
    if k > p {
      HunkLine(all, p, h, k - p - 1);
      OpShapes(h.ops[k - p - 1]);
    }
  }

  lemma {:induction false} HunksHaveNoTo(all: seq<string>, p: nat, hs: seq<Hunk>, k: nat)
    requires At(all, p, RenderHunks(hs)) && NoAdditions(hs)
    requires p <= k < p + |RenderHunks(hs)|
    ensures !IsTo(all[k])
    decreases |hs|
  {
    hide IsTo, RenderHunk;
    var r := p + |RenderHunk(hs[0])|;
    AtSplit(all, p, RenderHunk(hs[0]), RenderHunks(hs[1..]));
    if k < r {
      HunkHasNoTo(all, p, hs[0], k);
    } else {
      HunksHaveNoTo(all, r, hs[1..], k);
    }
  }

  lemma {:induction false} WalkPast(all: seq<string>, i: nat, q: nat)
    requires i <= q <= |all|
    requires forall k :: i < k <= q && k < |all| ==> !IsTo(all[k])
    ensures ParseFrom(all, i) == ParseFrom(all, q)
    decreases q - i
  {
    hide IsTo, IsFrom, ParsePath;
    if i < q {
      assert i + 1 < |all| ==> !IsTo(all[i + 1]);
      WalkPast(all, i + 1, q);
    }
  }

  lemma ReadDeleted(all: seq<string>, p: nat, s: Section, last: bool)
    requires At(all, p, RenderSection(s)) && WellFormed(s) && s.to.DevNull?
    requires Follows(all, p + |RenderSection(s)|, last)
    ensures ParseFrom(all, p) == ParseFrom(all, p + |RenderSection(s)|)
  {
    hide RenderSection, RenderHunks, ParsePath, At, IsTo, IsFrom, IsHeader, SectionEnd, HunkText;
    hide OneLineHunk, CleanPath, Join;
    var q := p + |RenderSection(s)|;
    SectionHeader(all, p, s);
    forall k | p + 2 <= k <= q && k < |all|
      ensures !IsTo(all[k])
    {
      if k < q {
        HunksHaveNoTo(all, p + 2, s.hunks, k);
      } else {
        Shapes(all[q]);
        if last {
          BlankShape(all[q]);
        }
      }
    }
    SkipHeader(all, p);
    WalkPast(all, p + 2, q);
  }

  lemma SkipHeader(all: seq<string>, p: nat)
    requires p + 1 < |all| && IsSafeFileHeader(all, p) && ParsePath(all[p + 1][4..]) == DEV_NULL
    ensures ParseFrom(all, p) == ParseFrom(all, p + 2)
  {
    hide IsFrom, IsTo, IsHeader, ParsePath;
  }

  // ----- the whole patch -----

  lemma EndOfPatch(all: seq<string>, p: nat)
    requires p + 1 == |all| && all[p] == ""
    ensures ParseFrom(all, p) == []
  {
    BlankShape(all[p]);
  }

  /** A kept section in front of others, which are read from q on: all are read back exactly
      when the others are and this one holds no phantom. */
  lemma ReadFirst(all: seq<string>, p: nat, q: nat, ss: seq<Section>, last: bool)
    requires ss != [] && WellFormed(ss[0]) && !ss[0].to.DevNull?
    requires At(all, p, RenderSection(ss[0])) && q == p + |RenderSection(ss[0])|
    requires Follows(all, q, last) && (!last && q < |all| ==> IsSafeFileHeader(all, q))
    ensures ParseFrom(all, p) == FilesOf(ss) <==> !PhantomIn(ss[0].hunks, last) && ParseFrom(all, q) == FilesOf(ss[1..])
  {
    hide RenderSection, ParseFrom, WellFormed, PhantomIn, IsTo, IsFrom, IsHeader, FileOf,
         IsSafeFileHeader, At, FilesOf, Follows;
    var s := ss[0];
    ReadKept(all, p, s, last);
    RestAfter(all, q, last);
    ConsEqual(FileOf(s), ParseFrom(all, q), FilesOf(ss[1..]));
    FirstOfFiles(ss);
  }

  /** The blank line at the end holds no section. */
  lemma RestAfter(all: seq<string>, q: nat, last: bool)
    requires Follows(all, q, last)
    ensures q <= |all| && (last ==> q < |all|)
    ensures last ==> ParseFrom(all, q + 1) == ParseFrom(all, q)
  {
    hide ParseFrom, IsHeader, IsFrom;
    AtTheEnd(all);
    if last {
      EndOfPatch(all, q);
    }
  }

  lemma FirstOfFiles(ss: seq<Section>)
    requires ss != [] && !ss[0].to.DevNull?
    ensures FilesOf(ss) == [FileOf(ss[0])] + FilesOf(ss[1..]) && FilesOf(ss)[0] == FileOf(ss[0])
  {
  }

  /** The blank that a final line feed leaves. */
  function Blank(newline: bool): seq<string>
  {
    if newline then [""] else []
  }

  /** The first of the sections, when the others are read from q on. */
  lemma ReadOne(all: seq<string>, p: nat, q: nat, ss: seq<Section>, newline: bool)
    requires ss != [] && WellFormed(ss[0])
    requires At(all, p, RenderSection(ss[0])) && q == p + |RenderSection(ss[0])|
    requires var last := |ss| == 1 && newline;
             Follows(all, q, last) && (!last && q < |all| ==> IsSafeFileHeader(all, q))
    ensures (ParseFrom(all, q) == FilesOf(ss[1..]) <==> !HasPhantom(ss[1..], newline))
        ==> (ParseFrom(all, p) == FilesOf(ss) <==> !HasPhantom(ss, newline))
  {
    hide RenderSection, ParseFrom, WellFormed, PhantomIn, FileOf, IsSafeFileHeader, At, Follows;
    var last := |ss| == 1 && newline;
    if ss[0].to.DevNull? {
      ReadDeleted(all, p, ss[0], last);
    } else {
      ReadFirst(all, p, q, ss, last);
    }
  }

  lemma {:induction false} ReadSections(all: seq<string>, p: nat, ss: seq<Section>, newline: bool)
    requires AllWellFormed(ss)
    requires p <= |all| && all[p..] == RenderSections(ss) + Blank(newline)
    ensures ParseFrom(all, p) == FilesOf(ss) <==> !HasPhantom(ss, newline)
    decreases |ss|
  {
    hide RenderSection, ParseFrom, WellFormed, IsSafeFileHeader, Blank, Follows, FilesOf, HasPhantom;
    if ss == [] {
      ReadNothing(all, p, ss, newline);
    } else {
      var s, q := ss[0], p + |RenderSection(ss[0])|;
      var rest := RenderSections(ss[1..]) + Blank(newline);
      assert all[p..] == RenderSection(s) + rest by {
        Assoc(RenderSection(s), RenderSections(ss[1..]), Blank(newline));
      }
      SliceAt(all, p, RenderSection(s), rest);
      assert WellFormed(s);
      assert AllWellFormed(ss[1..]);
      WhatFollows(all, q, ss[1..], newline);
      assert ss[1..] == [] <==> |ss| == 1;
      ReadSections(all, q, ss[1..], newline);
      ReadOne(all, p, q, ss, newline);
    }
  }

  lemma ReadNothing(all: seq<string>, p: nat, ss: seq<Section>, newline: bool)
    requires ss == [] && p <= |all| && all[p..] == RenderSections(ss) + Blank(newline)
    ensures ParseFrom(all, p) == [] == FilesOf(ss) && !HasPhantom(ss, newline)
  {
    hide ParseFrom;
    AtTheEnd(all);
    if newline {
      assert all[p] == all[p..][0];
      EndOfPatch(all, p);
    }
  }

  lemma ConsEqual<T>(x: T, a: seq<T>, b: seq<T>)
    ensures [x] + a == [x] + b <==> a == b
  {
    assert ([x] + a)[1..] == a && ([x] + b)[1..] == b;
  }

  lemma AtTheEnd(all: seq<string>)
    ensures ParseFrom(all, |all|) == []
  {
  }

  lemma WhatFollows(all: seq<string>, q: nat, ss: seq<Section>, newline: bool)
    requires AllWellFormed(ss)
    requires q <= |all| && all[q..] == RenderSections(ss) + Blank(newline)
    ensures var last := ss == [] && newline; Follows(all, q, last) && (!last && q < |all| ==> IsSafeFileHeader(all, q))
  {
    hide RenderSection, WellFormed, IsTo, IsFrom, IsHeader;
    if ss == [] {
      assert newline ==> all[q] == all[q..][0];
    } else {
      assert WellFormed(ss[0]);
      assert all[q..] == RenderSection(ss[0]) + (RenderSections(ss[1..]) + Blank(newline)) by {
        Assoc(RenderSection(ss[0]), RenderSections(ss[1..]), Blank(newline));
      }
      AtSplit(all, q, RenderSection(ss[0]), RenderSections(ss[1..]) + Blank(newline));
      SectionHeader(all, q, ss[0]);
    }
  }
}
