/** Where the reader sees the end of the hunks that a printer wrote: at their end, or inside
    them, exactly when they hold a phantom file header. */
module PatchPhantom {
  import opened Text
  import opened PatchSyntax
  import opened PatchParse
  import opened PatchSections

  // ----- positions -----

  /** xs stands at line p of all. */
  predicate At(all: seq<string>, p: nat, xs: seq<string>)
  {
    p + |xs| <= |all| && all[p..p + |xs|] == xs
  }

  lemma AtSplit(all: seq<string>, p: nat, xs: seq<string>, ys: seq<string>)
    requires At(all, p, xs + ys)
    ensures At(all, p, xs) && At(all, p + |xs|, ys)
  {
    assert all[p..p + |xs|] == (xs + ys)[..|xs|] == xs;
    assert all[p + |xs|..p + |xs| + |ys|] == (xs + ys)[|xs|..] == ys;
  }

  lemma AtIndex(all: seq<string>, p: nat, xs: seq<string>, k: nat)
    requires At(all, p, xs) && k < |xs|
    ensures all[p + k] == xs[k]
  {
    assert all[p..p + |xs|][k] == xs[k];
  }

  /** What may stand right after a rendered hunk: a hunk header, a file section or nothing,
      or else the blank that a final line feed leaves, which is the case last. */
  predicate Follows(all: seq<string>, r: nat, last: bool)
  {
    if last then r + 1 == |all| && all[r] == ""
    else r == |all| || (r < |all| && (IsHeader(all[r]) || IsFrom(all[r])))
  }

  lemma Shapes(line: string)
    ensures IsFrom(line) ==> !IsHeader(line) && !IsTo(line)
    ensures IsHeader(line) ==> !IsTo(line) && line != "" && line[0] == '@'
  {
    if IsFrom(line) || IsTo(line) {
      assert line[0] == "--- "[0] || line[0] == "+++ "[0];
    }
    if IsHeader(line) {
      assert line[0] == "@@"[0];
    }
  }

  lemma BlankShape(line: string)
    requires line == ""
    ensures !IsFrom(line) && !IsTo(line) && !IsHeader(line)
  {
  }

  lemma PrefixCons(sign: string, text: string, prefix: string, whole: string)
    requires |sign| == 1 && whole == sign + prefix
    ensures StartsWith(sign + text, whole) <==> StartsWith(text, prefix)
  {
    var line := sign + text;
    if StartsWith(line, whole) {
      assert forall k :: 0 <= k < |prefix| ==> prefix[k] == whole[k + 1] == line[k + 1] == text[k];
    }
    if StartsWith(text, prefix) {
      assert forall k :: 0 <= k < |whole| ==> whole[k] == line[k];
    }
  }

  lemma OpShapes(op: Op)
    ensures !IsHeader(RenderOp(op))
    ensures IsFrom(RenderOp(op)) <==> DashRemoval(op)
    ensures IsTo(RenderOp(op)) <==> PlusAddition(op)
  {
    var line := RenderOp(op);
    if op.Del? || op.Add? {
      PrefixCons("-", op.text, "-- ", "--- ");
      PrefixCons("+", op.text, "++ ", "+++ ");
    }
    assert "--- "[0] == '-' && "+++ "[0] == '+';
    Shapes(line);
  }

  // ----- one hunk, many hunks -----

  /** The line after op k of a hunk that stands at p, and ends at r, is seen by the reader
      as op k+1, or as what follows the hunk. */
  lemma HunkLine(all: seq<string>, p: nat, h: Hunk, k: nat)
    requires At(all, p, RenderHunk(h)) && k < |h.ops|
    ensures all[p + 1 + k] == RenderOp(h.ops[k])
  {
    AtIndex(all, p, RenderHunk(h), 1 + k);
  }

  /** A safe file header inside a hunk is a phantom, and the other way round. */
  lemma PhantomLine(all: seq<string>, p: nat, h: Hunk, last: bool, k: nat)
    requires At(all, p, RenderHunk(h)) && Follows(all, p + 1 + |h.ops|, last) && k < |h.ops|
    ensures IsSafeFileHeader(all, p + 1 + k) <==> PhantomAt(h.ops, last, k)
  {
    hide IsHeader, StartsWith;
    hide RenderHunk, RenderOp, DashRemoval, PlusAddition;
    var r := p + 1 + |h.ops|;
    if r < |all| {
      Shapes(all[r]);
    }
    if last {
      BlankShape(all[r]);
    }
    HunkLine(all, p, h, k);
    OpShapes(h.ops[k]);
    if k + 1 < |h.ops| {
      HunkLine(all, p, h, k + 1);
      OpShapes(h.ops[k + 1]);
      if k + 2 < |h.ops| {
        HunkLine(all, p, h, k + 2);
        OpShapes(h.ops[k + 2]);
      }
    }
  }

  lemma HunkStartsWithHeader(all: seq<string>, p: nat, h: Hunk)
    requires At(all, p, RenderHunk(h))
    ensures p < |all| && IsHeader(all[p]) && !IsFrom(all[p])
  {
    hide HeaderStart, RenderHeader;
    AtIndex(all, p, RenderHunk(h), 0);
    HeaderRoundTrip(h);
    Shapes(all[p]);
  }

  predicate SafeHeaderBetween(all: seq<string>, p: nat, q: nat)
    requires q <= |all|
  {
    exists k: nat :: p <= k < q && IsSafeFileHeader(all, k)
  }

  lemma HunkPhantom(all: seq<string>, p: nat, h: Hunk, last: bool)
    requires At(all, p, RenderHunk(h)) && Follows(all, p + 1 + |h.ops|, last)
    ensures SafeHeaderBetween(all, p, p + 1 + |h.ops|) <==> Phantom(h.ops, last)
  {
    hide IsHeader, StartsWith;
    HunkStartsWithHeader(all, p, h);
    forall k: nat | k < |h.ops|
      ensures IsSafeFileHeader(all, p + 1 + k) <==> PhantomAt(h.ops, last, k)
    {
      PhantomLine(all, p, h, last, k);
    }
    if SafeHeaderBetween(all, p, p + 1 + |h.ops|) {
      var k: nat :| p <= k < p + 1 + |h.ops| && IsSafeFileHeader(all, k);
      assert IsFrom(all[k]) && k != p;
      assert IsSafeFileHeader(all, p + 1 + (k - p - 1));
      assert PhantomAt(h.ops, last, k - p - 1);
    }
    if Phantom(h.ops, last) {
      var k: nat :| k < |h.ops| && PhantomAt(h.ops, last, k);
      assert IsSafeFileHeader(all, p + 1 + k);
    }
  }

  lemma SplitRange(all: seq<string>, p: nat, r: nat, q: nat)
    requires p <= r <= q <= |all|
    ensures SafeHeaderBetween(all, p, q) <==> SafeHeaderBetween(all, p, r) || SafeHeaderBetween(all, r, q)
  {
    hide IsHeader, StartsWith;
  }

  lemma {:induction false} HunksPhantom(all: seq<string>, p: nat, hs: seq<Hunk>, last: bool)
    requires At(all, p, RenderHunks(hs)) && Follows(all, p + |RenderHunks(hs)|, last)
    ensures SafeHeaderBetween(all, p, p + |RenderHunks(hs)|) <==> PhantomIn(hs, last)
    decreases |hs|
  {
    hide IsHeader, StartsWith, RenderHunk, Phantom, IsSafeFileHeader;
    if hs != [] {
      var r := p + 1 + |hs[0].ops|;
      AtSplit(all, p, RenderHunk(hs[0]), RenderHunks(hs[1..]));
      if |hs| > 1 {
        AtSplit(all, r, RenderHunk(hs[1]), RenderHunks(hs[2..]));
        assert hs[1..][0] == hs[1] && hs[1..][1..] == hs[2..];
        HunkStartsWithHeader(all, r, hs[1]);
        HunkPhantom(all, p, hs[0], false);
      } else {
        HunkPhantom(all, p, hs[0], last);
      }
      HunksPhantom(all, r, hs[1..], last);
      SplitRange(all, p, r, p + |RenderHunks(hs)|);
    }
  }

  // ----- where a section ends -----

  lemma {:induction false} NoHeaderOnTheWay(all: seq<string>, i: nat, q: nat)
    requires i <= q <= |all| && !SafeHeaderBetween(all, i, q)
    ensures SectionEnd(all, i, true) == SectionEnd(all, q, true)
    decreases q - i
  {
    hide IsHeader, StartsWith;
    if i < q {
      assert !IsSafeFileHeader(all, i);
      NoHeaderOnTheWay(all, i + 1, q);
    }
  }

  lemma {:induction false} StopsByTheHeader(all: seq<string>, i: nat, k: nat, inBody: bool)
    requires i <= k < |all| && IsSafeFileHeader(all, k)
    ensures SectionEnd(all, i, inBody) <= k
    decreases k - i
  {
    hide IsHeader, StartsWith;
    Shapes(all[k]);
    if i < k {
      StopsByTheHeader(all, i + 1, k, true);
      StopsByTheHeader(all, i + 1, k, inBody);
    }
  }

  lemma FirstHunk(all: seq<string>, p: nat, hs: seq<Hunk>)
    requires hs != [] && At(all, p, RenderHunks(hs))
    ensures |RenderHunks(hs)| > 0 && IsHeader(all[p]) && !IsFrom(all[p])
  {
    hide RenderHunk, IsHeader, IsFrom;
    AtSplit(all, p, RenderHunk(hs[0]), RenderHunks(hs[1..]));
    HunkStartsWithHeader(all, p, hs[0]);
  }

  /** The lines the reader takes for the hunks that stand at p: all of them (and the
      final blank, if that is what follows), or too few when there is a phantom. */
  lemma HunksEnd(all: seq<string>, p: nat, hs: seq<Hunk>, last: bool)
    requires hs != [] && At(all, p, RenderHunks(hs))
    requires var q := p + |RenderHunks(hs)|;
             Follows(all, q, last) && (!last && q < |all| ==> IsSafeFileHeader(all, q))
    ensures var q := p + |RenderHunks(hs)|; var end := SectionEnd(all, p, false);
            if PhantomIn(hs, last) then p < end < q else end == if last then q + 1 else q
  {
    hide IsHeader, StartsWith, RenderHunk, RenderHunks, PhantomIn;
    var q := p + |RenderHunks(hs)|;
    HunksPhantom(all, p, hs, last);
    FirstHunk(all, p, hs);
    assert SectionEnd(all, p, false) == SectionEnd(all, p + 1, true);
    if PhantomIn(hs, last) {
      var k: nat :| p <= k < q && IsSafeFileHeader(all, k);
      assert k != p;
      StopsByTheHeader(all, p + 1, k, true);
    } else {
      NoHeaderOnTheWay(all, p + 1, q);
      if last {
        BlankShape(all[q]);
      } else if q < |all| {
        Shapes(all[q]);
      }
    }
  }
}
