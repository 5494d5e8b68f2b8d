/** Applying a diff gives the new file. A script pairs an old file with a new one; its
    hunks are numbered as the format prescribes; the applier's result is then compared
    with the new file, through printing, parsing and applying. */
module PatchRefine {
  import opened Text
  import opened PatchSyntax
  import opened PatchApply
  import opened PatchLaws

  /** Unchanged lines, then the changes of one hunk (with whatever context it shows). */
  datatype Piece = Piece(gap: seq<string>, ops: seq<Op>)

  /** The old lines of a script. */
  function OldOf(pieces: seq<Piece>, tail: seq<string>): seq<string>
  {
    if pieces == [] then tail else pieces[0].gap + OldSide(pieces[0].ops) + OldOf(pieces[1..], tail)
  }

  /** The new lines of a script. */
  function NewOf(pieces: seq<Piece>, tail: seq<string>): seq<string>
  {
    if pieces == [] then tail else pieces[0].gap + NewSide(pieces[0].ops) + NewOf(pieces[1..], tail)
  }

  /** The start of a range of count lines after pos lines; an empty range is given the
      number of the line before it. */
  function RangeStart(pos: nat, count: nat): nat
  {
    if count == 0 then pos else pos + 1
  }

  function HunkAt(ops: seq<Op>, p: nat, q: nat): Hunk
  {
    Hunk(RangeStart(p, |OldSide(ops)|), |OldSide(ops)|, RangeStart(q, |NewSide(ops)|), |NewSide(ops)|, "", ops)
  }

  /** The hunks of the pieces that follow p old and q new lines. */
  function HunksOf(pieces: seq<Piece>, p: nat, q: nat): (hs: seq<Hunk>)
    ensures |hs| == |pieces|
    ensures forall j :: 0 <= j < |hs| ==> hs[j].ops == pieces[j].ops && hs[j].heading == ""
  {
    if pieces == [] then []
    else
      var p', q' := p + |pieces[0].gap|, q + |pieces[0].gap|;
      var ops := pieces[0].ops;
      [HunkAt(ops, p', q')] + HunksOf(pieces[1..], p' + |OldSide(ops)|, q' + |NewSide(ops)|)
  }

  /** A hunk without context and deletions. */
  predicate OnlyInserts(ops: seq<Op>)
  {
    OldSide(ops) == []
  }

  /** The old line that comes last, if there is one: of these lines, or else the one before. */
  function LastLine(lines: seq<string>, before: Option<string>): Option<string>
  {
    if lines == [] then before else Some(lines[|lines| - 1])
  }

  function Owed(before: Option<string>, owed: bool): seq<string>
  {
    if owed && before.Some? then [before.value] else []
  }

  /** The old lines up to a piece's changes that are not in the output yet. */
  function HeldBack(piece: Piece, before: Option<string>, owed: bool): seq<string>
  {
    Owed(before, owed) + piece.gap
  }

  function AllButLast(lines: seq<string>): seq<string>
  {
    if lines == [] then [] else lines[..|lines| - 1]
  }

  /** What the applier still puts out for these pieces: it puts pure insertions one line
      early. before is the old line before them, and owed says that it is not out yet. That
      line then follows the insertion, even if the hunk before has put it out, or removed it. */
  function SeenFrom(pieces: seq<Piece>, tail: seq<string>, before: Option<string>, owed: bool): seq<string>
    decreases |pieces|
  {
    if pieces == [] then Owed(before, owed) + tail
    else
      var ops, held := pieces[0].ops, HeldBack(pieces[0], before, owed);
      var last := LastLine(held, before);
      if OnlyInserts(ops) && last.Some? then AllButLast(held) + NewSide(ops) + SeenFrom(pieces[1..], tail, last, true)
      else held + NewSide(ops) + SeenFrom(pieces[1..], tail, LastLine(OldSide(ops), last), false)
  }

  /** The result of the applier. */
  function SeenOf(pieces: seq<Piece>, tail: seq<string>): seq<string>
  {
    SeenFrom(pieces, tail, None, false)
  }

  // ----- the actions of rendered hunks -----

  function OpAction(op: Op): Action
  {
    match op
    case Keep(t) => Match(t)
    case Del(t) => Remove(t)
    case Add(t) => Insert(t)
    case NoNewline => Ignore
  }

  function OpActions(ops: seq<Op>): seq<Action>
  {
    if ops == [] then [] else [OpAction(ops[0])] + OpActions(ops[1..])
  }

  function HunkActions(hs: seq<Hunk>): seq<Action>
  {
    if hs == [] then [] else [Jump(Saturate(hs[0].oldStart))] + OpActions(hs[0].ops) + HunkActions(hs[1..])
  }

  lemma ClassifyOp(op: Op)
    ensures Classify(RenderOp(op)) == OpAction(op)
  {
    var line := RenderOp(op);
    assert line[0] != '@';
    assert "@@"[0] == '@';
    if !op.NoNewline? {
      assert line[1..] == op.text;
    }
  }

  lemma {:induction false} ActionsOfOps(ops: seq<Op>)
    ensures Actions(RenderOps(ops)) == OpActions(ops)
  {
    hide Classify, RenderOp;
    if ops != [] {
      ClassifyOp(ops[0]);
      ActionsOfOps(ops[1..]);
      ActionsAppend([RenderOp(ops[0])], RenderOps(ops[1..]));
    }
  }

  lemma ActionsAppend(a: seq<string>, b: seq<string>)
    ensures Actions(a + b) == Actions(a) + Actions(b)
  {
    hide Classify;
  }

  lemma ClassifyHeader(h: Hunk)
    ensures Actions([RenderHeader(h)]) == [Jump(Saturate(h.oldStart))]
  {
    hide HeaderStart;
    HeaderRoundTrip(h);
    assert StartsWith(RenderHeader(h), "@@");
  }

  lemma {:induction false} ActionsOfHunks(hs: seq<Hunk>)
    ensures Actions(RenderHunks(hs)) == HunkActions(hs)
  {
    hide Classify, RenderHeader;
    if hs != [] {
      var h := hs[0];
      ClassifyHeader(h);
      ActionsOfOps(h.ops);
      ActionsOfHunks(hs[1..]);
      ActionsAppend([RenderHeader(h)], RenderOps(h.ops));
      ActionsAppend(RenderHunk(h), RenderHunks(hs[1..]));
    }
  }

  // ----- running them -----

  lemma {:induction false} RunOps(file: seq<string>, c: Cursor, ops: seq<Op>)
    requires c.at == c.copied && c.at + |OldSide(ops)| <= |file|
    requires file[c.at..c.at + |OldSide(ops)|] == OldSide(ops)
    ensures var to := c.at + |OldSide(ops)|;
            Run(file, false, c, OpActions(ops)) == Ok(Cursor(c.out + NewSide(ops), to, to))
    decreases |ops|
  {
    if ops != [] {
      var old' := OldSide(ops);
      var d := if ops[0].Keep? || ops[0].Del? then c.at + 1 else c.at;
      if ops[0].Keep? || ops[0].Del? {
        assert file[c.at] == file[c.at..c.at + |old'|][0];
        assert file[d..d + |OldSide(ops[1..])|] == file[c.at..c.at + |old'|][1..];
      }
      var placed := if ops[0].Keep? || ops[0].Add? then [ops[0].text] else [];
      assert c.out + [] == c.out;
      assert Step(file, false, c, OpAction(ops[0])) == Ok(Cursor(c.out + placed, d, d));
      var e := Cursor(c.out + placed, d, d);
      RunOps(file, e, ops[1..]);
      Assoc(c.out, placed, NewSide(ops[1..]));
      assert OpActions(ops)[0] == OpAction(ops[0]) && OpActions(ops)[1..] == OpActions(ops[1..]);
      assert Run(file, false, c, OpActions(ops)) == Run(file, false, e, OpActions(ops[1..]));
      assert NewSide(ops) == placed + NewSide(ops[1..]);
      assert d + |OldSide(ops[1..])| == c.at + |OldSide(ops)|;
    } else {
      assert c.out + [] == c.out;
    }
  }

  /** Where the applier puts the changes that follow p old lines: one line early when they
      are pure insertions, except at the head of the file. */
  function Landing(ops: seq<Op>, p: nat): (to: nat)
    ensures to <= p
  {
    if OldSide(ops) == [] && p > 0 then p - 1 else p
  }

  lemma RunPiece(file: seq<string>, ops: seq<Op>, p: nat, q: nat, c: Cursor)
    requires c.at == c.copied <= p
    requires p + |OldSide(ops)| <= |file| <= MAX_INT
    requires file[p..p + |OldSide(ops)|] == OldSide(ops)
    ensures var to := Landing(ops, p); var end := to + |OldSide(ops)|;
            Run(file, false, c, [Jump(Saturate(HunkAt(ops, p, q).oldStart))] + OpActions(ops))
            == Ok(Cursor(c.out + Between(file, c.copied, to) + NewSide(ops), end, end))
  {
    hide Run, Step, NewSide, OldSide, OpActions, Between;
    var start := Saturate(HunkAt(ops, p, q).oldStart);
    var to := Landing(ops, p);
    JumpTo(file, c, start);
    RunOps(file, Cursor(c.out + Between(file, c.copied, to), to, to), ops);
    RunAppend(file, false, c, [Jump(start)], OpActions(ops));
  }

  /** The old lines that a jump puts out; a jump back puts out none. */
  function Between(file: seq<string>, from: nat, to: nat): seq<string>
    requires to <= |file|
  {
    if from < to then file[from..to] else []
  }

  /** The old line before line p. */
  function LineBefore(file: seq<string>, p: nat): Option<string>
    requires p <= |file|
  {
    if p == 0 then None else Some(file[p - 1])
  }

  /** The cursor is at p, or one line short of it. */
  predicate Short(copied: nat, p: nat, owed: bool)
  {
    if owed then copied + 1 == p else copied == p
  }

  lemma HeldAt(file: seq<string>, piece: Piece, p: nat, copied: nat, owed: bool)
    requires var at := p + |piece.gap|; at <= |file| && file[p..at] == piece.gap
    requires Short(copied, p, owed)
    ensures var at := p + |piece.gap|; var held := HeldBack(piece, LineBefore(file, p), owed);
            held == file[copied..at] && LastLine(held, LineBefore(file, p)) == LineBefore(file, at)
  {
    var at := p + |piece.gap|;
    if owed {
      assert file[copied..at] == [file[p - 1]] + file[p..at];
    } else {
      assert [] + piece.gap == piece.gap;
    }
    if copied < at {
      assert file[copied..at][at - copied - 1] == file[at - 1];
    }
  }

  /** What a piece adds to the output, and how it leaves the cursor. */
  lemma SeenStep(file: seq<string>, piece: Piece, p: nat, copied: nat, owed: bool)
    requires var at := p + |piece.gap|; at + |OldSide(piece.ops)| <= |file| && file[p..at] == piece.gap
    requires Short(copied, p, owed)
    ensures var at := p + |piece.gap|; var held := HeldBack(piece, LineBefore(file, p), owed);
            var early := OnlyInserts(piece.ops) && at > 0;
            && Between(file, copied, Landing(piece.ops, at)) == (if early then AllButLast(held) else held)
            && Short(Landing(piece.ops, at) + |OldSide(piece.ops)|, at + |OldSide(piece.ops)|, early)
  {
    hide NewSide, OldSide, LineBefore, HeldBack, LastLine;
    HeldAt(file, piece, p, copied, owed);
    ButLast(file, copied, p + |piece.gap|);
  }

  lemma ButLast(file: seq<string>, from: nat, to: nat)
    requires from <= to <= |file|
    ensures Between(file, from, to) == file[from..to]
    ensures to > 0 ==> Between(file, from, to - 1) == AllButLast(file[from..to])
  {
    if from < to {
      assert file[from..to][..to - from - 1] == file[from..to - 1];
    }
  }

  lemma LastOld(file: seq<string>, lines: seq<string>, at: nat)
    requires at + |lines| <= |file| && file[at..at + |lines|] == lines
    ensures LastLine(lines, LineBefore(file, at)) == LineBefore(file, at + |lines|)
  {
    if lines != [] {
      assert file[at..at + |lines|][|lines| - 1] == file[at + |lines| - 1];
    }
  }

  /** Where the first piece stands in the old lines. */
  lemma FirstPiece(file: seq<string>, pieces: seq<Piece>, tail: seq<string>, p: nat)
    requires pieces != [] && p <= |file| && file[p..] == OldOf(pieces, tail)
    ensures var gap, lines := pieces[0].gap, OldSide(pieces[0].ops); var at := p + |gap|;
            && at + |lines| <= |file|
            && file[p..at] == gap && file[at..at + |lines|] == lines && file[at + |lines|..] == OldOf(pieces[1..], tail)
  {
    hide OldSide;
    var gap, lines, rest := pieces[0].gap, OldSide(pieces[0].ops), OldOf(pieces[1..], tail);
    Assoc(gap, lines, rest);
    SliceAt(file, p, gap, lines + rest);
    SliceAt(file, p + |gap|, lines, rest);
  }

  lemma NoHunkActions(pieces: seq<Piece>, p: nat, q: nat)
    requires pieces == []
    ensures HunkActions(HunksOf(pieces, p, q)) == []
  {
  }

  lemma HunkActionsCons(pieces: seq<Piece>, p: nat, q: nat)
    requires pieces != []
    ensures var ops, at, q' := pieces[0].ops, p + |pieces[0].gap|, q + |pieces[0].gap|;
            HunkActions(HunksOf(pieces, p, q))
            == [Jump(Saturate(HunkAt(ops, at, q').oldStart))] + OpActions(ops)
               + HunkActions(HunksOf(pieces[1..], at + |OldSide(ops)|, q' + |NewSide(ops)|))
  {
    hide HunkAt, Saturate, OldSide, NewSide;
  }

  /** The applier on the hunks of the pieces that start at old line p, with the cursor there
      or one line short of it: the result is what was out, and SeenFrom the pieces. */
  lemma {:induction false} RunPieces(file: seq<string>, pieces: seq<Piece>, tail: seq<string>, p: nat, q: nat,
                                     c: Cursor, owed: bool)
    requires p <= |file| <= MAX_INT && file[p..] == OldOf(pieces, tail)
    requires c.at == c.copied && Short(c.copied, p, owed)
    ensures var r := Run(file, false, c, HunkActions(HunksOf(pieces, p, q)));
            r.Ok? && Finish(file, false, r.value) == c.out + SeenFrom(pieces, tail, LineBefore(file, p), owed)
    decreases |pieces|
  {
    hide Run, Step, HunkAt, Landing, Saturate, Finish, OpActions, SeenFrom, Between, LineBefore, HeldBack;
    hide OldSide, NewSide, AllButLast, HunkActions, HunksOf;
    if pieces == [] {
      NoHunkActions(pieces, p, q);
      RunTail(file, tail, p, c, owed);
    } else {
      var gap, ops := pieces[0].gap, pieces[0].ops;
      var at, q' := p + |gap|, q + |gap|;
      var next := at + |OldSide(ops)|;
      FirstPiece(file, pieces, tail, p);
      SeenStep(file, pieces[0], p, c.copied, owed);
      RunPiece(file, ops, at, q', c);
      var to := Landing(ops, at);
      var end := to + |OldSide(ops)|;
      var out := Between(file, c.copied, to);
      var e := Cursor(c.out + out + NewSide(ops), end, end);
      var acts := HunkActions(HunksOf(pieces[1..], next, q' + |NewSide(ops)|));
      var early := OnlyInserts(ops) && at > 0;
      HunkActionsCons(pieces, p, q);
      RunAppend(file, false, c, [Jump(Saturate(HunkAt(ops, at, q').oldStart))] + OpActions(ops), acts);
      RunPieces(file, pieces[1..], tail, next, q' + |NewSide(ops)|, e, early);
      SeenCons(file, pieces, tail, p, c.copied, owed);
      Regroup(c.out, out, NewSide(ops), SeenFrom(pieces[1..], tail, LineBefore(file, next), early));
    }
  }

  lemma Regroup<T>(a: seq<T>, b: seq<T>, x: seq<T>, z: seq<T>)
    ensures a + b + x + z == a + (b + x + z)
  {
    Assoc(a, b, x);
    Assoc(a, b + x, z);
  }

  /** SeenFrom one piece on, in terms of where things stand in the file. */
  lemma SeenCons(file: seq<string>, pieces: seq<Piece>, tail: seq<string>, p: nat, copied: nat, owed: bool)
    requires pieces != [] && Short(copied, p, owed)
    requires var at := p + |pieces[0].gap|; var old' := OldSide(pieces[0].ops);
             at + |old'| <= |file| && file[p..at] == pieces[0].gap && file[at..at + |old'|] == old'
    ensures var piece := pieces[0]; var at := p + |piece.gap|; var early := OnlyInserts(piece.ops) && at > 0;
            var held := HeldBack(piece, LineBefore(file, p), owed);
            SeenFrom(pieces, tail, LineBefore(file, p), owed)
            == (if early then AllButLast(held) else held) + NewSide(piece.ops)
               + SeenFrom(pieces[1..], tail, LineBefore(file, at + |OldSide(piece.ops)|), early)
  {
    hide HeldBack, AllButLast, NewSide, OldSide;
    var piece, at := pieces[0], p + |pieces[0].gap|;
    HeldAt(file, piece, p, copied, owed);
    LastOld(file, OldSide(piece.ops), at);
  }

  lemma RunTail(file: seq<string>, tail: seq<string>, p: nat, c: Cursor, owed: bool)
    requires Short(c.copied, p, owed) && p <= |file| && file[p..] == tail
    ensures Run(file, false, c, []) == Ok(c)
    ensures Finish(file, false, c) == c.out + SeenFrom([], tail, LineBefore(file, p), owed)
  {
    assert file[c.copied..] == file[c.copied..p] + file[p..];
    assert owed ==> file[c.copied..p] == [file[p - 1]];
    assert c.out + [] == c.out;
  }

  /** A jump forward or back inside the file. */
  lemma JumpTo(file: seq<string>, c: Cursor, start: nat)
    requires c.at == c.copied && Target(start) <= |file| && c.copied <= |file|
    ensures var to := Target(start);
            Run(file, false, c, [Jump(start)]) == Ok(Cursor(c.out + Between(file, c.copied, to), to, to))
  {
    hide Run;
    RunOne(file, false, c, [Jump(start)], 0);
    RunNothing(file, false, Step(file, false, c, Jump(start)).value, [Jump(start)][1..]);
    assert [Jump(start)][0..] == [Jump(start)];
    assert c.out + [] == c.out;
  }
}
