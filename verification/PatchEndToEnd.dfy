/** From old texts to new texts through a printed patch. */
module PatchEndToEnd {
  import opened Text
  import opened PatchSyntax
  import opened PatchParse
  import opened PatchSections
  import opened PatchReading
  import opened PatchRoundTrip
  import opened PatchApply
  import opened PatchLaws
  import opened PatchRefine

  predicate AllEqual(lines: seq<string>, y: string)
  {
    forall k :: 0 <= k < |lines| ==> lines[k] == y
  }

  /** Putting insertions one line early makes no difference: whatever a hunk inserts that only
      inserts, and not at the head of the file, repeats the old line before it, and that line
      is not one of the hunk before it. before and owed are as in SeenFrom. */
  predicate HarmlessFrom(pieces: seq<Piece>, before: Option<string>, owed: bool)
    decreases |pieces|
  {
    pieces == [] || (
      var ops, held := pieces[0].ops, HeldBack(pieces[0], before, owed);
      var last := LastLine(held, before);
      if OnlyInserts(ops) && last.Some? then
        held != [] && AllEqual(NewSide(ops), last.value) && HarmlessFrom(pieces[1..], last, true)
      else HarmlessFrom(pieces[1..], LastLine(OldSide(ops), last), false))
  }

  predicate AllHarmless(pieces: seq<Piece>)
  {
    HarmlessFrom(pieces, None, false)
  }

  lemma {:induction false} Rotation(xs: seq<string>, y: string)
    ensures xs + [y] == [y] + xs <==> AllEqual(xs, y)
  {
    if xs != [] && xs + [y] == [y] + xs {
      assert xs[0] == (xs + [y])[0] == ([y] + xs)[0];
      assert xs[1..] + [y] == (xs + [y])[1..] == ([y] + xs)[1..] == [y] + xs[1..];
      Rotation(xs[1..], y);
      assert forall k :: 1 <= k < |xs| ==> xs[k] == xs[1..][k - 1];
    }
    if AllEqual(xs, y) {
      assert forall k :: 0 <= k < |xs| ==> ([y] + xs)[k] == y;
    }
  }

  lemma SplitEqual<T>(a: seq<T>, b: seq<T>, x: seq<T>, y: seq<T>)
    requires |a| == |x|
    ensures a + b == x + y <==> a == x && b == y
  {
    if a + b == x + y {
      assert (a + b)[..|a|] == a && (a + b)[|a|..] == b;
    }
  }

  /** A line moved behind the added ones. */
  lemma MovedLine(added: seq<string>, y: string, seen: seq<string>, rest: seq<string>)
    requires |seen| >= 1 + |rest|
    ensures added + seen == [y] + added + rest <==> AllEqual(added, y) && seen == [y] + rest
  {
    if added + seen == [y] + added + rest {
      assert |seen| == 1 + |rest|;
      assert seen == seen[..1] + seen[1..];
      Assoc(added, seen[..1], seen[1..]);
      SplitEqual(added + seen[..1], seen[1..], [y] + added, rest);
      assert (added + seen[..1])[|added|] == seen[0] && ([y] + added)[0] == y;
      MovedOne(added, y, seen[0]);
    }
    if AllEqual(added, y) {
      Rotation(added, y);
      Assoc(added, [y], rest);
      SplitEqual(added, seen, added, [y] + rest);
    }
  }

  lemma MovedOne(added: seq<string>, y: string, z: string)
    requires added + [z] == [y] + added
    ensures AllEqual(added, y) && z == y
  {
    if added != [] {
      assert added[0] == (added + [z])[0] == ([y] + added)[0];
      assert added[1..] + [z] == (added + [z])[1..] == ([y] + added)[1..] == [y] + added[1..];
      MovedOne(added[1..], y, z);
      assert forall k :: 1 <= k < |added| ==> added[k] == added[1..][k - 1];
    } else {
      assert (added + [z])[0] == z && ([y] + added)[0] == y;
    }
  }

  /** The applier's lines are the new lines exactly when every late insertion is harmless;
      otherwise they may be more. */
  lemma {:induction false} SeenFromExactly(pieces: seq<Piece>, tail: seq<string>, before: Option<string>, owed: bool)
    ensures |SeenFrom(pieces, tail, before, owed)| >= |Owed(before, owed)| + |NewOf(pieces, tail)|
    ensures SeenFrom(pieces, tail, before, owed) == Owed(before, owed) + NewOf(pieces, tail)
       <==> HarmlessFrom(pieces, before, owed)
    decreases |pieces|
  {
    hide AllEqual;
    if pieces != [] {
      var ops, held := pieces[0].ops, HeldBack(pieces[0], before, owed);
      var last, added, rest := LastLine(held, before), NewSide(ops), NewOf(pieces[1..], tail);
      Assoc(Owed(before, owed), pieces[0].gap, added);
      Assoc(Owed(before, owed), pieces[0].gap + added, rest);
      assert Owed(before, owed) + NewOf(pieces, tail) == held + added + rest;
      if OnlyInserts(ops) && last.Some? {
        SeenFromExactly(pieces[1..], tail, last, true);
        var seen := SeenFrom(pieces[1..], tail, last, true);
        if held != [] {
          MovedLine(added, last.value, seen, rest);
          EarlyLines(held, added, seen, rest);
        }
      } else {
        SeenFromExactly(pieces[1..], tail, LastLine(OldSide(ops), last), false);
        var seen := SeenFrom(pieces[1..], tail, LastLine(OldSide(ops), last), false);
        assert [] + rest == rest;
        SplitEqual(held + added, seen, held + added, rest);
      }
    }
  }

  lemma EarlyLines(held: seq<string>, added: seq<string>, seen: seq<string>, rest: seq<string>)
    requires held != []
    ensures AllButLast(held) + added + seen == held + added + rest
       <==> added + seen == [held[|held| - 1]] + added + rest
  {
    var front, y := AllButLast(held), [held[|held| - 1]];
    assert held == front + y;
    Assoc(front, added, seen);
    Assoc(front, y, added);
    Assoc(front, y + added, rest);
    SplitEqual(front, added + seen, front, y + added + rest);
  }

  lemma SeenExactly(pieces: seq<Piece>, tail: seq<string>)
    ensures |SeenOf(pieces, tail)| >= |NewOf(pieces, tail)|
    ensures SeenOf(pieces, tail) == NewOf(pieces, tail) <==> AllHarmless(pieces)
  {
    SeenFromExactly(pieces, tail, None, false);
    assert [] + NewOf(pieces, tail) == NewOf(pieces, tail);
  }

  // ----- texts -----

  /** A text of whole lines. No line at all is the empty text. */
  function TextOf(lines: seq<string>, newline: bool): string
  {
    if lines == [] then "" else Join(lines) + (if newline then "\n" else "")
  }

  /** The content of a text is its lines, and the text is given back by them. */
  lemma ContentText(existing: string)
    ensures var c := ContentOf(existing);
            && TextOf(c.lines, c.newline) == existing && Lines(c.lines)
            && (c.newline ==> c.lines != [])
  {
    if existing != "" {
      JoinSplit(existing);
      var ls := Split(existing);
      if ls[|ls| - 1] == "" {
        assert ls == ls[..|ls| - 1] + [""];
        if |ls| > 1 {
          JoinAppend(ls[..|ls| - 1], [""]);
        }
      }
    }
  }

  predicate OneLineOps(ops: seq<Op>)
  {
    forall k :: 0 <= k < |ops| ==> OneLineOp(ops[k])
  }

  predicate OneLinePieces(pieces: seq<Piece>)
  {
    forall j :: 0 <= j < |pieces| ==> Lines(pieces[j].gap) && OneLineOps(pieces[j].ops)
  }

  lemma {:induction false} NewSideLines(ops: seq<Op>)
    requires OneLineOps(ops)
    ensures Lines(NewSide(ops))
  {
    if ops != [] {
      assert OneLineOp(ops[0]);
      NewSideLines(ops[1..]);
    }
  }

  lemma {:induction false} OldSideLines(ops: seq<Op>)
    requires OneLineOps(ops)
    ensures Lines(OldSide(ops))
  {
    if ops != [] {
      assert OneLineOp(ops[0]);
      OldSideLines(ops[1..]);
    }
  }

  lemma {:induction false} NewLines(pieces: seq<Piece>, tail: seq<string>)
    requires OneLinePieces(pieces) && Lines(tail)
    ensures Lines(NewOf(pieces, tail))
  {
    hide OneLineOps, OneLine;
    if pieces != [] {
      NewSideLines(pieces[0].ops);
      NewLines(pieces[1..], tail);
    }
  }

  lemma LinesJoined(a: seq<string>, b: seq<string>)
    requires Lines(a) && Lines(b)
    ensures Lines(a + b)
  {
    hide OneLine;
  }

  predicate OneLineOption(line: Option<string>)
  {
    line.Some? ==> OneLine(line.value)
  }

  /** The lines that a piece holds back, and what is left of them. */
  lemma HeldLines(piece: Piece, before: Option<string>, owed: bool)
    requires Lines(piece.gap) && OneLineOption(before)
    ensures var held := HeldBack(piece, before, owed);
            Lines(held) && Lines(AllButLast(held)) && OneLineOption(LastLine(held, before))
  {
    hide OneLine;
    assert Lines(Owed(before, owed));
    LinesJoined(Owed(before, owed), piece.gap);
  }

  lemma LastLines(lines: seq<string>, before: Option<string>)
    requires Lines(lines) && OneLineOption(before)
    ensures OneLineOption(LastLine(lines, before))
  {
    hide OneLine;
  }

  lemma {:induction false} SeenLines(pieces: seq<Piece>, tail: seq<string>, before: Option<string>, owed: bool)
    requires OneLinePieces(pieces) && Lines(tail) && OneLineOption(before)
    ensures Lines(SeenFrom(pieces, tail, before, owed))
    decreases |pieces|
  {
    if pieces == [] {
      LinesJoined(Owed(before, owed), tail);
    } else {
      var ops, held, rest := pieces[0].ops, HeldBack(pieces[0], before, owed), pieces[1..];
      var last := LastLine(held, before);
      assert OneLinePieces(rest) && OneLineOps(ops) && Lines(pieces[0].gap);
      hide Lines, OneLineOps, OneLinePieces, OneLineOption, NewSide, OldSide, HeldBack, LastLine, AllButLast;
      HeldLines(pieces[0], before, owed);
      NewSideLines(ops);
      OldSideLines(ops);
      LastLines(OldSide(ops), last);
      if OnlyInserts(ops) && last.Some? {
        SeenLines(rest, tail, last, true);
        LinesJoined(AllButLast(held), NewSide(ops));
        LinesJoined(AllButLast(held) + NewSide(ops), SeenFrom(rest, tail, last, true));
      } else {
        SeenLines(rest, tail, LastLine(OldSide(ops), last), false);
        LinesJoined(held, NewSide(ops));
        LinesJoined(held + NewSide(ops), SeenFrom(rest, tail, LastLine(OldSide(ops), last), false));
      }
    }
  }

  /** Rendered lines give the same text exactly when they are equal, except that a single
      empty line loses its line feed, and passes for no line at all. */
  lemma RenderExactly(seen: seq<string>, lines: seq<string>, newline: bool)
    requires |seen| >= |lines| && Lines(seen) && Lines(lines)
    ensures Render(seen, newline) == TextOf(lines, newline)
       <==> if lines == [] then seen == [] || seen == [""] else seen == lines && !(newline && lines == [""])
  {
    var a, b := Join(seen), Join(lines);
    if seen != [] {
      EmptyJoin(seen);
    }
    if lines != [] {
      EmptyJoin(lines);
      assert a == b && seen != [] ==> seen == lines by {
        if a == b && seen != [] { JoinInjective(seen, lines); }
      }
      if newline {
        assert (b + "\n")[..|b|] == b && |b + "\n"| == |b| + 1;
        if a != "" {
          assert (a + "\n")[..|a|] == a;
        }
      }
    }
  }

  lemma EmptyJoin(lines: seq<string>)
    requires lines != [] && Lines(lines)
    ensures Join(lines) == "" <==> lines == [""]
  {
    if Join(lines) == "" {
      JoinInjective(lines, [""]);
    }
  }

  /** The hunk text of a script, as a patch file holds it. */
  function ScriptText(pieces: seq<Piece>): string
  {
    Join(RenderHunks(HunksOf(pieces, 0, 0))) + "\n"
  }

  lemma ScriptActions(pieces: seq<Piece>)
    requires pieces != [] && OneLinePieces(pieces)
    ensures Actions(Split(ScriptText(pieces))) == HunkActions(HunksOf(pieces, 0, 0)) + [Ignore]
  {
    hide RenderHunks, HunkActions, Classify, HunksOf, HunkText;
    var hs := HunksOf(pieces, 0, 0);
    forall j | 0 <= j < |hs|
      ensures OneLineHunk(hs[j])
    {
      assert OneLineOps(pieces[j].ops);
      assert OneLineOps(hs[j].ops);
    }
    HunksPrinted(hs);
    SplitTerminated(RenderHunks(hs));
    ActionsOfHunks(hs);
    ActionsAppend(RenderHunks(hs), [""]);
    ClassifyBlank("");
  }

  lemma ClassifyBlank(line: string)
    requires line == ""
    ensures Actions([line]) == [Ignore]
  {
  }

  lemma RunIgnore(file: seq<string>, isNew: bool, acts: seq<Action>)
    ensures Run(file, isNew, START, acts + [Ignore]) == Run(file, isNew, START, acts)
  {
    RunAppend(file, isNew, START, acts, [Ignore]);
  }

  /** A script that starts from the given text. */
  predicate StartsFrom(existing: string, pieces: seq<Piece>, tail: seq<string>)
  {
    && ContentOf(existing).lines == OldOf(pieces, tail) && |OldOf(pieces, tail)| <= MAX_INT
    && pieces != [] && OneLinePieces(pieces)
  }

  function NewText(existing: string, pieces: seq<Piece>, tail: seq<string>): string
  {
    TextOf(NewOf(pieces, tail), ContentOf(existing).newline)
  }

  lemma AppliedLines(existing: string, pieces: seq<Piece>, tail: seq<string>)
    requires StartsFrom(existing, pieces, tail)
    ensures Apply(existing, ScriptText(pieces), false) == Ok(Render(SeenOf(pieces, tail), ContentOf(existing).newline))
  {
    hide ContentOf, ScriptText, Render, OneLinePieces, Run, Finish, HunkActions, SeenOf, OldOf, HunksOf;
    var file := ContentOf(existing).lines;
    ScriptActions(pieces);
    RunIgnore(file, false, HunkActions(HunksOf(pieces, 0, 0)));
    assert file[0..] == file;
    RunPieces(file, pieces, tail, 0, 0, START, false);
    assert SeenOf(pieces, tail) == SeenFrom(pieces, tail, LineBefore(file, 0), false) by
    { SeenAtStart(file, pieces, tail); }
    assert [] + SeenOf(pieces, tail) == SeenOf(pieces, tail);
  }

  lemma SeenAtStart(file: seq<string>, pieces: seq<Piece>, tail: seq<string>)
    ensures SeenFrom(pieces, tail, LineBefore(file, 0), false) == SeenOf(pieces, tail)
  {
  }

  lemma {:induction false} TailLines(pieces: seq<Piece>, tail: seq<string>)
    requires Lines(OldOf(pieces, tail))
    ensures Lines(tail)
  {
    hide OneLine;
    if pieces != [] {
      var old' := OldOf(pieces[1..], tail);
      var head := pieces[0].gap + OldSide(pieces[0].ops);
      forall k | 0 <= k < |old'|
        ensures OneLine(old'[k])
      {
        assert OldOf(pieces, tail)[|head| + k] == old'[k];
      }
      TailLines(pieces[1..], tail);
    }
  }

  /** Every hunk that only inserts, and not at the head of the file, repeats the old line
      before it, which is not one of the hunk before, and the new text is not one empty line;
      or the new text is empty and the applier is left with a single empty line. */
  predicate Agrees(existing: string, pieces: seq<Piece>, tail: seq<string>)
  {
    || (AllHarmless(pieces) && !(ContentOf(existing).newline && NewOf(pieces, tail) == [""]))
    || (NewOf(pieces, tail) == [] && SeenOf(pieces, tail) == [""])
  }

  /** Applying the hunks of a script to its old text gives its new text, with the old
      text's final line feed, exactly when the two agree. */
  lemma ApplyGivesNewText(existing: string, pieces: seq<Piece>, tail: seq<string>)
    requires StartsFrom(existing, pieces, tail)
    ensures Apply(existing, ScriptText(pieces), false) == Ok(NewText(existing, pieces, tail))
       <==> Agrees(existing, pieces, tail)
  {
    hide ContentOf, ScriptText, Render, Apply, AllHarmless, TextOf, OldOf, NewOf, SeenFrom, OneLinePieces;
    AppliedLines(existing, pieces, tail);
    SeenExactly(pieces, tail);
    ContentText(existing);
    TailLines(pieces, tail);
    NewLines(pieces, tail);
    SeenLines(pieces, tail, None, false);
    RenderExactly(SeenOf(pieces, tail), NewOf(pieces, tail), ContentOf(existing).newline);
  }

  // ----- creating a file -----

  function AddAll(lines: seq<string>): (ops: seq<Op>)
    ensures OldSide(ops) == [] && NewSide(ops) == lines
  {
    if lines == [] then [] else [Add(lines[0])] + AddAll(lines[1..])
  }

  lemma {:induction false} AddActions(lines: seq<string>)
    ensures var acts := OpActions(AddAll(lines));
            Placed(acts) == lines && forall k :: 0 <= k < |acts| ==> acts[k].Insert?
  {
    if lines != [] {
      AddActions(lines[1..]);
    }
  }

  lemma {:induction false} PlacedAppend(a: seq<Action>, b: seq<Action>)
    ensures Placed(a + b) == Placed(a) + Placed(b)
  {
    if a == [] {
      assert a + b == b;
    } else {
      assert (a + b)[1..] == a[1..] + b;
      PlacedAppend(a[1..], b);
    }
  }

  lemma CreatePieces(lines: seq<string>)
    requires Lines(lines)
    ensures OneLinePieces([Piece([], AddAll(lines))])
  {
    AddAllLines(lines);
  }

  lemma {:induction false} AddAllLines(lines: seq<string>)
    requires Lines(lines)
    ensures OneLineOps(AddAll(lines))
  {
    hide OneLine;
    if lines != [] {
      AddAllLines(lines[1..]);
      var ops := AddAll(lines);
      assert ops[1..] == AddAll(lines[1..]);
      assert forall k :: 1 <= k < |ops| ==> ops[k] == ops[1..][k - 1];
    }
  }

  /** A jump places nothing, nor does a line that is ignored. */
  lemma PlacedBetween(start: nat, adds: seq<Action>)
    ensures Placed([Jump(start)] + adds + [Ignore]) == Placed(adds)
  {
    var jump := [Jump(start)];
    assert jump[1..] == [] && [Ignore][1..] == [];
    PlacedAppend(jump, adds);
    PlacedAppend(jump + adds, [Ignore]);
  }

  lemma CreateHunk(lines: seq<string>) returns (start: nat)
    ensures HunkActions(HunksOf([Piece([], AddAll(lines))], 0, 0)) == [Jump(start)] + OpActions(AddAll(lines))
  {
    hide AddAll, HunkActions, HunksOf, HunkAt, Saturate, OpActions;
    var pieces := [Piece([], AddAll(lines))];
    HunkActionsCons(pieces, 0, 0);
    NoHunkActions(pieces[1..], |OldSide(AddAll(lines))|, |NewSide(AddAll(lines))|);
    start := Saturate(HunkAt(pieces[0].ops, 0, 0).oldStart);
  }

  lemma CreateActions(lines: seq<string>)
    ensures var acts := HunkActions(HunksOf([Piece([], AddAll(lines))], 0, 0)) + [Ignore];
            Placed(acts) == lines && forall k :: 0 <= k < |acts| ==> !acts[k].Remove? && !acts[k].Malformed?
  {
    hide AddAll, HunkActions, HunksOf, OpActions, Placed;
    var start := CreateHunk(lines);
    AddActions(lines);
    PlacedBetween(start, OpActions(AddAll(lines)));
  }

  lemma {:induction false} CreateText(existing: string, hunkText: string, acts: seq<Action>, lines: seq<string>)
    requires existing == "" && acts == Actions(Split(hunkText)) && lines != []
    requires Run([], true, START, acts).Ok? && Finish([], true, Run([], true, START, acts).value) == lines
    ensures Apply(existing, hunkText, true) == Ok(TextOf(lines, false))
  {
    hide Run, Finish, Classify, Split, Join;
    assert Join(lines) + "" == Join(lines);
  }

  lemma NewFileFromStart(acts: seq<Action>)
    requires forall k :: 0 <= k < |acts| ==> !acts[k].Remove? && !acts[k].Malformed?
    ensures Run([], true, START, acts).Ok? && Finish([], true, Run([], true, START, acts).value) == Placed(acts)
  {
    hide Run, Finish;
    NewFile([], START, acts);
  }

  /** A file created from its own diff never gets a final line feed. */
  lemma {:induction false} CreateFile(lines: seq<string>)
    requires lines != [] && Lines(lines)
    ensures Apply("", ScriptText([Piece([], AddAll(lines))]), true) == Ok(TextOf(lines, false))
  {
    hide *;
    var pieces := [Piece([], AddAll(lines))];
    CreatePieces(lines);
    ScriptActions(pieces);
    var acts := HunkActions(HunksOf(pieces, 0, 0)) + [Ignore];
    CreateActions(lines);
    NewFileFromStart(acts);
    CreateText("", ScriptText(pieces), acts, lines);
  }

  // ----- several files in one patch -----

  /** A file of the patch: an existing one that is changed, or a new one. */
  datatype FileEdit =
    | Change(name: string, existing: string, pieces: seq<Piece>, tail: seq<string>)
    | Create(name: string, lines: seq<string>)

  function PiecesOf(e: FileEdit): seq<Piece>
  {
    if e.Change? then e.pieces else [Piece([], AddAll(e.lines))]
  }

  function SectionOf(e: FileEdit): Section
  {
    Section(if e.Change? then File(e.name) else DevNull, File(e.name), HunksOf(PiecesOf(e), 0, 0))
  }

  /** What the program passes as the current content: nothing for a file to be created. */
  function Before(e: FileEdit): string
  {
    if e.Change? then e.existing else ""
  }

  function Meant(e: FileEdit): string
  {
    if e.Change? then NewText(e.existing, e.pieces, e.tail) else TextOf(e.lines, false)
  }

  function SectionsOf(edits: seq<FileEdit>): (ss: seq<Section>)
    ensures |ss| == |edits| && forall i :: 0 <= i < |ss| ==> ss[i] == SectionOf(edits[i])
  {
    seq(|edits|, i requires 0 <= i < |edits| => SectionOf(edits[i]))
  }

  /** A change that a patch can show: of a file with a clean name, from its text. */
  predicate Shown(e: FileEdit)
  {
    && CleanName(e.name) && OneLine(e.name) && e.name != DEV_NULL
    && if e.Create? then e.lines != [] && Lines(e.lines) else StartsFrom(e.existing, e.pieces, e.tail)
  }

  /** The section names the file, and gives the text that is meant exactly when the file is
      new, or the applier agrees with the script. */
  predicate Carries(f: PatchFile, e: FileEdit)
  {
    && f.toPath == e.name
    && (f.fromPath == DEV_NULL <==> e.Create?)
    && (Apply(Before(e), f.hunks, f.fromPath == DEV_NULL) == Ok(Meant(e))
        <==> e.Create? || Agrees(e.existing, e.pieces, e.tail))
  }

  lemma ShownSection(e: FileEdit)
    requires Shown(e)
    ensures WellFormed(SectionOf(e))
  {
    hide CleanName, OneLine, OldOf, NewOf, ContentOf, HunksOf, AddAll, AllHarmless;
    var pieces := PiecesOf(e);
    if e.Create? {
      CreatePieces(e.lines);
    }
    var hs := HunksOf(pieces, 0, 0);
    forall j | 0 <= j < |hs|
      ensures OneLineHunk(hs[j])
    {
      assert OneLineOps(pieces[j].ops);
      assert OneLineOps(hs[j].ops);
      EmptyOneLine(hs[j].heading);
    }
  }

  lemma EmptyOneLine(s: string)
    requires s == ""
    ensures OneLine(s)
  {
  }

  lemma KeptSection(e: FileEdit)
    ensures !SectionOf(e).to.DevNull?
  {
  }

  lemma {:induction false} KeptFiles(edits: seq<FileEdit>, i: nat)
    requires i < |edits|
    ensures |FilesOf(SectionsOf(edits))| == |edits|
    ensures FilesOf(SectionsOf(edits))[i] == FileOf(SectionOf(edits[i]))
    decreases |edits|
  {
    hide FileOf, SectionOf;
    assert SectionsOf(edits)[1..] == SectionsOf(edits[1..]);
    forall k | 0 <= k < |edits|
      ensures !SectionOf(edits[k]).to.DevNull?
    {
      KeptSection(edits[k]);
    }
    if |edits| > 1 {
      KeptFiles(edits[1..], if i == 0 then 0 else i - 1);
    }
  }

  /** Printing a patch for any number of files, changed and new ones, and reading it gives
      their sections exactly when none holds a phantom file header; and applying each of
      these to its old text gives its new text exactly when the applier agrees with its
      script. */
  lemma PatchCarriesEdits(edits: seq<FileEdit>, newline: bool)
    requires forall i :: 0 <= i < |edits| ==> Shown(edits[i])
    ensures var files := ParseFrom(Split(PatchText(SectionsOf(edits), newline)), 0);
            && (files == FilesOf(SectionsOf(edits)) <==> !HasPhantom(SectionsOf(edits), newline))
            && (files == FilesOf(SectionsOf(edits)) ==>
                  |files| == |edits| && forall i :: 0 <= i < |edits| ==> Carries(files[i], edits[i]))
  {
    hide Shown, WellFormed, HasPhantom, FilesOf, PatchText, ParseFrom, Carries, Join;
    var ss := SectionsOf(edits);
    forall i | 0 <= i < |ss|
      ensures WellFormed(ss[i])
    {
      ShownSection(edits[i]);
    }
    ParseUndoesPrint(ss, newline);
    var files := FilesOf(ss);
    forall i | 0 <= i < |edits|
      ensures |files| == |edits| && Carries(files[i], edits[i])
    {
      KeptFiles(edits, i);
      OneFile(edits[i]);
    }
    if edits == [] {
      NoFiles(ss);
    } else {
      KeptFiles(edits, 0);
    }
  }

  lemma NoFiles(ss: seq<Section>)
    requires ss == []
    ensures FilesOf(ss) == []
  {
  }

  lemma OneFile(e: FileEdit)
    requires Shown(e)
    ensures Carries(FileOf(SectionOf(e)), e)
  {
    hide CleanName, OneLine, OldOf, NewOf, SeenOf, ContentOf, HunksOf, Apply, NewText,
         Agrees, StartsFrom, Join, AddAll, TextOf;
    if e.Change? {
      ApplyGivesNewText(e.existing, e.pieces, e.tail);
    } else {
      CreateFile(e.lines);
    }
  }
}
