/** Laws of the applier that hold for any hunk text whatever: how many lines come out,
    which lines they are when no hunk goes backwards, when a slice goes out of range,
    and what a new file is made of. */
module PatchLaws {
  import opened Text
  import opened PatchSyntax
  import opened PatchApply

  function Inserted(acts: seq<Action>): seq<string>
  {
    if acts == [] then []
    else (if acts[0].Insert? then [acts[0].text] else []) + Inserted(acts[1..])
  }

  function Removed(acts: seq<Action>): seq<string>
  {
    if acts == [] then []
    else (if acts[0].Remove? then [acts[0].text] else []) + Removed(acts[1..])
  }

  /** Where the second cursor stands after one more line, whatever the file holds. */
  function Advance(copied: nat, act: Action): nat
  {
    match act
    case Jump(start) => Target(start)
    case Remove(_) => copied + 1
    case Match(_) => copied + 1
    case _ => copied
  }

  /** What one header that points before the cursor gives back, as far as it is in the file. */
  function Repeated(length: nat, copied: nat, act: Action): nat
  {
    var next := Advance(copied, act);
    if act.Jump? && Min(next, length) < Min(copied, length) then Min(copied, length) - Min(next, length) else 0
  }

  /** The old lines that backward hunks put out a second time. */
  function Rewound(length: nat, copied: nat, acts: seq<Action>): nat
    decreases |acts|
  {
    if acts == [] then 0
    else Repeated(length, copied, acts[0]) + Rewound(length, Advance(copied, acts[0]), acts[1..])
  }

  lemma StepLength(file: seq<string>, c: Cursor, act: Action)
    requires c.at == c.copied && Step(file, false, c, act).Ok?
    ensures var d := Step(file, false, c, act).value;
            && d.at == d.copied == Advance(c.copied, act)
            && |Finish(file, false, d)| + |Removed([act])|
            == |Finish(file, false, c)| + |Inserted([act])| + Repeated(|file|, c.copied, act)
  {
  }

  lemma {:induction false} RunLength(file: seq<string>, c: Cursor, acts: seq<Action>)
    requires c.at == c.copied
    requires Run(file, false, c, acts).Ok?
    ensures |Finish(file, false, Run(file, false, c, acts).value)| + |Removed(acts)|
         == |Finish(file, false, c)| + |Inserted(acts)| + Rewound(|file|, c.copied, acts)
    decreases |acts|
  {
    hide Step, Finish;
    if acts != [] {
      StepLength(file, c, acts[0]);
      RunLength(file, Step(file, false, c, acts[0]).value, acts[1..]);
    }
  }

  /** The length of every result on an existing file: old lines, minus the '-' lines, plus
      the '+' lines, plus what backward hunks repeat. */
  lemma LengthLaw(file: seq<string>, acts: seq<Action>)
    requires Run(file, false, START, acts).Ok?
    ensures |Finish(file, false, Run(file, false, START, acts).value)| + |Removed(acts)|
         == |file| + |Inserted(acts)| + Rewound(|file|, 0, acts)
  {
    RunLength(file, START, acts);
  }

  // ----- the edit a run performs -----

  function OldSide(ops: seq<Op>): seq<string>
  {
    if ops == [] then []
    else (if ops[0].Keep? || ops[0].Del? then [ops[0].text] else []) + OldSide(ops[1..])
  }

  function NewSide(ops: seq<Op>): seq<string>
  {
    if ops == [] then []
    else (if ops[0].Keep? || ops[0].Add? then [ops[0].text] else []) + NewSide(ops[1..])
  }

  function Additions(ops: seq<Op>): seq<string>
  {
    if ops == [] then [] else (if ops[0].Add? then [ops[0].text] else []) + Additions(ops[1..])
  }

  function Deletions(ops: seq<Op>): seq<string>
  {
    if ops == [] then [] else (if ops[0].Del? then [ops[0].text] else []) + Deletions(ops[1..])
  }

  function KeepAll(lines: seq<string>): (ops: seq<Op>)
    ensures OldSide(ops) == NewSide(ops) == lines
    ensures Additions(ops) == Deletions(ops) == []
  {
    if lines == [] then [] else [Keep(lines[0])] + KeepAll(lines[1..])
  }

  lemma {:induction false} SidesAppend(a: seq<Op>, b: seq<Op>)
    ensures OldSide(a + b) == OldSide(a) + OldSide(b)
    ensures NewSide(a + b) == NewSide(a) + NewSide(b)
  {
    if a == [] {
      assert a + b == b;
    } else {
      var x := if a[0].Keep? || a[0].Del? then [a[0].text] else [];
      var y := if a[0].Keep? || a[0].Add? then [a[0].text] else [];
      assert (a + b)[0] == a[0] && (a + b)[1..] == a[1..] + b;
      assert OldSide(a) == x + OldSide(a[1..]) && OldSide(a + b) == x + OldSide(a[1..] + b);
      assert NewSide(a) == y + NewSide(a[1..]) && NewSide(a + b) == y + NewSide(a[1..] + b);
      hide *;
      SidesAppend(a[1..], b);
    }
  }

  lemma {:induction false} AdditionsAppend(a: seq<Op>, b: seq<Op>)
    ensures Additions(a + b) == Additions(a) + Additions(b)
  {
    if a == [] {
      assert a + b == b;
    } else {
      var x := if a[0].Add? then [a[0].text] else [];
      assert (a + b)[0] == a[0] && (a + b)[1..] == a[1..] + b;
      assert Additions(a) == x + Additions(a[1..]) && Additions(a + b) == x + Additions(a[1..] + b);
      hide *;
      AdditionsAppend(a[1..], b);
    }
  }

  lemma {:induction false} DeletionsAppend(a: seq<Op>, b: seq<Op>)
    ensures Deletions(a + b) == Deletions(a) + Deletions(b)
  {
    if a == [] {
      assert a + b == b;
    } else {
      var x := if a[0].Del? then [a[0].text] else [];
      assert (a + b)[0] == a[0] && (a + b)[1..] == a[1..] + b;
      assert Deletions(a) == x + Deletions(a[1..]) && Deletions(a + b) == x + Deletions(a[1..] + b);
      hide *;
      DeletionsAppend(a[1..], b);
    }
  }

  lemma ChangesAppend(a: seq<Op>, b: seq<Op>)
    ensures Additions(a + b) == Additions(a) + Additions(b)
    ensures Deletions(a + b) == Deletions(a) + Deletions(b)
  {
    AdditionsAppend(a, b);
    DeletionsAppend(a, b);
  }

  /** What one line of hunk text does to the old lines from the cursor on. */
  function Edit(file: seq<string>, copied: nat, act: Action): seq<Op>
  {
    match act
    case Jump(start) =>
      if copied < Min(Target(start), |file|) then KeepAll(file[copied..Min(Target(start), |file|)]) else []
    case Insert(text) => [Add(text)]
    case Remove(text) => [Del(text)]
    case Match(text) => [Keep(text)]
    case _ => []
  }

  /** The whole edit, from old line copied on: the old lines are gone through once, in order. */
  function Edits(file: seq<string>, copied: nat, acts: seq<Action>): seq<Op>
    decreases |acts|
  {
    if acts == [] then if copied < |file| then KeepAll(file[copied..]) else []
    else Edit(file, copied, acts[0]) + Edits(file, Advance(copied, acts[0]), acts[1..])
  }

  function From(file: seq<string>, copied: nat): seq<string>
  {
    if copied < |file| then file[copied..] else []
  }

  lemma JumpStep(file: seq<string>, c: Cursor, start: nat)
    requires c.at == c.copied
    requires Step(file, false, c, Jump(start)).Ok?
    requires Min(c.copied, |file|) <= Min(Target(start), |file|)
    ensures var d := Step(file, false, c, Jump(start)).value; var e := Edit(file, c.copied, Jump(start));
            && d.at == d.copied == Advance(c.copied, Jump(start))
            && d.out == c.out + NewSide(e)
            && From(file, c.copied) == OldSide(e) + From(file, d.copied)
  {
    hide NewSide, OldSide;
    var to := Min(Target(start), |file|);
    if c.copied < to {
      assert file[c.copied..] == file[c.copied..to] + file[to..];
      assert From(file, Target(start)) == file[to..];
    } else {
      assert NewSide([]) == [] && OldSide([]) == [] by { NoSides(); }
      assert c.out + [] == c.out && From(file, c.copied) == [] + From(file, Target(start));
    }
  }

  lemma NoSides()
    ensures NewSide([]) == [] && OldSide([]) == []
  {
  }

  lemma EditStep(file: seq<string>, c: Cursor, act: Action)
    requires c.at == c.copied
    requires Step(file, false, c, act).Ok?
    requires act.Jump? ==> Min(c.copied, |file|) <= Min(Target(act.start), |file|)
    ensures var d := Step(file, false, c, act).value; var e := Edit(file, c.copied, act);
            && d.at == d.copied == Advance(c.copied, act)
            && d.out == c.out + NewSide(e)
            && From(file, c.copied) == OldSide(e) + From(file, d.copied)
  {
    if act.Jump? {
      JumpStep(file, c, act.start);
    } else if act.Remove? || act.Match? {
      assert file[c.copied..] == [file[c.copied]] + file[c.copied + 1..];
    }
  }

  lemma {:induction false} RunEdits(file: seq<string>, c: Cursor, acts: seq<Action>)
    requires c.at == c.copied
    requires Run(file, false, c, acts).Ok? && Rewound(|file|, c.copied, acts) == 0
    ensures var e := Edits(file, c.copied, acts);
            && From(file, c.copied) == OldSide(e)
            && Finish(file, false, Run(file, false, c, acts).value) == c.out + NewSide(e)
    decreases |acts|
  {
    if acts != [] {
      EditStep(file, c, acts[0]);
      var d := Step(file, false, c, acts[0]).value;
      RunEdits(file, d, acts[1..]);
      SidesAppend(Edit(file, c.copied, acts[0]), Edits(file, d.copied, acts[1..]));
    }
  }

  lemma {:induction false} EditsChange(file: seq<string>, copied: nat, acts: seq<Action>)
    ensures Additions(Edits(file, copied, acts)) == Inserted(acts)
    ensures Deletions(Edits(file, copied, acts)) == Removed(acts)
    decreases |acts|
  {
    if acts != [] {
      EditsChange(file, Advance(copied, acts[0]), acts[1..]);
      ChangesAppend(Edit(file, copied, acts[0]), Edits(file, Advance(copied, acts[0]), acts[1..]));
    }
  }

  /** Line conservation. When no hunk goes backwards inside the file, a successful run is an
      edit of the old lines: its kept and deleted lines are the old file, in order; its kept
      and added lines are the result, in order; it adds the '+' lines and deletes the '-'
      lines, each in the order of the hunk text. */
  lemma Conservation(file: seq<string>, acts: seq<Action>)
    requires Run(file, false, START, acts).Ok? && Rewound(|file|, 0, acts) == 0
    ensures exists e ::
              && OldSide(e) == file
              && NewSide(e) == Finish(file, false, Run(file, false, START, acts).value)
              && Additions(e) == Inserted(acts)
              && Deletions(e) == Removed(acts)
  {
    RunEdits(file, START, acts);
    EditsChange(file, 0, acts);
    assert OldSide(Edits(file, 0, acts)) == file;
  }

  lemma {:induction false} SideLengths(e: seq<Op>)
    ensures |NewSide(e)| + |Deletions(e)| == |OldSide(e)| + |Additions(e)|
  {
    if e != [] {
      SideLengths(e[1..]);
    }
  }

  /** The edit that conserves lines exists exactly when nothing is repeated. */
  lemma ConservationExactly(file: seq<string>, acts: seq<Action>)
    requires Run(file, false, START, acts).Ok?
    ensures Rewound(|file|, 0, acts) == 0
       <==> exists e ::
              && OldSide(e) == file
              && NewSide(e) == Finish(file, false, Run(file, false, START, acts).value)
              && Additions(e) == Inserted(acts)
              && Deletions(e) == Removed(acts)
  {
    LengthLaw(file, acts);
    if Rewound(|file|, 0, acts) == 0 {
      Conservation(file, acts);
    }
    forall e | OldSide(e) == file && Additions(e) == Inserted(acts) && Deletions(e) == Removed(acts)
      && NewSide(e) == Finish(file, false, Run(file, false, START, acts).value)
      ensures Rewound(|file|, 0, acts) == 0
    {
      SideLengths(e);
    }
  }

  // ----- out of range -----

  /** Only insertions up to a header that points further than the cursor, which is itself
      past the end of the file. */
  predicate Leap(length: nat, copied: nat, acts: seq<Action>, j: nat)
  {
    && j < |acts| && acts[j].Jump? && length < copied < Target(acts[j].start)
    && forall k :: 0 <= k < j ==> acts[k].Insert? || acts[k].Ignore?
  }

  /** A header i past the end of the file, from which the next header j leaps on. */
  predicate LeapsTwice(length: nat, acts: seq<Action>, i: nat, j: nat)
  {
    i < |acts| && acts[i].Jump? && Leap(length, Target(acts[i].start), acts[i + 1..], j)
  }

  lemma {:induction false} LeapFails(file: seq<string>, c: Cursor, acts: seq<Action>, j: nat)
    requires Leap(|file|, c.copied, acts, j)
    ensures Run(file, false, c, acts) == Fail(SliceOutOfRange)
    decreases |acts|
  {
    if j > 0 {
      var d := Step(file, false, c, acts[0]).value;
      LeapFails(file, d, acts[1..], j - 1);
    }
  }

  lemma {:induction false} RunAppend(file: seq<string>, isNew: bool, c: Cursor, a: seq<Action>, b: seq<Action>)
    ensures Run(file, isNew, c, a + b)
         == match Run(file, isNew, c, a) case Fail(f) => Fail(f) case Ok(d) => Run(file, isNew, d, b)
    decreases |a|
  {
    hide Step;
    if a == [] {
      assert a + b == b;
    } else {
      assert (a + b)[0] == a[0] && (a + b)[1..] == a[1..] + b;
      match Step(file, isNew, c, a[0])
      case Fail(_) =>
      case Ok(d) => RunAppend(file, isNew, d, a[1..], b);
    }
  }

  lemma {:induction false} FailureLeaps(file: seq<string>, c: Cursor, acts: seq<Action>) returns (i: nat, j: nat)
    requires c.at == c.copied
    requires Run(file, false, c, acts) == Fail(SliceOutOfRange)
    ensures Leap(|file|, c.copied, acts, j)
         || (i < |acts| && LeapsTwice(|file|, acts, i, j) && Run(file, false, c, acts[..i]).Ok?)
    decreases |acts|
  {
    i, j := 0, 0;
    if Step(file, false, c, acts[0]).Ok? {
      var d := Step(file, false, c, acts[0]).value;
      i, j := FailureLeaps(file, d, acts[1..]);
      if Leap(|file|, d.copied, acts[1..], j) {
        if acts[0].Jump? {
          i := 0;
          assert acts[0 + 1..] == acts[1..];
        } else {
          j := j + 1;
        }
      } else {
        assert acts[..i + 1][1..] == acts[1..][..i];
        assert acts[1..][i + 1..] == acts[i + 1 + 1..];
        i := i + 1;
      }
    }
  }

  lemma ReachedLeapFails(file: seq<string>, acts: seq<Action>, i: nat, j: nat)
    requires i <= |acts| && LeapsTwice(|file|, acts, i, j) && Run(file, false, START, acts[..i]).Ok?
    ensures Run(file, false, START, acts) == Fail(SliceOutOfRange)
  {
    hide Leap;
    var c := Run(file, false, START, acts[..i]).value;
    assert acts == acts[..i] + acts[i..];
    RunAppend(file, false, START, acts[..i], acts[i..]);
    RunOne(file, false, c, acts, i);
    var s := Step(file, false, c, acts[i]);
    if s.Ok? {
      LeapFails(file, s.value, acts[i + 1..], j);
    }
  }

  /** When a slice goes out of range on an existing file: some header that is reached points
      past the end of the file, and the next header, with nothing but insertions between,
      points further still. */
  lemma OutOfRangeExactly(file: seq<string>, acts: seq<Action>)
    ensures Run(file, false, START, acts) == Fail(SliceOutOfRange)
       <==> exists i: nat, j: nat ::
                   i <= |acts| && LeapsTwice(|file|, acts, i, j) && Run(file, false, START, acts[..i]).Ok?
  {
    hide Run, LeapsTwice;
    if Run(file, false, START, acts) == Fail(SliceOutOfRange) {
      var i, j := FailureLeaps(file, START, acts);
      assert LeapsTwice(|file|, acts, i, j);
    }
    forall i: nat, j: nat | i <= |acts| && LeapsTwice(|file|, acts, i, j) && Run(file, false, START, acts[..i]).Ok?
      ensures Run(file, false, START, acts) == Fail(SliceOutOfRange)
    {
      ReachedLeapFails(file, acts, i, j);
    }
  }

  // ----- new files -----

  /** The '+' and ' ' lines, in order. */
  function Placed(acts: seq<Action>): seq<string>
  {
    if acts == [] then []
    else (if acts[0].Insert? || acts[0].Match? then [acts[0].text] else []) + Placed(acts[1..])
  }

  /** A new file takes any hunk text without '-' lines and malformed headers, whatever the
      starts say, and consists of the '+' and ' ' lines. */
  lemma {:induction false} NewFile(file: seq<string>, c: Cursor, acts: seq<Action>)
    ensures Run(file, true, c, acts).Ok? <==> forall k :: 0 <= k < |acts| ==> !acts[k].Remove? && !acts[k].Malformed?
    ensures Run(file, true, c, acts).Ok?
        ==> Finish(file, true, Run(file, true, c, acts).value) == c.out + Placed(acts)
    decreases |acts|
  {
    if acts != [] && Step(file, true, c, acts[0]).Ok? {
      NewFile(file, Step(file, true, c, acts[0]).value, acts[1..]);
      assert acts == [acts[0]] + acts[1..];
    }
  }

  /** So a new file has the text of its '+' and ' ' lines and no final line feed, whatever stands
      in its place. */
  lemma NewText(existing: string, hunkText: string)
    ensures var acts := Actions(Split(hunkText)); var r := Apply(existing, hunkText, true);
            if forall k :: 0 <= k < |acts| ==> !acts[k].Remove? && !acts[k].Malformed?
            then r == Ok(Join(Placed(acts))) else r.Fail?
  {
    hide Run, Actions, ContentOf, Split;
    var file, acts := ContentOf(existing).lines, Actions(Split(hunkText));
    NewFile(file, START, acts);
    assert [] + Placed(acts) == Placed(acts);
  }

  // ----- lines of hunk text -----

  /** A line that asks for nothing: it begins with none of the marks '+', '-', ' ' and "@@". */
  predicate Stray(line: string)
  {
    !StartsWith(line, "@@") && (line == "" || (line[0] != '+' && line[0] != '-' && line[0] != ' '))
  }

  lemma StrayIsIgnored(file: seq<string>, isNew: bool, c: Cursor, before: seq<string>, line: string, after: seq<string>)
    requires Stray(line)
    ensures Run(file, isNew, c, Actions(before + [line] + after)) == Run(file, isNew, c, Actions(before + after))
  {
    hide Step;
    RunAppend(file, isNew, c, Actions(before), Actions([line] + after));
    RunAppend(file, isNew, c, Actions(before), Actions(after));
    assert Actions(before + [line] + after) == Actions(before) + Actions([line] + after);
    assert Actions(before + after) == Actions(before) + Actions(after);
    if d :| Run(file, isNew, c, Actions(before)) == Ok(d) {
      StrayStep(file, isNew, d, line);
      assert Actions([line] + after)[1..] == Actions(after);
    }
  }

  lemma StrayStep(file: seq<string>, isNew: bool, c: Cursor, line: string)
    requires Stray(line)
    ensures Step(file, isNew, c, Classify(line)) == Ok(c)
  {
  }

  lemma NothingToApply(file: seq<string>, isNew: bool, lines: seq<string>)
    requires lines == []
    ensures Run(file, isNew, START, Actions(Split(Join(lines)))) == Run(file, isNew, START, Actions(lines))
  {
    StrayIsIgnored(file, isNew, START, lines, "", lines);
    assert lines + [""] + lines == [""] && lines + lines == lines;
  }

  /** The actions of a text of lines are those of its lines. */
  lemma RunJoined(file: seq<string>, isNew: bool, lines: seq<string>)
    requires Lines(lines)
    ensures Run(file, isNew, START, Actions(Split(Join(lines)))) == Run(file, isNew, START, Actions(lines))
  {
    if lines == [] {
      NothingToApply(file, isNew, lines);
    } else {
      SplitJoin(lines);
    }
  }

  /** A line that begins with none of the marks, such as the "diff --git" and "index" lines
      before the next file, may as well be left out of the hunk text, wherever it stands. */
  lemma StrayLine(existing: string, before: seq<string>, line: string, after: seq<string>, isNew: bool)
    requires Lines(before) && Lines(after) && OneLine(line) && Stray(line)
    ensures Apply(existing, Join(before + [line] + after), isNew) == Apply(existing, Join(before + after), isNew)
  {
    hide Run, Stray, Split, OneLine;
    var file := ContentOf(existing).lines;
    assert Lines(before + [line] + after) && Lines(before + after);
    RunJoined(file, isNew, before + [line] + after);
    RunJoined(file, isNew, before + after);
    StrayIsIgnored(file, isNew, START, before, line, after);
  }

  /** The fault of a line that is reached with the cursor c, if it has one. */
  predicate Faulty(file: seq<string>, isNew: bool, c: Cursor, line: string, fault: Fault)
  {
    match fault
    case MalformedHeader(l) => l == line && StartsWith(line, "@@") && HeaderStart(line).None?
    case RemovalFromNewFile => isNew && StartsWith(line, "-")
    case ContextMismatch(at, expected) =>
      && !isNew && (line == "-" + expected || line == " " + expected)
      && at == c.at && (at >= |file| || file[at] != expected)
    case SliceOutOfRange =>
      && !isNew && HeaderStart(line).Some? && StartsWith(line, "@@")
      && |file| < c.copied < Target(HeaderStart(line).value)
  }

  lemma FaultOfLine(file: seq<string>, isNew: bool, c: Cursor, line: string, fault: Fault)
    ensures Step(file, isNew, c, Classify(line)) == Fail(fault) <==> Faulty(file, isNew, c, line, fault)
  {
    hide HeaderStart;
    if line != "" {
      assert line == [line[0]] + line[1..];
      if fault.ContextMismatch? {
        assert ("-" + fault.expected)[1..] == fault.expected && (" " + fault.expected)[1..] == fault.expected;
      }
    }
    assert StartsWith(line, "@@") ==> line[0] == "@@"[0] == '@';
  }

  /** Which error the applier reports: exactly that of the first line of the hunk text that is
      at fault where the lines before it have led. */
  lemma FaultExactly(file: seq<string>, isNew: bool, lines: seq<string>, fault: Fault)
    ensures Run(file, isNew, START, Actions(lines)) == Fail(fault)
       <==> exists k :: 0 <= k < |lines| && Reaches(file, isNew, lines, k)
                        && Faulty(file, isNew, Run(file, isNew, START, Actions(lines[..k])).value, lines[k], fault)
  {
    hide Faulty, Step, Classify;
    if Run(file, isNew, START, Actions(lines)) == Fail(fault) {
      var k := FirstFault(file, isNew, lines, fault);
      FaultOfLine(file, isNew, Run(file, isNew, START, Actions(lines[..k])).value, lines[k], fault);
    }
    forall k | 0 <= k < |lines| && Reaches(file, isNew, lines, k)
               && Faulty(file, isNew, Run(file, isNew, START, Actions(lines[..k])).value, lines[k], fault)
      ensures Run(file, isNew, START, Actions(lines)) == Fail(fault)
    {
      var c := Run(file, isNew, START, Actions(lines[..k])).value;
      FaultOfLine(file, isNew, c, lines[k], fault);
      RunFrom(file, isNew, lines, k);
    }
  }

  predicate Reaches(file: seq<string>, isNew: bool, lines: seq<string>, k: nat)
    requires k <= |lines|
  {
    Run(file, isNew, START, Actions(lines[..k])).Ok?
  }

  lemma RunFrom(file: seq<string>, isNew: bool, lines: seq<string>, k: nat)
    requires k < |lines| && Reaches(file, isNew, lines, k)
    ensures var c := Run(file, isNew, START, Actions(lines[..k])).value;
            var s := Step(file, isNew, c, Classify(lines[k]));
            && (s.Fail? ==> Run(file, isNew, START, Actions(lines)) == s)
            && (s.Ok? ==> Run(file, isNew, START, Actions(lines[..k + 1])) == s)
  {
    hide Step, Classify;
    var acts := Actions(lines);
    assert acts == acts[..k] + acts[k..] && acts[..k] == Actions(lines[..k]);
    RunAppend(file, isNew, START, acts[..k], acts[k..]);
    var c := Run(file, isNew, START, Actions(lines[..k])).value;
    RunOne(file, isNew, c, acts, k);
    var head := Actions(lines[..k + 1]);
    assert head == acts[..k] + head[k..] && head[k + 1..] == [];
    RunAppend(file, isNew, START, acts[..k], head[k..]);
    RunOne(file, isNew, c, head, k);
  }

  lemma {:induction false} FirstFault(file: seq<string>, isNew: bool, lines: seq<string>, fault: Fault) returns (k: nat)
    requires Run(file, isNew, START, Actions(lines)) == Fail(fault)
    ensures k < |lines| && Reaches(file, isNew, lines, k)
    ensures Step(file, isNew, Run(file, isNew, START, Actions(lines[..k])).value, Classify(lines[k])) == Fail(fault)
    decreases |lines|
  {
    hide Step, Classify;
    var init := lines[..|lines| - 1];
    k := |lines| - 1;
    match Run(file, isNew, START, Actions(init))
    case Ok(_) =>
      RunFrom(file, isNew, lines, k);
      assert lines[..k + 1] == lines;
    case Fail(f) =>
      assert Actions(lines) == Actions(init) + [Classify(lines[|lines| - 1])];
      RunAppend(file, isNew, START, Actions(init), [Classify(lines[|lines| - 1])]);
      k := FirstFault(file, isNew, init, fault);
      assert init[..k] == lines[..k];
  }
}
