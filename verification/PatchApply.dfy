/** The applier: one pass over the hunk lines with two cursors into the existing file. */
module PatchApply {
  import opened Text
  import opened PatchSyntax

  datatype Fault =
    | MalformedHeader(line: string)
    | RemovalFromNewFile
    | ContextMismatch(at: nat, expected: string)
    | SliceOutOfRange  // a Go slice expression panics

  datatype Outcome<+T> = Ok(value: T) | Fail(fault: Fault)

  /** What one line of hunk text asks for. */
  datatype Action =
    | Jump(start: nat)
    | Malformed(line: string)
    | Insert(text: string)
    | Remove(text: string)
    | Match(text: string)
    | Ignore

  function Classify(line: string): Action
  {
    if StartsWith(line, "@@") then
      match HeaderStart(line)
      case None => Malformed(line)
      case Some(start) => Jump(start)
    else if line == "" then Ignore
    else if line[0] == '+' then Insert(line[1..])
    else if line[0] == '-' then Remove(line[1..])
    else if line[0] == ' ' then Match(line[1..])
    else Ignore
  }

  function Actions(lines: seq<string>): (acts: seq<Action>)
    ensures |acts| == |lines|
    ensures forall k :: 0 <= k < |lines| ==> acts[k] == Classify(lines[k])
  {
    seq(|lines|, i requires 0 <= i < |lines| => Classify(lines[i]))
  }

  /** The output so far, the next old line to match, and how many old lines are dealt with. */
  datatype Cursor = Cursor(out: seq<string>, at: nat, copied: nat)

  const START := Cursor([], 0, 0)

  /** A hunk start is 1-based; 0 (insertion at the head) clamps to 0. */
  function Target(start: nat): nat
  {
    if start == 0 then 0 else start - 1
  }

  function Min(a: nat, b: nat): nat
  {
    if a < b then a else b
  }

  function Step(file: seq<string>, isNew: bool, c: Cursor, act: Action): Outcome<Cursor>
  {
    match act
    case Malformed(line) => Fail(MalformedHeader(line))
    case Jump(start) =>
      var to := Target(start);
      if !isNew && to > c.copied then
        var end := Min(to, |file|);
        if c.copied > end then Fail(SliceOutOfRange)
        else Ok(Cursor(c.out + file[c.copied..end], to, to))
      else Ok(Cursor(c.out, to, to))
    case Insert(text) => Ok(c.(out := c.out + [text]))
    case Remove(text) =>
      if isNew then Fail(RemovalFromNewFile)
      else if c.at >= |file| || file[c.at] != text then Fail(ContextMismatch(c.at, text))
      else Ok(Cursor(c.out, c.at + 1, c.at + 1))
    case Match(text) =>
      if !isNew && (c.at >= |file| || file[c.at] != text) then Fail(ContextMismatch(c.at, text))
      else Ok(Cursor(c.out + [text], c.at + 1, c.at + 1))
    case Ignore => Ok(c)
  }

  function Run(file: seq<string>, isNew: bool, c: Cursor, acts: seq<Action>): Outcome<Cursor>
    decreases |acts|
  {
    if acts == [] then Ok(c)
    else
      match Step(file, isNew, c, acts[0])
      case Fail(f) => Fail(f)
      case Ok(d) => Run(file, isNew, d, acts[1..])
  }

  /** The result lines: what is left of the old file follows verbatim. */
  function Finish(file: seq<string>, isNew: bool, c: Cursor): seq<string>
  {
    if !isNew && c.copied < |file| then c.out + file[c.copied..] else c.out
  }

  /** A file as lines, and whether its last line ends with a line feed. */
  datatype Content = Content(lines: seq<string>, newline: bool)

  function ContentOf(existing: string): Content
  {
    if existing == "" then Content([], false)
    else
      var ls := Split(existing);
      if ls[|ls| - 1] == "" then Content(ls[..|ls| - 1], true) else Content(ls, false)
  }

  function Render(lines: seq<string>, newline: bool): string
  {
    var text := Join(lines);
    if newline && text != "" then text + "\n" else text
  }

  function Apply(existing: string, hunkText: string, isNew: bool): Outcome<string>
  {
    var c := ContentOf(existing);
    match Run(c.lines, isNew, START, Actions(Split(hunkText)))
    case Fail(f) => Fail(f)
    case Ok(d) => Ok(Render(Finish(c.lines, isNew, d), c.newline && !isNew))
  }

  lemma RunOne(file: seq<string>, isNew: bool, c: Cursor, acts: seq<Action>, k: nat)
    requires k < |acts|
    ensures Run(file, isNew, c, acts[k..])
         == match Step(file, isNew, c, acts[k]) case Fail(f) => Fail(f) case Ok(d) => Run(file, isNew, d, acts[k + 1..])
  {
    assert acts[k..][0] == acts[k] && acts[k..][1..] == acts[k + 1..];
  }

  /** The loop over the hunk lines. */
  method RunHunkLines(existingLines: seq<string>, lines: seq<string>, isNew: bool) returns (r: Outcome<Cursor>)
    ensures r == Run(existingLines, isNew, START, Actions(lines))
  {
    hide HeaderStart, StartsWith, Run;
    var out: seq<string> := [];
    var cursor: nat, copiedCursor: nat := 0, 0;
    ghost var acts := Actions(lines);
    var k := 0;
    assert acts[0..] == acts;
    while k < |lines|
      invariant k <= |lines|
      invariant Run(existingLines, isNew, START, acts)
             == Run(existingLines, isNew, Cursor(out, cursor, copiedCursor), acts[k..])
    {
      RunOne(existingLines, isNew, Cursor(out, cursor, copiedCursor), acts, k);
      var line := lines[k];
      k := k + 1;
      if StartsWith(line, "@@") {
        var m := HeaderStart(line);
        if m.None? {
          return Fail(MalformedHeader(line));
        }
        var newCursor := if m.value == 0 then 0 else m.value - 1;
        if !isNew && newCursor > copiedCursor {
          var end := Min(newCursor, |existingLines|);
          if copiedCursor > end {
            return Fail(SliceOutOfRange);
          }
          out := out + existingLines[copiedCursor..end];
        }
        cursor := newCursor;
        copiedCursor := newCursor;
      } else if line != "" && line[0] == '+' {
        out := out + [line[1..]];
      } else if line != "" && line[0] == '-' {
        if isNew {
          return Fail(RemovalFromNewFile);
        }
        var expected := line[1..];
        if cursor >= |existingLines| || existingLines[cursor] != expected {
          return Fail(ContextMismatch(cursor, expected));
        }
        cursor := cursor + 1;
        copiedCursor := cursor;
      } else if line != "" && line[0] == ' ' {
        var expected := line[1..];
        if !isNew && (cursor >= |existingLines| || existingLines[cursor] != expected) {
          return Fail(ContextMismatch(cursor, expected));
        }
        out := out + [expected];
        cursor := cursor + 1;
        copiedCursor := cursor;
      }
    }
    r := Ok(Cursor(out, cursor, copiedCursor));
    RunNothing(existingLines, isNew, r.value, acts[k..]);
  }

  lemma RunNothing(file: seq<string>, isNew: bool, c: Cursor, acts: seq<Action>)
    requires acts == []
    ensures Run(file, isNew, c, acts) == Ok(c)
  {
  }

  /** applyHunksToText. */
  method ApplyHunksToText(existing: string, hunkText: string, isNew: bool) returns (r: Outcome<string>)
    ensures r == Apply(existing, hunkText, isNew)
  {
    hide Split, Join, Run;
    var existingLines: seq<string> := [];
    var hadTrailingNewline := false;
    if existing != "" {
      existingLines := Split(existing);
      hadTrailingNewline := existingLines[|existingLines| - 1] == "";
      if hadTrailingNewline {
        existingLines := existingLines[..|existingLines| - 1];
      }
    }
    var run := RunHunkLines(existingLines, Split(hunkText), isNew);
    if run.Fail? {
      return Fail(run.fault);
    }
    var out, copiedCursor := run.value.out, run.value.copied;
    if !isNew && copiedCursor < |existingLines| {
      out := out + existingLines[copiedCursor..];
    }
    var result := Join(out);
    if !isNew && hadTrailingNewline && result != "" {
      result := result + "\n";
    }
    return Ok(result);
  }
}
