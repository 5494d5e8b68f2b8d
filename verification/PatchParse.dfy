/** The reader of unified diffs: the lines of a patch become a list of file sections. */
module PatchParse {
  import opened Text
  import opened PatchSyntax

  datatype PatchFile = PatchFile(fromPath: string, toPath: string, hunks: string)

  predicate IsFrom(line: string)
  {
    StartsWith(line, "--- ")
  }

  predicate IsTo(line: string)
  {
    StartsWith(line, "+++ ")
  }

  /** Line i starts a new file section. */
  predicate IsFileHeader(ls: seq<string>, i: nat)
    requires i < |ls|
  {
    IsFrom(ls[i]) && i + 1 < |ls| && IsTo(ls[i + 1])
  }

  /** A file header that may end a hunk body: what follows it cannot be hunk content. */
  predicate IsSafeFileHeader(ls: seq<string>, i: nat)
    requires i < |ls|
  {
    IsFileHeader(ls, i) && (i + 2 >= |ls| || IsHeader(ls[i + 2]) || IsFrom(ls[i + 2]))
  }

  /** Where the hunk body that starts at line i ends. */
  function BodyEnd(ls: seq<string>, i: nat): (j: nat)
    requires i <= |ls|
    ensures i <= j <= |ls|
    decreases |ls| - i
  {
    if i == |ls| || IsHeader(ls[i]) || IsSafeFileHeader(ls, i) then i else BodyEnd(ls, i + 1)
  }

  /** Where the file section whose header lines precede line i ends. Inside a hunk body
      only a safe file header ends it; before the first hunk any file header does. */
  function SectionEnd(ls: seq<string>, i: nat, inBody: bool): (j: nat)
    requires i <= |ls|
    ensures i <= j <= |ls|
    decreases |ls| - i
  {
    if i == |ls| then i
    else if IsHeader(ls[i]) then SectionEnd(ls, i + 1, true)
    else if IsSafeFileHeader(ls, i) || (!inBody && IsFileHeader(ls, i)) then i
    else SectionEnd(ls, i + 1, inBody)
  }

  function DropBlankTail(ls: seq<string>): (r: seq<string>)
    ensures r <= ls
    ensures ls != [] && ls[|ls| - 1] != "" ==> r == ls
  {
    if ls != [] && ls[|ls| - 1] == "" then DropBlankTail(ls[..|ls| - 1]) else ls
  }

  function HunkText(ls: seq<string>): string
  {
    var kept := DropBlankTail(ls);
    if kept == [] then "" else Join(kept) + "\n"
  }

  /** The file sections from line i on. */
  function ParseFrom(ls: seq<string>, i: nat): seq<PatchFile>
    requires i <= |ls|
    decreases |ls| - i
  {
    if i == |ls| then []
    else if !IsFileHeader(ls, i) then ParseFrom(ls, i + 1)
    else
      var toPath := ParsePath(ls[i + 1][4..]);
      if toPath == DEV_NULL then ParseFrom(ls, i + 2)
      else
        var end := SectionEnd(ls, i + 2, false);
        [PatchFile(ParsePath(ls[i][4..]), toPath, HunkText(ls[i + 2..end]))] + ParseFrom(ls, end)
  }

  // ----- the loops -----

  lemma {:induction false} BodyEndsSection(ls: seq<string>, i: nat)
    requires i <= |ls|
    ensures SectionEnd(ls, i, true) == SectionEnd(ls, BodyEnd(ls, i), false)
    decreases |ls| - i
  {
    if i < |ls| && !IsHeader(ls[i]) && !IsSafeFileHeader(ls, i) {
      BodyEndsSection(ls, i + 1);
    }
  }

  /** countHunkBodyLines, on the lines from start on. */
  method CountHunkBodyLines(lines: seq<string>, start: nat) returns (n: nat, ok: bool)
    requires start <= |lines|
    ensures ok && start + n == BodyEnd(lines, start)
  {
    hide IsHeader;
    n := 0;
    while start + n < |lines|
      invariant start + n <= |lines|
      invariant BodyEnd(lines, start) == BodyEnd(lines, start + n)
    {
      if IsHeader(lines[start + n]) || IsSafeFileHeader(lines, start + n) {
        return n, true;
      }
      n := n + 1;
    }
    return n, true;
  }

  /** The loop that gathers the lines of one file section. */
  method CollectHunks(lines: seq<string>, start: nat) returns (hunks: seq<string>, i: nat)
    requires start <= |lines|
    ensures i == SectionEnd(lines, start, false)
    ensures hunks == lines[start..i]
  {
    hide IsHeader;
    hunks, i := [], start;
    while i < |lines|
      invariant start <= i <= |lines|
      invariant hunks == lines[start..i]
      invariant SectionEnd(lines, start, false) == SectionEnd(lines, i, false)
    {
      if IsHeader(lines[i]) {
        BodyEndsSection(lines, i + 1);
        var n, ok := CountHunkBodyLines(lines, i + 1);
        hunks := hunks + [lines[i]];
        i := i + 1;
        if ok {
          hunks := hunks + lines[i..i + n];
          i := i + n;
        }
      } else if IsFileHeader(lines, i) {
        break;
      } else {
        hunks := hunks + [lines[i]];
        i := i + 1;
      }
    }
  }

  /** Trailing blank lines go; what is left, if anything, ends with a line feed. */
  method RenderCollected(collected: seq<string>) returns (text: string)
    ensures text == HunkText(collected)
  {
    var hunks := collected;
    while hunks != [] && hunks[|hunks| - 1] == ""
      invariant DropBlankTail(collected) == DropBlankTail(hunks)
    {
      hunks := hunks[..|hunks| - 1];
    }
    text := "";
    if hunks != [] {
      text := Join(hunks) + "\n";
    }
  }

  /** parseUnifiedDiff. */
  method ParseUnifiedDiff(patch: string) returns (files: seq<PatchFile>)
    ensures files == ParseFrom(Split(patch), 0)
  {
    var lines := Split(patch);
    files := [];
    var i := 0;
    while i < |lines|
      invariant i <= |lines|
      invariant ParseFrom(lines, 0) == files + ParseFrom(lines, i)
      decreases |lines| - i
    {
      while i < |lines| && !IsFrom(lines[i])
        invariant i <= |lines|
        invariant ParseFrom(lines, 0) == files + ParseFrom(lines, i)
      {
        i := i + 1;
      }
      if i >= |lines| {
        break;
      }
      var fromPath := ParsePath(lines[i][4..]);
      i := i + 1;
      if i >= |lines| || !IsTo(lines[i]) {
        continue;
      }
      var toPath := ParsePath(lines[i][4..]);
      i := i + 1;
      if toPath == DEV_NULL {
        continue;
      }
      var hunks;
      hunks, i := CollectHunks(lines, i);
      var hunkText := RenderCollected(hunks);
      files := files + [PatchFile(fromPath, toPath, hunkText)];
    }
  }
}
