/** The patches a diff program prints: file sections of two header lines and hunks, what a
    section must look like, and the pairs of hunk lines that pass for a file header. */
module PatchSections {
  import opened Text
  import opened PatchSyntax
  import opened PatchParse

  datatype Section = Section(from: Path, to: Path, hunks: seq<Hunk>)

  function RenderSection(s: Section): (lines: seq<string>)
    ensures |lines| == 2 + |RenderHunks(s.hunks)|
  {
    ["--- " + RenderPath(s.from, 'a'), "+++ " + RenderPath(s.to, 'b')] + RenderHunks(s.hunks)
  }

  function RenderSections(ss: seq<Section>): (lines: seq<string>)
  {
    if ss == [] then [] else RenderSection(ss[0]) + RenderSections(ss[1..])
  }

  /** The patch as a text, with or without a line feed after its last line. */
  function PatchText(ss: seq<Section>, newline: bool): string
  {
    if ss == [] then "" else Join(RenderSections(ss)) + (if newline then "\n" else "")
  }

  function NameOf(p: Path): string
  {
    if p.DevNull? then DEV_NULL else p.name
  }

  /** What reading a section should give. */
  function FileOf(s: Section): PatchFile
  {
    PatchFile(NameOf(s.from), NameOf(s.to), Join(RenderHunks(s.hunks)) + "\n")
  }

  function FilesOf(ss: seq<Section>): seq<PatchFile>
  {
    if ss == [] then []
    else (if ss[0].to.DevNull? then [] else [FileOf(ss[0])]) + FilesOf(ss[1..])
  }

  // ----- the patches a diff program prints -----

  predicate CleanPath(p: Path)
  {
    match p
    case DevNull => true
    case File(name) => CleanName(name) && OneLine(name)
    case Bare(name) => BareName(name) && OneLine(name)
  }

  predicate OneLineOp(op: Op)
  {
    op.NoNewline? || OneLine(op.text)
  }

  predicate OneLineHunk(h: Hunk)
  {
    OneLine(h.heading) && forall k :: 0 <= k < |h.ops| ==> OneLineOp(h.ops[k])
  }

  predicate OneLineHunks(hs: seq<Hunk>)
  {
    forall j :: 0 <= j < |hs| ==> OneLineHunk(hs[j])
  }

  predicate WellFormed(s: Section)
  {
    && CleanPath(s.from) && CleanPath(s.to) && (s.to.DevNull? || s.to.name != DEV_NULL)
    && s.hunks != []
    && OneLineHunks(s.hunks)
    // a deleted file gains no lines
    && (s.to.DevNull? ==> forall j, k :: 0 <= j < |s.hunks| && 0 <= k < |s.hunks[j].ops| ==> !s.hunks[j].ops[k].Add?)
  }

  predicate AllWellFormed(ss: seq<Section>)
  {
    forall j :: 0 <= j < |ss| ==> WellFormed(ss[j])
  }

  predicate DashRemoval(op: Op)
  {
    op.Del? && StartsWith(op.text, "-- ")
  }

  predicate PlusAddition(op: Op)
  {
    op.Add? && StartsWith(op.text, "++ ")
  }

  /** A removed "-- " line right before an added "++ " line, and then either a removed
      "-- " line or the end of a hunk, except that after last a blank follows. */
  predicate PhantomAt(ops: seq<Op>, last: bool, k: nat)
  {
    && k + 1 < |ops| && DashRemoval(ops[k]) && PlusAddition(ops[k + 1])
    && (if k + 2 < |ops| then DashRemoval(ops[k + 2]) else !last)
  }

  predicate Phantom(ops: seq<Op>, last: bool)
  {
    exists k: nat :: k < |ops| && PhantomAt(ops, last, k)
  }

  predicate PhantomIn(hs: seq<Hunk>, last: bool)
  {
    hs != [] && (Phantom(hs[0].ops, last && |hs| == 1) || PhantomIn(hs[1..], last))
  }

  /** Some kept file section holds a phantom file header. At the very end of a patch a pair
      counts only if no final line feed leaves a blank after it. */
  predicate HasPhantom(ss: seq<Section>, newline: bool)
  {
    ss != [] && ((!ss[0].to.DevNull? && PhantomIn(ss[0].hunks, |ss| == 1 && newline)) || HasPhantom(ss[1..], newline))
  }
}
