/** Printing a patch and reading it back. The printer is the format's own: two header
    lines per file, then its hunks. The reader returns the same sections, deletions
    skipped, exactly when no hunk holds a pair of lines that passes for a file header. */
module PatchRoundTrip {
  import opened Text
  import opened PatchParse
  import opened PatchSections
  import opened PatchReading

  /** Parsing undoes printing, exactly when no kept section holds a phantom file header,
      whether or not the last line ends with a line feed. */
  lemma {:induction false} ParseUndoesPrint(ss: seq<Section>, newline: bool)
    requires AllWellFormed(ss)
    ensures ParseFrom(Split(PatchText(ss, newline)), 0) == FilesOf(ss) <==> !HasPhantom(ss, newline)
  {
    hide RenderSection, ParseFrom, WellFormed, HasPhantom, FilesOf;
    var all := Split(PatchText(ss, newline));
    assert all[0..] == all;
    if ss == [] {
      ReadSections(all, 0, ss, true);
      NoSections(ss, true);
      NoSections(ss, newline);
    } else {
      SectionsPrinted(ss);
      SplitTerminated(RenderSections(ss));
      SplitJoin(RenderSections(ss));
      assert Join(RenderSections(ss)) + "" == Join(RenderSections(ss));
      assert all == RenderSections(ss) + Blank(newline);
      ReadSections(all, 0, ss, newline);
    }
  }

  lemma NoSections(ss: seq<Section>, newline: bool)
    requires ss == []
    ensures !HasPhantom(ss, newline)
  {
  }
}
