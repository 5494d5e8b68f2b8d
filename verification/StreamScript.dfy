/** A completion as a provider streams it, and as it is read: whatever the chunks hold and
    however the lines are written, the message is put together from what was sent. */
module StreamScript {
  import opened Text
  import opened Llm
  import opened StreamAssembly

  /** What one chunk sends. The reasoning is in one of two fields, and only the first choice is
      meant; a chunk may have none. */
  datatype Sent = Sent(text: string, thought: string, calls: seq<Fragment>, stop: string)

  datatype Item =
    | Data(sent: Option<Sent>, usage: Option<Usage>, otherField: bool, others: seq<Choice>, space: bool, end: string)
    | Noise(line: string)

  function ChoiceOf(s: Sent, otherField: bool): Choice
  {
    Choice(s.stop, s.text, if otherField then "" else s.thought, if otherField then s.thought else "", s.calls)
  }

  function ChunkOf(i: Item): Chunk
    requires i.Data?
  {
    Chunk(false, i.usage, if i.sent.Some? then [ChoiceOf(i.sent.value, i.otherField)] + i.others else [])
  }

  predicate LineEnd(s: string)
  {
    forall k :: 0 <= k < |s| ==> s[k] == '\r' || s[k] == '\n'
  }

  /** A line that is not one of data. */
  predicate IsNoise(line: string)
  {
    !StartsWith(TrimEol(line), "data:")
  }

  /** A document that stands by itself on a line, and is not the end mark. */
  predicate Document(s: string)
  {
    s != "" && s[0] != ' ' && s[|s| - 1] != '\r' && s[|s| - 1] != '\n' && s != "[DONE]"
  }

  function DataLine(doc: string, space: bool, end: string): string
  {
    "data:" + (if space then " " else "") + doc + end
  }

  function LineOf(i: Item, encode: Chunk -> string): string
  {
    match i
    case Noise(line) => line
    case Data(_, _, _, _, space, end) => DataLine(encode(ChunkOf(i)), space, end)
  }

  function LinesOf(items: seq<Item>, encode: Chunk -> string): seq<string>
  {
    if items == [] then [] else [LineOf(items[0], encode)] + LinesOf(items[1..], encode)
  }

  /** Decoding undoes encoding, for the chunks sent. */
  predicate Writable(i: Item, encode: Chunk -> string, decode: string -> Option<Chunk>)
  {
    match i
    case Noise(line) => IsNoise(line)
    case Data(_, _, _, _, _, end) =>
      LineEnd(end) && Document(encode(ChunkOf(i))) && decode(encode(ChunkOf(i))) == Some(ChunkOf(i))
  }

  predicate AllWritable(items: seq<Item>, encode: Chunk -> string, decode: string -> Option<Chunk>)
  {
    forall i <- items :: Writable(i, encode, decode)
  }

  // ----- what was sent -----

  function TextOf(i: Item): string
  {
    if i.Data? && i.sent.Some? then i.sent.value.text else ""
  }

  function CallsIn(i: Item): seq<Fragment>
  {
    if i.Data? && i.sent.Some? then i.sent.value.calls else []
  }

  /** What is emitted on the way: the text and the thought, unless they are empty, the text
      first. */
  function EventsOf(i: Item): seq<Event>
  {
    if i.Data? && i.sent.Some? then
      (if i.sent.value.text != "" then [Delta(i.sent.value.text)] else [])
      + (if i.sent.value.thought != "" then [Reasoning(i.sent.value.thought)] else [])
    else []
  }

  function SentText(items: seq<Item>): string
  {
    if items == [] then "" else TextOf(items[0]) + SentText(items[1..])
  }

  function SentCalls(items: seq<Item>): seq<Fragment>
  {
    if items == [] then [] else CallsIn(items[0]) + SentCalls(items[1..])
  }

  function SentEvents(items: seq<Item>): seq<Event>
  {
    if items == [] then [] else EventsOf(items[0]) + SentEvents(items[1..])
  }

  /** The usage that was sent last. */
  function SentUsage(items: seq<Item>, before: Usage): Usage
  {
    if items == [] then before
    else SentUsage(items[1..], if items[0].Data? && items[0].usage.Some? then items[0].usage.value else before)
  }

  predicate SentStop(items: seq<Item>)
  {
    exists i <- items :: i.Data? && i.sent.Some? && i.sent.value.stop != ""
  }

  // ----- lines -----

  lemma {:induction false} TrimEnds(s: string, end: string)
    requires s != "" && s[|s| - 1] != '\r' && s[|s| - 1] != '\n' && LineEnd(end)
    ensures TrimEol(s + end) == s
  {
    if end == "" {
      assert s + end == s;
    } else {
      assert (s + end)[|s + end| - 1] == end[|end| - 1];
      assert (s + end)[..|s + end| - 1] == s + end[..|end| - 1];
      TrimEnds(s, end[..|end| - 1]);
    }
  }

  /** A data line gives its document, with or without a space in front, and whatever line ends
      follow. */
  lemma PayloadOfLine(doc: string, space: bool, end: string)
    requires doc == "" || (doc[0] != ' ' && doc[|doc| - 1] != '\r' && doc[|doc| - 1] != '\n')
    requires LineEnd(end)
    ensures Payload(DataLine(doc, space, end)) == Some(doc)
  {
    var head := "data:";
    var inner := (if space then " " else "") + doc;
    var l := head + inner;
    assert head + (if space then " " else "") + doc == l;
    TrimEnds(l, end);
    assert l[5..] == inner && head <= l;
    if space {
      assert inner[1..] == doc && inner[0] == ' ';
      assert " " <= inner && l[6..] == inner[1..];
    } else {
      assert inner == doc;
      assert !(" " <= doc);
    }
  }

  lemma NoiseHasNone(line: string)
    requires IsNoise(line)
    ensures Payload(line).None?
  {
  }

  /** The chunks of the items. */
  function ChunksOf(items: seq<Item>): seq<Chunk>
  {
    if items == [] then [] else (if items[0].Data? then [ChunkOf(items[0])] else []) + ChunksOf(items[1..])
  }

  lemma {:induction false} ChunksRead(items: seq<Item>, rest: seq<string>,
                                      encode: Chunk -> string, decode: string -> Option<Chunk>)
    requires AllWritable(items, encode, decode)
    ensures Chunks(LinesOf(items, encode) + rest, decode) == ChunksOf(items) + Chunks(rest, decode)
    ensures EndingOf(LinesOf(items, encode) + rest, decode) == EndingOf(rest, decode)
  {
    hide Payload, DataLine;
    var lines := LinesOf(items, encode);
    if items == [] {
      assert lines + rest == rest && [] + Chunks(rest, decode) == Chunks(rest, decode);
    } else {
      var i := items[0];
      assert Writable(i, encode, decode);
      ChunksRead(items[1..], rest, encode, decode);
      assert (lines + rest)[0] == LineOf(i, encode) && (lines + rest)[1..] == LinesOf(items[1..], encode) + rest;
      match i
      case Noise(line) => NoiseHasNone(line);
      case Data(_, _, _, _, space, end) =>
        PayloadOfLine(encode(ChunkOf(i)), space, end);
        Assoc([ChunkOf(i)], ChunksOf(items[1..]), Chunks(rest, decode));
    }
  }

  // ----- what the chunks come to -----

  lemma {:induction false} Prepended(c: Chunk, cs: seq<Chunk>)
    ensures Content([c] + cs) == ChunkText(c) + Content(cs)
    ensures Events([c] + cs) == ChunkEvents(c) + Events(cs)
    ensures Fragments([c] + cs) == ChunkFragments(c) + Fragments(cs)
    ensures SomeFinishes([c] + cs) <==> Finishes(c) || SomeFinishes(cs)
  {
    var all := [c] + cs;
    assert forall x :: x in all <==> x == c || x in cs;
    if cs == [] {
      assert all[..|all| - 1] == [] && all[|all| - 1] == c;
      assert ChunkText(c) + "" == ChunkText(c) == "" + ChunkText(c);
      assert ChunkEvents(c) + [] == ChunkEvents(c) == [] + ChunkEvents(c);
      assert ChunkFragments(c) + [] == ChunkFragments(c) == [] + ChunkFragments(c);
    } else {
      var init, last := cs[..|cs| - 1], cs[|cs| - 1];
      assert all[..|all| - 1] == [c] + init && all[|all| - 1] == last;
      Prepended(c, init);
      Assoc(ChunkText(c), Content(init), ChunkText(last));
      Assoc(ChunkEvents(c), Events(init), ChunkEvents(last));
      Assoc(ChunkFragments(c), Fragments(init), ChunkFragments(last));
    }
  }

  function UsageFrom(cs: seq<Chunk>, before: Usage): Usage
  {
    if cs == [] then before else UsageFrom(cs[1..], if cs[0].usage.Some? then cs[0].usage.value else before)
  }

  lemma {:induction false} UsageForward(done: seq<Chunk>, cs: seq<Chunk>)
    ensures UsageFrom(cs, LastUsage(done)) == LastUsage(done + cs)
    decreases |cs|
  {
    if cs == [] {
      assert done + cs == done;
    } else {
      var more := done + [cs[0]];
      assert more[..|more| - 1] == done && more + cs[1..] == done + cs;
      UsageForward(more, cs[1..]);
    }
  }

  lemma {:induction false} UsageSent(items: seq<Item>, before: Usage)
    ensures UsageFrom(ChunksOf(items), before) == SentUsage(items, before)
  {
    if items != [] {
      var u := if items[0].Data? && items[0].usage.Some? then items[0].usage.value else before;
      UsageSent(items[1..], u);
      if items[0].Data? {
        assert ChunksOf(items)[1..] == ChunksOf(items[1..]);
      } else {
        assert ChunksOf(items) == ChunksOf(items[1..]);
      }
    }
  }

  lemma DataComesTo(i: Item)
    ensures i.Data? ==> ChunkText(ChunkOf(i)) == TextOf(i) && ChunkFragments(ChunkOf(i)) == CallsIn(i)
    ensures i.Data? ==> ChunkEvents(ChunkOf(i)) == EventsOf(i)
    ensures i.Noise? ==> TextOf(i) == "" && CallsIn(i) == [] && EventsOf(i) == []
  {
  }

  lemma {:induction false} SentComesTo(items: seq<Item>)
    ensures Content(ChunksOf(items)) == SentText(items)
    ensures Events(ChunksOf(items)) == SentEvents(items)
    ensures Fragments(ChunksOf(items)) == SentCalls(items)
  {
    hide TextOf, CallsIn, EventsOf, ChunkOf, ChunkText, ChunkEvents, ChunkFragments;
    if items != [] {
      SentComesTo(items[1..]);
      hide Content, Events, Fragments;
      DataComesTo(items[0]);
      if items[0].Data? {
        Prepended(ChunkOf(items[0]), ChunksOf(items[1..]));
      } else {
        assert [] + ChunksOf(items[1..]) == ChunksOf(items[1..]);
        assert "" + SentText(items[1..]) == SentText(items[1..]);
        assert [] + SentEvents(items[1..]) == SentEvents(items[1..]);
        assert [] + SentCalls(items[1..]) == SentCalls(items[1..]);
      }
    }
  }

  lemma {:induction false} StopComesTo(items: seq<Item>)
    ensures SomeFinishes(ChunksOf(items)) <==> SentStop(items)
  {
    if items != [] {
      StopComesTo(items[1..]);
      assert forall x :: x in items <==> x == items[0] || x in items[1..];
      if items[0].Data? {
        Prepended(ChunkOf(items[0]), ChunksOf(items[1..]));
      } else {
        assert [] + ChunksOf(items[1..]) == ChunksOf(items[1..]);
      }
    }
  }

  // ----- the whole stream -----

  /** The message that was sent. */
  ghost function SentMessage(items: seq<Item>): Outcome
  {
    Message(SentText(items), Calls(SentCalls(items)), SentUsage(items, Usage(0, 0, 0)))
  }

  lemma ItemsAre(items: seq<Item>, rest: seq<string>, encode: Chunk -> string, decode: string -> Option<Chunk>)
    requires AllWritable(items, encode, decode) && Chunks(rest, decode) == []
    ensures var lines := LinesOf(items, encode) + rest;
            && Chunks(lines, decode) == ChunksOf(items) && EndingOf(lines, decode) == EndingOf(rest, decode)
            && Content(ChunksOf(items)) == SentText(items) && Events(ChunksOf(items)) == SentEvents(items)
            && Fragments(ChunksOf(items)) == SentCalls(items)
            && LastUsage(ChunksOf(items)) == SentUsage(items, Usage(0, 0, 0))
            && (SomeFinishes(ChunksOf(items)) <==> SentStop(items))
  {
    hide Chunks, EndingOf, Content, Events, Fragments, SomeFinishes, SentStop, AllWritable;
    ChunksRead(items, rest, encode, decode);
    SentComesTo(items);
    StopComesTo(items);
    UsageForward([], ChunksOf(items));
    UsageSent(items, Usage(0, 0, 0));
    assert [] + ChunksOf(items) == ChunksOf(items) && ChunksOf(items) + [] == ChunksOf(items);
  }

  /** A stream that is closed by the end mark is read as the message that was sent, whatever
      follows. */
  lemma ClosedStream(items: seq<Item>, space: bool, end: string, more: seq<string>,
                     encode: Chunk -> string, decode: string -> Option<Chunk>)
    requires AllWritable(items, encode, decode) && LineEnd(end)
    ensures var lines := LinesOf(items, encode) + [DataLine("[DONE]", space, end)] + more;
            && Expected(lines, false, decode) == SentMessage(items)
            && Events(Chunks(lines, decode)) == SentEvents(items)
  {
    var rest := [DataLine("[DONE]", space, end)] + more;
    PayloadOfLine("[DONE]", space, end);
    assert Chunks(rest, decode) == [] && EndingOf(rest, decode) == AtDone by { hide Payload, DataLine; }
    hide Payload, DataLine, Chunks, EndingOf, AllWritable;
    ItemsAre(items, rest, encode, decode);
    Assoc(LinesOf(items, encode), [DataLine("[DONE]", space, end)], more);
  }

  /** One that just ends, after a last line without a line feed, is read as that message if some
      choice said why it stopped, and as truncated if none did; one that breaks off in the
      last line is a read error, however it stopped. */
  lemma OpenStream(items: seq<Item>, last: string, encode: Chunk -> string, decode: string -> Option<Chunk>)
    requires AllWritable(items, encode, decode) && IsNoise(last)
    ensures var lines := LinesOf(items, encode) + [last];
            && Expected(lines, false, decode) == (if SentStop(items) then SentMessage(items) else Truncated)
            && Expected(lines, true, decode) == ReadError
            && Events(Chunks(lines, decode)) == SentEvents(items)
  {
    NoiseHasNone(last);
    assert [last][1..] == [];
    assert Chunks([last], decode) == [] && EndingOf([last], decode) == AtEnd;
    assert Chunks([], decode) == [] && EndingOf([], decode) == AtEnd;
    hide Payload, DataLine, Chunks, EndingOf, SomeFinishes, SentStop, AllWritable;
    ItemsAre(items, [last], encode, decode);
    ItemsAre(items, [], encode, decode);
    var lines := LinesOf(items, encode) + [last];
    assert lines[..|lines| - 1] == LinesOf(items, encode) + [];
  }

  /** A chunk that reports an error, or data that is no chunk, ends the stream with that error,
      whatever has been sent before. */
  lemma BadChunk(items: seq<Item>, doc: string, space: bool, end: string, more: seq<string>,
                 encode: Chunk -> string, decode: string -> Option<Chunk>)
    requires AllWritable(items, encode, decode) && LineEnd(end) && (doc == "" || Document(doc))
    requires decode(doc).None? || decode(doc).value.isError
    ensures var lines := LinesOf(items, encode) + [DataLine(doc, space, end)] + more;
            && Expected(lines, false, decode) == (if decode(doc).None? then Malformed else StreamError)
            && Events(Chunks(lines, decode)) == SentEvents(items)
  {
    var rest := [DataLine(doc, space, end)] + more;
    PayloadOfLine(doc, space, end);
    assert Chunks(rest, decode) == [] by { hide Payload, DataLine; }
    assert EndingOf(rest, decode) == (if decode(doc).None? then AtMalformed else AtError) by { hide Payload, DataLine; }
    hide Payload, DataLine, Chunks, EndingOf, AllWritable;
    ItemsAre(items, rest, encode, decode);
    Assoc(LinesOf(items, encode), [DataLine(doc, space, end)], more);
  }

  // ----- how a call may be cut into fragments -----

  /** A call that comes in one fragment. */
  lemma WholeCall(f: Fragment)
    ensures CallOf([f]) == ToolCall(f.id, f.name, if f.arguments == "" then "{}" else f.arguments)
  {
    AccumulatedMore([], f);
    AccumulatedIsCall([f]);
    assert [] + [f] == [f];
    assert "" + f.name == f.name && "" + f.arguments == f.arguments;
  }

  /** Where a fragment of a call is cut makes no difference: names and arguments are put
      together again, and the id may come with either part; of two ids the later counts. */
  lemma CutFragment(before: seq<Fragment>, f: Fragment, g: Fragment, after: seq<Fragment>)
    ensures var id := if g.id != "" then g.id else f.id;
            var whole := Fragment(f.index, id, f.name + g.name, f.arguments + g.arguments);
            CallOf(before + [f, g] + after) == CallOf(before + [whole] + after)
  {
    var whole := Fragment(f.index, if g.id != "" then g.id else f.id, f.name + g.name, f.arguments + g.arguments);
    AccumulatedMore(before, f);
    AccumulatedMore(before + [f], g);
    AccumulatedMore(before, whole);
    assert before + [f] + [g] == before + [f, g];
    Assoc(Names(before), f.name, g.name);
    Assoc(Arguments(before), f.arguments, g.arguments);
    SameFrom(before + [f, g], before + [whole], after);
    AccumulatedIsCall(before + [f, g] + after);
    AccumulatedIsCall(before + [whole] + after);
  }

  lemma {:induction false} SameFrom(a: seq<Fragment>, b: seq<Fragment>, after: seq<Fragment>)
    requires Accumulated(a) == Accumulated(b)
    ensures Accumulated(a + after) == Accumulated(b + after)
  {
    hide Accumulated;
    if after == [] {
      assert a + after == a && b + after == b;
    } else {
      var init, last := after[..|after| - 1], after[|after| - 1];
      SameFrom(a, b, init);
      AccumulatedMore(a + init, last);
      AccumulatedMore(b + init, last);
      assert a + after == a + init + [last] && b + after == b + init + [last];
    }
  }
}
