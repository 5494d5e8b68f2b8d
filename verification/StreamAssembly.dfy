/** Assembling an assistant message from a streamed completion: text deltas in order, and
    tool calls from fragments that interleave. */
module StreamAssembly {
  import opened Text
  import opened Llm

  datatype Fragment = Fragment(index: int, id: string, name: string, arguments: string)

  datatype Usage = Usage(prompt: int, completion: int, total: int)

  datatype Choice = Choice(finishReason: string, content: string, reasoningContent: string, reasoning: string,
                           toolCalls: seq<Fragment>)

  datatype Chunk = Chunk(isError: bool, usage: Option<Usage>, choices: seq<Choice>)

  datatype Event = Delta(text: string) | Reasoning(text: string)

  datatype Outcome =
    | Message(content: string, toolCalls: seq<ToolCall>, usage: Usage)
    | ReadError
    | Malformed
    | StreamError
    | Truncated

  // ----- lines -----

  /** The data of an SSE data line. */
  function Payload(line: string): Option<string>
  {
    var l := TrimEol(line);
    if "data:" <= l then Some(if " " <= l[5..] then l[6..] else l[5..]) else None
  }

  const DONE := "[DONE]"

  /** The chunks of the lines, up to a [DONE], an error chunk or data that does not decode. */
  function Chunks(lines: seq<string>, decode: string -> Option<Chunk>): seq<Chunk>
  {
    if lines == [] then []
    else
      match Payload(lines[0])
      case None => Chunks(lines[1..], decode)
      case Some(data) =>
        if data == DONE || decode(data).None? || decode(data).value.isError then []
        else [decode(data).value] + Chunks(lines[1..], decode)
  }

  datatype Ending = AtDone | AtMalformed | AtError | AtEnd

  function EndingOf(lines: seq<string>, decode: string -> Option<Chunk>): Ending
  {
    if lines == [] then AtEnd
    else
      match Payload(lines[0])
      case None => EndingOf(lines[1..], decode)
      case Some(data) =>
        if data == DONE then AtDone
        else if decode(data).None? then AtMalformed
        else if decode(data).value.isError then AtError
        else EndingOf(lines[1..], decode)
  }

  // ----- what the chunks say -----

  /** Only the first choice of a chunk counts. */
  function ChunkText(c: Chunk): string
  {
    if c.choices == [] then "" else c.choices[0].content
  }

  function ChunkReasoning(c: Chunk): string
  {
    if c.choices == [] then ""
    else if c.choices[0].reasoningContent != "" then c.choices[0].reasoningContent
    else c.choices[0].reasoning
  }

  function ChunkFragments(c: Chunk): seq<Fragment>
  {
    if c.choices == [] then [] else c.choices[0].toolCalls
  }

  predicate Finishes(c: Chunk)
  {
    c.choices != [] && c.choices[0].finishReason != ""
  }

  function ChunkEvents(c: Chunk): seq<Event>
  {
    (if ChunkText(c) != "" then [Delta(ChunkText(c))] else [])
    + (if ChunkReasoning(c) != "" then [Reasoning(ChunkReasoning(c))] else [])
  }

  function Content(cs: seq<Chunk>): string
  {
    if cs == [] then "" else Content(cs[..|cs| - 1]) + ChunkText(cs[|cs| - 1])
  }

  function Events(cs: seq<Chunk>): seq<Event>
  {
    if cs == [] then [] else Events(cs[..|cs| - 1]) + ChunkEvents(cs[|cs| - 1])
  }

  function Fragments(cs: seq<Chunk>): seq<Fragment>
  {
    if cs == [] then [] else Fragments(cs[..|cs| - 1]) + ChunkFragments(cs[|cs| - 1])
  }

  function LastUsage(cs: seq<Chunk>): Usage
  {
    if cs == [] then Usage(0, 0, 0)
    else if cs[|cs| - 1].usage.Some? then cs[|cs| - 1].usage.value
    else LastUsage(cs[..|cs| - 1])
  }

  predicate SomeFinishes(cs: seq<Chunk>)
  {
    exists c <- cs :: Finishes(c)
  }

  // ----- tool calls -----

  /** The fragments of one call, in the order they came. */
  function Of(fs: seq<Fragment>, index: int): seq<Fragment>
  {
    if fs == [] then []
    else Of(fs[..|fs| - 1], index) + if fs[|fs| - 1].index == index then [fs[|fs| - 1]] else []
  }

  function Indexes(fs: seq<Fragment>): set<int>
  {
    set f <- fs | f.index >= 0 :: f.index
  }

  function LastId(fs: seq<Fragment>): string
  {
    if fs == [] then "" else if fs[|fs| - 1].id != "" then fs[|fs| - 1].id else LastId(fs[..|fs| - 1])
  }

  function Names(fs: seq<Fragment>): string
  {
    if fs == [] then "" else Names(fs[..|fs| - 1]) + fs[|fs| - 1].name
  }

  function Arguments(fs: seq<Fragment>): string
  {
    if fs == [] then "" else Arguments(fs[..|fs| - 1]) + fs[|fs| - 1].arguments
  }

  /** One call from its fragments alone. */
  function CallOf(fs: seq<Fragment>): ToolCall
  {
    ToolCall(LastId(fs), Names(fs), if Arguments(fs) == "" then "{}" else Arguments(fs))
  }

  predicate Increasing(xs: seq<int>)
  {
    forall i, j :: 0 <= i < j < |xs| ==> xs[i] < xs[j]
  }

  lemma Least(s: set<int>) returns (m: int)
    requires s != {}
    ensures m in s && forall x <- s :: m <= x
  {
    assert !(forall x: int :: x !in s) by {
      assert (forall x: int :: x !in s) ==> s == {};
    }
    var x: int :| x in s;
    if s == {x} {
      m := x;
    } else {
      var rest := Least(s - {x});
      m := if x < rest then x else rest;
      assert forall y <- s :: y == x || y in s - {x};
    }
  }

  lemma LeastExists(s: set<int>)
    requires s != {}
    ensures exists m :: m in s && forall x <- s :: m <= x
  {
    var m := Least(s);
  }

  /** sort.Ints of the keys */
  ghost function Sorted(s: set<int>): (xs: seq<int>)
    ensures Increasing(xs)
    ensures forall x :: x in xs <==> x in s
    decreases |s|
  {
    if s == {} then []
    else
      LeastExists(s);
      var m :| m in s && forall x <- s :: m <= x;
      [m] + Sorted(s - {m})
  }

  ghost function Calls(fs: seq<Fragment>): (cs: seq<ToolCall>)
    ensures |cs| == |Sorted(Indexes(fs))|
  {
    CallsAt(fs, Sorted(Indexes(fs)))
  }

  function CallsAt(fs: seq<Fragment>, xs: seq<int>): (cs: seq<ToolCall>)
    ensures |cs| == |xs|
    ensures forall i :: 0 <= i < |xs| ==> cs[i] == CallOf(Of(fs, xs[i]))
  {
    hide Of, CallOf;
    seq(|xs|, i requires 0 <= i < |xs| => CallOf(Of(fs, xs[i])))
  }

  // ----- the loop -----

  datatype Accumulator = Accumulator(id: string, name: string, arguments: string)

  function Accumulated(fs: seq<Fragment>): Accumulator
  {
    Accumulator(LastId(fs), Names(fs), Arguments(fs))
  }

  /** The accumulators hold, for each index seen, what its own fragments amount to. */
  ghost predicate Tracks(acc: map<int, Accumulator>, fs: seq<Fragment>)
  {
    acc.Keys == Indexes(fs) && forall k <- acc :: acc[k] == Accumulated(Of(fs, k))
  }

  function Merge(acc: map<int, Accumulator>, f: Fragment): map<int, Accumulator>
  {
    if f.index < 0 then acc
    else
      var a := if f.index in acc then acc[f.index] else Accumulator("", "", "");
      acc[f.index := Accumulator(if f.id != "" then f.id else a.id, a.name + f.name, a.arguments + f.arguments)]
  }

  lemma TracksMore(acc: map<int, Accumulator>, fs: seq<Fragment>, f: Fragment)
    requires Tracks(acc, fs)
    ensures Tracks(Merge(acc, f), fs + [f])
  {
    hide Of, Accumulated;
    var m := Merge(acc, f);
    IndexesMore(fs, f);
    forall k <- m
      ensures m[k] == Accumulated(Of(fs + [f], k))
    {
      OfMore(fs, f, k);
      if k == f.index {
        AccumulatedMore(Of(fs, k), f);
        if k !in acc {
          NoneOf(fs, k);
        }
      }
    }
  }

  lemma IndexesMore(fs: seq<Fragment>, f: Fragment)
    ensures Indexes(fs + [f]) == Indexes(fs) + if f.index >= 0 then {f.index} else {}
  {
    assert forall x :: x in fs + [f] <==> x in fs || x == f;
  }

  lemma OfMore(fs: seq<Fragment>, f: Fragment, k: int)
    ensures Of(fs + [f], k) == if k == f.index then Of(fs, k) + [f] else Of(fs, k)
  {
    assert (fs + [f])[..|fs|] == fs;
  }

  lemma AccumulatedMore(fs: seq<Fragment>, f: Fragment)
    ensures var a := Accumulated(fs);
            Accumulated(fs + [f])
            == Accumulator(if f.id != "" then f.id else a.id, a.name + f.name, a.arguments + f.arguments)
    ensures Accumulated([]) == Accumulator("", "", "")
  {
    assert (fs + [f])[..|fs + [f]| - 1] == fs;
  }

  lemma {:induction false} NoneOf(fs: seq<Fragment>, k: int)
    requires k >= 0 && k !in Indexes(fs)
    ensures Of(fs, k) == []
  {
    if fs != [] {
      assert fs[|fs| - 1] in fs;
      assert Indexes(fs[..|fs| - 1]) <= Indexes(fs);
      NoneOf(fs[..|fs| - 1], k);
    }
  }

  method TakeFragments(toolCalls: map<int, Accumulator>, more: seq<Fragment>, ghost fs: seq<Fragment>)
      returns (acc: map<int, Accumulator>)
    requires Tracks(toolCalls, fs)
    ensures Tracks(acc, fs + more)
  {
    acc := toolCalls;
    var i := 0;
    assert fs + more[..0] == fs;
    while i < |more|
      invariant 0 <= i <= |more|
      invariant Tracks(acc, fs + more[..i])
    {
      hide Tracks;
      var f := more[i];
      TracksMore(acc, fs + more[..i], f);
      assert fs + more[..i] + [f] == fs + more[..i + 1];
      if f.index >= 0 {
        var a := if f.index in acc then acc[f.index] else Accumulator("", "", "");
        acc := acc[f.index := Accumulator(if f.id != "" then f.id else a.id,
                                           a.name + f.name, a.arguments + f.arguments)];
      }
      i := i + 1;
    }
    assert more[..i] == more;
  }

  lemma AccumulatedIsCall(fs: seq<Fragment>)
    ensures var a := Accumulated(fs);
            CallOf(fs) == ToolCall(a.id, a.name, if a.arguments == "" then "{}" else a.arguments)
  {
  }

  /** The message at the end: the accumulators in increasing order of index. */
  method Collect(toolCalls: map<int, Accumulator>, ghost fs: seq<Fragment>) returns (calls: seq<ToolCall>)
    requires Tracks(toolCalls, fs)
    ensures calls == Calls(fs)
  {
    hide Of, Accumulated, Sorted;
    calls := [];
    var indexes := Sort(toolCalls.Keys);
    var i := 0;
    while i < |indexes|
      invariant 0 <= i <= |indexes|
      invariant calls == CallsAt(fs, indexes[..i])
    {
      assert indexes[i] in indexes;
      var a := toolCalls[indexes[i]];
      assert indexes[..i + 1][..i] == indexes[..i];
      AccumulatedIsCall(Of(fs, indexes[i]));
      calls := calls + [ToolCall(a.id, a.name, if a.arguments == "" then "{}" else a.arguments)];
      i := i + 1;
    }
    assert indexes[..i] == indexes;
  }

  method Sort(s: set<int>) returns (xs: seq<int>)
    ensures xs == Sorted(s)
  {
    hide Sorted;
    SortedNothing();
    xs := [];
    var rest := s;
    while rest != {}
      invariant rest <= s
      invariant xs + Sorted(rest) == Sorted(s)
      decreases |rest|
    {
      LeastExists(rest);
      var m :| m in rest && forall x <- rest :: m <= x;
      SortedStep(rest, m);
      Assoc(xs, [m], Sorted(rest - {m}));
      xs := xs + [m];
      rest := rest - {m};
    }
  }

  lemma SortedNothing()
    ensures Sorted({}) == []
  {
  }

  lemma SortedStep(s: set<int>, m: int)
    requires m in s && forall x <- s :: m <= x
    ensures Sorted(s) == [m] + Sorted(s - {m})
  {
    SortedUnique([m] + Sorted(s - {m}), Sorted(s), s);
  }

  /** A set has one increasing enumeration. */
  lemma {:induction false} SortedUnique(a: seq<int>, b: seq<int>, s: set<int>)
    requires Increasing(a) && Increasing(b)
    requires (forall x :: x in a <==> x in s) && (forall x :: x in b <==> x in s)
    ensures a == b
    decreases |s|
  {
    assert b != [] ==> b[0] in b && b[0] in a;
    assert a != [] ==> a[0] in a && a[0] in b;
    if a != [] && b != [] {
      assert a[0] in a && b[0] in b;
      assert a[0] == b[0];
      SortedTail(a, s);
      SortedTail(b, s);
      SortedUnique(a[1..], b[1..], s - {a[0]});
      assert a == [a[0]] + a[1..] && b == [b[0]] + b[1..];
    }
  }

  lemma SortedTail(a: seq<int>, s: set<int>)
    requires a != [] && Increasing(a) && forall x :: x in a <==> x in s
    ensures Increasing(a[1..]) && a[0] in s && forall x :: x in a[1..] <==> x in s - {a[0]}
  {
    assert a[0] in a;
    forall x
      ensures x in a[1..] <==> x in s - {a[0]}
    {
      if x in s - {a[0]} {
        var i :| 0 <= i < |a| && a[i] == x;
        assert a[1..][i - 1] == x;
      }
      if x in a[1..] {
        assert x in a;
      }
    }
  }

  /** One step of the loop: a line that carries a chunk adds it. */
  lemma LineAdds(lines: seq<string>, i: nat, cs: seq<Chunk>, decode: string -> Option<Chunk>)
    requires i < |lines|
    requires Chunks(lines, decode) == cs + Chunks(lines[i..], decode)
    requires EndingOf(lines, decode) == EndingOf(lines[i..], decode)
    ensures Payload(lines[i]).None? ==>
              && Chunks(lines, decode) == cs + Chunks(lines[i + 1..], decode)
              && EndingOf(lines, decode) == EndingOf(lines[i + 1..], decode)
    ensures Payload(lines[i]).Some? ==>
              var d := Payload(lines[i]).value;
              && (d == DONE ==> Chunks(lines, decode) == cs && EndingOf(lines, decode) == AtDone)
              && (d != DONE && decode(d).None? ==> EndingOf(lines, decode) == AtMalformed)
              && (d != DONE && decode(d).Some? && decode(d).value.isError ==> EndingOf(lines, decode) == AtError)
              && (d != DONE && decode(d).Some? && !decode(d).value.isError ==>
                    && Chunks(lines, decode) == (cs + [decode(d).value]) + Chunks(lines[i + 1..], decode)
                    && EndingOf(lines, decode) == EndingOf(lines[i + 1..], decode))
  {
    hide Payload;
    assert lines[i..][0] == lines[i] && lines[i..][1..] == lines[i + 1..];
    assert cs + [] == cs;
    if Payload(lines[i]).Some? && decode(Payload(lines[i]).value).Some? {
      Assoc(cs, [decode(Payload(lines[i]).value).value], Chunks(lines[i + 1..], decode));
    }
  }

  lemma ChunkAdds(cs: seq<Chunk>, c: Chunk)
    ensures Content(cs + [c]) == Content(cs) + ChunkText(c)
    ensures Events(cs + [c]) == Events(cs) + ChunkEvents(c)
    ensures Fragments(cs + [c]) == Fragments(cs) + ChunkFragments(c)
    ensures LastUsage(cs + [c]) == if c.usage.Some? then c.usage.value else LastUsage(cs)
    ensures SomeFinishes(cs + [c]) <==> SomeFinishes(cs) || Finishes(c)
  {
    var more := cs + [c];
    assert more[..|more| - 1] == cs;
    assert forall x :: x in more <==> x in cs || x == c;
  }

  /** The outcome the lines call for. broken: reading fails after the last complete line, which
      is the one before the last. */
  ghost function Expected(lines: seq<string>, broken: bool, decode: string -> Option<Chunk>): Outcome
    requires lines != []
  {
    var read := if broken then lines[..|lines| - 1] else lines;
    var cs := Chunks(read, decode);
    match EndingOf(read, decode)
    case AtMalformed => Malformed
    case AtError => StreamError
    case AtDone => Message(Content(cs), Calls(Fragments(cs)), LastUsage(cs))
    case AtEnd =>
      if broken then ReadError
      else if SomeFinishes(cs) then Message(Content(cs), Calls(Fragments(cs)), LastUsage(cs))
      else Truncated
  }

  /** consumeStream over the lines of the body; the last one has no line feed. A message is
      returned only for a stream that was ended by [DONE] or in which a choice finished. */
  method ConsumeStream(lines: seq<string>, broken: bool, decode: string -> Option<Chunk>)
      returns (r: Outcome, events: seq<Event>)
    requires lines != []
    ensures r == Expected(lines, broken, decode)
    ensures var read := if broken then lines[..|lines| - 1] else lines;
            r.Message? ==>
              EndingOf(read, decode) == AtDone || (!broken && exists c <- Chunks(read, decode) :: Finishes(c))
    ensures events == Events(Chunks(if broken then lines[..|lines| - 1] else lines, decode))
  {
    hide Payload, Content, Events, Fragments, LastUsage, Tracks, Calls, Chunks, EndingOf;
    hide ChunkFragments, ChunkEvents;
    ghost var read := if broken then lines[..|lines| - 1] else lines;
    ghost var cs: seq<Chunk> := [];
    var content, toolCalls, usage, sawFinishReason := "", map[], Usage(0, 0, 0), false;
    events := [];
    NothingYet(read, decode);
    var i := 0;
    var sawDone := false;
    while i < |lines|
      invariant 0 <= i <= |lines| && (broken ==> i < |lines|) && !sawDone
      invariant Chunks(read, decode) == cs + Chunks(read[i..], decode)
      invariant EndingOf(read, decode) == EndingOf(read[i..], decode)
      invariant content == Content(cs) && events == Events(cs) && usage == LastUsage(cs)
      invariant Tracks(toolCalls, Fragments(cs)) && sawFinishReason == SomeFinishes(cs)
    {
      if broken && i == |lines| - 1 {
        NothingLeft(read, i, cs, decode);
        return ReadError, events;
      }
      LineAdds(read, i, cs, decode);
      var data := DataOf(lines[i]);
      if data.Some? {
        if data.value == DONE {
          sawDone := true;
          break;
        }
        var chunk := decode(data.value);
        if chunk.None? {
          MalformedChunks(read, i, cs, decode);
          return Malformed, events;
        }
        var c := chunk.value;
        if c.isError {
          MalformedChunks(read, i, cs, decode);
          return StreamError, events;
        }
        ChunkAdds(cs, c);
        if c.usage.Some? {
          usage := c.usage.value;
        }
        var more, fragments := TakeChoice(c);
        sawFinishReason := sawFinishReason || (c.choices != [] && c.choices[0].finishReason != "");
        content := content + (if c.choices != [] then c.choices[0].content else "");
        events := events + more;
        toolCalls := TakeFragments(toolCalls, fragments, Fragments(cs));
        cs := cs + [c];
      }
      i := i + 1;
    }
    if !sawDone {
      NothingLeft(read, i, cs, decode);
    }
    if !sawDone && !sawFinishReason {
      return Truncated, events;
    }
    var calls := Collect(toolCalls, Fragments(cs));
    return Message(content, calls, usage), events;
  }

  /** The data of a line, if it is a data line. */
  method DataOf(line: string) returns (data: Option<string>)
    ensures data == Payload(line)
  {
    var l := TrimEol(line);
    if !StartsWith(l, "data:") {
      return None;
    }
    var rest := l[5..];
    if rest != "" && rest[0] == ' ' {
      rest := rest[1..];
    }
    return Some(rest);
  }

  /** The events and fragments of one chunk. */
  method TakeChoice(c: Chunk) returns (events: seq<Event>, fragments: seq<Fragment>)
    ensures events == ChunkEvents(c) && fragments == ChunkFragments(c)
  {
    events, fragments := [], [];
    if c.choices != [] {
      var delta := c.choices[0];
      if delta.content != "" {
        events := events + [Delta(delta.content)];
      }
      var reasoning := delta.reasoningContent;
      if reasoning == "" {
        reasoning := delta.reasoning;
      }
      if reasoning != "" {
        events := events + [Reasoning(reasoning)];
      }
      fragments := delta.toolCalls;
    }
  }

  lemma NothingYet(read: seq<string>, decode: string -> Option<Chunk>)
    ensures Chunks(read, decode) == [] + Chunks(read[0..], decode)
    ensures EndingOf(read, decode) == EndingOf(read[0..], decode)
    ensures Content([]) == "" && Events([]) == [] && LastUsage([]) == Usage(0, 0, 0) && !SomeFinishes([])
    ensures Tracks(map[], Fragments([]))
  {
    assert read[0..] == read;
  }

  lemma NothingLeft(read: seq<string>, i: nat, cs: seq<Chunk>, decode: string -> Option<Chunk>)
    requires i == |read| && Chunks(read, decode) == cs + Chunks(read[i..], decode)
    requires EndingOf(read, decode) == EndingOf(read[i..], decode)
    ensures Chunks(read, decode) == cs && EndingOf(read, decode) == AtEnd
  {
    assert read[i..] == [];
  }

  lemma MalformedChunks(read: seq<string>, i: nat, cs: seq<Chunk>, decode: string -> Option<Chunk>)
    requires i < |read| && Chunks(read, decode) == cs + Chunks(read[i..], decode)
    requires Payload(read[i]).Some? && Payload(read[i]).value != DONE
    requires decode(Payload(read[i]).value).None? || decode(Payload(read[i]).value).value.isError
    ensures Chunks(read, decode) == cs
  {
    hide Payload;
    assert read[i..][0] == read[i];
  }

  // ----- what the assembly promises -----

  function Texts(es: seq<Event>): string
  {
    if es == [] then ""
    else Texts(es[..|es| - 1]) + if es[|es| - 1].Delta? then es[|es| - 1].text else ""
  }

  lemma {:induction false} TextsConcat(a: seq<Event>, b: seq<Event>)
    ensures Texts(a + b) == Texts(a) + Texts(b)
  {
    if b == [] {
      assert a + b == a;
    } else {
      var e := b[|b| - 1];
      TextsConcat(a, b[..|b| - 1]);
      assert (a + b)[..|a + b| - 1] == a + b[..|b| - 1] && (a + b)[|a + b| - 1] == e;
      Assoc(Texts(a), Texts(b[..|b| - 1]), if e.Delta? then e.text else "");
    }
  }

  /** The content of the message is the text of the deltas emitted on the way. */
  lemma {:induction false} ContentIsDeltas(cs: seq<Chunk>)
    ensures Content(cs) == Texts(Events(cs))
  {
    if cs != [] {
      var c := cs[|cs| - 1];
      ContentIsDeltas(cs[..|cs| - 1]);
      TextsConcat(Events(cs[..|cs| - 1]), ChunkEvents(c));
      ChunkTexts(c);
    }
  }

  lemma ChunkTexts(c: Chunk)
    ensures Texts(ChunkEvents(c)) == ChunkText(c)
  {
    var t := if ChunkText(c) != "" then [Delta(ChunkText(c))] else [];
    var r := if ChunkReasoning(c) != "" then [Reasoning(ChunkReasoning(c))] else [];
    TextsConcat(t, r);
    assert [Delta(ChunkText(c))][..0] == [] && [Reasoning(ChunkReasoning(c))][..0] == [];
    assert "" + ChunkText(c) == ChunkText(c);
  }

  lemma {:induction false} SomeOf(fs: seq<Fragment>, k: int)
    ensures Of(fs, k) != [] <==> exists f <- fs :: f.index == k
  {
    if fs != [] {
      var init := fs[..|fs| - 1];
      SomeOf(init, k);
      assert forall f :: f in fs <==> f in init || f == fs[|fs| - 1];
    }
  }

  /** The tool calls come in strictly increasing order of index, one for each index at least
      zero that some fragment has, each put together from its own fragments in the order they
      came, and with arguments that are never empty. */
  lemma CallsByIndex(fs: seq<Fragment>) returns (xs: seq<int>)
    ensures Increasing(xs) && |xs| == |Calls(fs)|
    ensures forall k :: k in xs <==> k >= 0 && exists f <- fs :: f.index == k
    ensures forall i :: 0 <= i < |xs| ==> Calls(fs)[i] == CallOf(Of(fs, xs[i]))
    ensures forall c <- Calls(fs) :: c.arguments != ""
  {
    xs := Sorted(Indexes(fs));
    forall c <- Calls(fs)
      ensures c.arguments != ""
    {
      var i :| 0 <= i < |Calls(fs)| && Calls(fs)[i] == c;
      assert c == CallOf(Of(fs, xs[i]));
    }
  }

  /** Fragments of different calls may interleave in any way: only each call's own order
      counts. */
  lemma InterleavingIsFree(fs: seq<Fragment>, gs: seq<Fragment>)
    requires forall k :: k >= 0 ==> Of(fs, k) == Of(gs, k)
    ensures Calls(fs) == Calls(gs)
  {
    hide Of, CallOf;
    forall k: int
      ensures k in Indexes(fs) <==> k in Indexes(gs)
    {
      SomeOf(fs, k);
      SomeOf(gs, k);
    }
    assert Indexes(fs) == Indexes(gs);
    SameCalls(fs, gs, Sorted(Indexes(fs)));
  }

  lemma {:induction false} SameCalls(fs: seq<Fragment>, gs: seq<Fragment>, xs: seq<int>)
    requires forall k <- xs :: Of(fs, k) == Of(gs, k)
    ensures CallsAt(fs, xs) == CallsAt(gs, xs)
  {
    hide Of, CallOf;
    if xs != [] {
      SameCalls(fs, gs, xs[..|xs| - 1]);
      assert xs[|xs| - 1] in xs;
    }
  }

  /** In particular two neighbouring fragments of different calls may change places. */
  lemma NeighboursCommute(a: seq<Fragment>, f: Fragment, g: Fragment, b: seq<Fragment>)
    requires f.index != g.index
    ensures Calls(a + [f, g] + b) == Calls(a + [g, f] + b)
  {
    forall k: int
      ensures Of(a + [f, g] + b, k) == Of(a + [g, f] + b, k)
    {
      OfConcat(a + [f, g], b, k);
      OfConcat(a + [g, f], b, k);
      assert a + [f] + [g] == a + [f, g] && a + [g] + [f] == a + [g, f];
      OfMore(a, f, k);
      OfMore(a + [f], g, k);
      OfMore(a, g, k);
      OfMore(a + [g], f, k);
    }
    InterleavingIsFree(a + [f, g] + b, a + [g, f] + b);
  }

  lemma {:induction false} OfConcat(a: seq<Fragment>, b: seq<Fragment>, k: int)
    ensures Of(a + b, k) == Of(a, k) + Of(b, k)
  {
    if b == [] {
      assert a + b == a;
    } else {
      OfConcat(a, b[..|b| - 1], k);
      assert (a + b)[..|a + b| - 1] == a + b[..|b| - 1];
    }
  }

  /** What follows [DONE] is not looked at. */
  lemma {:induction false} NothingAfterDone(lines: seq<string>, more: seq<string>, decode: string -> Option<Chunk>)
    requires EndingOf(lines, decode) == AtDone
    ensures EndingOf(lines + more, decode) == AtDone && Chunks(lines + more, decode) == Chunks(lines, decode)
  {
    hide Payload;
    assert (lines + more)[0] == lines[0] && (lines + more)[1..] == lines[1..] + more;
    if EndingOf(lines[1..], decode) == AtDone {
      NothingAfterDone(lines[1..], more, decode);
    }
  }
}
