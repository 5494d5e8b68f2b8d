/** Reading back what the server wrote, whole or cut off anywhere. */
module SseRoundTrip {
  import opened Text
  import Hub
  import opened Sse

  /** A payload as the JSON encoder makes it: it decodes, holds no line break, and no proper
      part of it from the front decodes (a JSON object ends only with its last brace). */
  ghost predicate GoodPayload<P>(d: Decoder<P>, payload: string)
  {
    && payload != "" && '\n' !in payload && '\r' !in payload
    && d.decode(payload).Some?
    && forall j :: 0 < j < |payload| ==> d.decode(payload[..j]).None?
  }

  ghost predicate GoodItem<P>(d: Decoder<P>, item: Item)
  {
    match item
    case Sync(payload) => GoodPayload(d, payload)
    case Data(ev) =>
      && GoodPayload(d, ev.data) && 0 < ev.no <= MAX_INT64
      && '\n' !in ev.name && '\r' !in ev.name
    case KeepAlive => true
  }

  ghost predicate GoodItems<P>(d: Decoder<P>, items: seq<Item>)
  {
    forall i :: 0 <= i < |items| ==> GoodItem(d, items[i])
  }

  function PayloadOf(item: Item): string
    requires !item.KeepAlive?
  {
    if item.Sync? then item.payload else item.event.data
  }

  /** What reading an item should deliver: the sequence number of a data frame is its id,
      that of the sync frame is in its payload. */
  ghost function Delivery<P>(d: Decoder<P>, item: Item): seq<Delivered<P>>
    requires GoodItem(d, item)
  {
    match item
    case KeepAlive => []
    case Sync(payload) => var p := d.decode(payload).value; [Delivered("sync", d.seqOf(p), p)]
    case Data(ev) => [Delivered(ev.name, ev.no, d.decode(ev.data).value)]
  }

  ghost function Deliveries<P>(d: Decoder<P>, items: seq<Item>): seq<Delivered<P>>
    requires GoodItems(d, items)
  {
    if items == [] then [] else Delivery(d, items[0]) + Deliveries(d, items[1..])
  }

  // ----- one line -----

  predicate Plain(line: string)
  {
    '\n' !in line && '\r' !in line
  }

  lemma {:induction false} LineLengthOf(line: string, rest: string)
    requires '\n' !in line
    ensures LineLength(line + "\n" + rest) == |line|
  {
    var text := line + "\n" + rest;
    if line != "" {
      LineLengthOf(line[1..], rest);
      assert text[1..] == line[1..] + "\n" + rest;
    }
  }

  lemma {:induction false} NoLineEnd(line: string)
    requires '\n' !in line
    ensures LineLength(line) == |line|
  {
    if line != "" {
      NoLineEnd(line[1..]);
    }
  }

  lemma TrimPlain(line: string)
    requires Plain(line)
    ensures TrimEol(line) == line
  {
  }

  /** One complete line. */
  lemma {:induction false} ConsumeLine<P>(d: Decoder<P>, r: Reader<P>, line: string, rest: string, failed: bool)
    requires Plain(line)
    ensures Consume(d, r, line + "\n" + rest, failed)
         == if line != "" then Consume(d, ParseLine(r, line), rest, failed)
            else match Dispatch(d, r)
                 case None => Outcome(r.events, MalformedData)
                 case Some(next) => Consume(d, next, rest, failed)
  {
    hide ParseLine, Dispatch, LineLength, TrimEol;
    var text := line + "\n" + rest;
    LineLengthOf(line, rest);
    TrimPlain(line);
    assert text[..|line|] == line && text[|line| + 1..] == rest;
  }

  /** The rest of the stream, cut inside a line. */
  lemma ConsumePartial<P>(d: Decoder<P>, r: Reader<P>, partial: string, failed: bool)
    requires '\n' !in partial
    ensures Consume(d, r, partial, failed) == AtEnd(d, r, partial, failed)
  {
    hide AtEnd, TakeLine;
    NoLineEnd(partial);
  }

  // ----- the lines of a frame -----

  lemma EventLine<P>(r: Reader<P>, sign: string, name: string)
    requires sign == "event: "
    ensures ParseLine(r, sign + name) == r.(name := name)
  {
    var line := sign + name;
    assert line[0] == 'e';
    assert StartsWith(line, "event:");
    assert line[6..] == [' '] + name;
  }

  lemma IdLine<P>(r: Reader<P>, sign: string, n: nat)
    requires sign == "id: " && n <= MAX_INT64
    ensures ParseLine(r, sign + Decimal(n)) == r.(frameSeq := n)
  {
    var line := sign + Decimal(n);
    assert line[0] == 'i';
    assert StartsWith(line, "id:");
    assert line[3..] == [' '] + Decimal(n);
    assert FieldOf(line) == IdField(Decimal(n));
    ParseDecimal(n);
  }

  lemma ParseDecimal(n: nat)
    requires n <= MAX_INT64
    ensures ParseInt(Decimal(n)) == Some(n)
  {
    var s := Decimal(n);
    ValueDecimal(n);
    assert DIGITS.Has(s[0]);
  }

  lemma DataLine<P>(r: Reader<P>, sign: string, data: string)
    requires sign == "data: " && r.data == ""
    ensures ParseLine(r, sign + data) == r.(data := data)
  {
    var line := sign + data;
    assert line[0] == 'd';
    assert StartsWith(line, "data:");
    assert line[5..] == [' '] + data;
  }

  lemma CommentLine<P>(r: Reader<P>, line: string)
    requires line != "" && line[0] == ':'
    ensures ParseLine(r, line) == r
  {
  }

  /** Complete lines, one after the other; None when a payload does not decode. */
  function FoldLines<P>(d: Decoder<P>, r: Reader<P>, lines: seq<string>): Option<Reader<P>>
    decreases |lines|
  {
    if lines == [] then Some(r)
    else
      match if lines[0] == "" then Dispatch(d, r) else Some(ParseLine(r, lines[0]))
      case None => None
      case Some(next) => FoldLines(d, next, lines[1..])
  }

  predicate AllPlain(lines: seq<string>)
  {
    forall k :: 0 <= k < |lines| ==> Plain(lines[k])
  }

  lemma {:induction false} ConsumeLines<P>(d: Decoder<P>, r: Reader<P>, lines: seq<string>, rest: string, failed: bool)
    requires AllPlain(lines) && FoldLines(d, r, lines).Some?
    ensures Consume(d, r, Terminated(lines) + rest, failed) == Consume(d, FoldLines(d, r, lines).value, rest, failed)
    decreases |lines|
  {
    hide Consume, ParseLine, Dispatch, Plain;
    if lines == [] {
      assert "" + rest == rest;
    } else {
      var tail := Terminated(lines[1..]) + rest;
      assert Terminated(lines) + rest == lines[0] + "\n" + tail;
      ConsumeLine(d, r, lines[0], tail, failed);
      var next := if lines[0] == "" then Dispatch(d, r).value else ParseLine(r, lines[0]);
      ConsumeLines(d, next, lines[1..], rest, failed);
    }
  }

  // ----- whole frames -----

  /** The lines before the blank line. */
  function FieldLines(item: Item): seq<string>
  {
    FrameLines(item)[..|FrameLines(item)| - 1]
  }

  lemma DecimalPlain(n: nat)
    ensures Plain(Decimal(n))
  {
  }

  lemma PlainConcat(a: string, b: string)
    requires Plain(a) && Plain(b)
    ensures Plain(a + b)
  {
  }

  lemma FramePlain<P>(d: Decoder<P>, item: Item)
    requires GoodItem(d, item)
    ensures AllPlain(FrameLines(item))
  {
    match item
    case Sync(payload) => PlainConcat("data: ", payload);
    case KeepAlive =>
    case Data(ev) =>
      DecimalPlain(ev.no);
      PlainConcat("id: ", Decimal(ev.no));
      PlainConcat("event: ", ev.name);
      PlainConcat("data: ", ev.data);
  }

  /** The frame as the reader holds it when its data line has been read. */
  ghost function Held<P>(item: Item, events: seq<Delivered<P>>): Reader<P>
  {
    match item
    case KeepAlive => Fresh(events)
    case Sync(payload) => Reader("sync", payload, 0, events)
    case Data(ev) => Reader(ev.name, ev.data, ev.no, events)
  }

  lemma FoldOne<P>(d: Decoder<P>, r: Reader<P>, line: string, rest: seq<string>)
    requires line != ""
    ensures FoldLines(d, r, [line] + rest) == FoldLines(d, ParseLine(r, line), rest)
  {
    assert ([line] + rest)[1..] == rest;
  }

  lemma SyncLine<P>(r: Reader<P>, line: string)
    requires line == "event: sync"
    ensures ParseLine(r, line) == r.(name := "sync")
  {
    assert line == "event: " + "sync";
    EventLine(r, "event: ", "sync");
  }

  lemma FoldFields<P>(d: Decoder<P>, item: Item, events: seq<Delivered<P>>)
    requires GoodItem(d, item)
    ensures FoldLines(d, Fresh(events), FieldLines(item)) == Some(Held(item, events))
  {
    hide ParseLine, Decimal;
    var r := Fresh(events);
    match item
    case KeepAlive =>
      CommentLine(r, ": keepalive");
      FoldOne(d, r, ": keepalive", []);
    case Sync(payload) =>
      SyncLine(r, "event: sync");
      var r1 := r.(name := "sync");
      DataLine(r1, "data: ", payload);
      FoldOne(d, r, "event: sync", ["data: " + payload]);
      FoldOne(d, r1, "data: " + payload, []);
      assert FieldLines(item) == ["event: sync"] + ["data: " + payload];
    case Data(ev) =>
      IdLine(r, "id: ", ev.no);
      var r1 := r.(frameSeq := ev.no);
      EventLine(r1, "event: ", ev.name);
      var r2 := r1.(name := ev.name);
      DataLine(r2, "data: ", ev.data);
      var l1, l2, l3 := "id: " + Decimal(ev.no), "event: " + ev.name, "data: " + ev.data;
      FoldOne(d, r, l1, [l2, l3]);
      FoldOne(d, r1, l2, [l3]);
      FoldOne(d, r2, l3, []);
      assert FieldLines(item) == [l1] + [l2, l3];
      assert [l2, l3] == [l2] + [l3] && [l3] == [l3] + [];
  }

  lemma DispatchHeld<P>(d: Decoder<P>, item: Item, events: seq<Delivered<P>>)
    requires GoodItem(d, item)
    ensures Dispatch(d, Held(item, events)) == Some(Fresh(events + Delivery(d, item)))
  {
    assert events + [] == events;
  }

  lemma {:induction false} FoldAppend<P>(d: Decoder<P>, r: Reader<P>, a: seq<string>, b: seq<string>)
    requires FoldLines(d, r, a).Some?
    ensures FoldLines(d, r, a + b) == FoldLines(d, FoldLines(d, r, a).value, b)
    decreases |a|
  {
    hide ParseLine, Dispatch;
    if a == [] {
      assert a + b == b;
    } else {
      assert (a + b)[1..] == a[1..] + b;
      var next := if a[0] == "" then Dispatch(d, r).value else ParseLine(r, a[0]);
      FoldAppend(d, next, a[1..], b);
    }
  }

  lemma FoldBlank<P>(d: Decoder<P>, r: Reader<P>, line: string)
    requires line == ""
    ensures FoldLines(d, r, [line]) == Dispatch(d, r)
  {
    assert [line][1..] == [];
  }

  /** A whole frame delivers its event and leaves the reader fresh. */
  lemma ConsumeItem<P>(d: Decoder<P>, item: Item, events: seq<Delivered<P>>, rest: string, failed: bool)
    requires GoodItem(d, item)
    ensures Consume(d, Fresh(events), RenderItem(item) + rest, failed)
         == Consume(d, Fresh(events + Delivery(d, item)), rest, failed)
  {
    hide Consume, ParseLine, Dispatch, Held, Delivery, Plain, FoldLines, GoodItem, FrameLines;
    FramePlain(d, item);
    FoldFields(d, item, events);
    LastLineBlank(item);
    FoldAppend(d, Fresh(events), FieldLines(item), [""]);
    FoldBlank(d, Held(item, events), "");
    DispatchHeld(d, item, events);
    ConsumeLines(d, Fresh(events), FrameLines(item), rest, failed);
  }

  lemma LastLineBlank(item: Item)
    ensures FrameLines(item) == FieldLines(item) + [""]
  {
  }

  // ----- a connection that breaks -----

  /** Where in its frame the payload starts. */
  function PayloadStart(item: Item): nat
  {
    match item
    case Sync(_) => |Terminated(["event: sync"])| + 6
    case Data(ev) => |Terminated(["id: " + Decimal(ev.no), "event: " + ev.name])| + 6
    case KeepAlive => 0
  }

  /** The cut falls inside a payload: part of it has come, but not all. */
  predicate CutsPayload(item: Item, k: nat)
  {
    !item.KeepAlive? && PayloadStart(item) < k < PayloadStart(item) + |PayloadOf(item)|
  }

  /** The payload has come whole, whether or not its line has ended. */
  predicate PayloadCame(item: Item, k: nat)
  {
    !item.KeepAlive? && k >= PayloadStart(item) + |PayloadOf(item)|
  }

  lemma {:induction false} CutLines(lines: seq<string>, k: nat) returns (m: nat, j: nat)
    requires k < |Terminated(lines)|
    ensures m < |lines| && j <= |lines[m]| && k == |Terminated(lines[..m])| + j
    ensures Terminated(lines)[..k] == Terminated(lines[..m]) + lines[m][..j]
  {
    var tail := Terminated(lines[1..]);
    if k <= |lines[0]| {
      m, j := 0, k;
      assert Terminated(lines)[..k] == lines[0][..k] == "" + lines[0][..k];
    } else {
      m, j := CutLines(lines[1..], k - |lines[0]| - 1);
      assert lines[..m + 1][0] == lines[0] && lines[..m + 1][1..] == lines[1..][..m];
      assert Terminated(lines[..m + 1]) == lines[0] + "\n" + Terminated(lines[1..][..m]);
      assert Terminated(lines)[..k] == lines[0] + "\n" + tail[..k - |lines[0]| - 1];
      m := m + 1;
    }
  }

  lemma PartialSkipped<P>(d: Decoder<P>, r: Reader<P>, partial: string)
    requires r.data == "" && (partial != "" ==> partial[0] != 'd')
    ensures AtEnd(d, r, partial, false) == Outcome(r.events, Clean)
  {
    assert partial != "" ==> !StartsWith(partial, "data:");
  }

  lemma PartialData<P>(d: Decoder<P>, r: Reader<P>, sign: string, data: string, j: nat)
    requires r.data == "" && sign == "data: " && j <= 6 + |data|
    ensures var partial := (sign + data)[..j]; var r' := r.(data := if j <= 6 then "" else data[..j - 6]);
            AtEnd(d, r, partial, false)
            == match Dispatch(d, r')
               case None => Outcome(r.events, MalformedData) case Some(e) => Outcome(e.events, Clean)
  {
    hide Dispatch;
    var partial := (sign + data)[..j];
    if j >= 6 {
      assert partial == sign + data[..j - 6];
      DataLine(r, sign, data[..j - 6]);
      assert partial[0] == 'd' && !SPACES.Has(partial[0]);
    } else if j == 5 {
      assert partial[5..] == "" && StartsWith(partial, "data:");
      assert partial[0] == 'd' && !SPACES.Has(partial[0]);
    } else {
      assert |partial| < |"data:"|;
      assert partial != "" ==> partial[0] == 'd';
      assert r.(data := "") == r;
      ShortLine(r, partial);
    }
  }

  lemma ShortLine<P>(r: Reader<P>, line: string)
    requires line == "" || (line[0] == 'd' && |line| < 5)
    ensures ParseLine(r, line) == r
  {
  }

  lemma DispatchNothing<P>(d: Decoder<P>, r: Reader<P>)
    requires r.data == ""
    ensures Dispatch(d, r) == Some(Fresh(r.events))
  {
  }

  /** The reader at a cut inside the data line of a frame, all lines before it read. */
  lemma CutInData<P>(d: Decoder<P>, item: Item, r: Reader<P>, events: seq<Delivered<P>>, j: nat)
    requires GoodItem(d, item) && !item.KeepAlive?
    requires r.data == "" && r.(data := PayloadOf(item)) == Held(item, events) && j <= 6 + |PayloadOf(item)|
    ensures AtEnd(d, r, ("data: " + PayloadOf(item))[..j], false)
         == if 6 < j < 6 + |PayloadOf(item)| then Outcome(events, MalformedData)
            else if j == 6 + |PayloadOf(item)| then Outcome(events + Delivery(d, item), Clean)
            else Outcome(events, Clean)
  {
    hide AtEnd, Delivery;
    var payload := PayloadOf(item);
    assert GoodPayload(d, payload);
    PartialData(d, r, "data: ", payload, j);
    if j <= 6 {
      DispatchNothing(d, r.(data := ""));
    } else if j < 6 + |payload| {
      assert d.decode(payload[..j - 6]).None?;
    } else {
      assert payload[..j - 6] == payload;
      DispatchHeld(d, item, events);
    }
  }

  lemma {:induction false} TerminatedAppend(a: seq<string>, b: seq<string>)
    ensures Terminated(a + b) == Terminated(a) + Terminated(b)
  {
    if a == [] {
      assert a + b == b;
    } else {
      assert (a + b)[1..] == a[1..] + b;
      TerminatedAppend(a[1..], b);
    }
  }

  lemma OneTerminated(line: string)
    ensures |Terminated([line])| == |line| + 1
  {
    assert [line][1..] == [];
  }

  lemma TerminatedStep(lines: seq<string>, m: nat)
    requires m < |lines|
    ensures |Terminated(lines[..m + 1])| == |Terminated(lines[..m])| + |lines[m]| + 1
  {
    assert lines[..m + 1] == lines[..m] + [lines[m]];
    TerminatedAppend(lines[..m], [lines[m]]);
    OneTerminated(lines[m]);
  }

  /** The number of the data line in a frame. */
  function DataLineNo(item: Item): nat
  {
    if item.Data? then 2 else if item.Sync? then 1 else 0
  }

  lemma PayloadStartIs(item: Item)
    requires !item.KeepAlive?
    ensures DataLineNo(item) == |FieldLines(item)| - 1 < |FrameLines(item)| - 1
    ensures PayloadStart(item) == |Terminated(FrameLines(item)[..DataLineNo(item)])| + 6
    ensures FrameLines(item)[DataLineNo(item)] == "data: " + PayloadOf(item)
  {
    match item
    case Sync(_) => assert FrameLines(item)[..1] == ["event: sync"];
    case Data(ev) => assert FrameLines(item)[..2] == ["id: " + Decimal(ev.no), "event: " + ev.name];
    case KeepAlive =>
  }

  /** The fields before the data line leave the data empty. */
  lemma FieldsBefore<P>(d: Decoder<P>, item: Item, events: seq<Delivered<P>>, m: nat)
    requires GoodItem(d, item) && !item.KeepAlive? && m <= DataLineNo(item)
    ensures m < |FrameLines(item)|
    ensures FoldLines(d, Fresh(events), FrameLines(item)[..m]).Some?
    ensures var r := FoldLines(d, Fresh(events), FrameLines(item)[..m]).value;
            r.data == "" && r.events == events
            && (m == DataLineNo(item) ==> r.(data := PayloadOf(item)) == Held(item, events))
    ensures m < DataLineNo(item) ==> FrameLines(item)[m][0] != 'd'
  {
    hide ParseLine, Decimal;
    var r, lines := Fresh(events), FrameLines(item);
    if m > 0 {
      match item {
        case Sync(payload) =>
          SyncLine(r, "event: sync");
          FoldOne(d, r, lines[0], []);
          assert lines[..1] == [lines[0]] + [];
        case Data(ev) =>
          IdLine(r, "id: ", ev.no);
          var r1 := r.(frameSeq := ev.no);
          if m == 1 {
            FoldOne(d, r, lines[0], []);
            assert lines[..1] == [lines[0]] + [];
          } else {
            EventLine(r1, "event: ", ev.name);
            FoldOne(d, r, lines[0], [lines[1]]);
            FoldOne(d, r1, lines[1], []);
            assert lines[..2] == [lines[0]] + [lines[1]] && [lines[1]] == [lines[1]] + [];
          }
      }
    }
  }

  ghost function CutOutcome<P>(d: Decoder<P>, item: Item, events: seq<Delivered<P>>, k: nat): Outcome<P>
    requires GoodItem(d, item)
  {
    if CutsPayload(item, k) then Outcome(events, MalformedData)
    else if PayloadCame(item, k) then Outcome(events + Delivery(d, item), Clean)
    else Outcome(events, Clean)
  }

  lemma CutReader<P>(d: Decoder<P>, item: Item, r: Reader<P>, k: nat, failed: bool) returns (m: nat, j: nat)
    requires GoodItem(d, item) && k < |RenderItem(item)|
    ensures m < |FrameLines(item)| && j <= |FrameLines(item)[m]|
    ensures k == |Terminated(FrameLines(item)[..m])| + j
    ensures FoldLines(d, r, FrameLines(item)[..m]).Some? ==>
              Consume(d, r, RenderItem(item)[..k], failed)
              == AtEnd(d, FoldLines(d, r, FrameLines(item)[..m]).value, FrameLines(item)[m][..j], failed)
  {
    hide Consume, ParseLine, Dispatch, FoldLines, GoodItem, FrameLines, Terminated, AtEnd;
    var lines := FrameLines(item);
    m, j := CutLines(lines, k);
    FramePlain(d, item);
    if FoldLines(d, r, lines[..m]).Some? {
      ConsumeLines(d, r, lines[..m], lines[m][..j], failed);
      assert Plain(lines[m]);
      ConsumePartial(d, FoldLines(d, r, lines[..m]).value, lines[m][..j], failed);
    }
  }

  lemma {:induction false} TerminatedMonotone(lines: seq<string>, m: nat, n: nat)
    requires m <= n <= |lines|
    ensures |Terminated(lines[..m])| <= |Terminated(lines[..n])|
  {
    assert lines[..n] == lines[..m] + lines[m..n];
    TerminatedAppend(lines[..m], lines[m..n]);
  }

  /** A frame cut off before its end. */
  lemma {:induction false} CutFrame<P>(d: Decoder<P>, item: Item, events: seq<Delivered<P>>, k: nat)
    requires GoodItem(d, item) && !item.KeepAlive? && k < |RenderItem(item)|
    ensures Consume(d, Fresh(events), RenderItem(item)[..k], false) == CutOutcome(d, item, events, k)
  {
    hide Consume, ParseLine, Dispatch, GoodItem, FrameLines, Terminated;
    hide AtEnd, FoldLines, Delivery, Held, PayloadOf, PayloadStart;
    var lines, n := FrameLines(item), DataLineNo(item);
    var m, j := CutReader(d, item, Fresh(events), k, false);
    PayloadStartIs(item);
    TerminatedStep(lines, n);
    if m < n {
      FieldsBefore(d, item, events, m);
      PartialSkipped(d, FoldLines(d, Fresh(events), lines[..m]).value, lines[m][..j]);
      TerminatedMonotone(lines, m + 1, n);
      TerminatedStep(lines, m);
    } else if m == n {
      FieldsBefore(d, item, events, m);
      CutInData(d, item, FoldLines(d, Fresh(events), lines[..m]).value, events, j);
    } else {
      TerminatedMonotone(lines, n + 1, m);
      LastLineBlank(item);
      assert lines[m] == "" && lines[..m] == FieldLines(item);
      FoldFields(d, item, events);
      AtEndHeld(d, item, events, lines[m][..j]);
    }
  }

  lemma AtEndHeld<P>(d: Decoder<P>, item: Item, events: seq<Delivered<P>>, partial: string)
    requires GoodItem(d, item) && partial == ""
    ensures AtEnd(d, Held(item, events), partial, false) == Outcome(events + Delivery(d, item), Clean)
  {
    hide Dispatch, Delivery, GoodItem, Held;
    DispatchHeld(d, item, events);
  }

  lemma CutKeepAlive<P>(d: Decoder<P>, item: Item, events: seq<Delivered<P>>, k: nat)
    requires item.KeepAlive? && k < |RenderItem(item)|
    ensures Consume(d, Fresh(events), RenderItem(item)[..k], false) == CutOutcome(d, item, events, k)
  {
    hide Consume, AtEnd, ParseLine, Terminated;
    var r := Fresh(events);
    var m, j := CutReader(d, item, r, k, false);
    if m == 1 {
      CommentLine(r, ": keepalive");
      FoldOne(d, r, ": keepalive", []);
      assert FrameLines(item)[..1] == [": keepalive"] + [];
      assert FrameLines(item)[1] == "";
    }
    assert FoldLines(d, r, FrameLines(item)[..m]) == Some(r);
    PartialSkipped(d, r, FrameLines(item)[m][..j]);
  }

  // ----- the whole stream -----

  lemma CutItem<P>(d: Decoder<P>, item: Item, events: seq<Delivered<P>>, k: nat)
    requires GoodItem(d, item) && k < |RenderItem(item)|
    ensures Consume(d, Fresh(events), RenderItem(item)[..k], false) == CutOutcome(d, item, events, k)
  {
    hide Consume, GoodItem, CutOutcome, RenderItem;
    if item.KeepAlive? {
      CutKeepAlive(d, item, events, k);
    } else {
      CutFrame(d, item, events, k);
    }
  }

  /** How many items have arrived: whole, or, for the last one, with its whole payload. */
  function Arrived(items: seq<Item>, k: nat): (n: nat)
    ensures n <= |items|
    decreases |items|
  {
    if items == [] then 0
    else if k < |RenderItem(items[0])| then if PayloadCame(items[0], k) then 1 else 0
    else 1 + Arrived(items[1..], k - |RenderItem(items[0])|)
  }

  /** The stream is cut inside the payload of one of its items. */
  predicate CutsSomePayload(items: seq<Item>, k: nat)
    decreases |items|
  {
    items != [] &&
    if k < |RenderItem(items[0])| then CutsPayload(items[0], k)
    else CutsSomePayload(items[1..], k - |RenderItem(items[0])|)
  }

  /** Cut tolerance. When the connection ends after k bytes, the client has delivered exactly
      the events whose payload came whole, in order, and reports malformed data exactly when
      the cut falls inside a payload. */
  lemma {:induction false} CutStream<P>(d: Decoder<P>, items: seq<Item>, events: seq<Delivered<P>>, k: nat)
    requires GoodItems(d, items) && k <= |RenderItems(items)|
    ensures Consume(d, Fresh(events), RenderItems(items)[..k], false)
         == Outcome(events + Deliveries(d, items[..Arrived(items, k)]),
                    if CutsSomePayload(items, k) then MalformedData else Clean)
    decreases |items|
  {
    hide Consume, Delivery, GoodItem, RenderItem, PayloadCame, CutsPayload;
    if items == [] {
      EmptyStream(d, Fresh(events), RenderItems(items)[..k]);
    } else {
      var item, n := items[0], |RenderItem(items[0])|;
      assert GoodItem(d, item);
      if k < n {
        assert RenderItems(items)[..k] == RenderItem(item)[..k];
        CutItem(d, item, events, k);
        CutDeliveries(d, items, events, k);
      } else {
        var rest := RenderItems(items[1..])[..k - n];
        assert RenderItems(items)[..k] == RenderItem(item) + rest;
        ConsumeItem(d, item, events, rest, false);
        CutStream(d, items[1..], events + Delivery(d, item), k - n);
        var a := Arrived(items[1..], k - n);
        assert items[..a + 1][0] == item && items[..a + 1][1..] == items[1..][..a];
        Assoc(events, Delivery(d, item), Deliveries(d, items[1..][..a]));
      }
    }
  }

  lemma EmptyStream<P>(d: Decoder<P>, r: Reader<P>, text: string)
    requires text == "" && r.data == ""
    ensures Consume(d, r, text, false) == Outcome(r.events, Clean)
    ensures Consume(d, r, text, true) == Outcome(r.events, ReadFailed)
  {
  }

  lemma CutDeliveries<P>(d: Decoder<P>, items: seq<Item>, events: seq<Delivered<P>>, k: nat)
    requires GoodItems(d, items) && items != [] && k < |RenderItem(items[0])| && GoodItem(d, items[0])
    ensures CutOutcome(d, items[0], events, k)
         == Outcome(events + Deliveries(d, items[..Arrived(items, k)]),
                    if CutsSomePayload(items, k) then MalformedData else Clean)
  {
    hide Delivery, GoodItem, RenderItem;
    assert events + [] == events;
    if PayloadCame(items[0], k) {
      assert items[..1] == [items[0]];
      assert Delivery(d, items[0]) + [] == Delivery(d, items[0]);
      assert [items[0]][1..] == [];
    }
  }

  lemma {:induction false} AllArrived(items: seq<Item>)
    ensures Arrived(items, |RenderItems(items)|) == |items|
    ensures !CutsSomePayload(items, |RenderItems(items)|)
  {
    hide RenderItem;
    if items != [] {
      AllArrived(items[1..]);
    }
  }

  /** Reading undoes writing: an uncut stream delivers every event, in order. */
  lemma ReadUndoesWrite<P>(d: Decoder<P>, items: seq<Item>)
    requires GoodItems(d, items)
    ensures Consume(d, Fresh([]), RenderItems(items), false) == Outcome(Deliveries(d, items), Clean)
  {
    hide Consume, Deliveries, GoodItem;
    AllArrived(items);
    var k := |RenderItems(items)|;
    CutStream(d, items, [], k);
    assert RenderItems(items)[..k] == RenderItems(items) && items[..|items|] == items;
    assert [] + Deliveries(d, items) == Deliveries(d, items);
  }

  lemma {:induction false} FailInFrame<P>(d: Decoder<P>, item: Item, events: seq<Delivered<P>>, k: nat)
    requires GoodItem(d, item) && k < |RenderItem(item)|
    ensures Consume(d, Fresh(events), RenderItem(item)[..k], true) == Outcome(events, ReadFailed)
  {
    hide Consume, ParseLine, Dispatch, GoodItem, FrameLines, Terminated, FoldLines,
         Delivery, Held, PayloadOf, PayloadStart;
    var r := Fresh(events);
    var m, j := CutReader(d, item, r, k, true);
    LastLineBlank(item);
    if m == |FieldLines(item)| {
      assert FrameLines(item)[..m] == FieldLines(item);
      FoldFields(d, item, events);
      assert Held(item, events).events == events by { HeldEvents(item, events); }
    } else if !item.KeepAlive? {
      PayloadStartIs(item);
      FieldsBefore(d, item, events, m);
    } else {
      KeepAliveLines(item);
      assert FrameLines(item)[..m] == [];
      FoldNothing(d, r);
    }
  }

  lemma HeldEvents<P>(item: Item, events: seq<Delivered<P>>)
    ensures Held(item, events).events == events
  {
  }

  lemma KeepAliveLines(item: Item)
    requires item.KeepAlive?
    ensures |FieldLines(item)| == 1
  {
  }

  lemma FoldNothing<P>(d: Decoder<P>, r: Reader<P>)
    ensures FoldLines(d, r, []) == Some(r)
  {
  }

  /** A read error after k bytes: the events of the frames that came whole, and the error. */
  lemma {:induction false} FailStream<P>(d: Decoder<P>, items: seq<Item>, events: seq<Delivered<P>>, k: nat)
    returns (n: nat)
    requires GoodItems(d, items) && k <= |RenderItems(items)|
    ensures n <= Arrived(items, k) <= n + 1
    ensures Consume(d, Fresh(events), RenderItems(items)[..k], true)
         == Outcome(events + Deliveries(d, items[..n]), ReadFailed)
    decreases |items|
  {
    hide Consume, Delivery, GoodItem, RenderItem, PayloadCame, CutsPayload;
    n := 0;
    assert events + [] == events;
    if items == [] {
      EmptyStream(d, Fresh(events), RenderItems(items)[..k]);
    } else {
      var item, len := items[0], |RenderItem(items[0])|;
      assert GoodItem(d, item);
      if k < len {
        assert RenderItems(items)[..k] == RenderItem(item)[..k];
        FailInFrame(d, item, events, k);
      } else {
        var rest := RenderItems(items[1..])[..k - len];
        assert RenderItems(items)[..k] == RenderItem(item) + rest;
        ConsumeItem(d, item, events, rest, true);
        n := FailStream(d, items[1..], events + Delivery(d, item), k - len);
        assert items[..n + 1][0] == item && items[..n + 1][1..] == items[1..][..n];
        Assoc(events, Delivery(d, item), Deliveries(d, items[1..][..n]));
        n := n + 1;
      }
    }
  }
}
