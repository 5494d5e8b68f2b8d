/** Frames that any server may write: fields in any order and number, with or without the
    space behind the colon, with comments and unknown fields among them, and with any number
    of carriage returns at the line ends. What the client makes of them. */
module SseFrames {
  import opened Text
  import opened Sse
  import opened SseRoundTrip

  datatype Line =
    | EventIs(value: string, space: bool)
    | IdIs(value: string, space: bool)
    | DataIs(value: string, space: bool)
    | Other(text: string)

  /** A line and the carriage returns behind it. */
  datatype Row = Row(line: Line, end: string)

  function Written(field: string, value: string, space: bool): string
  {
    field + ":" + (if space then " " else "") + value
  }

  function TextOf(l: Line): string
  {
    match l
    case EventIs(value, space) => Written("event", value, space)
    case IdIs(value, space) => Written("id", value, space)
    case DataIs(value, space) => Written("data", value, space)
    case Other(text) => text
  }

  predicate Returns(s: string)
  {
    forall k :: 0 <= k < |s| ==> s[k] == '\r'
  }

  /** A value with a space in front of it needs another one behind the colon. */
  predicate GoodLine(l: Line)
  {
    match l
    case Other(text) =>
      text != "" && !StartsWith(text, "event:") && !StartsWith(text, "id:") && !StartsWith(text, "data:")
    case _ => l.space || l.value == "" || l.value[0] != ' '
  }

  predicate GoodRow(r: Row)
  {
    var text := TextOf(r.line);
    GoodLine(r.line) && Returns(r.end) && '\n' !in text && text != "" && text[|text| - 1] != '\r'
  }

  predicate GoodRows(rows: seq<Row>)
  {
    forall i :: 0 <= i < |rows| ==> GoodRow(rows[i])
  }

  function RowText(r: Row): string
  {
    TextOf(r.line) + r.end + "\n"
  }

  function RowsText(rows: seq<Row>): string
  {
    if rows == [] then "" else RowsText(rows[..|rows| - 1]) + RowText(rows[|rows| - 1])
  }

  // ----- what a frame says -----

  /** The last event name, and the last id that is a number; other ids do not count. */
  function Name(ls: seq<Line>): string
  {
    if ls == [] then ""
    else if ls[|ls| - 1].EventIs? then ls[|ls| - 1].value else Name(ls[..|ls| - 1])
  }

  function Id(ls: seq<Line>): int
  {
    if ls == [] then 0
    else
      var last := ls[|ls| - 1];
      if last.IdIs? && ParseInt(last.value).Some? then ParseInt(last.value).value else Id(ls[..|ls| - 1])
  }

  function Values(ls: seq<Line>): seq<string>
  {
    if ls == [] then []
    else Values(ls[..|ls| - 1]) + if ls[|ls| - 1].DataIs? then [ls[|ls| - 1].value] else []
  }

  /** The data lines, joined; but those that are empty and come first leave nothing. */
  function Document(values: seq<string>): string
  {
    if values == [] then "" else if values[0] == "" then Document(values[1..]) else Join(values)
  }

  function LinesOf(rows: seq<Row>): seq<Line>
  {
    seq(|rows|, i requires 0 <= i < |rows| => rows[i].line)
  }

  function Said<P>(ls: seq<Line>, events: seq<Delivered<P>>): Reader<P>
  {
    Reader(Name(ls), Document(Values(ls)), Id(ls), events)
  }

  lemma {:induction false} DocumentMore(values: seq<string>, v: string)
    ensures Document(values + [v]) == if Document(values) == "" then v else Document(values) + "\n" + v
  {
    if values == [] {
      assert [] + [v] == [v] && [v][1..] == [];
    } else if values[0] == "" {
      assert (values + [v])[0] == "" && (values + [v])[1..] == values[1..] + [v];
      DocumentMore(values[1..], v);
    } else {
      assert (values + [v])[0] == values[0];
      JoinAppend(values, [v]);
      assert |Join(values)| >= |values[0]|;
    }
  }

  // ----- one line -----

  lemma EventWritten(value: string, space: bool)
    requires space || value == "" || value[0] != ' '
    ensures FieldOf(Written("event", value, space)) == EventField(value)
  {
    var text := Written("event", value, space);
    assert text[0] == 'e' && StartsWith(text, "event:");
    assert text[6..] == (if space then " " else "") + value;
  }

  lemma IdWritten(value: string, space: bool)
    requires space || value == "" || value[0] != ' '
    ensures FieldOf(Written("id", value, space)) == IdField(value)
  {
    var text := Written("id", value, space);
    assert text[0] == 'i' && StartsWith(text, "id:");
    assert text[3..] == (if space then " " else "") + value;
  }

  lemma DataWritten(value: string, space: bool)
    requires space || value == "" || value[0] != ' '
    ensures FieldOf(Written("data", value, space)) == DataField(value)
  {
    var text := Written("data", value, space);
    assert text[0] == 'd' && StartsWith(text, "data:");
    assert text[5..] == (if space then " " else "") + value;
  }

  lemma FieldWritten(l: Line)
    requires GoodLine(l)
    ensures FieldOf(TextOf(l)) == match l
                                  case EventIs(v, _) => EventField(v)
                                  case IdIs(v, _) => IdField(v)
                                  case DataIs(v, _) => DataField(v)
                                  case Other(_) => Ignored
  {
    match l
    case EventIs(v, space) => EventWritten(v, space);
    case IdIs(v, space) => IdWritten(v, space);
    case DataIs(v, space) => DataWritten(v, space);
    case Other(_) =>
  }

  lemma SaidMore<P>(ls: seq<Line>, l: Line, events: seq<Delivered<P>>)
    requires GoodLine(l)
    ensures ParseLine(Said(ls, events), TextOf(l)) == Said(ls + [l], events)
  {
    hide FieldOf, ParseInt, TextOf, Document, Join;
    FieldWritten(l);
    assert (ls + [l])[..|ls|] == ls && (ls + [l])[|ls|] == l;
    assert Values(ls) + [] == Values(ls);
    if l.DataIs? {
      DocumentMore(Values(ls), l.value);
    }
  }

  lemma {:induction false} TrimReturns(text: string, end: string)
    requires Returns(end) && (text == "" || (text[|text| - 1] != '\r' && text[|text| - 1] != '\n'))
    ensures TrimEol(text + end) == text
    decreases |end|
  {
    if end == "" {
      assert text + end == text;
    } else {
      assert (text + end)[..|text + end| - 1] == text + end[..|end| - 1];
      TrimReturns(text, end[..|end| - 1]);
    }
  }

  lemma RawLine<P>(d: Decoder<P>, r: Reader<P>, text: string, end: string, rest: string, failed: bool)
    requires Returns(end) && '\n' !in text && (text == "" || text[|text| - 1] != '\r')
    ensures Consume(d, r, text + end + "\n" + rest, failed)
         == if text != "" then Consume(d, ParseLine(r, text), rest, failed)
            else match Dispatch(d, r)
                 case None => Outcome(r.events, MalformedData)
                 case Some(next) => Consume(d, next, rest, failed)
  {
    hide ParseLine, Dispatch, LineLength, TrimEol;
    var line := text + end;
    var all := line + "\n" + rest;
    LineLengthOf(line, rest);
    TrimReturns(text, end);
    assert all[..|line|] == line && all[|line| + 1..] == rest;
  }

  // ----- whole frames -----

  lemma RowsEnd(rows: seq<Row>, rest: string)
    requires rows != [] && GoodRows(rows)
    ensures var init, row := rows[..|rows| - 1], rows[|rows| - 1];
            && RowsText(rows) + rest == RowsText(init) + (TextOf(row.line) + row.end + "\n" + rest)
            && LinesOf(rows) == LinesOf(init) + [row.line]
            && GoodRows(init) && GoodRow(row)
            && Returns(row.end) && GoodLine(row.line) && '\n' !in TextOf(row.line)
            && TextOf(row.line) != "" && TextOf(row.line)[|TextOf(row.line)| - 1] != '\r'
  {
    hide TextOf, Returns, GoodLine, RowsText, RowText;
    var init, row := rows[..|rows| - 1], rows[|rows| - 1];
    RowsMore(rows, rest);
    assert LinesOf(rows) == LinesOf(init) + [row.line];
  }

  lemma RowsMore(rows: seq<Row>, rest: string)
    requires rows != []
    ensures var init, row := rows[..|rows| - 1], rows[|rows| - 1];
            RowsText(rows) + rest == RowsText(init) + (TextOf(row.line) + row.end + "\n" + rest)
  {
    var init, row := rows[..|rows| - 1], rows[|rows| - 1];
    assert RowsText(rows) == RowsText(init) + RowText(row);
    var a, b := TextOf(row.line), row.end;
    assert RowText(row) == a + b + "\n";
    hide *;
    Assoc(RowsText(init), a + b + "\n", rest);
  }

  lemma NoRows<P>(rows: seq<Row>, rest: string, events: seq<Delivered<P>>)
    requires rows == []
    ensures RowsText(rows) + rest == rest
    ensures Said(LinesOf(rows), events) == Fresh(events)
  {
  }

  lemma {:induction false} RowsRead<P>(d: Decoder<P>, rows: seq<Row>, events: seq<Delivered<P>>, rest: string,
                                       failed: bool)
    requires GoodRows(rows)
    ensures Consume(d, Fresh(events), RowsText(rows) + rest, failed)
         == Consume(d, Said(LinesOf(rows), events), rest, failed)
  {
    hide *;
    if rows == [] {
      NoRows(rows, rest, events);
    } else {
      var init, row := rows[..|rows| - 1], rows[|rows| - 1];
      var text := TextOf(row.line);
      RowsEnd(rows, rest);
      RowsRead(d, init, events, text + row.end + "\n" + rest, failed);
      RawLine(d, Said(LinesOf(init), events), text, row.end, rest, failed);
      SaidMore(LinesOf(init), row.line, events);
    }
  }

  /** What a frame delivers when it is over: nothing without data, and an error if the data
      does not decode. */
  function Delivers<P>(d: Decoder<P>, ls: seq<Line>): Option<seq<Delivered<P>>>
  {
    var data := Document(Values(ls));
    if data == "" then Some([])
    else match d.decode(data)
         case None => None
         case Some(p) => Some([Delivered(Name(ls), if Id(ls) == 0 then d.seqOf(p) else Id(ls), p)])
  }

  lemma SaidDelivers<P>(d: Decoder<P>, ls: seq<Line>, events: seq<Delivered<P>>)
    ensures Dispatch(d, Said(ls, events))
         == match Delivers(d, ls)
            case None => None
            case Some(more) => Some(Fresh(events + more))
  {
    assert events + [] == events;
  }

  /** A frame, up to its blank line: its last event name, its data lines joined, and its last
      number, or the payload's own; and the reader begins afresh behind it. */
  lemma AnyFrame<P>(d: Decoder<P>, rows: seq<Row>, end: string, events: seq<Delivered<P>>, rest: string, failed: bool)
    requires GoodRows(rows) && Returns(end)
    ensures Consume(d, Fresh(events), RowsText(rows) + (end + "\n" + rest), failed)
         == match Delivers(d, LinesOf(rows))
            case None => Outcome(events, MalformedData)
            case Some(more) => Consume(d, Fresh(events + more), rest, failed)
  {
    hide Consume, ParseLine, Dispatch, Said, Delivers, RowsText;
    var ls := LinesOf(rows);
    RowsRead(d, rows, events, end + "\n" + rest, failed);
    assert "" + end + "\n" + rest == end + "\n" + rest;
    RawLine(d, Said(ls, events), "", end, rest, failed);
    SaidDelivers(d, ls, events);
    assert Said(ls, events).events == events by { SaidEvents(ls, events); }
  }

  lemma SaidEvents<P>(ls: seq<Line>, events: seq<Delivered<P>>)
    ensures Said(ls, events).events == events
  {
  }

  /** The stream ends in a frame, its last line without a line feed: the frame is delivered as
      if it were over; a read error loses it. */
  lemma LastFrame<P>(d: Decoder<P>, rows: seq<Row>, last: Line, events: seq<Delivered<P>>, failed: bool)
    requires GoodRows(rows) && GoodLine(last) && '\n' !in TextOf(last)
    ensures Consume(d, Fresh(events), RowsText(rows) + TextOf(last), failed)
         == if failed then Outcome(events, ReadFailed)
            else match Delivers(d, LinesOf(rows) + [last])
                 case None => Outcome(events, MalformedData)
                 case Some(more) => Outcome(events + more, Clean)
  {
    hide Consume, ParseLine, Dispatch, Said, Delivers, RowsText, TextOf, GoodLine;
    var ls := LinesOf(rows);
    RowsRead(d, rows, events, TextOf(last), failed);
    ConsumePartial(d, Said(ls, events), TextOf(last), failed);
    SaidMore(ls, last, events);
    SaidDelivers(d, ls + [last], events);
    SaidEvents(ls, events);
    SaidEvents(ls + [last], events);
    if last.Other? {
      OtherSays(ls, last, events);
    } else {
      FieldNotBlank(last);
    }
  }

  lemma FieldNotBlank(l: Line)
    requires !l.Other?
    ensures !Blank(TextOf(l))
  {
    var text := TextOf(l);
    assert text[0] == 'e' || text[0] == 'i' || text[0] == 'd';
    assert !SPACES.Has(text[0]);
  }

  lemma OtherSays<P>(ls: seq<Line>, l: Line, events: seq<Delivered<P>>)
    requires l.Other?
    ensures Said(ls + [l], events) == Said(ls, events)
  {
    assert (ls + [l])[..|ls|] == ls;
    assert Values(ls) + [] == Values(ls);
  }

  // ----- ids -----

  /** Which ids are numbers: digits, with at most one sign in front, of a value that fits into
      64 bits. */
  lemma IdExactly(s: string, n: int)
    ensures ParseInt(s) == Some(n)
       <==> exists digits ::
              && digits != "" && AllDigits(digits)
              && -9223372036854775808 <= n <= 9223372036854775807
              && (((s == digits || s == "+" + digits) && n == Value(digits))
                  || (s == "-" + digits && n == 0 - Value(digits)))
  {
    if s != "" {
      assert s == [s[0]] + s[1..];
    }
    forall digits | digits != "" && AllDigits(digits)
      ensures digits[0] != '+' && digits[0] != '-'
      ensures ("+" + digits)[1..] == digits == ("-" + digits)[1..]
    {
    }
  }
}
