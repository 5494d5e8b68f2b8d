/** The event stream on the wire: the frames the server writes and the client's reader.
    The format is server-sent events (WHATWG HTML Living Standard, sections 9.2.5 and
    9.2.6), read the way this client reads it: the id lasts for one frame, and a frame
    without an event name keeps the empty name. */
module Sse {
  import opened Text
  import Hub

  // ----- the server's frames -----

  datatype Item =
    | Sync(payload: string)
    | Data(event: Hub.Event)
    | KeepAlive

  /** The lines of one frame; the blank line that ends it is the last. */
  function FrameLines(item: Item): seq<string>
  {
    match item
    case Sync(payload) => ["event: sync", "data: " + payload, ""]
    case Data(ev) => ["id: " + Decimal(ev.no), "event: " + ev.name, "data: " + ev.data, ""]
    case KeepAlive => [": keepalive", ""]
  }

  /** writeSSESync, writeSSEFrame and the keepalive comment. */
  function RenderItem(item: Item): string
  {
    Terminated(FrameLines(item))
  }

  function RenderItems(items: seq<Item>): string
  {
    if items == [] then "" else RenderItem(items[0]) + RenderItems(items[1..])
  }

  // ----- the client's reader -----

  /** JSON decoding of an event payload, and the seq field of what it gives. */
  datatype Decoder<!P> = Decoder(decode: string -> Option<P>, seqOf: P -> int)

  datatype Delivered<+P> = Delivered(kind: string, no: int, payload: P)

  /** The frame being read, and the events delivered so far. */
  datatype Reader<+P> = Reader(name: string, data: string, frameSeq: int, events: seq<Delivered<P>>)

  datatype Ending = Clean | MalformedData | ReadFailed

  datatype Outcome<+P> = Outcome(events: seq<Delivered<P>>, ending: Ending)

  datatype Field =
    | EventField(value: string)
    | IdField(value: string)
    | DataField(value: string)
    | Ignored

  function TrimOneSpace(v: string): string
  {
    if v != "" && v[0] == ' ' then v[1..] else v
  }

  function FieldOf(line: string): Field
  {
    if StartsWith(line, ":") then Ignored
    else if StartsWith(line, "event:") then EventField(TrimOneSpace(line[6..]))
    else if StartsWith(line, "id:") then IdField(TrimOneSpace(line[3..]))
    else if StartsWith(line, "data:") then DataField(TrimOneSpace(line[5..]))
    else Ignored
  }

  const MAX_INT64: int := 0x7FFF_FFFF_FFFF_FFFF

  /** strconv.ParseInt(s, 10, 64). */
  function ParseInt(s: string): Option<int>
  {
    var signed := s != "" && (s[0] == '+' || s[0] == '-');
    var digits := if signed then s[1..] else s;
    if digits == "" || !AllDigits(digits) then None
    else
      var magnitude: int := Value(digits);
      var n := if signed && s[0] == '-' then -magnitude else magnitude;
      if -MAX_INT64 - 1 <= n <= MAX_INT64 then Some(n) else None
  }

  /** parseLine. */
  function ParseLine<P>(r: Reader<P>, line: string): Reader<P>
  {
    match FieldOf(line)
    case Ignored => r
    case EventField(v) => r.(name := v)
    case IdField(v) => if ParseInt(v).Some? then r.(frameSeq := ParseInt(v).value) else r
    case DataField(v) => r.(data := if r.data == "" then v else r.data + "\n" + v)
  }

  /** The dispatch closure: None when the data does not decode. */
  function Dispatch<P>(d: Decoder<P>, r: Reader<P>): Option<Reader<P>>
  {
    if r.data == "" then Some(Reader("", "", 0, r.events))
    else
      match d.decode(r.data)
      case None => None
      case Some(p) =>
        var no := if r.frameSeq == 0 then d.seqOf(p) else r.frameSeq;
        Some(Reader("", "", 0, r.events + [Delivered(r.name, no, p)]))
  }

  function TakeLine<P>(d: Decoder<P>, r: Reader<P>, raw: string): Option<Reader<P>>
  {
    var line := TrimEol(raw);
    if line == "" then Dispatch(d, r) else Some(ParseLine(r, line))
  }

  /** The length of the first line. */
  function LineLength(text: string): (n: nat)
    ensures n <= |text| && '\n' !in text[..n]
    ensures n < |text| ==> text[n] == '\n'
  {
    if text == "" || text[0] == '\n' then 0 else 1 + LineLength(text[1..])
  }

  predicate Blank(s: string)
  {
    forall k :: 0 <= k < |s| ==> SPACES.Has(s[k])
  }

  /** What is left without a line feed when the connection ends; failed tells a read error
      from the end of the stream. */
  function AtEnd<P>(d: Decoder<P>, r: Reader<P>, partial: string, failed: bool): Outcome<P>
  {
    if failed then Outcome(r.events, ReadFailed)
    else
      var last := if Blank(partial) then r else ParseLine(r, partial);
      match Dispatch(d, last)
      case None => Outcome(last.events, MalformedData)
      case Some(end) => Outcome(end.events, Clean)
  }

  function Consume<P>(d: Decoder<P>, r: Reader<P>, text: string, failed: bool): Outcome<P>
    decreases |text|
  {
    var n := LineLength(text);
    if n == |text| then AtEnd(d, r, text, failed)
    else
      match TakeLine(d, r, text[..n])
      case None => Outcome(r.events, MalformedData)
      case Some(next) => Consume(d, next, text[n + 1..], failed)
  }

  function Fresh<P>(events: seq<Delivered<P>>): Reader<P>
  {
    Reader("", "", 0, events)
  }

  /** Stream.run on a body that holds text and then ends. */
  method ReadStream<P>(d: Decoder<P>, text: string, failed: bool) returns (out: Outcome<P>)
    ensures out == Consume(d, Fresh([]), text, failed)
  {
    hide LineLength, TrimEol, ParseLine, Dispatch, Blank;
    var name, data, frameSeq := "", "", 0;
    var events: seq<Delivered<P>> := [];
    var rest := text;
    while true
      invariant Consume(d, Fresh([]), text, failed) == Consume(d, Reader(name, data, frameSeq, events), rest, failed)
      decreases |rest|
    {
      var n := LineLength(rest);
      var r := Reader(name, data, frameSeq, events);
      if n == |rest| {
        if failed {
          return Outcome(events, ReadFailed);
        }
        if !Blank(rest) {
          r := ParseLine(r, rest);
        }
        var sent := Dispatch(d, r);
        if sent.None? {
          return Outcome(r.events, MalformedData);
        }
        return Outcome(sent.value.events, Clean);
      }
      var line := TrimEol(rest[..n]);
      if line == "" {
        var sent := Dispatch(d, r);
        if sent.None? {
          return Outcome(events, MalformedData);
        }
        r := sent.value;
      } else {
        r := ParseLine(r, line);
      }
      name, data, frameSeq, events := r.name, r.data, r.frameSeq, r.events;
      rest := rest[n + 1..];
    }
  }
}
