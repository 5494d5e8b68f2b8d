/** The stored history: one JSON document a line. Messages survive the wire form, histories
    survive the file, and a corrupt line costs only itself. */
module HistoryFile {
  import opened Text
  import opened Llm
  import Utf8

  datatype Message = Message(role: string, content: string, toolCalls: seq<ToolCall>,
                             toolCallID: string, images: seq<string>)

  // ----- the wire form -----

  datatype Part = Part(kind: string, text: string, url: Option<string>)

  datatype WireContent = Null | Plain(text: string) | Parts(parts: seq<Part>) | Other

  datatype WireCall = WireCall(id: string, kind: string, name: string, arguments: string)

  datatype Wire = Wire(role: string, content: WireContent, toolCalls: seq<WireCall>, toolCallID: string)

  function ImageParts(urls: seq<string>): seq<Part>
  {
    if urls == [] then [] else ImageParts(urls[..|urls| - 1]) + [Part("image_url", "", Some(urls[|urls| - 1]))]
  }

  function WireCalls(calls: seq<ToolCall>): seq<WireCall>
  {
    if calls == [] then []
    else
      var c := calls[|calls| - 1];
      WireCalls(calls[..|calls| - 1]) + [WireCall(c.id, "function", c.name, c.arguments)]
  }

  function ContentParts(m: Message): seq<Part>
  {
    (if m.content != "" then [Part("text", m.content, None)] else []) + ImageParts(m.images)
  }

  function ToWire(m: Message): Wire
  {
    Wire(m.role, if m.images == [] then Plain(m.content) else Parts(ContentParts(m)),
         WireCalls(m.toolCalls), m.toolCallID)
  }

  method MarshalParts(m: Message) returns (parts: seq<Part>)
    ensures parts == ContentParts(m)
  {
    parts := [];
    if m.content != "" {
      parts := [Part("text", m.content, None)];
    }
    var i := 0;
    ghost var start := parts;
    while i < |m.images|
      invariant 0 <= i <= |m.images|
      invariant parts == start + ImageParts(m.images[..i])
    {
      assert m.images[..i + 1][..i] == m.images[..i];
      parts := parts + [Part("image_url", "", Some(m.images[i]))];
      i := i + 1;
    }
    assert m.images[..i] == m.images;
  }

  /** MarshalJSON, up to the encoding of the wire form. */
  method MarshalMessage(m: Message) returns (w: Wire)
    ensures w == ToWire(m)
  {
    hide ContentParts;
    var content := Plain(m.content);
    if m.images != [] {
      var parts := MarshalParts(m);
      content := Parts(parts);
    }
    var calls := [];
    var k := 0;
    while k < |m.toolCalls|
      invariant 0 <= k <= |m.toolCalls|
      invariant calls == WireCalls(m.toolCalls[..k])
    {
      var c := m.toolCalls[k];
      assert m.toolCalls[..k + 1][..k] == m.toolCalls[..k];
      calls := calls + [WireCall(c.id, "function", c.name, c.arguments)];
      k := k + 1;
    }
    assert m.toolCalls[..k] == m.toolCalls;
    return Wire(m.role, content, calls, m.toolCallID);
  }

  function TextOf(parts: seq<Part>): string
  {
    if parts == [] then ""
    else TextOf(parts[..|parts| - 1]) + if parts[|parts| - 1].kind == "text" then parts[|parts| - 1].text else ""
  }

  function ImagesOf(parts: seq<Part>): seq<string>
  {
    if parts == [] then []
    else
      var p := parts[|parts| - 1];
      ImagesOf(parts[..|parts| - 1]) + if p.kind == "image_url" && p.url.Some? then [p.url.value] else []
  }

  function CallsOf(calls: seq<WireCall>): seq<ToolCall>
  {
    if calls == [] then []
    else
      var c := calls[|calls| - 1];
      CallsOf(calls[..|calls| - 1]) + [ToolCall(c.id, c.name, c.arguments)]
  }

  /** None: the content is neither a text nor parts. */
  function FromWire(w: Wire): Option<Message>
  {
    match w.content
    case Null => Some(Message(w.role, "", CallsOf(w.toolCalls), w.toolCallID, []))
    case Plain(text) => Some(Message(w.role, text, CallsOf(w.toolCalls), w.toolCallID, []))
    case Parts(parts) => Some(Message(w.role, TextOf(parts), CallsOf(w.toolCalls), w.toolCallID, ImagesOf(parts)))
    case Other => None
  }

  /** UnmarshalJSON, after the decoding of the wire form. */
  method UnmarshalMessage(w: Wire) returns (m: Option<Message>)
    ensures m == FromWire(w)
  {
    var content, images := "", [];
    match w.content {
      case Null =>
      case Plain(text) => content := text;
      case Parts(parts) =>
        var i := 0;
        while i < |parts|
          invariant 0 <= i <= |parts|
          invariant content == TextOf(parts[..i]) && images == ImagesOf(parts[..i])
        {
          var p := parts[i];
          assert parts[..i + 1][..i] == parts[..i];
          if p.kind == "text" {
            content := content + p.text;
          }
          if p.kind == "image_url" && p.url.Some? {
            images := images + [p.url.value];
          }
          i := i + 1;
        }
        assert parts[..i] == parts;
      case Other => return None;
    }
    var calls := [];
    var k := 0;
    while k < |w.toolCalls|
      invariant 0 <= k <= |w.toolCalls|
      invariant calls == CallsOf(w.toolCalls[..k])
    {
      var c := w.toolCalls[k];
      assert w.toolCalls[..k + 1][..k] == w.toolCalls[..k];
      calls := calls + [ToolCall(c.id, c.name, c.arguments)];
      k := k + 1;
    }
    assert w.toolCalls[..k] == w.toolCalls;
    return Some(Message(w.role, content, calls, w.toolCallID, images));
  }

  lemma {:induction false} CallsSurvive(calls: seq<ToolCall>)
    ensures CallsOf(WireCalls(calls)) == calls
  {
    if calls != [] {
      CallsSurvive(calls[..|calls| - 1]);
      var w := WireCalls(calls);
      assert w[..|w| - 1] == WireCalls(calls[..|calls| - 1]);
    }
  }

  lemma {:induction false} PartsConcat(a: seq<Part>, b: seq<Part>)
    ensures TextOf(a + b) == TextOf(a) + TextOf(b)
    ensures ImagesOf(a + b) == ImagesOf(a) + ImagesOf(b)
  {
    if b == [] {
      assert a + b == a;
    } else {
      PartsConcat(a, b[..|b| - 1]);
      assert (a + b)[..|a + b| - 1] == a + b[..|b| - 1];
    }
  }

  lemma {:induction false} ImagesSurvive(urls: seq<string>)
    ensures ImagesOf(ImageParts(urls)) == urls && TextOf(ImageParts(urls)) == ""
  {
    if urls != [] {
      var ps := ImageParts(urls);
      ImagesSurvive(urls[..|urls| - 1]);
      assert ps[..|ps| - 1] == ImageParts(urls[..|urls| - 1]);
    }
  }

  lemma TextSurvives(text: string)
    ensures TextOf([Part("text", text, None)]) == text && ImagesOf([Part("text", text, None)]) == []
  {
    assert [Part("text", text, None)][..0] == [] && "" + text == text;
  }

  lemma ContentSurvives(m: Message)
    ensures TextOf(ContentParts(m)) == m.content && ImagesOf(ContentParts(m)) == m.images
  {
    hide TextOf, ImagesOf, ImageParts;
    ImagesSurvive(m.images);
    TextSurvives(m.content);
    PartsConcat([Part("text", m.content, None)], ImageParts(m.images));
    assert [] + ImageParts(m.images) == ImageParts(m.images);
    assert [] + m.images == m.images && m.content + "" == m.content;
  }

  lemma {:induction false} PartAt(urls: seq<string>, k: nat)
    requires k < |urls|
    ensures |ImageParts(urls)| == |urls| && ImageParts(urls)[k] == Part("image_url", "", Some(urls[k]))
  {
    var init := urls[..|urls| - 1];
    if k < |init| {
      PartAt(init, k);
    } else if init != [] {
      PartAt(init, 0);
    }
  }

  lemma {:induction false} CallAt(calls: seq<ToolCall>, k: nat)
    requires k < |calls|
    ensures |WireCalls(calls)| == |calls|
    ensures WireCalls(calls)[k] == WireCall(calls[k].id, "function", calls[k].name, calls[k].arguments)
  {
    var init := calls[..|calls| - 1];
    if k < |init| {
      CallAt(init, k);
    } else if init != [] {
      CallAt(init, 0);
    }
  }

  /** What a provider sees: a message without images has plain content; one with images has
      parts, first the text if there is any, then the images in order; and every call is one
      of a function. */
  lemma WireShape(m: Message)
    ensures var w := ToWire(m); var first := if m.content == "" then 0 else 1;
            && w.role == m.role && w.toolCallID == m.toolCallID
            && (m.images == [] ==> w.content == Plain(m.content))
            && (m.images != [] ==>
                  && w.content.Parts? && |w.content.parts| == first + |m.images|
                  && (first == 1 ==> w.content.parts[0] == Part("text", m.content, None))
                  && forall k :: 0 <= k < |m.images| ==>
                       w.content.parts[first + k] == Part("image_url", "", Some(m.images[k])))
            && |w.toolCalls| == |m.toolCalls|
            && forall k :: 0 <= k < |m.toolCalls| ==>
                 w.toolCalls[k]
                 == WireCall(m.toolCalls[k].id, "function", m.toolCalls[k].name, m.toolCalls[k].arguments)
  {
    assert m.toolCalls == [] ==> WireCalls(m.toolCalls) == [];
    hide ImageParts, WireCalls;
    forall k | 0 <= k < |m.images|
      ensures |ImageParts(m.images)| == |m.images|
      ensures ImageParts(m.images)[k] == Part("image_url", "", Some(m.images[k]))
    {
      PartAt(m.images, k);
    }
    forall k | 0 <= k < |m.toolCalls|
      ensures |WireCalls(m.toolCalls)| == |m.toolCalls|
      ensures WireCalls(m.toolCalls)[k]
           == WireCall(m.toolCalls[k].id, "function", m.toolCalls[k].name, m.toolCalls[k].arguments)
    {
      CallAt(m.toolCalls, k);
    }
    if m.images != [] {
      PartAt(m.images, 0);
    }
    if m.toolCalls != [] {
      CallAt(m.toolCalls, 0);
    }
  }

  /** Decoding undoes encoding for every mix of text, images and tool calls. */
  lemma WireRoundTrip(m: Message)
    ensures FromWire(ToWire(m)) == Some(m)
  {
    hide TextOf, ImagesOf, ContentParts, CallsOf, WireCalls;
    CallsSurvive(m.toolCalls);
    ContentSurvives(m);
  }

  /** Whatever form the content has, the rest of the message is read the same: null reads as
      the empty text; a text is the same as one part of text; and of parts those of another
      kind, or images without an address, do not count. */
  lemma ContentForms(w: Wire, text: string, before: seq<Part>, p: Part, after: seq<Part>)
    requires p.kind != "text" && (p.kind != "image_url" || p.url.None?)
    ensures FromWire(w.(content := Null)) == FromWire(w.(content := Plain("")))
    ensures FromWire(w.(content := Plain(text))) == FromWire(w.(content := Parts([Part("text", text, None)])))
    ensures FromWire(w.(content := Parts(before + [p] + after))) == FromWire(w.(content := Parts(before + after)))
    ensures FromWire(w.(content := Other)).None?
  {
    hide CallsOf;
    TextSurvives(text);
    PartsConcat(before, [p] + after);
    PartsConcat([p], after);
    PartsConcat(before, after);
    assert before + [p] + after == before + ([p] + after);
    assert [p][..0] == [];
    assert TextOf([p]) == "" && ImagesOf([p]) == [];
    assert "" + TextOf(after) == TextOf(after) && [] + ImagesOf(after) == ImagesOf(after);
  }

  /** Images and texts may come in any order: each keeps its own. */
  lemma PartOrder(w: Wire, before: seq<Part>, text: string, url: string, after: seq<Part>)
    ensures var t, u := Part("text", text, None), Part("image_url", "", Some(url));
            FromWire(w.(content := Parts(before + [t, u] + after)))
            == FromWire(w.(content := Parts(before + [u, t] + after)))
  {
    hide CallsOf;
    var t, u := Part("text", text, None), Part("image_url", "", Some(url));
    PartsConcat(before + [t, u], after);
    PartsConcat(before + [u, t], after);
    PartsConcat(before, [t, u]);
    PartsConcat(before, [u, t]);
    TwoParts(t, u);
    TwoParts(u, t);
    TextSurvives(text);
    assert [u][..0] == [];
    assert TextOf([u]) == "" && ImagesOf([u]) == [url];
    assert text + "" == "" + text && [] + [url] == [url] + [];
  }

  lemma TwoParts(p: Part, q: Part)
    ensures TextOf([p, q]) == TextOf([p]) + TextOf([q]) && ImagesOf([p, q]) == ImagesOf([p]) + ImagesOf([q])
  {
    assert [p, q] == [p] + [q];
    PartsConcat([p], [q]);
  }

  // ----- the file -----

  /** An encoder and a decoder of JSON: on wire forms whose texts are valid UTF-8, decoding
      undoes encoding, and a document has no raw line feed and no white space at its ends. */
  ghost predicate Codec(encode: Wire -> string, decode: string -> Option<Wire>)
  {
    forall w: Wire :: Clean(w) ==> Document(encode(w)) && decode(encode(w)) == Some(w)
  }

  predicate Document(s: string)
  {
    s != "" && OneLine(s) && !SPACES.Has(s[0]) && !SPACES.Has(s[|s| - 1])
  }

  predicate Clean(w: Wire)
  {
    && Utf8.Valid(w.role) && Utf8.Valid(w.toolCallID)
    && (w.content.Plain? ==> Utf8.Valid(w.content.text))
    && (w.content.Parts? ==> forall p <- w.content.parts ::
          Utf8.Valid(p.kind) && Utf8.Valid(p.text) && (p.url.Some? ==> Utf8.Valid(p.url.value)))
    && forall c <- w.toolCalls :: Utf8.Valid(c.id) && Utf8.Valid(c.kind)
         && Utf8.Valid(c.name) && Utf8.Valid(c.arguments)
  }

  /** maxHistoryLineBytes */
  const LINE_CAP: nat := 64 * 1024 * 1024

  /** What one line of the file, without its line feed, contributes; size counts the line feed,
      if the line has one. */
  function LineMessages(line: string, size: nat, decode: string -> Option<Wire>): (ms: seq<Message>)
    ensures |ms| <= 1
  {
    var data := TrimSpace(line);
    if data == "" || size > LINE_CAP || decode(data).None? || FromWire(decode(data).value).None? then []
    else [FromWire(decode(data).value).value]
  }

  /** The messages of the pieces a file is split into at its line feeds. */
  function ParsePieces(pieces: seq<string>, decode: string -> Option<Wire>): seq<Message>
  {
    if pieces == [] then []
    else if |pieces| == 1 then LineMessages(pieces[0], |pieces[0]|, decode)
    else LineMessages(pieces[0], |pieces[0]| + 1, decode) + ParsePieces(pieces[1..], decode)
  }

  function Parse(body: string, decode: string -> Option<Wire>): seq<Message>
  {
    ParsePieces(Split(body), decode)
  }

  /** Reads up to and including the next line feed; found tells whether there was one. */
  method ReadLine(body: string, from: nat) returns (line: string, found: bool, next: nat)
    requires from <= |body|
    ensures next <= |body| && (found ==> from < next && |line| + 1 == next - from)
    ensures Split(body[from..]) == if found then [line] + Split(body[next..]) else [line]
  {
    var i := from;
    while i < |body| && body[i] != '\n'
      invariant from <= i <= |body|
      invariant OneLine(body[from..i])
    {
      i := i + 1;
    }
    line := body[from..i];
    found := i < |body|;
    next := if found then i + 1 else i;
    if found {
      SplitCons(line, body[next..]);
      assert body[from..] == line + "\n" + body[next..];
    } else {
      SplitOne(line);
      assert body[from..] == line;
    }
  }

  /** parseHistoryJSONL: a line that is blank, too long or malformed is skipped. */
  method ParseHistory(body: string, decode: string -> Option<Wire>) returns (msgs: seq<Message>)
    ensures msgs == Parse(body, decode)
  {
    hide LineMessages;
    msgs := [];
    var at, more := 0, true;
    assert body[0..] == body;
    while more
      invariant 0 <= at <= |body|
      invariant Parse(body, decode) == if more then msgs + ParsePieces(Split(body[at..]), decode) else msgs
      decreases more, |body| - at
    {
      var line, found, next := ReadLine(body, at);
      var m := ParseOne(line, if found then |line| + 1 else |line|, decode);
      if found {
        assert ([line] + Split(body[next..]))[1..] == Split(body[next..]);
        Assoc(msgs, m, ParsePieces(Split(body[next..]), decode));
      }
      msgs := msgs + m;
      at, more := next, found;
    }
  }

  method ParseOne(line: string, size: nat, decode: string -> Option<Wire>) returns (ms: seq<Message>)
    ensures ms == LineMessages(line, size, decode)
  {
    var data := TrimSpace(line);
    if data != "" && size <= LINE_CAP {
      var w := decode(data);
      if w.Some? {
        var m := UnmarshalMessage(w.value);
        if m.Some? {
          return [m.value];
        }
      }
    }
    return [];
  }

  function Saved(ms: seq<Message>, encode: Wire -> string): string
  {
    if ms == [] then "" else Saved(ms[..|ms| - 1], encode) + encode(ToWire(ms[|ms| - 1])) + "\n"
  }

  method Save(ms: seq<Message>, encode: Wire -> string) returns (body: string)
    ensures body == Saved(ms, encode)
  {
    body := "";
    var i := 0;
    while i < |ms|
      invariant 0 <= i <= |ms|
      invariant body == Saved(ms[..i], encode)
    {
      var w := MarshalMessage(ms[i]);
      assert ms[..i + 1][..i] == ms[..i];
      body := body + encode(w) + "\n";
      i := i + 1;
    }
    assert ms[..i] == ms;
  }

  // ----- what the file keeps -----

  /** The messages whose line, line feed included, is within the cap. */
  function Fitting(ms: seq<Message>, encode: Wire -> string): seq<Message>
  {
    if ms == [] then []
    else
      var m := ms[|ms| - 1];
      Fitting(ms[..|ms| - 1], encode) + if |encode(ToWire(m))| + 1 <= LINE_CAP then [m] else []
  }

  lemma ParseLine(line: string, rest: string, decode: string -> Option<Wire>)
    requires OneLine(line)
    ensures Parse(line + "\n" + rest, decode) == LineMessages(line, |line| + 1, decode) + Parse(rest, decode)
  {
    hide LineMessages;
    SplitCons(line, rest);
    assert ([line] + Split(rest))[1..] == Split(rest);
  }

  /** A file that ends in a line feed, followed by more: the parts contribute independently, so
      that whatever happens to one line is lost or kept with that line alone. */
  lemma {:induction false} LinesAreIndependent(pieces: seq<string>, rest: string, decode: string -> Option<Wire>)
    requires Lines(pieces)
    ensures Parse(Terminated(pieces) + rest, decode) == Contributions(pieces, decode) + Parse(rest, decode)
  {
    hide LineMessages, Parse;
    if pieces == [] {
      assert "" + rest == rest;
      assert [] + Parse(rest, decode) == Parse(rest, decode);
    } else {
      var tail := Terminated(pieces[1..]) + rest;
      LinesAreIndependent(pieces[1..], rest, decode);
      ParseLine(pieces[0], tail, decode);
      assert Terminated(pieces) + rest == pieces[0] + "\n" + tail;
      Assoc(LineMessages(pieces[0], |pieces[0]| + 1, decode), Contributions(pieces[1..], decode), Parse(rest, decode));
    }
  }

  function Contributions(pieces: seq<string>, decode: string -> Option<Wire>): seq<Message>
  {
    if pieces == [] then [] else LineMessages(pieces[0], |pieces[0]| + 1, decode) + Contributions(pieces[1..], decode)
  }

  /** One corrupted line removes at most its own message. */
  lemma {:induction false} CorruptLine(before: seq<string>, line: string,
                                       after: seq<string>, decode: string -> Option<Wire>)
    requires Lines(before) && OneLine(line) && Lines(after)
    requires TrimSpace(line) == "" || decode(TrimSpace(line)).None? || FromWire(decode(TrimSpace(line)).value).None?
             || |line| + 1 > LINE_CAP
    ensures Parse(Terminated(before) + (line + "\n" + Terminated(after)), decode)
            == Parse(Terminated(before), decode) + Parse(Terminated(after), decode)
  {
    hide Parse, Terminated, Contributions;
    assert LineMessages(line, |line| + 1, decode) == [];
    var tail := Terminated(after);
    ParseLine(line, tail, decode);
    LinesAreIndependent(before, line + "\n" + tail, decode);
    LinesAreIndependent(before, "", decode);
    EmptyFile(decode);
    assert Terminated(before) + "" == Terminated(before);
    assert Contributions(before, decode) + [] == Contributions(before, decode);
    assert [] + Parse(tail, decode) == Parse(tail, decode);
  }

  lemma EmptyFile(decode: string -> Option<Wire>)
    ensures Parse("", decode) == []
  {
  }

  lemma TrimDocument(s: string)
    requires Document(s)
    ensures TrimSpace(s) == s
  {
    assert SpanFrom(s, 0, SPACES) == 0;
    assert s[0..] == s;
  }

  function Documents(ms: seq<Message>, encode: Wire -> string): seq<string>
  {
    if ms == [] then [] else Documents(ms[..|ms| - 1], encode) + [encode(ToWire(ms[|ms| - 1]))]
  }

  lemma {:induction false} TerminatedMore(pieces: seq<string>, line: string)
    ensures Terminated(pieces + [line]) == Terminated(pieces) + line + "\n"
  {
    if pieces == [] {
      assert Terminated([line]) == line + "\n" + "";
    } else {
      TerminatedMore(pieces[1..], line);
      assert (pieces + [line])[1..] == pieces[1..] + [line];
      Assoc(pieces[0] + "\n", Terminated(pieces[1..]), line);
      Assoc(pieces[0] + "\n", Terminated(pieces[1..]) + line, "\n");
    }
  }

  lemma {:induction false} ContributionsMore(pieces: seq<string>, line: string, decode: string -> Option<Wire>)
    ensures Contributions(pieces + [line], decode)
         == Contributions(pieces, decode) + LineMessages(line, |line| + 1, decode)
  {
    hide LineMessages;
    if pieces == [] {
      assert [line][1..] == [];
      assert LineMessages(line, |line| + 1, decode) + [] == [] + LineMessages(line, |line| + 1, decode);
    } else {
      ContributionsMore(pieces[1..], line, decode);
      assert (pieces + [line])[1..] == pieces[1..] + [line];
      Assoc(LineMessages(pieces[0], |pieces[0]| + 1, decode), Contributions(pieces[1..], decode),
            LineMessages(line, |line| + 1, decode));
    }
  }

  predicate AllClean(ms: seq<Message>)
  {
    forall m <- ms :: Clean(ToWire(m))
  }

  lemma {:induction false} SavedLines(ms: seq<Message>, encode: Wire -> string, decode: string -> Option<Wire>)
    requires Codec(encode, decode) && AllClean(ms)
    ensures Saved(ms, encode) == Terminated(Documents(ms, encode)) && Lines(Documents(ms, encode))
    ensures Contributions(Documents(ms, encode), decode) == Fitting(ms, encode)
  {
    if ms != [] {
      var init := ms[..|ms| - 1];
      var m := ms[|ms| - 1];
      assert forall x <- init :: x in ms;
      SavedLines(init, encode, decode);
      TerminatedMore(Documents(init, encode), encode(ToWire(m)));
      ContributionsMore(Documents(init, encode), encode(ToWire(m)), decode);
      assert m in ms;
      OneDocument(m, encode, decode);
    }
  }

  lemma {:induction false} OneDocument(m: Message, encode: Wire -> string, decode: string -> Option<Wire>)
    requires Codec(encode, decode) && Clean(ToWire(m))
    ensures var line := encode(ToWire(m));
            OneLine(line) && LineMessages(line, |line| + 1, decode) == if |line| + 1 <= LINE_CAP then [m] else []
  {
    hide ToWire, FromWire;
    TrimDocument(encode(ToWire(m)));
    WireRoundTrip(m);
  }

  /** Parsing a saved history returns its messages, in order, but for those whose line is over
      the cap. */
  lemma HistoryRoundTrip(ms: seq<Message>, encode: Wire -> string, decode: string -> Option<Wire>)
    requires Codec(encode, decode) && AllClean(ms)
    ensures Parse(Saved(ms, encode), decode) == Fitting(ms, encode)
  {
    SavedLines(ms, encode, decode);
    LinesAreIndependent(Documents(ms, encode), "", decode);
    assert Terminated(Documents(ms, encode)) + "" == Saved(ms, encode);
    EmptyFile(decode);
    assert Fitting(ms, encode) + [] == Fitting(ms, encode);
  }

  /** It returns them all exactly when every line is within the cap. */
  lemma {:induction false} FittingAllExactly(ms: seq<Message>, encode: Wire -> string)
    ensures |Fitting(ms, encode)| <= |ms|
    ensures Fitting(ms, encode) == ms <==> forall m <- ms :: |encode(ToWire(m))| + 1 <= LINE_CAP
  {
    if ms != [] {
      var init := ms[..|ms| - 1];
      FittingAllExactly(init, encode);
      assert ms == init + [ms[|ms| - 1]];
      assert forall m :: m in ms <==> m in init || m == ms[|ms| - 1];
      hide ToWire;
    }
  }
}
