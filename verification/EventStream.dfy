/** Server-sent events: the framing of both stream loops and the parser of section 9.2 of the HTML standard. */
module EventStream {
  import opened Prelude

  // ---- Writing ----

  /** One iteration of a stream loop. */
  function Frame(msg: string): string {
    "data: " + msg + "\n\n"
  }

  function Frames(msgs: seq<string>): string {
    if msgs == [] then "" else Frame(msgs[0]) + Frames(msgs[1..])
  }

  /** The event GET /sse opens its stream with. */
  function EndpointFrame(id: string): string {
    "event: endpoint\n" + "data: " + ("/message?sessionId=" + id) + "\n\n"
  }

  /** Messages a stream loop can carry: JSON text without line breaks. */
  predicate Carriable(msg: string) {
    msg != "" && '\r' !in msg && '\n' !in msg
  }

  // ---- Reading ----

  /** Lines end with CRLF, LF or CR; an unfinished last line is dropped. */
  function Lines(s: string): seq<string> {
    LinesFrom("", s)
  }

  /** `line` is what has been read of the current line. */
  function LinesFrom(line: string, s: string): seq<string>
    decreases |s|
  {
    if s == "" then []
    else if s[0] == '\n' then [line] + LinesFrom("", s[1..])
    else if s[0] == '\r' then [line] + LinesFrom("", if |s| > 1 && s[1] == '\n' then s[2..] else s[1..])
    else LinesFrom(line + [s[0]], s[1..])
  }

  datatype Event = Event(name: string, data: string)

  /** The buffers of the parser and the events dispatched so far. */
  datatype Parser = Parser(name: string, data: string, lastId: string, events: seq<Event>)

  const START := Parser("", "", "", [])

  function Colon(line: string, from: nat): (n: nat)
    requires from <= |line|
    ensures from <= n <= |line|
    decreases |line| - from
  {
    if from == |line| || line[from] == ':' then from else Colon(line, from + 1)
  }

  /** Field name and value: the text around the first colon, one leading space of the value removed. */
  function Field(line: string): (string, string) {
    var n := Colon(line, 0);
    if n == |line| then (line, "")
    else
      var value := line[n + 1..];
      (line[..n], if value != "" && value[0] == ' ' then value[1..] else value)
  }

  function ProcessField(p: Parser, field: string, value: string): Parser {
    if field == "event" then p.(name := value)
    else if field == "data" then p.(data := p.data + value + "\n")
    else if field == "id" && '\0' !in value then p.(lastId := value)
    else p
  }

  /** A blank line dispatches the event, unless there is no data. */
  function Dispatch(p: Parser): Parser {
    if p.data == "" then p.(name := "")
    else
      var data := if p.data[|p.data| - 1] == '\n' then p.data[..|p.data| - 1] else p.data;
      Parser("", "", p.lastId, p.events + [Event(if p.name == "" then "message" else p.name, data)])
  }

  function ProcessLine(p: Parser, line: string): Parser {
    if line == "" then Dispatch(p)
    else if line[0] == ':' then p
    else ProcessField(p, Field(line).0, Field(line).1)
  }

  function Process(p: Parser, lines: seq<string>): Parser
    decreases |lines|
  {
    if lines == [] then p else Process(ProcessLine(p, lines[0]), lines[1..])
  }

  /** One leading byte order mark is ignored. */
  function StripBom(s: string): string {
    if |s| >= 3 && s[0] as int == 0xEF && s[1] as int == 0xBB && s[2] as int == 0xBF then s[3..] else s
  }

  /** The events a client sees in the bytes of a stream. */
  function Parse(s: string): seq<Event> {
    Process(START, Lines(StripBom(s))).events
  }

  // ---- Round trip ----

  predicate OneLine(s: string) {
    '\r' !in s && '\n' !in s
  }

  lemma {:induction false} LineReads(line: string, text: string, rest: string)
    requires OneLine(text)
    ensures LinesFrom(line, text + "\n" + rest) == [line + text] + Lines(rest)
    decreases |text|
  {
    var s := text + "\n" + rest;
    if text == "" {
      assert s[0] == '\n' && s[1..] == rest && line + text == line;
    } else {
      LineReads(line + [text[0]], text[1..], rest);
      assert s[0] == text[0] && s[1..] == text[1..] + "\n" + rest;
      assert text[0] in text;
      assert line + [text[0]] + text[1..] == line + text;
    }
  }

  lemma NextLine(text: string, rest: string)
    requires OneLine(text)
    ensures Lines(text + "\n" + rest) == [text] + Lines(rest)
  {
    LineReads("", text, rest);
    assert "" + text == text;
  }

  lemma FrameLines(msg: string, rest: string)
    requires Carriable(msg)
    ensures Lines(Frame(msg) + rest) == ["data: " + msg, ""] + Lines(rest)
  {
    var text, tail := "data: " + msg, "" + "\n" + rest;
    assert Frame(msg) + rest == text + "\n" + tail;
    NextLine(text, tail);
    NextLine("", rest);
    assert [text] + ([""] + Lines(rest)) == [text, ""] + Lines(rest);
  }

  lemma DataField(msg: string)
    ensures Field("data: " + msg) == ("data", msg)
  {
    var line := "data: " + msg;
    assert Colon(line, 4) == 4;
    assert Colon(line, 3) == 4;
    assert Colon(line, 2) == 4;
    assert Colon(line, 1) == 4;
    assert Colon(line, 0) == 4;
    assert line[..4] == "data" && line[5..] == " " + msg && (" " + msg)[1..] == msg;
  }

  /** A data line and a blank line dispatch one event with the message as its data. */
  lemma FrameDispatches(p: Parser, msg: string)
    requires p.data == "" && Carriable(msg)
    ensures ProcessLine(ProcessLine(p, "data: " + msg), "")
         == AfterFrame(p, msg)
  {
    DataField(msg);
    assert "" + msg + "\n" == msg + "\n";
    assert (msg + "\n")[..|msg|] == msg;
  }

  function AsEvents(msgs: seq<string>): (es: seq<Event>)
    ensures |es| == |msgs| && forall i | 0 <= i < |es| :: es[i] == Event("message", msgs[i])
  {
    seq(|msgs|, i requires 0 <= i < |msgs| => Event("message", msgs[i]))
  }

  lemma ProcessTwo(p: Parser, a: string, b: string, rest: seq<string>)
    ensures Process(p, [a, b] + rest) == Process(ProcessLine(ProcessLine(p, a), b), rest)
  {
    assert ([a, b] + rest)[1..] == [b] + rest;
    assert ([b] + rest)[1..] == rest;
  }

  /** The parser after one frame. */
  function AfterFrame(p: Parser, msg: string): Parser {
    Parser("", "", p.lastId, p.events + [Event(if p.name == "" then "message" else p.name, msg)])
  }

  lemma ProcessFrame(p: Parser, msg: string, rest: string)
    requires p.data == "" && Carriable(msg)
    ensures Process(p, Lines(Frame(msg) + rest)) == Process(AfterFrame(p, msg), Lines(rest))
  {
    FrameLines(msg, rest);
    ProcessTwo(p, "data: " + msg, "", Lines(rest));
    FrameDispatches(p, msg);
  }

  lemma EventsCons(es: seq<Event>, msgs: seq<string>)
    requires msgs != []
    ensures es + [Event("message", msgs[0])] + AsEvents(msgs[1..]) == es + AsEvents(msgs)
  {
  }

  lemma {:induction false} FramesDispatch(p: Parser, msgs: seq<string>)
    requires p.data == "" && p.name == "" && forall m | m in msgs :: Carriable(m)
    ensures Process(p, Lines(Frames(msgs))).events == p.events + AsEvents(msgs)
    decreases |msgs|
  {
    if msgs == [] {
      assert p.events + [] == p.events;
    } else {
      var msg, more := msgs[0], msgs[1..];
      ProcessFrame(p, msg, Frames(more));
      FramesDispatch(AfterFrame(p, msg), more);
      EventsCons(p.events, msgs);
    }
  }

  lemma NoBom(s: string)
    requires s != "" ==> s[0] == 'd' || s[0] == 'e'
    ensures StripBom(s) == s
  {
  }

  /** A client that parses the frames of a stream sees exactly its messages, in order. */
  lemma FramesParse(msgs: seq<string>)
    requires forall m | m in msgs :: Carriable(m)
    ensures Parse(Frames(msgs)) == AsEvents(msgs)
  {
    NoBom(Frames(msgs));
    FramesDispatch(START, msgs);
    assert [] + AsEvents(msgs) == AsEvents(msgs);
  }

  /** The same for GET /sse, whose stream opens with the endpoint event. */
  lemma EndpointStreamParse(id: string, msgs: seq<string>)
    requires OneLine(id) && forall m | m in msgs :: Carriable(m)
    ensures Parse(EndpointFrame(id) + Frames(msgs))
         == [Event("endpoint", "/message?sessionId=" + id)] + AsEvents(msgs)
  {
    var url := "/message?sessionId=" + id;
    var s := EndpointFrame(id) + Frames(msgs);
    NoBom(s);
    EndpointLine(id, Frames(msgs));
    var named := START.(name := "endpoint");
    ProcessFrame(named, url, Frames(msgs));
    FramesDispatch(AfterFrame(named, url), msgs);
    assert AfterFrame(named, url).events == [Event("endpoint", url)];
  }

  /** The first line of GET /sse names the event that follows. */
  lemma EndpointLine(id: string, rest: string)
    ensures Process(START, Lines(EndpointFrame(id) + rest))
         == Process(START.(name := "endpoint"), Lines(Frame("/message?sessionId=" + id) + rest))
  {
    var head, tail := "event: endpoint", Frame("/message?sessionId=" + id) + rest;
    assert EndpointFrame(id) + rest == head + "\n" + tail;
    NextLine(head, tail);
    EventField();
    assert ([head] + Lines(tail))[1..] == Lines(tail);
  }

  lemma EventField()
    ensures Field("event: endpoint") == ("event", "endpoint")
  {
    var line := "event: endpoint";
    assert Colon(line, 5) == 5;
    assert Colon(line, 4) == 5;
    assert Colon(line, 3) == 5;
    assert Colon(line, 2) == 5;
    assert Colon(line, 1) == 5;
    assert line[..5] == "event" && line[6..] == " endpoint" && " endpoint"[1..] == "endpoint";
  }
}
