/** The live tail over the wire: the server's frame writer (pkg/httpsrv/portal_api.go:359-402) and
    the browser's incremental parser (ui/src/lib/api.ts:250-296). */
module Sse {
  import opened Json
  import opened Audit

  const MAX_BUF := 1024 * 1024

  // ---------- strings ----------

  predicate OneLine(s: string) {
    forall i | 0 <= i < |s| :: s[i] != '\n'
  }

  /** indexOf("\n") */
  function IndexOfNewline(s: string): (r: int)
    ensures -1 <= r < |s|
    ensures r == -1 ==> OneLine(s)
    ensures r >= 0 ==> s[r] == '\n' && forall i | 0 <= i < r :: s[i] != '\n'
  {
    if s == "" then -1
    else if s[0] == '\n' then 0
    else
      var r := IndexOfNewline(s[1..]);
      if r == -1 then -1 else r + 1
  }

  function StripCr(raw: string): string {
    if raw != "" && raw[|raw| - 1] == '\r' then raw[..|raw| - 1] else raw
  }

  function StripSpace(s: string): string {
    if s != "" && s[0] == ' ' then s[1..] else s
  }

  function Concat(chunks: seq<string>): string {
    if chunks == [] then "" else chunks[0] + Concat(chunks[1..])
  }

  /** A text cut at its newlines: the complete lines, and what follows the last newline. */
  datatype Cut = Cut(lines: seq<string>, rest: string)

  /** Reading s after an unfinished line. */
  function Scan(open: string, s: string): Cut
    decreases |s|
  {
    if s == "" then Cut([], open)
    else
      var c, last := Scan(open, s[..|s| - 1]), s[|s| - 1];
      if last == '\n' then Cut(c.lines + [c.rest], "") else Cut(c.lines, c.rest + [last])
  }

  // ---------- the client ----------

  /** JSON.parse of a frame's data: None when it throws. */
  type Decoder = string -> Option<Event>

  datatype Parser = Parser(event: string, data: string, delivered: seq<Event>)

  const Fresh := Parser("", "", [])

  function Dispatch(decode: Decoder, p: Parser): seq<Event> {
    if p.event == "audit" && p.data != "" && decode(p.data).Some? && decode(p.data).value.id != ""
    then [decode(p.data).value] else []
  }

  function OnLine(decode: Decoder, p: Parser, raw: string): Parser {
    var line := StripCr(raw);
    if line == "" then Parser("", "", p.delivered + Dispatch(decode, p))
    else if line[0] == ':' then p
    else if "event:" <= line then p.(event := StripSpace(line[6..]))
    else if "data:" <= line then
      var fragment := StripSpace(line[5..]);
      p.(data := if p.data != "" then p.data + "\n" + fragment else fragment)
    else p
  }

  function Fold<S>(step: (S, string) -> S, s: S, lines: seq<string>): S {
    if lines == [] then s else step(Fold(step, s, lines[..|lines| - 1]), lines[|lines| - 1])
  }

  function Stepper(decode: Decoder): (Parser, string) -> Parser {
    (p: Parser, raw: string) => OnLine(decode, p, raw)
  }

  function OnLines(decode: Decoder, p: Parser, lines: seq<string>): Parser {
    Fold(Stepper(decode), p, lines)
  }

  datatype Client = Client(buf: string, parser: Parser)

  /** What has become of a stream: it goes on, or an overflow error has ended it after the given
      events had been delivered. */
  datatype Outcome = Open(client: Client) | Overflowed(delivered: seq<Event>)

  /** One chunk: append, check the cap, consume every complete line, keep the rest. */
  function Feed(decode: Decoder, c: Client, chunk: string): Outcome {
    var text := c.buf + chunk;
    var cut := Scan("", text);
    if |text| > MAX_BUF then Overflowed(c.parser.delivered)
    else Open(Client(cut.rest, OnLines(decode, c.parser, cut.lines)))
  }

  function FeedAll(decode: Decoder, c: Client, chunks: seq<string>): Outcome
    decreases |chunks|
  {
    if chunks == [] then Open(c)
    else
      var next := Feed(decode, c, chunks[0]);
      if next.Overflowed? then next else FeedAll(decode, next.client, chunks[1..])
  }

  /** The reader loop of streamAuditEvents, one decoded chunk per call. */
  class StreamClient {
    const decode: Decoder
    var buf: string
    var event: string
    var data: string
    var delivered: seq<Event>

    function View(): Parser
      reads this
    {
      Parser(event, data, delivered)
    }

    constructor (decode: Decoder)
      ensures this.decode == decode && buf == "" && View() == Fresh
    {
      this.decode := decode;
      buf, event, data, delivered := "", "", "", [];
    }

    method Line(raw: string)
      modifies this`event, this`data, this`delivered
      ensures View() == OnLines(decode, old(View()), [raw])
    {
      OneLineFold(decode, View(), raw);
      var line := if raw != "" && raw[|raw| - 1] == '\r' then raw[..|raw| - 1] else raw;
      if line == "" {
        if event == "audit" && data != "" {
          var parsed := decode(data);
          if parsed.Some? && parsed.value.id != "" {
            delivered := delivered + [parsed.value];
          }
        }
        event := "";
        data := "";
        return;
      }
      if line[0] == ':' {
        return;
      }
      if "event:" <= line {
        event := StripSpace(line[6..]);
      } else if "data:" <= line {
        var fragment := StripSpace(line[5..]);
        data := if data != "" then data + "\n" + fragment else fragment;
      }
    }

    function Now(ok: bool): Outcome
      reads this
    {
      if ok then Open(Client(buf, View())) else Overflowed(delivered)
    }

    method Read(chunk: string) returns (ok: bool)
      modifies this
      ensures ok <==> |old(buf)| + |chunk| <= 1_048_576
      ensures Now(ok) == Feed(decode, Client(old(buf), old(View())), chunk)
    {
      buf := buf + chunk;
      if |buf| > MAX_BUF {
        return false;
      }
      DrainLines();
      return true;
    }

    /** The outer loop: read until the server is done or the buffer overflows. */
    method ReadAll(chunks: seq<string>) returns (ok: bool)
      modifies this
      ensures Now(ok) == FeedAll(decode, Client(old(buf), old(View())), chunks)
    {
      ghost var end := FeedAll(decode, Client(buf, View()), chunks);
      ok := true;
      for n := 0 to |chunks|
        invariant ok && FeedAll(decode, Client(buf, View()), chunks[n..]) == end
      {
        assert chunks[n..][1..] == chunks[n + 1..];
        ok := Read(chunks[n]);
        if !ok {
          return;
        }
      }
    }

    /** Take complete lines off the buffer until none is left. */
    method DrainLines()
      modifies this
      ensures buf == Scan("", old(buf)).rest
      ensures View() == OnLines(decode, old(View()), Scan("", old(buf)).lines)
    {
      ghost var rest, end := Scan("", buf).rest, OnLines(decode, View(), Scan("", buf).lines);
      while true
        invariant Scan("", buf).rest == rest
        invariant OnLines(decode, View(), Scan("", buf).lines) == end
        decreases |buf|
      {
        var nl := IndexOfNewline(buf);
        if nl < 0 {
          ScanOneLine("", buf);
          assert "" + buf == buf;
          return;
        }
        ghost var start := View();
        var raw := TakeLine(nl);
        FoldAppend(Stepper(decode), start, [raw], Scan("", buf).lines);
        Line(raw);
      }
    }

    method TakeLine(nl: nat) returns (raw: string)
      requires nl == IndexOfNewline(buf)
      modifies this`buf
      ensures |buf| < |old(buf)|
      ensures Scan("", old(buf)) == Cut([raw] + Scan("", buf).lines, Scan("", buf).rest)
    {
      ScanAtNewline(buf, nl);
      raw := buf[..nl];
      buf := buf[nl + 1..];
    }
  }

  // ---------- chunking does not matter ----------

  lemma {:induction false} ScanOneLine(open: string, s: string)
    requires OneLine(s)
    ensures Scan(open, s) == Cut([], open + s)
    decreases |s|
  {
    if s == "" {
      assert open + s == open;
    } else {
      ScanOneLine(open, s[..|s| - 1]);
      assert open + s[..|s| - 1] + [s[|s| - 1]] == open + s;
    }
  }

  /** Reading a text in two parts is reading it at once. */
  lemma {:induction false} ScanAppend(open: string, s: string, t: string)
    ensures Scan(open, s + t) == Cut(Scan(open, s).lines + Scan(Scan(open, s).rest, t).lines,
                                     Scan(Scan(open, s).rest, t).rest)
    decreases |t|
  {
    if t == "" {
      assert s + t == s;
    } else {
      ScanAppend(open, s, t[..|t| - 1]);
      assert (s + t)[..|s + t| - 1] == s + t[..|t| - 1];
    }
  }

  lemma ScanLine(line: string, rest: string)
    requires OneLine(line)
    ensures Scan("", line + "\n" + rest) == Cut([line] + Scan("", rest).lines, Scan("", rest).rest)
  {
    ScanOneLine("", line);
    assert "" + line == line;
    ScanAppend("", line, "\n");
    assert Scan(line, "\n") == Cut([line], "") by {
      assert "\n"[..0] == "";
    }
    assert Scan("", line + "\n") == Cut([line], "");
    ScanAppend("", line + "\n", rest);
  }

  lemma ScanAtNewline(s: string, nl: nat)
    requires nl < |s| && s[nl] == '\n' && forall i | 0 <= i < nl :: s[i] != '\n'
    ensures Scan("", s) == Cut([s[..nl]] + Scan("", s[nl + 1..]).lines, Scan("", s[nl + 1..]).rest)
  {
    assert s == s[..nl] + "\n" + s[nl + 1..];
    ScanLine(s[..nl], s[nl + 1..]);
  }

  lemma OneLineFold(decode: Decoder, p: Parser, raw: string)
    ensures OnLines(decode, p, [raw]) == OnLine(decode, p, raw)
  {
    OnLinesStep(decode, p, [], raw);
    assert [] + [raw] == [raw];
  }

  lemma OnLinesStep(decode: Decoder, p: Parser, lines: seq<string>, line: string)
    ensures OnLines(decode, p, lines + [line]) == OnLine(decode, OnLines(decode, p, lines), line)
  {
    assert (lines + [line])[..|lines|] == lines;
  }

  lemma {:induction false} FoldAppend<S>(step: (S, string) -> S, s: S, xs: seq<string>, ys: seq<string>)
    ensures Fold(step, s, xs + ys) == Fold(step, Fold(step, s, xs), ys)
    decreases |ys|
  {
    if ys == [] {
      assert xs + ys == xs;
    } else {
      FoldAppend(step, s, xs, ys[..|ys| - 1]);
      assert (xs + ys)[..|xs + ys| - 1] == xs + ys[..|ys| - 1];
    }
  }

  /** How many chunks are read before one does not fit behind what is left of the earlier text. */
  function Accepted(rest: string, chunks: seq<string>): (n: nat)
    ensures n <= |chunks|
    decreases |chunks|
  {
    if chunks == [] || |rest + chunks[0]| > MAX_BUF then 0
    else 1 + Accepted(Scan("", rest + chunks[0]).rest, chunks[1..])
  }

  /** The buffer never overflows. */
  predicate Fits(rest: string, chunks: seq<string>) {
    Accepted(rest, chunks) == |chunks|
  }

  lemma {:induction false} RestIsOneLine(open: string, s: string)
    requires OneLine(open)
    ensures OneLine(Scan(open, s).rest)
    decreases |s|
  {
    if s != "" {
      RestIsOneLine(open, s[..|s| - 1]);
    }
  }

  lemma ScanResume(text: string, tail: string)
    ensures var cut := Scan("", text);
            var more := Scan("", cut.rest + tail);
            Scan("", text + tail) == Cut(cut.lines + more.lines, more.rest)
  {
    var cut := Scan("", text);
    ScanAppend("", text, tail);
    RestIsOneLine("", text);
    ScanOneLine("", cut.rest);
    assert "" + cut.rest == cut.rest;
    ScanAppend("", cut.rest, tail);
    assert [] + Scan(cut.rest, tail).lines == Scan(cut.rest, tail).lines;
  }

  /** What a client that never overflows holds after reading `text` behind its buffer. */
  function Whole(decode: Decoder, c: Client, text: string): Client {
    var cut := Scan("", c.buf + text);
    Client(cut.rest, OnLines(decode, c.parser, cut.lines))
  }

  lemma WholeAppend(decode: Decoder, c: Client, s: string, t: string)
    ensures Whole(decode, Whole(decode, c, s), t) == Whole(decode, c, s + t)
  {
    var cut := Scan("", c.buf + s);
    var more := Scan("", cut.rest + t);
    ScanResume(c.buf + s, t);
    assert c.buf + s + t == c.buf + (s + t);
    assert Scan("", c.buf + (s + t)) == Cut(cut.lines + more.lines, more.rest);
    FoldAppend(Stepper(decode), c.parser, cut.lines, more.lines);
  }

  lemma WholeOfNothing(decode: Decoder, c: Client)
    requires OneLine(c.buf)
    ensures Whole(decode, c, "") == c
  {
    ScanOneLine("", c.buf);
    assert c.buf + "" == c.buf && "" + c.buf == c.buf;
  }

  /** However the text is cut, the client ends as if it had read the accepted chunks at once: all
      of them exactly when Fits holds; otherwise the overflow has ended it, with what those
      chunks delivered. */
  lemma {:induction false} ChunkingIsInvisible(decode: Decoder, c: Client, chunks: seq<string>)
    requires OneLine(c.buf)
    ensures var whole := Whole(decode, c, Concat(chunks[..Accepted(c.buf, chunks)]));
            FeedAll(decode, c, chunks) ==
            if Fits(c.buf, chunks) then Open(whole) else Overflowed(whole.parser.delivered)
    decreases |chunks|
  {
    WholeOfNothing(decode, c);
    if chunks != [] && |c.buf + chunks[0]| <= MAX_BUF {
      var next, n := Whole(decode, c, chunks[0]), Accepted(c.buf, chunks);
      RestIsOneLine("", c.buf + chunks[0]);
      ChunkingIsInvisible(decode, next, chunks[1..]);
      assert chunks[..n][1..] == chunks[1..][..n - 1];
      WholeAppend(decode, c, chunks[0], Concat(chunks[1..][..n - 1]));
    }
  }

  // ---------- when the buffer is certain to suffice ----------

  /** Every line, the unfinished last one included, has at most n characters. */
  ghost predicate LinesWithin(s: string, n: nat) {
    |Scan("", s).rest| <= n && forall line | line in Scan("", s).lines :: |line| <= n
  }

  /** An unfinished line is a prefix of the line it becomes. */
  lemma {:induction false} OpenLineGrows(open: string, tail: string)
    ensures var cut := Scan(open, tail);
            if cut.lines == [] then |open| <= |cut.rest| else |open| <= |cut.lines[0]|
    decreases |tail|
  {
    if tail != "" {
      OpenLineGrows(open, tail[..|tail| - 1]);
    }
  }

  lemma RestWithin(s: string, tail: string, n: nat)
    requires LinesWithin(s + tail, n)
    ensures |Scan("", s).rest| <= n && LinesWithin(Scan("", s).rest + tail, n)
  {
    ScanResume(s, tail);
    ScanAppend("", s, tail);
    OpenLineGrows(Scan("", s).rest, tail);
  }

  /** Lines of at most n characters and chunks of at most 1 MiB - n never overflow. */
  lemma {:induction false} ShortLinesFit(rest: string, chunks: seq<string>, n: nat)
    requires n <= MAX_BUF && |rest| <= n
    requires LinesWithin(rest + Concat(chunks), n)
    requires forall k | 0 <= k < |chunks| :: |chunks[k]| <= MAX_BUF - n
    ensures Fits(rest, chunks)
    decreases |chunks|
  {
    if chunks != [] {
      var tail := Concat(chunks[1..]);
      assert rest + Concat(chunks) == (rest + chunks[0]) + tail;
      RestWithin(rest + chunks[0], tail, n);
      ShortLinesFit(Scan("", rest + chunks[0]).rest, chunks[1..], n);
    }
  }

  // ---------- the writer ----------

  datatype Item = Connected | Keepalive | Frame(ev: Event)

  /** json.Encoder on an event: one line, since it escapes control characters. */
  type Encoder = Event -> string

  /** The payload never goes out on the live tail. */
  function Summary(ev: Event): Event {
    ev.(payload := None)
  }

  /** The decoder inverts the encoder on the events that are written, those without a payload. */
  ghost predicate RoundTrips(encode: Encoder, decode: Decoder) {
    forall ev: Event | ev.payload.None? ::
      OneLine(encode(ev)) && '\r' !in encode(ev) && encode(ev) != "" && decode(encode(ev)) == Some(ev)
  }

  function Write(encode: Encoder, item: Item): string {
    match item
    case Connected => ": connected\n\n"
    case Keepalive => ": keepalive\n\n"
    case Frame(ev) => "event: audit\ndata: " + encode(Summary(ev)) + "\n" + "\n"
  }

  function Output(encode: Encoder, items: seq<Item>): string {
    if items == [] then "" else Write(encode, items[0]) + Output(encode, items[1..])
  }

  /** The frames a client must deliver: those whose event has an id, whole but for the payload. */
  function Deliverable(items: seq<Item>): seq<Event> {
    if items == [] then []
    else
      (if items[0].Frame? && items[0].ev.id != "" then [items[0].ev.(payload := None)] else [])
      + Deliverable(items[1..])
  }

  function ItemLines(encode: Encoder, item: Item): seq<string> {
    match item
    case Connected => [": connected", ""]
    case Keepalive => [": keepalive", ""]
    case Frame(ev) => ["event: audit", "data: " + encode(Summary(ev)), ""]
  }

  lemma Prepend(line: string, rest: string, text: string, lines: seq<string>)
    requires OneLine(line) && text == line + "\n" + rest
    requires Scan("", rest).lines == lines
    ensures Scan("", text).lines == [line] + lines && Scan("", text).rest == Scan("", rest).rest
  {
    ScanLine(line, rest);
  }

  lemma WrittenComment(line: string, rest: string, text: string)
    requires OneLine(line) && text == line + "\n\n" + rest
    ensures Scan("", text).lines == [line, ""] + Scan("", rest).lines && Scan("", text).rest == Scan("", rest).rest
  {
    var lines := Scan("", rest).lines;
    var blank := "\n" + rest;
    assert blank == "" + "\n" + rest;
    Prepend("", rest, blank, lines);
    assert text == line + "\n" + blank;
    Prepend(line, blank, text, [""] + lines);
    assert [line] + ([""] + lines) == [line, ""] + lines;
  }

  lemma WrittenFrame(data: string, rest: string, text: string)
    requires OneLine(data) && text == "event: audit\n" + (data + "\n\n" + rest)
    ensures Scan("", text).lines == ["event: audit", data, ""] + Scan("", rest).lines
    ensures Scan("", text).rest == Scan("", rest).rest
  {
    var lines := Scan("", rest).lines;
    var tail := data + "\n\n" + rest;
    WrittenComment(data, rest, tail);
    var head := "event: audit";
    assert head + "\n" == "event: audit\n";
    Prepend(head, tail, text, [data, ""] + lines);
    assert [head] + ([data, ""] + lines) == [head, data, ""] + lines;
  }

  lemma WrittenLines(encode: Encoder, item: Item, rest: string)
    requires item.Frame? ==> OneLine(encode(Summary(item.ev)))
    ensures Scan("", Write(encode, item) + rest).lines == ItemLines(encode, item) + Scan("", rest).lines
    ensures Scan("", Write(encode, item) + rest).rest == Scan("", rest).rest
  {
    var text := Write(encode, item) + rest;
    match item
    case Connected =>
      assert text == ": connected" + "\n\n" + rest;
      WrittenComment(": connected", rest, text);
    case Keepalive =>
      assert text == ": keepalive" + "\n\n" + rest;
      WrittenComment(": keepalive", rest, text);
    case Frame(ev) =>
      var data := "data: " + encode(Summary(ev));
      WriteFrame(encode, ev, rest);
      WrittenFrame(data, rest, text);
  }

  lemma WriteFrame(encode: Encoder, ev: Event, rest: string)
    ensures Write(encode, Frame(ev)) + rest == "event: audit\n" + ("data: " + encode(Summary(ev)) + "\n\n" + rest)
  {
  }

  lemma TwoLines(decode: Decoder, p: Parser, a: string, b: string)
    ensures OnLines(decode, p, [a, b]) == OnLine(decode, OnLine(decode, p, a), b)
  {
    OnLinesStep(decode, p, [], a);
    OnLinesStep(decode, p, [a], b);
    assert [] + [a] == [a] && [a] + [b] == [a, b];
  }

  lemma ThreeLines(decode: Decoder, p: Parser, a: string, b: string, c: string)
    ensures OnLines(decode, p, [a, b, c]) == OnLine(decode, OnLine(decode, OnLine(decode, p, a), b), c)
  {
    TwoLines(decode, p, a, b);
    OnLinesStep(decode, p, [a, b], c);
    assert [a, b] + [c] == [a, b, c];
  }

  lemma DataLine(decode: Decoder, p: Parser, json: string)
    requires json != "" && json[|json| - 1] != '\r' && p.data == ""
    ensures OnLine(decode, p, "data: " + json) == p.(data := json)
  {
    var line := "data: " + json;
    assert line[|line| - 1] == json[|json| - 1];
    assert StripCr(line) == line;
    assert line[0] == 'd' && "data:" <= line;
    assert line[5..] == " " + json && StripSpace(line[5..]) == json;
  }

  lemma EventLine(decode: Decoder, p: Parser)
    ensures OnLine(decode, p, "event: audit") == p.(event := "audit")
  {
    var line := "event: audit";
    assert StripCr(line) == line && line[0] == 'e' && "event:" <= line;
    assert line[6..] == " audit" && " audit"[1..] == "audit";
  }

  lemma DeliverableOne(item: Item)
    ensures Deliverable([item]) == if item.Frame? && item.ev.id != "" then [item.ev.(payload := None)] else []
  {
    var tail := [item][1..];
    assert tail == [] && Deliverable(tail) == [];
  }

  lemma ParseComment(decode: Decoder, p: Parser, line: string)
    requires line != "" && line[0] == ':' && line[|line| - 1] != '\r' && Idle(p)
    ensures OnLines(decode, p, [line, ""]) == p
  {
    TwoLines(decode, p, line, "");
    assert OnLine(decode, p, line) == p;
    assert p.delivered + [] == p.delivered;
  }

  lemma DispatchFrame(encode: Encoder, decode: Decoder, q: Parser, ev: Event)
    requires RoundTrips(encode, decode) && q.event == "audit" && q.data == encode(Summary(ev))
    ensures OnLine(decode, q, "") == Parser("", "", q.delivered + Deliverable([Frame(ev)]))
  {
    DeliverableOne(Frame(ev));
    assert decode(encode(Summary(ev))) == Some(Summary(ev));
  }

  lemma ParseFrame(encode: Encoder, decode: Decoder, p: Parser, ev: Event)
    requires RoundTrips(encode, decode) && Idle(p)
    ensures OnLines(decode, p, ItemLines(encode, Frame(ev))) == Deliver(p, [Frame(ev)])
  {
    var json := encode(Summary(ev));
    ThreeLines(decode, p, "event: audit", "data: " + json, "");
    EventLine(decode, p);
    DataLine(decode, p.(event := "audit"), json);
    DispatchFrame(encode, decode, p.(event := "audit", data := json), ev);
  }

  lemma ParseItem(encode: Encoder, decode: Decoder, p: Parser, item: Item)
    requires RoundTrips(encode, decode) && Idle(p)
    ensures OnLines(decode, p, ItemLines(encode, item)) == Deliver(p, [item])
  {
    if item.Frame? {
      ParseFrame(encode, decode, p, item.ev);
    } else {
      DeliverableOne(item);
      assert Deliver(p, [item]).delivered == p.delivered;
      ParseComment(decode, p, if item.Connected? then ": connected" else ": keepalive");
    }
  }

  function OutputLines(render: Item -> seq<string>, items: seq<Item>): seq<string> {
    if items == [] then [] else render(items[0]) + OutputLines(render, items[1..])
  }

  function Renderer(encode: Encoder): Item -> seq<string> {
    item => ItemLines(encode, item)
  }

  lemma {:induction false} ScanOutput(encode: Encoder, items: seq<Item>)
    requires forall ev: Event | ev.payload.None? :: OneLine(encode(ev))
    ensures Scan("", Output(encode, items)).lines == OutputLines(Renderer(encode), items)
    ensures Scan("", Output(encode, items)).rest == ""
    decreases |items|
  {
    if items != [] {
      ScanOutput(encode, items[1..]);
      WrittenLines(encode, items[0], Output(encode, items[1..]));
    }
  }

  predicate Idle(p: Parser) {
    p.event == "" && p.data == ""
  }

  function Deliver(p: Parser, items: seq<Item>): Parser {
    p.(delivered := p.delivered + Deliverable(items))
  }

  /** A line handler that handles each item's lines handles a whole output. */
  lemma {:induction false} FoldItems(step: (Parser, string) -> Parser, render: Item -> seq<string>, p: Parser,
                                     items: seq<Item>)
    requires forall q, item | Idle(q) :: Fold(step, q, render(item)) == Deliver(q, [item])
    requires Idle(p)
    ensures Fold(step, p, OutputLines(render, items)) == Deliver(p, items)
    decreases |items|
  {
    if items == [] {
      assert p.delivered + [] == p.delivered;
    } else {
      var q := Deliver(p, [items[0]]);
      FoldAppend(step, p, render(items[0]), OutputLines(render, items[1..]));
      FoldItems(step, render, q, items[1..]);
      DeliverMore(p, items);
    }
  }

  lemma DeliverMore(p: Parser, items: seq<Item>)
    requires items != []
    ensures Deliver(Deliver(p, [items[0]]), items[1..]) == Deliver(p, items)
  {
    DeliverableCons(items);
    assert p.delivered + Deliverable([items[0]]) + Deliverable(items[1..]) == p.delivered + Deliverable(items);
  }

  lemma WholeOutput(encode: Encoder, decode: Decoder, items: seq<Item>)
    requires RoundTrips(encode, decode)
    ensures Whole(decode, Client("", Fresh), Output(encode, items)) == Client("", Deliver(Fresh, items))
  {
    ScanOutput(encode, items);
    assert "" + Output(encode, items) == Output(encode, items);
    forall q, item | Idle(q) ensures Fold(Stepper(decode), q, Renderer(encode)(item)) == Deliver(q, [item]) {
      ParseItem(encode, decode, q, item);
    }
    FoldItems(Stepper(decode), Renderer(encode), Fresh, items);
  }

  lemma DeliverableCons(items: seq<Item>)
    requires items != []
    ensures Deliverable(items) == Deliverable([items[0]]) + Deliverable(items[1..])
  {
    DeliverableOne(items[0]);
  }

  // ---------- any point of the stream ----------

  /** How many whole pieces lie within the first `len` characters of their concatenation. */
  function Complete(pieces: seq<string>, len: nat): (n: nat)
    ensures n <= |pieces|
    decreases |pieces|
  {
    if pieces == [] || len < |pieces[0]| then 0 else 1 + Complete(pieces[1..], len - |pieces[0]|)
  }

  lemma PrefixOfSum(text: string, w: string, rest: string)
    requires text <= w + rest && |w| <= |text|
    ensures text == w + text[|w|..] && text[|w|..] <= rest
  {
    assert text == (w + rest)[..|text|];
  }

  lemma ConcatFirst(pieces: seq<string>, n: nat)
    requires 0 < n <= |pieces|
    ensures Concat(pieces[..n]) == pieces[0] + Concat(pieces[1..][..n - 1])
  {
    assert pieces[..n][1..] == pieces[1..][..n - 1];
  }

  /** text is the first n pieces and a proper part of the next one. */
  ghost predicate SplitsAt(pieces: seq<string>, text: string, n: nat, part: string) {
    && n <= |pieces| && text == Concat(pieces[..n]) + part
    && (if n == |pieces| then part == "" else part < pieces[n])
  }

  lemma SplitsLater(pieces: seq<string>, text: string, n: nat, part: string)
    requires pieces != [] && SplitsAt(pieces[1..], text, n, part)
    ensures SplitsAt(pieces, pieces[0] + text, n + 1, part)
  {
    ConcatFirst(pieces, n + 1);
    assert pieces[0] + (Concat(pieces[1..][..n]) + part) == pieces[0] + Concat(pieces[1..][..n]) + part;
  }

  lemma {:induction false} PrefixSplits(pieces: seq<string>, text: string) returns (part: string)
    requires text <= Concat(pieces)
    ensures SplitsAt(pieces, text, Complete(pieces, |text|), part)
    decreases |pieces|
  {
    if pieces == [] {
      part := "";
    } else if |text| < |pieces[0]| {
      part := text;
      assert pieces[..0] == [] && "" + text == text;
    } else {
      PrefixOfSum(text, pieces[0], Concat(pieces[1..]));
      part := PrefixSplits(pieces[1..], text[|pieces[0]|..]);
      SplitsLater(pieces, text[|pieces[0]|..], Complete(pieces, |text|) - 1, part);
    }
  }

  function Pieces(encode: Encoder, items: seq<Item>): (r: seq<string>)
    ensures |r| == |items| && forall i | 0 <= i < |items| :: r[i] == Write(encode, items[i])
  {
    seq(|items|, i requires 0 <= i < |items| => Write(encode, items[i]))
  }

  lemma {:induction false} OutputIsPieces(encode: Encoder, items: seq<Item>)
    ensures Output(encode, items) == Concat(Pieces(encode, items))
    decreases |items|
  {
    if items != [] {
      OutputIsPieces(encode, items[1..]);
      assert Pieces(encode, items)[1..] == Pieces(encode, items[1..]);
    }
  }

  /** How many items lie within the first `len` characters of the output. */
  function Received(encode: Encoder, items: seq<Item>, len: nat): (n: nat)
    ensures n <= |items|
  {
    Complete(Pieces(encode, items), len)
  }

  lemma OutputSplits(encode: Encoder, items: seq<Item>, text: string) returns (part: string)
    requires text <= Output(encode, items)
    ensures var n := Received(encode, items, |text|);
            && text == Output(encode, items[..n]) + part
            && (if n == |items| then part == "" else part < Write(encode, items[n]))
  {
    var pieces, n := Pieces(encode, items), Received(encode, items, |text|);
    OutputIsPieces(encode, items);
    part := PrefixSplits(pieces, text);
    assert pieces[..n] == Pieces(encode, items[..n]);
    OutputIsPieces(encode, items[..n]);
  }

  ghost predicate NoBlank(lines: seq<string>) {
    forall i | 0 <= i < |lines| :: StripCr(lines[i]) != ""
  }

  lemma {:induction false} NoBlankNoDelivery(decode: Decoder, p: Parser, lines: seq<string>)
    requires NoBlank(lines)
    ensures OnLines(decode, p, lines).delivered == p.delivered
    decreases |lines|
  {
    if lines != [] {
      var front, last := lines[..|lines| - 1], lines[|lines| - 1];
      NoBlankNoDelivery(decode, p, front);
      assert lines == front + [last];
      OnLinesStep(decode, p, front, last);
    }
  }

  lemma ItemLinesEndBlank(encode: Encoder, item: Item)
    ensures var lines := ItemLines(encode, item);
            NoBlank(lines[..|lines| - 1])
  {
    var lines := ItemLines(encode, item);
    forall i | 0 <= i < |lines| - 1 ensures StripCr(lines[i]) != "" {
      assert |lines[i]| >= 2;
    }
  }

  /** The lines of a proper prefix of a terminated text stop before its last line. */
  lemma LinesOfPart(text: string, part: string)
    requires part < text && text[|text| - 1] == '\n'
    ensures |Scan("", part).lines| < |Scan("", text).lines| && Scan("", part).lines <= Scan("", text).lines
  {
    var tail := text[|part|..];
    assert text == part + tail && tail[|tail| - 1] == '\n';
    ScanAppend("", part, tail);
  }

  /** A part of an item has no blank line yet. */
  lemma PartHasNoBlank(encode: Encoder, item: Item, part: string)
    requires item.Frame? ==> OneLine(encode(Summary(item.ev)))
    requires part < Write(encode, item)
    ensures NoBlank(Scan("", part).lines)
  {
    var text, lines := Write(encode, item), ItemLines(encode, item);
    WrittenLines(encode, item, "");
    assert text + "" == text && lines + [] == lines;
    LinesOfPart(text, part);
    ItemLinesEndBlank(encode, item);
    var head := Scan("", part).lines;
    forall i | 0 <= i < |head| ensures StripCr(head[i]) != "" {
      assert head[i] == lines[..|lines| - 1][i];
    }
  }

  /** After any prefix of the output, exactly the frames received in full are delivered. */
  lemma PrefixDelivers(encode: Encoder, decode: Decoder, items: seq<Item>, text: string)
    requires RoundTrips(encode, decode) && text <= Output(encode, items)
    ensures Whole(decode, Client("", Fresh), text).parser.delivered
         == Deliverable(items[..Received(encode, items, |text|)])
  {
    var n, start := Received(encode, items, |text|), Client("", Fresh);
    var part := OutputSplits(encode, items, text);
    WholeOutput(encode, decode, items[..n]);
    var c := Whole(decode, start, Output(encode, items[..n]));
    assert c.parser.delivered == Deliverable(items[..n]);
    WholeAppend(decode, start, Output(encode, items[..n]), part);
    assert "" + part == part;
    if n < |items| {
      PartHasNoBlank(encode, items[n], part);
    }
    NoBlankNoDelivery(decode, c.parser, Scan("", part).lines);
  }

  function DeliveredBy(o: Outcome): seq<Event> {
    if o.Open? then o.client.parser.delivered else o.delivered
  }

  lemma {:induction false} ConcatPrefix(chunks: seq<string>, n: nat)
    requires n <= |chunks|
    ensures Concat(chunks[..n]) <= Concat(chunks)
    decreases n
  {
    if n > 0 {
      ConcatPrefix(chunks[1..], n - 1);
      assert chunks[..n][1..] == chunks[1..][..n - 1];
    }
  }

  /** Whatever the server has written so far and however the network cut it, the client has
      delivered exactly the frames with an id that it received in full, in order. An overflow
      ends the stream with those of the chunks before it. */
  lemma ClientInvertsServer(encode: Encoder, decode: Decoder, items: seq<Item>, chunks: seq<string>)
    requires RoundTrips(encode, decode) && Concat(chunks) <= Output(encode, items)
    ensures var text := Concat(chunks[..Accepted("", chunks)]);
            DeliveredBy(FeedAll(decode, Client("", Fresh), chunks))
            == Deliverable(items[..Received(encode, items, |text|)])
  {
    var n := Accepted("", chunks);
    ChunkingIsInvisible(decode, Client("", Fresh), chunks);
    ConcatPrefix(chunks, n);
    PrefixDelivers(encode, decode, items, Concat(chunks[..n]));
  }

  /** In particular a client that read the whole output without an overflow has delivered them
      all, and holds no unfinished line or frame. */
  lemma WholeStreamIsDelivered(encode: Encoder, decode: Decoder, items: seq<Item>, chunks: seq<string>)
    requires RoundTrips(encode, decode)
    requires Concat(chunks) == Output(encode, items) && Fits("", chunks)
    ensures FeedAll(decode, Client("", Fresh), chunks) == Open(Client("", Parser("", "", Deliverable(items))))
  {
    ChunkingIsInvisible(decode, Client("", Fresh), chunks);
    assert chunks[..|chunks|] == chunks;
    WholeOutput(encode, decode, items);
    assert Deliver(Fresh, items).delivered == Deliverable(items);
  }

  // ---------- any block of lines, as the standard describes it ----------

  /** The value of a line of the given field: what follows the colon, without one leading space. */
  function ValueOf(name: string, raw: string): Option<string> {
    var line := if raw != "" && raw[|raw| - 1] == '\r' then raw[..|raw| - 1] else raw;
    if !(name + ":" <= line) then None
    else
      var value := line[|name| + 1..];
      Some(if value != "" && value[0] == ' ' then value[1..] else value)
  }

  /** The values of all the lines of one field. */
  function Values(name: string, lines: seq<string>): seq<string> {
    if lines == [] then []
    else
      var v := ValueOf(name, lines[|lines| - 1]);
      Values(name, lines[..|lines| - 1]) + (if v.Some? then [v.value] else [])
  }

  /** The last value. */
  function EventOf(lines: seq<string>): string {
    var vs := Values("event", lines);
    if vs == [] then "" else vs[|vs| - 1]
  }

  function JoinLines(vs: seq<string>): string {
    if vs == [] then "" else if |vs| == 1 then vs[0] else vs[0] + "\n" + JoinLines(vs[1..])
  }

  /** All values on lines of their own, leading empty ones left out. */
  function JoinData(vs: seq<string>): string {
    if vs == [] then "" else if vs[0] == "" then JoinData(vs[1..]) else JoinLines(vs)
  }

  function DataOf(lines: seq<string>): string {
    JoinData(Values("data", lines))
  }

  lemma {:induction false} JoinLinesMore(vs: seq<string>, v: string)
    requires vs != []
    ensures JoinLines(vs + [v]) == JoinLines(vs) + "\n" + v
    decreases |vs|
  {
    assert (vs + [v])[1..] == vs[1..] + [v];
    if |vs| > 1 {
      JoinLinesMore(vs[1..], v);
      assert vs[0] + "\n" + (JoinLines(vs[1..]) + "\n" + v) == vs[0] + "\n" + JoinLines(vs[1..]) + "\n" + v;
    } else {
      assert [v][1..] == [] && JoinLines([v]) == v;
    }
  }

  lemma {:induction false} JoinDataMore(vs: seq<string>, v: string)
    ensures JoinData(vs + [v]) == if JoinData(vs) != "" then JoinData(vs) + "\n" + v else v
    decreases |vs|
  {
    if vs == [] {
      assert vs + [v] == [v] && [v][1..] == [];
    } else if vs[0] == "" {
      assert (vs + [v])[1..] == vs[1..] + [v];
      JoinDataMore(vs[1..], v);
    } else {
      JoinLinesMore(vs, v);
    }
  }

  lemma OneField(decode: Decoder, p: Parser, raw: string)
    requires StripCr(raw) != ""
    ensures var e, d, q := ValueOf("event", raw), ValueOf("data", raw), OnLine(decode, p, raw);
            && q.event == (if e.Some? then e.value else p.event)
            && q.data == (if d.None? then p.data else if p.data != "" then p.data + "\n" + d.value else d.value)
            && q.delivered == p.delivered
  {
    var line := StripCr(raw);
    assert "event" + ":" == "event:" && "data" + ":" == "data:";
    if "event:" <= line {
      assert line[0] == 'e';
    }
    if "data:" <= line {
      assert line[0] == 'd';
    }
  }

  lemma ValuesMore(name: string, lines: seq<string>, raw: string)
    ensures Values(name, lines + [raw])
         == if ValueOf(name, raw).Some? then Values(name, lines) + [ValueOf(name, raw).value] else Values(name, lines)
  {
    assert (lines + [raw])[..|lines|] == lines;
  }

  lemma {:induction false} FieldsOfABlock(decode: Decoder, p: Parser, lines: seq<string>)
    requires Idle(p) && NoBlank(lines)
    ensures OnLines(decode, p, lines) == Parser(EventOf(lines), DataOf(lines), p.delivered)
    decreases |lines|
  {
    if lines != [] {
      var front, last := lines[..|lines| - 1], lines[|lines| - 1];
      assert lines == front + [last];
      FieldsOfABlock(decode, p, front);
      OnLinesStep(decode, p, front, last);
      OneField(decode, OnLines(decode, p, front), last);
      ValuesMore("event", front, last);
      ValuesMore("data", front, last);
      var v := ValueOf("data", last);
      if v.Some? {
        JoinDataMore(Values("data", front), v.value);
      }
    }
  }

  /** A block of lines ended by a blank one delivers its data exactly when its last event line says
      "audit" and the data decodes to an event with an id; other fields and comments are ignored. */
  lemma BlockIsDelivered(decode: Decoder, p: Parser, lines: seq<string>)
    requires Idle(p) && NoBlank(lines)
    ensures var data := DataOf(lines);
            var ok := EventOf(lines) == "audit" && data != "" && decode(data).Some? && decode(data).value.id != "";
            OnLines(decode, p, lines + [""])
            == Parser("", "", p.delivered + (if ok then [decode(data).value] else []))
  {
    FieldsOfABlock(decode, p, lines);
    OnLinesStep(decode, p, lines, "");
  }

  // ---------- encoders that round-trip exist ----------

  function TextCode(s: string): (r: seq<nat>)
    ensures |r| == 1 + |s| && r[0] == |s| && forall i | 0 <= i < |s| :: r[1 + i] == s[i] as int
  {
    [|s|] + seq(|s|, i requires 0 <= i < |s| => s[i] as int)
  }

  function IntCode(n: int): nat {
    if n >= 0 then 2 * n else -2 * n - 1
  }

  /** Every field of an event but its payload, each text behind its length. */
  function Code(ev: Event): seq<nat> {
    [IntCode(ev.ts), IntCode(ev.durationMs), if ev.success then 1 else 0]
    + (TextCode(ev.id) + (TextCode(ev.sessionId) + (TextCode(ev.userSubject)
    + (TextCode(ev.authType) + (TextCode(ev.toolName) + (TextCode(ev.errorMessage) + []))))))
  }

  lemma TextCodeSplits(s: string, t: string, x: seq<nat>, y: seq<nat>)
    requires TextCode(s) + x == TextCode(t) + y
    ensures s == t && x == y
  {
    var a, b := TextCode(s) + x, TextCode(t) + y;
    assert a[0] == |s| && b[0] == |t|;
    forall i | 0 <= i < |s| ensures s[i] == t[i] {
      assert a[1 + i] == s[i] as int && b[1 + i] == t[i] as int;
    }
    assert x == a[1 + |s|..] && y == b[1 + |t|..];
  }

  lemma CodeIsInjective(ev: Event, other: Event)
    requires ev.payload.None? && other.payload.None? && Code(ev) == Code(other)
    ensures ev == other
  {
    var none: seq<nat> := [];
    var e5, o5 := TextCode(ev.errorMessage) + none, TextCode(other.errorMessage) + none;
    var e4, o4 := TextCode(ev.toolName) + e5, TextCode(other.toolName) + o5;
    var e3, o3 := TextCode(ev.authType) + e4, TextCode(other.authType) + o4;
    var e2, o2 := TextCode(ev.userSubject) + e3, TextCode(other.userSubject) + o3;
    var e1, o1 := TextCode(ev.sessionId) + e2, TextCode(other.sessionId) + o2;
    var e, o := Code(ev), Code(other);
    assert e[0] == o[0] && e[1] == o[1] && e[2] == o[2];
    assert e[3..] == TextCode(ev.id) + e1 && o[3..] == TextCode(other.id) + o1;
    TextCodeSplits(ev.id, other.id, e1, o1);
    TextCodeSplits(ev.sessionId, other.sessionId, e2, o2);
    TextCodeSplits(ev.userSubject, other.userSubject, e3, o3);
    TextCodeSplits(ev.authType, other.authType, e4, o4);
    TextCodeSplits(ev.toolName, other.toolName, e5, o5);
    TextCodeSplits(ev.errorMessage, other.errorMessage, none, none);
  }

  /** n in unary. */
  function Mark(n: nat): (r: string)
    ensures |r| == n + 1 && r[n] == '.' && forall i | 0 <= i < n :: r[i] == '1'
  {
    if n == 0 then "." else "1" + Mark(n - 1)
  }

  function Marks(ns: seq<nat>): string {
    if ns == [] then "" else Mark(ns[0]) + Marks(ns[1..])
  }

  lemma {:induction false} MarksAreInjective(xs: seq<nat>, ys: seq<nat>)
    requires Marks(xs) == Marks(ys)
    ensures xs == ys
    decreases |xs|
  {
    if xs != [] && ys != [] {
      var s, t := Mark(xs[0]) + Marks(xs[1..]), Mark(ys[0]) + Marks(ys[1..]);
      assert s[xs[0]] == t[xs[0]] && s[ys[0]] == t[ys[0]];
      assert Marks(xs[1..]) == s[xs[0] + 1..] && Marks(ys[1..]) == t[ys[0] + 1..];
      MarksAreInjective(xs[1..], ys[1..]);
      assert xs == [xs[0]] + xs[1..] && ys == [ys[0]] + ys[1..];
    }
  }

  lemma {:induction false} MarksAreOneLine(ns: seq<nat>)
    ensures OneLine(Marks(ns)) && '\r' !in Marks(ns) && (ns != [] ==> Marks(ns) != "")
  {
    if ns != [] {
      MarksAreOneLine(ns[1..]);
    }
  }

  ghost predicate Encodes(ev: Event, s: string) {
    ev.payload.None? && Marks(Code(ev)) == s
  }

  ghost function Decoded(s: string): Option<Event> {
    if ev :| Encodes(ev, s) then Some(ev) else None
  }

  /** Some encoder and decoder meet RoundTrips: events without payloads have a one-line code. */
  lemma EncoderExists() returns (encode: Encoder, decode: Decoder)
    ensures RoundTrips(encode, decode)
  {
    encode, decode := ev => Marks(Code(ev)), s => Decoded(s);
    forall ev: Event | ev.payload.None?
      ensures OneLine(encode(ev)) && '\r' !in encode(ev) && encode(ev) != "" && decode(encode(ev)) == Some(ev)
    {
      MarksAreOneLine(Code(ev));
      assert Encodes(ev, encode(ev));
      var other := Decoded(encode(ev)).value;
      MarksAreInjective(Code(ev), Code(other));
      CodeIsInjective(ev, other);
    }
  }

  // ---------- CRLF ----------

  function WithCrlf(s: string): string {
    if s == "" then "" else (if s[0] == '\n' then "\r\n" else [s[0]]) + WithCrlf(s[1..])
  }

  lemma {:induction false} WithCrlfConcat(a: string, b: string)
    ensures WithCrlf(a + b) == WithCrlf(a) + WithCrlf(b)
  {
    if a == "" {
      assert a + b == b;
    } else {
      assert (a + b)[1..] == a[1..] + b;
      WithCrlfConcat(a[1..], b);
    }
  }

  lemma {:induction false} WithCrlfOfLine(a: string)
    requires OneLine(a)
    ensures WithCrlf(a) == a
  {
    if a != "" {
      WithCrlfOfLine(a[1..]);
      assert a == [a[0]] + a[1..];
    }
  }

  function AddCr(lines: seq<string>): (r: seq<string>)
    ensures |r| == |lines| && forall i | 0 <= i < |lines| :: r[i] == lines[i] + "\r"
  {
    seq(|lines|, i requires 0 <= i < |lines| => lines[i] + "\r")
  }

  lemma CrlfEnd(rest: string)
    ensures WithCrlf("\n" + rest) == "\r\n" + WithCrlf(rest)
  {
    assert ("\n" + rest)[1..] == rest;
  }

  lemma CrJoin(line: string, rest: string)
    ensures line + ("\r\n" + rest) == (line + "\r") + "\n" + rest
  {
  }

  lemma CrlfSplit(text: string, line: string, rest: string)
    requires OneLine(line) && text == line + "\n" + rest
    ensures WithCrlf(text) == (line + "\r") + "\n" + WithCrlf(rest)
  {
    assert text == line + ("\n" + rest);
    WithCrlfConcat(line, "\n" + rest);
    WithCrlfOfLine(line);
    CrlfEnd(rest);
    CrJoin(line, WithCrlf(rest));
  }

  lemma {:induction false} LinesWithCrlf(text: string)
    ensures Scan("", WithCrlf(text)).lines == AddCr(Scan("", text).lines)
    decreases |text|
  {
    var nl := IndexOfNewline(text);
    if nl >= 0 {
      var line, rest := text[..nl], text[nl + 1..];
      ScanAtNewline(text, nl);
      CrlfSplit(text, line, rest);
      ScanLine(line + "\r", WithCrlf(rest));
      LinesWithCrlf(rest);
    } else {
      WithCrlfOfLine(text);
      ScanOneLine("", text);
    }
  }

  lemma CrLineParsesAlike(decode: Decoder, p: Parser, line: string)
    requires line == StripCr(line)
    ensures OnLine(decode, p, line + "\r") == OnLine(decode, p, line)
  {
    assert (line + "\r")[..|line|] == line;
    assert StripCr(line + "\r") == line;
  }

  lemma {:induction false} CrLinesParseAlike(decode: Decoder, p: Parser, lines: seq<string>)
    requires forall line | line in lines :: line == StripCr(line)
    ensures OnLines(decode, p, AddCr(lines)) == OnLines(decode, p, lines)
    decreases |lines|
  {
    if lines != [] {
      var front, last := lines[..|lines| - 1], lines[|lines| - 1];
      assert lines == front + [last] && AddCr(lines) == AddCr(front) + [last + "\r"];
      assert last in lines;
      CrLinesParseAlike(decode, p, front);
      OnLinesStep(decode, p, front, last);
      OnLinesStep(decode, p, AddCr(front), last + "\r");
      CrLineParsesAlike(decode, OnLines(decode, p, front), last);
    }
  }

  lemma {:induction false} LinesOf(open: string, text: string)
    requires '\r' !in open && '\r' !in text
    ensures '\r' !in Scan(open, text).rest
    ensures forall line | line in Scan(open, text).lines :: '\r' !in line
    decreases |text|
  {
    if text != "" {
      LinesOf(open, text[..|text| - 1]);
      assert text[|text| - 1] in text;
    }
  }

  /** A proxy that turns every line end into CRLF changes nothing. */
  lemma CrlfIsInvisible(decode: Decoder, p: Parser, text: string)
    requires '\r' !in text
    ensures OnLines(decode, p, Scan("", WithCrlf(text)).lines) == OnLines(decode, p, Scan("", text).lines)
  {
    LinesWithCrlf(text);
    LinesOf("", text);
    forall line | line in Scan("", text).lines ensures line == StripCr(line) {
      assert line != "" ==> line[|line| - 1] in line;
    }
    CrLinesParseAlike(decode, p, Scan("", text).lines);
  }
}
