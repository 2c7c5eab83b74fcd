/** The event stream on the wire: the server's frames and the client's parser. A character
    stands for a byte. */
module EventStreamText {
  import opened Options
  import opened Text

  const SECOND: int := 1_000_000_000

  /** An event with its attributes as the strings the wire carries. */
  datatype Event = Event(kind: string, at: int, attrs: map<string, string>)

  /** The JSON forms of an event and of an error message. A decoder that answers None fails. */
  datatype Codec = Codec(
    encode: Event -> Option<string>,
    decode: string -> Option<Event>,
    quote: string -> string,
    unquote: string -> Option<string>)

  /** What the other side rebuilds of an event: its time travels in whole seconds. */
  function OnWire(e: Event): (w: Event)
    ensures w.kind == e.kind && w.attrs == e.attrs && w.at % SECOND == 0 && w.at <= e.at < w.at + SECOND
  {
    e.(at := e.at - e.at % SECOND)
  }

  datatype Frame = Frame(kind: string, payload: string)

  /** What the client's scanner can hold of a line, its end included, less that end. */
  const MAX_LINE: nat := 1024 * 1024 - 1

  // The server

  function EventLine(f: Frame): string { "event: " + f.kind }

  function DataLine(f: Frame): string { "data: " + f.payload }

  /** What a frame puts after its event line. */
  function AfterHeader(f: Frame): string { DataLine(f) + ("\n" + ("\n" + "")) }

  function PrintFrame(f: Frame): string { EventLine(f) + ("\n" + AfterHeader(f)) }

  /** The frames of the events that encode; one that does not is only logged. */
  function Print(events: seq<Event>, c: Codec): string {
    if events == [] then "" else PrintEvent(events[0], c) + Print(events[1..], c)
  }

  function PrintEvent(e: Event, c: Codec): string {
    match c.encode(e) case None => "" case Some(p) => PrintFrame(Frame(e.kind, p))
  }

  class Response {
    var body: string

    constructor ()
      ensures body == ""
    {
      body := "";
    }

    method Write(s: string)
      modifies this
      ensures body == old(body) + s
    {
      body := body + s;
    }

    /** The subscription's callback. */
    method WriteEvent(e: Event, c: Codec)
      modifies this
      ensures body == old(body) + PrintEvent(e, c)
    {
      var payload := c.encode(e);
      if payload.Some? {
        var f := Frame(e.kind, payload.value);
        Write("event: " + f.kind + ("\n" + ("data: " + f.payload + ("\n" + ("\n" + "")))));
      }
    }

    method WriteError(message: string, c: Codec)
      modifies this
      ensures body == old(body) + PrintFrame(Frame("error", c.quote(message)))
    {
      ErrorFrameText(c.quote(message));
      ghost var was := body;
      Write("event: error\ndata: ");
      Write(c.quote(message));
      Write("\n\n");
      assert body == was + ("event: error\ndata: " + c.quote(message) + "\n\n");
    }

    /** The handler: one frame per event of the subscription, then its error as a last frame
        unless the client went away. */
    method Serve(events: seq<Event>, failure: Option<string>, clientGone: bool, c: Codec)
      modifies this
      ensures body == old(body) + (Print(events, c)
                    + if failure.Some? && !clientGone then PrintFrame(Frame("error", c.quote(failure.value))) else "")
    {
      hide PrintFrame;
      ghost var was := body;
      assert events[0..] == events;
      for i := 0 to |events|
        invariant body + Print(events[i..], c) == was + Print(events, c)
      {
        assert events[i..][1..] == events[i + 1..];
        WriteEvent(events[i], c);
      }
      assert body == was + Print(events, c);
      if failure.Some? && !clientGone {
        WriteError(failure.value, c);
      }
    }
  }

  lemma ErrorFrameText(payload: string)
    ensures PrintFrame(Frame("error", payload)) == "event: error\ndata: " + payload + "\n\n"
  {
    assert "event: error\ndata: " == "event: " + "error" + ("\n" + "data: ");
    assert "\n\n" == "\n" + ("\n" + "");
  }

  // The client

  datatype StreamError = StreamFailed(message: string) | BadEvent(payload: string) | LineTooLong | ReadFailed

  datatype Outcome = Outcome(delivered: seq<Event>, error: Option<StreamError>)

  /** The type and the data of the frame being read. */
  datatype Partial = Partial(kind: string, data: string)

  const NOTHING: Partial := Partial("", "")

  function LineEnd(text: string): (n: nat)
    ensures n <= |text| && (n < |text| ==> text[n] == '\n') && '\n' !in text[..n]
  {
    if text == "" || text[0] == '\n' then 0
    else
      var n := LineEnd(text[1..]);
      assert text[..n + 1] == [text[0]] + text[1..][..n];
      n + 1
  }

  function DropCR(line: string): string {
    if line != "" && line[|line| - 1] == '\r' then line[..|line| - 1] else line
  }

  predicate HasPrefix(line: string, prefix: string) { prefix <= line }

  function Joined(data: string, more: string): string { if data == "" then more else data + "\n" + more }

  /** A line that is not blank. */
  function Absorb(p: Partial, line: string): Partial {
    if HasPrefix(line, "event: ") then p.(kind := line[7..])
    else if HasPrefix(line, "data: ") then p.(data := Joined(p.data, line[6..]))
    else p
  }

  /** The message of an error frame, or its raw data when that is no JSON string. */
  function ErrorText(data: string, c: Codec): string {
    match c.unquote(data) case Some(m) => m case None => data
  }

  /** A blank line or the end of the stream: None to go on, an error, or an event to deliver.
      The frame's type is looked at only for "error"; the event is what the data decode to. */
  function Flush(p: Partial, c: Codec): Option<Result<Event, StreamError>> {
    if p == NOTHING then None
    else if p.kind == "error" then Some(Err(StreamFailed(ErrorText(p.data, c))))
    else match c.decode(p.data)
      case None => Some(Err(BadEvent(p.data)))
      case Some(e) => Some(Ok(e))
  }

  function Finish(p: Partial, c: Codec, broken: bool): Outcome {
    if broken then Outcome([], Some(ReadFailed))
    else match Flush(p, c)
      case None => Outcome([], None)
      case Some(Err(x)) => Outcome([], Some(x))
      case Some(Ok(e)) => Outcome([e], None)
  }

  function Deliver(e: Event, o: Outcome): Outcome { o.(delivered := [e] + o.delivered) }

  function AfterLine(text: string): (rest: string)
    requires text != ""
    ensures |rest| < |text|
  {
    var n := LineEnd(text);
    if n == |text| then "" else text[n + 1..]
  }

  /** What the parser does with a text; broken tells a failed read from a clean end. */
  function Parse(text: string, p: Partial, c: Codec, broken: bool): Outcome
    decreases |text|
  {
    if text == "" then Finish(p, c, broken)
    else if LineEnd(text) > MAX_LINE then Outcome([], Some(LineTooLong))
    else
      var line, rest := DropCR(text[..LineEnd(text)]), AfterLine(text);
      if line != "" then Parse(rest, Absorb(p, line), c, broken)
      else match Flush(p, c)
        case None => Parse(rest, p, c, broken)
        case Some(Err(x)) => Outcome([], Some(x))
        case Some(Ok(e)) => Deliver(e, Parse(rest, NOTHING, c, broken))
  }

  /** An outcome with what was delivered before it. */
  function Preceded(delivered: seq<Event>, o: Outcome): Outcome { o.(delivered := delivered + o.delivered) }

  lemma PrecededDeliver(delivered: seq<Event>, e: Event, o: Outcome)
    ensures Preceded(delivered, Deliver(e, o)) == Preceded(delivered + [e], o)
  {
    assert delivered + ([e] + o.delivered) == delivered + [e] + o.delivered;
  }

  lemma NothingPreceded(o: Outcome)
    ensures Preceded([], o) == o
  {
    assert [] + o.delivered == o.delivered;
  }

  method ParseStream(text: string, c: Codec, broken: bool) returns (o: Outcome)
    ensures o == Parse(text, NOTHING, c, broken)
  {
    hide LineEnd, Absorb, Flush, DropCR, Preceded;
    var rest, p := text, NOTHING;
    var delivered: seq<Event> := [];
    NothingPreceded(Parse(text, NOTHING, c, broken));
    while rest != ""
      invariant Parse(text, NOTHING, c, broken) == Preceded(delivered, Parse(rest, p, c, broken))
      decreases |rest|
    {
      var n := LineEnd(rest);
      if n > MAX_LINE {
        return Preceded(delivered, Outcome([], Some(LineTooLong)));
      }
      var line := DropCR(rest[..n]);
      rest := if n == |rest| then "" else rest[n + 1..];
      if line == "" {
        match Flush(p, c)
        case None =>
        case Some(Err(x)) => return Preceded(delivered, Outcome([], Some(x)));
        case Some(Ok(e)) =>
          PrecededDeliver(delivered, e, Parse(rest, NOTHING, c, broken));
          p, delivered := NOTHING, delivered + [e];
      } else {
        p := Absorb(p, line);
      }
    }
    return Preceded(delivered, Finish(p, c, broken));
  }

  // One line at a time

  lemma LineEndAt(line: string, rest: string)
    requires '\n' !in line
    ensures LineEnd(line + ("\n" + rest)) == |line|
    ensures AfterLine(line + ("\n" + rest)) == rest
  {
    var text := line + ("\n" + rest);
    var n := LineEnd(text);
    forall i | 0 <= i < |line| ensures text[i] != '\n' {
      assert line[i] in line;
    }
    forall i | 0 <= i < n ensures text[i] != '\n' {
      assert text[..n][i] in text[..n];
    }
    assert text[|line|] == '\n';
    assert text[|line| + 1..] == rest;
  }

  /** A line and the rest of the text. */
  lemma LineRead(line: string, rest: string, p: Partial, c: Codec, broken: bool)
    requires '\n' !in line
    ensures Parse(line + ("\n" + rest), p, c, broken) ==
            if |line| > MAX_LINE then Outcome([], Some(LineTooLong))
            else if DropCR(line) != "" then Parse(rest, Absorb(p, DropCR(line)), c, broken)
            else match Flush(p, c)
              case None => Parse(rest, p, c, broken)
              case Some(Err(x)) => Outcome([], Some(x))
              case Some(Ok(e)) => Deliver(e, Parse(rest, NOTHING, c, broken))
  {
    LineEndAt(line, rest);
    assert (line + ("\n" + rest))[..|line|] == line;
  }

  /** A carriage return before the line end makes no difference to the line. */
  lemma CarriageReturnRead(line: string, rest: string, p: Partial, c: Codec, broken: bool)
    requires '\n' !in line && |line| < MAX_LINE && (line == "" || line[|line| - 1] != '\r')
    ensures Parse((line + "\r") + ("\n" + rest), p, c, broken) == Parse(line + ("\n" + rest), p, c, broken)
  {
    LineRead(line + "\r", rest, p, c, broken);
    LineRead(line, rest, p, c, broken);
    assert (line + "\r")[..|line|] == line;
    hide Parse;
  }

  /** The data lines of one frame are the lines of its payload. */
  lemma DataLinesJoin(a: string, b: string, e: Event, rest: string, c: Codec, broken: bool)
    requires '\n' !in a && '\n' !in b && |a| + 6 <= MAX_LINE && |b| + 6 <= MAX_LINE
    requires a != "" && b != "" && a[|a| - 1] != '\r' && b[|b| - 1] != '\r' && c.decode(a + "\n" + b) == Some(e)
    ensures Parse(("data: " + a) + ("\n" + (("data: " + b) + ("\n" + ("" + ("\n" + rest))))), NOTHING, c, broken)
         == Deliver(e, Parse(rest, NOTHING, c, broken))
  {
    DataLineAbsorbed(a, NOTHING);
    DataLineAbsorbed(b, Partial("", a));
    LineRead("data: " + a, ("data: " + b) + ("\n" + ("" + ("\n" + rest))), NOTHING, c, broken);
    LineRead("data: " + b, "" + ("\n" + rest), Partial("", a), c, broken);
    LineRead("", rest, Partial("", a + "\n" + b), c, broken);
    hide Parse, Absorb;
  }

  lemma DataLineAbsorbed(d: string, p: Partial)
    requires d != "" && d[|d| - 1] != '\r'
    ensures var line := "data: " + d; DropCR(line) == line != "" && ('\n' !in d ==> '\n' !in line)
    ensures Absorb(p, "data: " + d) == p.(data := if p.data == "" then d else p.data + "\n" + d)
  {
    var line := "data: " + d;
    assert line[6..] == d && line[|line| - 1] == d[|d| - 1] && line[0] == 'd';
    assert "data: " <= line;
  }

  lemma EmptyText(p: Partial, c: Codec, broken: bool)
    ensures Parse("", p, c, broken) == Finish(p, c, broken)
  {
  }

  /** A text without a line end is one line and then the end of the stream. */
  lemma LastLine(line: string, p: Partial, c: Codec, broken: bool)
    requires '\n' !in line && |line| <= MAX_LINE && line != "" && line != "\r"
    ensures Parse(line, p, c, broken) == Finish(Absorb(p, DropCR(line)), c, broken)
  {
    WholeLine(line);
    assert line[..|line|] == line;
    EmptyText(Absorb(p, DropCR(line)), c, broken);
  }

  lemma WholeLine(line: string)
    requires '\n' !in line
    ensures LineEnd(line) == |line|
  {
  }

  // Frames that come through

  /** The client reads "error" only when that is the line less one carriage return at its end. */
  predicate GoodKind(kind: string) {
    var line := "event: " + kind;
    '\n' !in kind && |line| <= MAX_LINE && DropCR(line) != "event: error"
  }

  /** JSON on one line that decodes to the event, while no part of it cut short decodes. */
  ghost predicate GoodPayload(payload: string, e: Event, c: Codec) {
    && payload != "" && '\n' !in payload && payload[|payload| - 1] != '\r' && |payload| + 6 <= MAX_LINE
    && c.decode(payload) == Some(e)
    && forall n | 0 <= n < |payload| :: c.decode(payload[..n]) == None
  }

  ghost predicate GoodEvent(e: Event, c: Codec) {
    c.encode(e).Some? ==> GoodKind(e.kind) && GoodPayload(c.encode(e).value, OnWire(e), c)
  }

  ghost predicate GoodEvents(events: seq<Event>, c: Codec) { forall i | 0 <= i < |events| :: GoodEvent(events[i], c) }

  /** The events a client should see. */
  function Sent(events: seq<Event>, c: Codec): seq<Event> {
    if events == [] then []
    else (if c.encode(events[0]).Some? then [OnWire(events[0])] else []) + Sent(events[1..], c)
  }

  lemma DataLineIs(f: Frame, e: Event, c: Codec, p: Partial)
    requires GoodPayload(f.payload, e, c)
    ensures '\n' !in DataLine(f) && |DataLine(f)| <= MAX_LINE && DropCR(DataLine(f)) == DataLine(f)
    ensures Absorb(p, DataLine(f)) == p.(data := Joined(p.data, f.payload))
  {
    var d := DataLine(f);
    assert d[0] == 'd' && d[|d| - 1] == f.payload[|f.payload| - 1] && d[6..] == f.payload;
    assert HasPrefix(d, "data: ") && !HasPrefix(d, "event: ");
  }

  lemma EventLineIs(f: Frame, p: Partial)
    requires '\n' !in f.kind
    ensures '\n' !in EventLine(f) && HasPrefix(DropCR(EventLine(f)), "event: ")
    ensures Absorb(p, DropCR(EventLine(f))) == p.(kind := DropCR(EventLine(f))[7..])
    ensures DropCR(EventLine(f))[7..] == "error" <==> DropCR(EventLine(f)) == "event: error"
  {
    var l := DropCR(EventLine(f));
    assert EventLine(f)[6] == ' ';
    assert l[..7] == "event: " && l == l[..7] + l[7..];
    assert "event: error" == "event: " + "error";
  }

  /** After the event line, the data line and the blank line always deliver or fail. */
  lemma DataRead(f: Frame, e: Event, rest: string, p: Partial, c: Codec, broken: bool)
    requires GoodPayload(f.payload, e, c)
    ensures var q := Partial(p.kind, Joined(p.data, f.payload));
            Parse(DataLine(f) + ("\n" + ("\n" + rest)), p, c, broken) ==
            match Flush(q, c)
            case None => Parse(rest, q, c, broken)
            case Some(Err(x)) => Outcome([], Some(x))
            case Some(Ok(d)) => Deliver(d, Parse(rest, NOTHING, c, broken))
    ensures Flush(Partial(p.kind, Joined(p.data, f.payload)), c).Some?
  {
    hide Parse;
    DataLineIs(f, e, c, p);
    LineRead(DataLine(f), "\n" + rest, p, c, broken);
    LineRead("", rest, Partial(p.kind, Joined(p.data, f.payload)), c, broken);
    assert "" + ("\n" + rest) == "\n" + rest;
    assert Joined(p.data, f.payload) != "";
  }

  /** Whatever follows, a good frame delivers its event. */
  lemma FrameDelivered(f: Frame, e: Event, rest: string, c: Codec, broken: bool)
    requires GoodKind(f.kind) && GoodPayload(f.payload, e, c)
    ensures Parse(PrintFrame(f) + rest, NOTHING, c, broken) == Deliver(e, Parse(rest, NOTHING, c, broken))
  {
    hide Parse, DropCR;
    FrameThen(f, rest);
    EventLineIs(f, NOTHING);
    LineRead(EventLine(f), DataLine(f) + ("\n" + ("\n" + rest)), NOTHING, c, broken);
    DataRead(f, e, rest, Partial(DropCR(EventLine(f))[7..], ""), c, broken);
  }

  lemma FrameThen(f: Frame, rest: string)
    ensures PrintFrame(f) + rest == EventLine(f) + ("\n" + (DataLine(f) + ("\n" + ("\n" + rest))))
  {
  }

  /** Whatever follows, the events come first, in order. */
  lemma {:induction false} EventsComeFirst(events: seq<Event>, rest: string, c: Codec, broken: bool)
    requires GoodEvents(events, c)
    ensures var o := Parse(rest, NOTHING, c, broken);
            Parse(Print(events, c) + rest, NOTHING, c, broken) == Outcome(Sent(events, c) + o.delivered, o.error)
  {
    hide PrintFrame, Parse, GoodKind, GoodPayload;
    if events == [] {
      assert Print(events, c) + rest == rest;
    } else {
      var e, more := events[0], Print(events[1..], c);
      assert GoodEvent(e, c);
      EventsComeFirst(events[1..], rest, c, broken);
      if c.encode(e).Some? {
        var f := Frame(e.kind, c.encode(e).value);
        assert Print(events, c) + rest == PrintFrame(f) + (more + rest);
        FrameDelivered(f, OnWire(e), more + rest, c, broken);
      } else {
        assert Print(events, c) + rest == more + rest;
      }
    }
  }

  /** Parsing what was printed gives every event that was sent, in order, and no error. */
  lemma RoundTrip(events: seq<Event>, c: Codec)
    requires GoodEvents(events, c)
    ensures Parse(Print(events, c), NOTHING, c, false) == Outcome(Sent(events, c), None)
  {
    EventsComeFirst(events, "", c, false);
    assert Print(events, c) + "" == Print(events, c);
  }

  /** An error frame at the end delivers every event first and then fails, with the message
      when its JSON form reads back and with the raw text when it does not. */
  lemma ErrorFrameFails(events: seq<Event>, message: string, c: Codec, broken: bool)
    requires GoodEvents(events, c)
    requires var q := c.quote(message); '\n' !in q && q != "" && q[|q| - 1] != '\r' && |q| + 6 <= MAX_LINE
    ensures Parse(Print(events, c) + PrintFrame(Frame("error", c.quote(message))), NOTHING, c, broken)
         == Outcome(Sent(events, c), Some(StreamFailed(ErrorText(c.quote(message), c))))
    ensures c.unquote(c.quote(message)) == Some(message) ==> ErrorText(c.quote(message), c) == message
    ensures c.unquote(c.quote(message)) == None ==> ErrorText(c.quote(message), c) == c.quote(message)
  {
    hide Parse, PrintFrame;
    var f := Frame("error", c.quote(message));
    EventsComeFirst(events, PrintFrame(f), c, broken);
    ErrorFrameRead(f, c, broken);
  }

  lemma ErrorFrameRead(f: Frame, c: Codec, broken: bool)
    requires f.kind == "error" && f.payload != "" && '\n' !in f.payload
    requires f.payload[|f.payload| - 1] != '\r' && |f.payload| + 6 <= MAX_LINE
    ensures Parse(PrintFrame(f), NOTHING, c, broken) == Outcome([], Some(StreamFailed(ErrorText(f.payload, c))))
  {
    hide Parse;
    var d := DataLine(f);
    assert d[0] == 'd' && d[|d| - 1] == f.payload[|f.payload| - 1] && d[6..] == f.payload;
    assert HasPrefix(d, "data: ") && !HasPrefix(d, "event: ") && DropCR(d) == d && '\n' !in d;
    assert EventLine(f) == "event: error" && DropCR(EventLine(f)) == "event: error";
    EventLineIs(f, NOTHING);
    LineRead(EventLine(f), AfterHeader(f), NOTHING, c, broken);
    LineRead(d, "\n" + "", Partial("error", ""), c, broken);
    LineRead("", "", Partial("error", f.payload), c, broken);
    assert "" + ("\n" + "") == "\n" + "";
  }

  // Streams cut short

  lemma CutPayload(kind: string, payload: string, e: Event, data: string, c: Codec, broken: bool)
    requires GoodPayload(payload, e, c) && data <= payload
    ensures Finish(Partial(kind, data), c, broken).delivered <= [e]
  {
    assert data == payload[..|data|];
    if |data| == |payload| {
      assert data == payload;
    }
  }

  lemma PartOfLine(line: string, part: string)
    requires '\n' !in line && part <= line
    ensures '\n' !in part && |part| <= |line|
  {
    assert part == line[..|part|];
  }

  /** The stream ends inside the first line of a frame: nothing is delivered. */
  lemma CutInEventLine(f: Frame, e: Event, part: string, c: Codec, broken: bool)
    requires GoodKind(f.kind) && GoodPayload(f.payload, e, c) && part <= EventLine(f)
    ensures Parse(part, NOTHING, c, broken).delivered == []
  {
    assert f.payload[..0] == "" && c.decode("") == None;
    if part != "" {
      assert part == EventLine(f)[..|part|] && part[0] == 'e';
      PartOfLine(EventLine(f), part);
      LastLine(part, NOTHING, c, broken);
      assert DropCR(part)[0] == 'e';
      assert Absorb(NOTHING, DropCR(part)).data == "";
    }
  }

  /** The stream ends inside the second line: the event is delivered if its payload is whole. */
  lemma CutInDataLine(f: Frame, e: Event, kind: string, part: string, c: Codec, broken: bool)
    requires GoodPayload(f.payload, e, c) && part <= DataLine(f)
    ensures Parse(part, Partial(kind, ""), c, broken).delivered <= [e]
  {
    var d := DataLine(f);
    if part == "" {
      CutPayload(kind, f.payload, e, "", c, broken);
    } else {
      assert part == d[..|part|] && part[0] == 'd';
      PartOfLine(d, part);
      LastLine(part, Partial(kind, ""), c, broken);
      var line := DropCR(part);
      assert line <= d && line[0] == 'd';
      assert !HasPrefix(line, "event: ");
      if HasPrefix(line, "data: ") {
        assert line[6..] <= f.payload by {
          assert d[6..] == f.payload;
        }
        CutPayload(kind, f.payload, e, line[6..], c, broken);
      } else {
        CutPayload(kind, f.payload, e, "", c, broken);
      }
    }
  }

  /** The stream ends somewhere inside a frame. */
  lemma CutFrame(f: Frame, e: Event, part: string, c: Codec, broken: bool)
    requires GoodKind(f.kind) && GoodPayload(f.payload, e, c) && part < PrintFrame(f)
    ensures Parse(part, NOTHING, c, broken).delivered <= [e]
  {
    hide Parse, Absorb, Finish, DropCR;
    var l, d := EventLine(f), DataLine(f);
    var whole := l + ("\n" + (d + ("\n" + ("\n" + ""))));
    if |part| <= |l| {
      assert part == whole[..|part|] == l[..|part|];
      CutInEventLine(f, e, part, c, broken);
    } else {
      var rest := part[|l| + 1..];
      assert part == l + ("\n" + rest) by {
        assert part == whole[..|part|];
      }
      EventLineIs(f, NOTHING);
      LineRead(l, rest, NOTHING, c, broken);
      var p := Partial(DropCR(l)[7..], "");
      if |rest| <= |d| {
        assert rest == (d + ("\n" + ("\n" + "")))[..|rest|] == d[..|rest|];
        CutInDataLine(f, e, p.kind, rest, c, broken);
      } else {
        assert rest == d + ("\n" + "");
        DataLineIs(f, e, c, p);
        LineRead(d, "", p, c, broken);
        EmptyText(Partial(p.kind, f.payload), c, broken);
        CutPayload(p.kind, f.payload, e, f.payload, c, broken);
      }
    }
  }

  /** Wherever the stream is cut, and however the read ends, what was delivered is a prefix
      of what was sent. */
  lemma {:induction false} AnyCutDeliversPrefix(events: seq<Event>, part: string, c: Codec, broken: bool)
    requires GoodEvents(events, c) && part <= Print(events, c)
    ensures Parse(part, NOTHING, c, broken).delivered <= Sent(events, c)
  {
    hide Parse, PrintFrame, GoodKind, GoodPayload;
    if events == [] {
      EmptyText(NOTHING, c, broken);
    } else {
      var e, more := events[0], Print(events[1..], c);
      assert GoodEvent(e, c);
      if c.encode(e).None? {
        assert Print(events, c) == more;
        AnyCutDeliversPrefix(events[1..], part, c, broken);
      } else {
        var f := Frame(e.kind, c.encode(e).value);
        if |part| < |PrintFrame(f)| {
          assert part == Print(events, c)[..|part|] == PrintFrame(f)[..|part|];
          CutFrame(f, OnWire(e), part, c, broken);
        } else {
          var rest := part[|PrintFrame(f)|..];
          assert part == PrintFrame(f) + rest by {
            assert part == Print(events, c)[..|part|];
          }
          FrameDelivered(f, OnWire(e), rest, c, broken);
          AnyCutDeliversPrefix(events[1..], rest, c, broken);
        }
      }
    }
  }

  // Which types let their event through

  /** What the lines of a header leave of an empty frame: None when one of them is too long or
      ends a frame that has begun. */
  function Header(text: string, p: Partial): Option<Partial>
    decreases |text|
  {
    var n := LineEnd(text);
    var line := DropCR(text[..n]);
    if n > MAX_LINE || (line == "" && p != NOTHING) then None
    else
      var q := if line == "" then p else Absorb(p, line);
      if n == |text| then Some(q) else Header(text[n + 1..], q)
  }

  lemma SplitAt(text: string, n: nat)
    requires n < |text| && text[n] == '\n'
    ensures text == text[..n] + ("\n" + text[n + 1..])
  {
  }

  lemma Rejoin(line: string, tail: string, more: string)
    ensures (line + ("\n" + tail)) + more == line + ("\n" + (tail + more))
  {
    Reassociate(line, "\n" + tail, more);
    Reassociate("\n", tail, more);
  }

  lemma SplitHeader(text: string, rest: string)
    requires LineEnd(text) < |text|
    ensures text + ("\n" + rest) == text[..LineEnd(text)] + ("\n" + (text[LineEnd(text) + 1..] + ("\n" + rest)))
  {
    hide LineEnd;
    var n := LineEnd(text);
    SplitAt(text, n);
    Rejoin(text[..n], text[n + 1..], "\n" + rest);
  }

  lemma {:induction false} HeaderRead(text: string, p: Partial, rest: string, c: Codec, broken: bool)
    requires Header(text, p).Some?
    ensures Parse(text + ("\n" + rest), p, c, broken) == Parse(rest, Header(text, p).value, c, broken)
    decreases |text|
  {
    hide Parse, DropCR, Absorb;
    var n := LineEnd(text);
    var line := text[..n];
    if n == |text| {
      assert text == line;
      LineRead(line, rest, p, c, broken);
    } else {
      var tail := text[n + 1..];
      SplitHeader(text, rest);
      LineRead(line, tail + ("\n" + rest), p, c, broken);
      HeaderRead(tail, if DropCR(line) == "" then p else Absorb(p, DropCR(line)), rest, c, broken);
    }
  }

  /** A frame's last two lines are heard of, whatever precedes them. */
  lemma {:induction false} NeverSilent(text: string, p: Partial, f: Frame, e: Event, c: Codec)
    requires GoodPayload(f.payload, e, c)
    ensures var o := Parse(text + ("\n" + AfterHeader(f)), p, c, false); o.error.Some? || o.delivered != []
    decreases |text|
  {
    hide Parse, DropCR, Absorb, GoodPayload;
    var n := LineEnd(text);
    var line, rest := text[..n], AfterHeader(f);
    forall q ensures var o := Parse(rest, q, c, false); o.error.Some? || o.delivered != [] {
      DataRead(f, e, "", q, c, false);
    }
    if n == |text| {
      assert text == line;
      LineRead(line, rest, p, c, false);
    } else {
      var tail := text[n + 1..];
      SplitHeader(text, rest);
      LineRead(line, tail + ("\n" + rest), p, c, false);
      NeverSilent(tail, p, f, e, c);
      NeverSilent(tail, NOTHING, f, e, c);
      NeverSilent(tail, Absorb(p, DropCR(line)), f, e, c);
    }
  }

  /** A header that does not survive costs the frame its event, or adds one to it. */
  lemma {:induction false} HeaderLost(text: string, p: Partial, f: Frame, e: Event, c: Codec)
    requires GoodPayload(f.payload, e, c) && Header(text, p) == None
    ensures Parse(text + ("\n" + AfterHeader(f)), p, c, false) != Outcome([e], None)
    decreases |text|
  {
    hide Parse, DropCR, Absorb, GoodPayload;
    var n := LineEnd(text);
    var line, rest := text[..n], AfterHeader(f);
    if n == |text| {
      assert text == line;
      LineRead(line, rest, p, c, false);
      DataRead(f, e, "", NOTHING, c, false);
    } else {
      var tail := text[n + 1..];
      SplitHeader(text, rest);
      LineRead(line, tail + ("\n" + rest), p, c, false);
      NeverSilent(tail, NOTHING, f, e, c);
      if |line| <= MAX_LINE && (DropCR(line) != "" || p == NOTHING) {
        HeaderLost(tail, if DropCR(line) == "" then p else Absorb(p, DropCR(line)), f, e, c);
      }
    }
  }

  /** The type's own lines leave a frame that is no error, and with what they add to the data
      the payload still decodes to the event. */
  ghost predicate LetsThrough(f: Frame, e: Event, c: Codec) {
    var h := Header(EventLine(f), NOTHING);
    h.Some? && h.value.kind != "error" && c.decode(Joined(h.value.data, f.payload)) == Some(e)
  }

  /** For every type whatever: its event arrives, alone and without an error, exactly then. */
  lemma TypeLetsThroughExactly(f: Frame, e: Event, c: Codec)
    requires GoodPayload(f.payload, e, c)
    ensures Parse(PrintFrame(f), NOTHING, c, false) == Outcome([e], None) <==> LetsThrough(f, e, c)
  {
    hide Parse, Header, GoodPayload;
    var h := Header(EventLine(f), NOTHING);
    if h.None? {
      HeaderLost(EventLine(f), NOTHING, f, e, c);
    } else {
      HeaderRead(EventLine(f), NOTHING, AfterHeader(f), c, false);
      DataRead(f, e, "", h.value, c, false);
      EmptyText(NOTHING, c, false);
      forall d: Event ensures Deliver(d, Outcome([], None)) == Outcome([d], None) {
        assert [d] + [] == [d];
      }
      forall d: Event ensures [d] == [e] <==> d == e {
        assert [d][0] == d && [e][0] == e;
      }
    }
  }

  /** For a type without a line end: exactly when its line fits the scanner and is not read as
      "error". A carriage return at its end makes no difference but for "error" itself. */
  lemma LineTypeLetsThroughExactly(f: Frame, e: Event, c: Codec)
    requires GoodPayload(f.payload, e, c) && '\n' !in f.kind
    ensures Parse(PrintFrame(f), NOTHING, c, false) == Outcome([e], None) <==> GoodKind(f.kind)
  {
    hide Parse;
    TypeLetsThroughExactly(f, e, c);
    EventLineIs(f, NOTHING);
    WholeLine(EventLine(f));
    assert EventLine(f)[..|EventLine(f)|] == EventLine(f);
  }

  /** A line the parser has no use for. */
  predicate Ignored(line: string) {
    '\n' !in line && |line| <= MAX_LINE && DropCR(line) != ""
    && !HasPrefix(DropCR(line), "event: ") && !HasPrefix(DropCR(line), "data: ")
  }

  lemma BlankHasNoEnd(line: string)
    requires DropCR(line) == ""
    ensures '\n' !in line && |line| <= 1
  {
    if line != "" {
      assert line == [line[|line| - 1]];
    }
  }

  /** What a header of two lines leaves, when the second is blank or means nothing. */
  lemma TwoLines(first: string, second: string, p: Partial)
    requires '\n' !in first && DropCR(first) != "" && (Ignored(second) || DropCR(second) == "")
    ensures var q := Absorb(p, DropCR(first));
            Header(first + ("\n" + second), p) ==
            if |first| > MAX_LINE || (DropCR(second) == "" && q != NOTHING) then None else Some(q)
  {
    hide Absorb;
    if DropCR(second) == "" {
      BlankHasNoEnd(second);
    }
    var text := first + ("\n" + second);
    LineEndAt(first, second);
    assert text[..|first|] == first && text[|first| + 1..] == second;
    WholeLine(second);
    assert second[..|second|] == second;
    if Ignored(second) {
      NothingAbsorbed(second, Absorb(p, DropCR(first)));
    }
  }

  lemma NothingAbsorbed(line: string, p: Partial)
    requires Ignored(line)
    ensures Absorb(p, DropCR(line)) == p
  {
  }

  /** What a first line that is the event line leaves. */
  lemma FirstLine(f: Frame)
    requires '\n' !in f.kind
    ensures var l := DropCR(EventLine(f));
            && Absorb(NOTHING, l) == Partial(l[7..], "")
            && (l[7..] == "error" <==> l == "event: error") && (l[7..] == "" <==> l == "event: ")
            && (l == "event: " ==> |EventLine(f)| <= MAX_LINE)
  {
    EventLineIs(f, NOTHING);
    var l := DropCR(EventLine(f));
    assert l == "event: " + l[7..];
  }

  lemma TwoLineHeader(f: Frame, first: string, second: string)
    requires '\n' !in first && f.kind == first + ("\n" + second) && (Ignored(second) || DropCR(second) == "")
    ensures var g := Frame(first, f.payload);
            var q := Partial(DropCR(EventLine(g))[7..], "");
            Header(EventLine(f), NOTHING) ==
            if |EventLine(g)| > MAX_LINE || (DropCR(second) == "" && q != NOTHING) then None else Some(q)
  {
    hide Header, Absorb, DropCR, Ignored;
    var g := Frame(first, f.payload);
    EventLineIs(g, NOTHING);
    Reassociate("event: ", first, "\n" + second);
    TwoLines(EventLine(g), second, NOTHING);
  }

  /** For a type of two lines: a second line of no meaning to the parser makes no difference,
      so the event arrives, line end and all, exactly when it would without it. */
  lemma IgnoredLineExactly(f: Frame, first: string, second: string, e: Event, c: Codec)
    requires GoodPayload(f.payload, e, c) && '\n' !in first && f.kind == first + ("\n" + second) && Ignored(second)
    ensures Parse(PrintFrame(f), NOTHING, c, false) == Outcome([e], None) <==> GoodKind(first)
  {
    assert c.decode(f.payload) == Some(e) && DropCR(second) != "";
    hide Parse, GoodPayload, Header, Absorb, DropCR, Ignored, PrintFrame;
    TypeLetsThroughExactly(f, e, c);
    TwoLineHeader(f, first, second);
    FirstLine(Frame(first, f.payload));
  }

  /** A blank second line costs the event, unless the first line is as good as empty. */
  lemma BlankLineExactly(f: Frame, first: string, second: string, e: Event, c: Codec)
    requires GoodPayload(f.payload, e, c) && '\n' !in first && f.kind == first + ("\n" + second) && DropCR(second) == ""
    ensures Parse(PrintFrame(f), NOTHING, c, false) == Outcome([e], None) <==> DropCR("event: " + first) == "event: "
  {
    assert c.decode(f.payload) == Some(e);
    hide Parse, GoodPayload, Header, Absorb, DropCR, Ignored, PrintFrame;
    TypeLetsThroughExactly(f, e, c);
    TwoLineHeader(f, first, second);
    FirstLine(Frame(first, f.payload));
  }
}
