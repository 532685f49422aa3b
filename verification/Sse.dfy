/** The event stream: the printer of the chat route (backend/app/chat/routes.py) and the parser of the browser client
    (frontend/src/lib/sse.ts).

    The payload type and its JSON codec are parameters. Text is a sequence of characters: byte decoding is outside. */
module Sse {
  import opened Basics
  import opened Wrappers

  datatype Codec<!D> = Codec(dumps: D -> string, parse: string -> Option<D>)

  /** What the codec must do: print on one line, and read back what it printed. A parse of None is malformed JSON or a
      value that is not an object. */
  ghost predicate Reads<D(!new)>(codec: Codec<D>) {
    forall d :: codec.parse(codec.dumps(d)) == Some(d) && OneLine(codec.dumps(d))
  }

  /** A line that survives the printing of one line: no line feed in it, no carriage return at its end. */
  predicate OneLine(s: string) {
    '\n' !in s && (s != "" ==> s[|s| - 1] != '\r')
  }

  datatype StreamEvent<D> = StreamEvent(name: string, data: D)

  datatype SSEEvent<D> = SSEEvent(event: string, data: D, id: Option<string>)

  function Digit(n: nat): char
    requires n < 10
  {
    "0123456789"[n]
  }

  function Decimal(n: nat): (s: string)
    ensures s != "" && forall c :: c in s ==> '0' <= c <= '9'
  {
    if n < 10 then [Digit(n)] else Decimal(n / 10) + [Digit(n % 10)]
  }

  /** `_encode_event`. */
  function Encode<D>(codec: Codec<D>, e: StreamEvent<D>, id: nat): string {
    ("id: " + Decimal(id) + "\n") + ("event: " + e.name + "\n") + ("data: " + codec.dumps(e.data) + "\n") + "\n"
  }

  /** The bytes of a whole response: events are numbered from the given counter on. */
  function EncodeAll<D>(codec: Codec<D>, es: seq<StreamEvent<D>>, id: nat): string {
    if es == [] then "" else Encode(codec, es[0], id) + EncodeAll(codec, es[1..], id + 1)
  }

  function Numbered<D>(es: seq<StreamEvent<D>>, id: nat): seq<SSEEvent<D>> {
    if es == [] then [] else [SSEEvent(es[0].name, es[0].data, Some(Decimal(id)))] + Numbered(es[1..], id + 1)
  }

  /** The loop of `_stream_response`. */
  method EncodeStream<D>(codec: Codec<D>, es: seq<StreamEvent<D>>) returns (out: string)
    ensures out == EncodeAll(codec, es, 1)
  {
    out := "";
    var eventId := 0;
    for i := 0 to |es|
      invariant eventId == i
      invariant EncodeAll(codec, es, 1) == out + EncodeAll(codec, es[i..], i + 1)
    {
      eventId := eventId + 1;
      assert es[i..][1..] == es[i + 1..];
      Associate(out, Encode(codec, es[i], eventId), EncodeAll(codec, es[i + 1..], i + 2));
      out := out + Encode(codec, es[i], eventId);
    }
  }

  /** The fields of the parser between calls. */
  datatype Parser = Parser(buffer: string, name: string, id: Option<string>, data: seq<string>)

  const START := Parser("", "message", None, [])

  function Join(lines: seq<string>): string {
    if lines == [] then "" else if |lines| == 1 then lines[0] else Join(lines[..|lines| - 1]) + "\n" + lines[|lines| - 1]
  }

  /** The result of a step: the new fields and the events completed, or the exception of a malformed payload. */
  datatype Step<D> = Step(parser: Parser, events: seq<SSEEvent<D>>, ok: bool)

  function DispatchStep<D>(codec: Codec<D>, p: Parser): Step<D> {
    match codec.parse(Join(p.data))
    case None => Step(p, [], false)
    case Some(d) => Step(START.(buffer := p.buffer), [SSEEvent(p.name, d, p.id)], true)
  }

  function IndexOf(s: string, c: char): (i: nat)
    ensures i <= |s|
    ensures c !in s[..i]
    ensures i < |s| ==> s[i] == c
  {
    if s == "" || s[0] == c then 0
    else
      var i := IndexOf(s[1..], c);
      assert s[..i + 1] == [s[0]] + s[1..][..i];
      i + 1
  }

  function FieldOf(line: string): string {
    line[..IndexOf(line, ':')]
  }

  function ValueOf(line: string): string {
    var i := IndexOf(line, ':');
    var value := if i < |line| then line[i + 1..] else "";
    if value != "" && value[0] == ' ' then value[1..] else value
  }

  function LineStep<D>(codec: Codec<D>, p: Parser, line: string): Step<D> {
    if line == "" then if p.data != [] then DispatchStep(codec, p) else Step(p, [], true)
    else if line[0] == ':' then Step(p, [], true)
    else
      Step(Assign(p, FieldOf(line), ValueOf(line)), [], true)
  }

  function Assign(p: Parser, field: string, value: string): Parser {
    if field == "event" then p.(name := value)
    else if field == "id" && '\0' !in value then p.(id := Some(value))
    else if field == "data" then p.(data := p.data + [value])
    else p
  }

  function Chomp(line: string): string {
    if line != "" && line[|line| - 1] == '\r' then line[..|line| - 1] else line
  }

  function Then<D>(first: Step<D>, rest: Step<D>): Step<D> {
    if first.ok then rest.(events := first.events + rest.events) else first
  }

  lemma LineLeavesBuffer<D>(codec: Codec<D>, p: Parser, line: string)
    ensures LineStep(codec, p, line).parser.buffer == p.buffer
  {
  }

  /** Every complete line of the buffer, in turn. */
  function Consume<D>(codec: Codec<D>, p: Parser): Step<D>
    decreases |p.buffer|
  {
    var i := IndexOf(p.buffer, '\n');
    if i == |p.buffer| then Step(p, [], true)
    else
      var rest, line := p.buffer[i + 1..], Chomp(p.buffer[..i]);
      var first := LineStep(codec, p.(buffer := rest), line);
      LineLeavesBuffer(codec, p.(buffer := rest), line);
      if first.ok then Then(first, Consume(codec, first.parser)) else first
  }

  /** No complete line is left. */
  lemma {:induction false} ConsumeTakesAll<D>(codec: Codec<D>, p: Parser)
    ensures Consume(codec, p).ok ==> '\n' !in Consume(codec, p).parser.buffer
    decreases |p.buffer|
  {
    var i := IndexOf(p.buffer, '\n');
    if i == |p.buffer| {
      assert p.buffer[..i] == p.buffer;
      ConsumeNothing(codec, p);
    } else {
      var rest, line := p.buffer[i + 1..], Chomp(p.buffer[..i]);
      var first := LineStep(codec, p.(buffer := rest), line);
      LineLeavesBuffer(codec, p.(buffer := rest), line);
      ConsumeStep(codec, p, i);
      ConsumeTakesAll(codec, first.parser);
    }
  }

  lemma LineKeepsBuffer<D>(codec: Codec<D>, p: Parser, line: string)
    ensures LineStep(codec, p, line).parser.buffer == p.buffer
    ensures forall b :: LineStep(codec, p.(buffer := b), line) == LineStep(codec, p, line).(parser := LineStep(codec, p, line).parser.(buffer := b))
  {
  }

  /** The end of the stream: the unfinished line, then the unfinished event. */
  function CloseStep<D>(codec: Codec<D>, step: Step<D>): Step<D> {
    var last := if step.parser.buffer != "" then LineStep(codec, step.parser, Chomp(step.parser.buffer)) else Step(step.parser, [], true);
    if !last.ok then last
    else
      var p := last.parser.(buffer := "");
      Then(Step(p, step.events + last.events, true), if p.data != [] then DispatchStep(codec, p) else Step(p, [], true))
  }

  /** `feed`: more text, and perhaps the end of it. */
  function FeedStep<D>(codec: Codec<D>, p: Parser, fragment: string, final: bool): Step<D> {
    var step := Consume(codec, p.(buffer := p.buffer + fragment));
    if step.ok && final then CloseStep(codec, step) else step
  }

  lemma IndexOfIs(s: string, c: char, i: nat)
    requires i <= |s| && c !in s[..i] && (i < |s| ==> s[i] == c)
    ensures IndexOf(s, c) == i
  {
  }

  /** A step on a complete line does not look at what follows it. */
  lemma ConsumeStep<D>(codec: Codec<D>, p: Parser, i: nat)
    requires i < |p.buffer| && '\n' !in p.buffer[..i] && p.buffer[i] == '\n'
    ensures var first := LineStep(codec, p.(buffer := p.buffer[i + 1..]), Chomp(p.buffer[..i]));
            Consume(codec, p) == Then(first, Consume(codec, first.parser))
  {
  }

  lemma ConsumeNothing<D>(codec: Codec<D>, p: Parser)
    requires '\n' !in p.buffer
    ensures Consume(codec, p) == Step(p, [], true)
  {
  }

  lemma ThenAssociates<D>(a: Step<D>, b: Step<D>, c: Step<D>)
    ensures Then(Then(a, b), c) == Then(a, Then(b, c))
  {
  }

  /** Going on with more text after a step. */
  function Resume<D>(codec: Codec<D>, p: Parser, f: string): Step<D> {
    Consume(codec, p.(buffer := p.buffer + f))
  }

  /** Consuming a longer buffer is consuming its beginning, and then what is left with the rest. */
  lemma {:induction false} ConsumeMore<D>(codec: Codec<D>, p: Parser, f: string)
    ensures Resume(codec, p, f) == Then(Consume(codec, p), Resume(codec, Consume(codec, p).parser, f)) || !Consume(codec, p).ok
    ensures !Consume(codec, p).ok ==> !Resume(codec, p, f).ok
    decreases |p.buffer|
  {
    var i := IndexOf(p.buffer, '\n');
    if i == |p.buffer| {
      assert p.buffer[..i] == p.buffer;
      ConsumeNothing(codec, p);
      assert [] + Resume(codec, p, f).events == Resume(codec, p, f).events;
    } else {
      var first := FirstLine(codec, p, f);
      if first.ok {
        ConsumeMore(codec, first.parser, f);
        ThenAssociates(first, Consume(codec, first.parser), Resume(codec, Consume(codec, first.parser).parser, f));
      }
    }
  }

  /** The first complete line is the same whether or not more text has arrived. */
  lemma FirstLine<D>(codec: Codec<D>, p: Parser, f: string) returns (first: Step<D>)
    requires IndexOf(p.buffer, '\n') < |p.buffer|
    ensures Consume(codec, p) == Then(first, Consume(codec, first.parser))
    ensures Resume(codec, p, f) == Then(first.(parser := first.parser.(buffer := first.parser.buffer + f)), Resume(codec, first.parser, f))
    ensures |first.parser.buffer| < |p.buffer|
  {
    var i := IndexOf(p.buffer, '\n');
    var more := p.(buffer := p.buffer + f);
    var line, rest := Chomp(p.buffer[..i]), p.buffer[i + 1..];
    assert more.buffer[..i] == p.buffer[..i] && more.buffer[i + 1..] == rest + f;
    ConsumeStep(codec, p, i);
    ConsumeStep(codec, more, i);
    first := LineStep(codec, p.(buffer := rest), line);
    LineKeepsBuffer(codec, p.(buffer := rest), line);
    assert LineStep(codec, more.(buffer := rest + f), line) == first.(parser := first.parser.(buffer := rest + f));
  }

  function Concat(fragments: seq<string>): string {
    if fragments == [] then "" else fragments[0] + Concat(fragments[1..])
  }

  /** The parser fed one fragment after another. */
  function FeedAll<D>(codec: Codec<D>, p: Parser, fragments: seq<string>): Step<D>
    decreases |fragments|
  {
    if fragments == [] then Step(p, [], true)
    else
      var first := FeedStep(codec, p, fragments[0], false);
      Then(first, FeedAll(codec, first.parser, fragments[1..]))
  }

  /** However a text is cut, the parser finds the same events. */
  lemma {:induction false} FragmentsDoNotMatter<D>(codec: Codec<D>, p: Parser, fragments: seq<string>)
    requires '\n' !in p.buffer
    requires Resume(codec, p, Concat(fragments)).ok
    ensures FeedAll(codec, p, fragments) == Resume(codec, p, Concat(fragments))
    decreases |fragments|
  {
    if fragments == [] {
      assert p.buffer + "" == p.buffer;
      ConsumeNothing(codec, p);
    } else {
      var f, rest := fragments[0], Concat(fragments[1..]);
      var more := p.(buffer := p.buffer + f);
      Associate(p.buffer, f, rest);
      assert p.(buffer := p.buffer + Concat(fragments)) == more.(buffer := more.buffer + rest);
      ConsumeMore(codec, more, rest);
      ConsumeTakesAll(codec, more);
      FragmentsDoNotMatter(codec, Consume(codec, more).parser, fragments[1..]);
    }
  }

  lemma FieldLine(name: string, prefix: string, value: string)
    requires ':' !in name && prefix == name + ": "
    ensures FieldOf(prefix + value) == name && ValueOf(prefix + value) == value
  {
    var line := prefix + value;
    assert line[..|name|] == name;
    IndexOfIs(line, ':', |name|);
    assert line[|name| + 1..] == " " + value;
    assert (" " + value)[1..] == value;
  }

  /** One complete line at the front of the buffer. */
  lemma ConsumeLine<D>(codec: Codec<D>, p: Parser, line: string, rest: string)
    requires OneLine(line) && p.buffer == (line + "\n") + rest
    ensures var first := LineStep(codec, p.(buffer := rest), line);
            Consume(codec, p) == Then(first, Consume(codec, first.parser))
  {
    var i := |line|;
    assert p.buffer[..i] == line && p.buffer[i] == '\n' && p.buffer[i + 1..] == rest;
    ConsumeStep(codec, p, i);
  }

  lemma FieldStep<D>(codec: Codec<D>, p: Parser, name: string, prefix: string, value: string, rest: string)
    requires OneLine(value) && name in {"id", "event", "data"} && prefix == name + ": "
    requires p.buffer == (prefix + value + "\n") + rest
    ensures Consume(codec, p) == Consume(codec, Assign(p.(buffer := rest), name, value))
  {
    var line := prefix + value;
    FieldLine(name, prefix, value);
    assert OneLine(line) && line[0] != ':';
    ConsumeLine(codec, p, line, rest);
    var next := Consume(codec, Assign(p.(buffer := rest), name, value));
    assert [] + next.events == next.events;
  }

  lemma EncodedLines(a: string, b: string, c: string, rest: string)
    ensures (a + b + c + "\n") + rest == a + (b + (c + ("\n" + rest)))
  {
  }

  /** The four lines of one event, before anything else. */
  lemma EncodedStep<D(!new)>(codec: Codec<D>, e: StreamEvent<D>, id: nat, rest: string)
    requires Reads(codec) && OneLine(e.name)
    ensures Consume(codec, START.(buffer := Encode(codec, e, id) + rest))
            == Then(Step(START, [SSEEvent(e.name, e.data, Some(Decimal(id)))], true), Consume(codec, START.(buffer := rest)))
  {
    var payload, number := codec.dumps(e.data), Decimal(id);
    var tail := "\n" + rest;
    var third := ("data: " + payload + "\n") + tail;
    var second := ("event: " + e.name + "\n") + third;
    var p := START.(buffer := Encode(codec, e, id) + rest);
    EncodedLines("id: " + number + "\n", "event: " + e.name + "\n", "data: " + payload + "\n", rest);
    FieldStep(codec, p, "id", "id: ", number, second);
    FieldStep(codec, START.(buffer := second, id := Some(number)), "event", "event: ", e.name, third);
    FieldStep(codec, START.(buffer := third, id := Some(number), name := e.name), "data", "data: ", payload, tail);
    assert [] + [payload] == [payload];
    BlankLine(codec, START.(buffer := tail, id := Some(number), name := e.name, data := [payload]), e.data, rest);
  }

  lemma BlankLine<D(!new)>(codec: Codec<D>, p: Parser, d: D, rest: string)
    requires Reads(codec) && p.data == [codec.dumps(d)] && p.buffer == "\n" + rest
    ensures Consume(codec, p) == Then(Step(START.(buffer := rest), [SSEEvent(p.name, d, p.id)], true), Consume(codec, START.(buffer := rest)))
  {
  }

  /** Printing and parsing undo each other: the events, numbered from the counter on. */
  lemma {:induction false} RoundTrip<D(!new)>(codec: Codec<D>, es: seq<StreamEvent<D>>, id: nat)
    requires Reads(codec) && forall e :: e in es ==> OneLine(e.name)
    ensures Consume(codec, START.(buffer := EncodeAll(codec, es, id))) == Step(START, Numbered(es, id), true)
    decreases |es|
  {
    if es == [] {
      ConsumeNothing(codec, START);
    } else {
      EncodedStep(codec, es[0], id, EncodeAll(codec, es[1..], id + 1));
      RoundTrip(codec, es[1..], id + 1);
    }
  }

  lemma ClosingAddsNothing<D>(codec: Codec<D>)
    ensures FeedStep(codec, START, "", true) == Step(START, [], true)
  {
  }

  /** However the response is cut, the client gets exactly the events that were sent, with ids 1, 2, 3 and so on, and
      closing the stream adds nothing. */
  lemma StreamArrives<D(!new)>(codec: Codec<D>, es: seq<StreamEvent<D>>, fragments: seq<string>)
    requires Reads(codec) && (forall e :: e in es ==> OneLine(e.name))
    requires Concat(fragments) == EncodeAll(codec, es, 1)
    ensures FeedAll(codec, START, fragments) == Step(START, Numbered(es, 1), true)
    ensures FeedStep(codec, START, "", true) == Step(START, [], true)
  {
    ClosingAddsNothing(codec);
    RoundTrip(codec, es, 1);
    assert START.buffer + Concat(fragments) == EncodeAll(codec, es, 1);
    FragmentsDoNotMatter(codec, START, fragments);
  }

  /** Where the parser leaves the standard. A bare carriage return ends no line: nothing is decided without a line feed. */
  lemma BareReturnEndsNoLine<D>(codec: Codec<D>, p: Parser, fragment: string)
    requires '\n' !in p.buffer && '\n' !in fragment
    ensures FeedStep(codec, p, fragment, false) == Step(p.(buffer := p.buffer + fragment), [], true)
  {
    ConsumeNothing(codec, p.(buffer := p.buffer + fragment));
  }

  /** A blank line before any data keeps the event name for the event that follows. */
  lemma NameOutlivesBlankLine<D(!new)>(codec: Codec<D>, name: string, d: D)
    requires Reads(codec) && OneLine(name)
    ensures Consume(codec, START.(buffer := ("event: " + name + "\n") + (("" + "\n") + (("data: " + codec.dumps(d) + "\n") + ("\n" + "")))))
            == Step(START, [SSEEvent(name, d, None)], true)
  {
    var payload, last := codec.dumps(d), "\n" + "";
    var third := ("data: " + payload + "\n") + last;
    var second := ("" + "\n") + third;
    FieldStep(codec, START.(buffer := ("event: " + name + "\n") + second), "event", "event: ", name, second);
    var named := START.(name := name);
    ConsumeLine(codec, named.(buffer := second), "", third);
    var next := Consume(codec, named.(buffer := third));
    assert [] + next.events == next.events;
    FieldStep(codec, named.(buffer := third), "data", "data: ", payload, last);
    assert [] + [payload] == [payload];
    BlankLine(codec, named.(buffer := last, data := [payload]), d, "");
    ConsumeNothing(codec, START);
  }

  /** An id does not persist: an event after it without one has none. */
  lemma IdIsForgotten<D(!new)>(codec: Codec<D>, id: string, d: D)
    requires Reads(codec) && OneLine(id) && '\0' !in id
    ensures var second := ("data: " + codec.dumps(d) + "\n") + ("\n" + "");
            Consume(codec, START.(buffer := ("id: " + id + "\n") + (("data: " + codec.dumps(d) + "\n") + ("\n" + second))))
            == Step(START, [SSEEvent("message", d, Some(id)), SSEEvent("message", d, None)], true)
  {
    var payload, last := codec.dumps(d), "\n" + "";
    var second := ("data: " + payload + "\n") + last;
    var first := ("data: " + payload + "\n") + ("\n" + second);
    FieldStep(codec, START.(buffer := ("id: " + id + "\n") + first), "id", "id: ", id, first);
    FieldStep(codec, START.(buffer := first, id := Some(id)), "data", "data: ", payload, "\n" + second);
    assert [] + [payload] == [payload];
    BlankLine(codec, START.(buffer := "\n" + second, id := Some(id), data := [payload]), d, second);
    FieldStep(codec, START.(buffer := second), "data", "data: ", payload, last);
    BlankLine(codec, START.(buffer := last, data := [payload]), d, "");
    ConsumeNothing(codec, START);
  }

  /** After some lines of a text: these fields, and these events so far. */
  ghost predicate Consumed<D>(codec: Codec<D>, start: Parser, p: Parser, events: seq<SSEEvent<D>>) {
    Consume(codec, start) == Then(Step(p, events, true), Consume(codec, p))
  }

  lemma OneMoreLine<D>(codec: Codec<D>, start: Parser, p: Parser, events: seq<SSEEvent<D>>, newline: nat)
    requires Consumed(codec, start, p, events) && newline == IndexOf(p.buffer, '\n') && newline < |p.buffer|
    ensures var next := LineStep(codec, p.(buffer := p.buffer[newline + 1..]), Chomp(p.buffer[..newline]));
            if next.ok then Consumed(codec, start, next.parser, events + next.events)
            else Consume(codec, start).parser == next.parser && !Consume(codec, start).ok
  {
    ConsumeStep(codec, p, newline);
    var next := LineStep(codec, p.(buffer := p.buffer[newline + 1..]), Chomp(p.buffer[..newline]));
    ThenAssociates(Step(p, events, true), next, Consume(codec, next.parser));
  }

  lemma AllConsumed<D>(codec: Codec<D>, start: Parser, p: Parser, events: seq<SSEEvent<D>>)
    requires Consumed(codec, start, p, events) && IndexOf(p.buffer, '\n') == |p.buffer|
    ensures Consume(codec, start) == Step(p, events, true)
  {
  }

  /** The client's parser. A malformed payload is an exception, and the events of that call are lost. */
  class SSEParser<D> {
    const codec: Codec<D>
    var buffer: string
    var eventName: string
    var eventId: Option<string>
    var dataLines: seq<string>

    constructor (codec: Codec<D>)
      ensures this.codec == codec && Fields() == START
    {
      this.codec := codec;
      buffer, eventName, eventId, dataLines := "", "message", None, [];
    }

    function Fields(): Parser
      reads this
    {
      Parser(buffer, eventName, eventId, dataLines)
    }

    method Feed(fragment: string, final: bool) returns (r: Result<seq<SSEEvent<D>>, string>)
      modifies this
      ensures var step := FeedStep(codec, old(Fields()), fragment, final);
              Fields() == step.parser && (step.ok ==> r == Ok(step.events)) && (!step.ok ==> r.Err?)
    {
      ghost var start := Fields().(buffer := buffer + fragment);
      buffer := buffer + fragment;
      var events: seq<SSEEvent<D>> := [];
      assert [] + Consume(codec, start).events == Consume(codec, start).events;
      var newline := IndexOf(buffer, '\n');
      while newline < |buffer|
        invariant newline == IndexOf(buffer, '\n')
        invariant Consumed(codec, start, Fields(), events)
        decreases |buffer|
      {
        var raw := Chomp(buffer[..newline]);
        OneMoreLine(codec, start, Fields(), events, newline);
        buffer := buffer[newline + 1..];
        LineKeepsBuffer(codec, Fields(), raw);
        var found := Line(raw);
        if found.Err? {
          return Err(found.error);
        }
        events := events + found.value;
        newline := IndexOf(buffer, '\n');
      }
      AllConsumed(codec, start, Fields(), events);
      if final {
        r := Close(events);
      } else {
        r := Ok(events);
      }
    }

    /** The end of the stream: the unfinished line, then the unfinished event. */
    method Close(events: seq<SSEEvent<D>>) returns (r: Result<seq<SSEEvent<D>>, string>)
      modifies this
      ensures var step := CloseStep(codec, Step(old(Fields()), events, true));
              Fields() == step.parser && (step.ok ==> r == Ok(step.events)) && (!step.ok ==> r.Err?)
    {
      var all := events;
      if buffer != "" {
        var found := Line(Chomp(buffer));
        if found.Err? {
          return Err(found.error);
        }
        all := all + found.value;
        buffer := "";
      }
      if dataLines != [] {
        var last := Dispatch();
        if last.Err? {
          return Err(last.error);
        }
        all := all + [last.value];
      }
      assert events + [] == events && all + [] == all;
      return Ok(all);
    }

    method Line(line: string) returns (r: Result<seq<SSEEvent<D>>, string>)
      modifies this
      ensures var step := LineStep(codec, old(Fields()), line);
              Fields() == step.parser && (step.ok ==> r == Ok(step.events)) && (!step.ok ==> r.Err?)
    {
      if line == "" {
        if dataLines != [] {
          var event := Dispatch();
          return if event.Ok? then Ok([event.value]) else Err(event.error);
        }
        return Ok([]);
      }
      if line[0] == ':' {
        return Ok([]);
      }
      var field, value := FieldOf(line), ValueOf(line);
      if field == "event" {
        eventName := value;
      } else if field == "id" && '\0' !in value {
        eventId := Some(value);
      } else if field == "data" {
        dataLines := dataLines + [value];
      }
      return Ok([]);
    }

    method Dispatch() returns (r: Result<SSEEvent<D>, string>)
      modifies this
      ensures var step := DispatchStep(codec, old(Fields()));
              Fields() == step.parser && (step.ok ==> r.Ok? && [r.value] == step.events) && (!step.ok ==> r.Err?)
    {
      var data := codec.parse(Join(dataLines));
      if data.None? {
        return Err("invalid SSE payload");
      }
      r := Ok(SSEEvent(eventName, data.value, eventId));
      eventName, eventId, dataLines := "message", None, [];
    }
  }
}
