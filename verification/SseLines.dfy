/** The grammar of the event stream as the client reads it, line by line, stated on the text. */
module SseLines {
  import opened Basics
  import opened Wrappers
  import opened Sse

  /** What a field does to the event being read. */
  function WithField(p: Parser, field: string, value: string): Parser {
    match field
    case "event" => p.(name := value)
    case "data" => p.(data := p.data + [value])
    case "id" => if '\0' in value then p else p.(id := Some(value))
    case _ => p
  }

  lemma FieldAndValue(field: string, rest: string)
    requires ':' !in field
    ensures FieldOf(field + ":" + rest) == field
    ensures ValueOf(field + ":" + rest) == if rest != "" && rest[0] == ' ' then rest[1..] else rest
  {
    var line := field + ":" + rest;
    assert line[..|field|] == field && line[|field| + 1..] == rest && line[|field|] == ':';
    IndexOfIs(line, ':', |field|);
  }

  /** A field and its value are parted by the first colon; one space after it is dropped; an unknown field is ignored. */
  lemma FieldLineExactly<D>(codec: Codec<D>, p: Parser, field: string, rest: string)
    requires field != "" && ':' !in field
    ensures LineStep(codec, p, field + ":" + rest) == Step(WithField(p, field, if rest != "" && rest[0] == ' ' then rest[1..] else rest), [], true)
  {
    var line := field + ":" + rest;
    assert line[0] == field[0] && field[0] in field;
    FieldAndValue(field, rest);
  }

  /** A line without a colon is a field with an empty value. */
  lemma BareFieldLine<D>(codec: Codec<D>, p: Parser, field: string)
    requires field != "" && ':' !in field
    ensures LineStep(codec, p, field) == Step(WithField(p, field, ""), [], true)
  {
    assert field[..|field|] == field && field[0] in field;
    IndexOfIs(field, ':', |field|);
  }

  /** A line that begins with a colon is a comment. */
  lemma CommentLine<D>(codec: Codec<D>, p: Parser, rest: string)
    ensures LineStep(codec, p, ":" + rest) == Step(p, [], true)
  {
    assert (":" + rest)[0] == ':';
  }

  /** A blank line completes an event that has data, and starts afresh; without data it does nothing. */
  lemma BlankLineExactly<D>(codec: Codec<D>, p: Parser, d: D)
    ensures p.data == [] ==> LineStep(codec, p, "") == Step(p, [], true)
    ensures p.data != [] && codec.parse(Join(p.data)) == Some(d) ==>
              LineStep(codec, p, "") == Step(Parser(p.buffer, "message", None, []), [SSEEvent(p.name, d, p.id)], true)
    ensures p.data != [] && codec.parse(Join(p.data)) == None ==> LineStep(codec, p, "") == Step(p, [], false)
  {
  }

  /** The lines of data of one event are joined by line feeds. */
  lemma JoinExactly(lines: seq<string>, line: string)
    ensures Join([line]) == line
    ensures lines != [] ==> Join(lines + [line]) == Join(lines) + "\n" + line
  {
    var more := lines + [line];
    assert more[..|lines|] == lines && more[|lines|] == line;
  }

  /** One more line of data. */
  lemma DataLineExactly<D>(codec: Codec<D>, p: Parser, prefix: string, value: string)
    requires p.data != [] && prefix == "data: "
    ensures Join(LineStep(codec, p, prefix + value).parser.data) == Join(p.data) + "\n" + value
  {
    FieldLine("data", prefix, value);
    assert (prefix + value)[0] == prefix[0] == 'd';
    JoinExactly(p.data, value);
  }

  lemma FirstLineFeed(line: string, rest: string, buffer: string)
    requires '\n' !in line && buffer == line + "\n" + rest
    ensures |line| < |buffer| && '\n' !in buffer[..|line|] && buffer[|line|] == '\n' && buffer[..|line|] == line && buffer[|line| + 1..] == rest
  {
  }

  /** One carriage return before a line feed belongs to the line's end. */
  lemma ReturnBeforeLineFeed<D>(codec: Codec<D>, p: Parser, line: string, rest: string)
    requires OneLine(line)
    ensures Consume(codec, p.(buffer := (line + "\r") + "\n" + rest)) == Consume(codec, p.(buffer := line + "\n" + rest))
  {
    var ended := line + "\r";
    var a, b := p.(buffer := ended + "\n" + rest), p.(buffer := line + "\n" + rest);
    assert ended[|ended| - 1] == '\r' && ended[..|ended| - 1] == line;
    FirstLineFeed(ended, rest, a.buffer);
    FirstLineFeed(line, rest, b.buffer);
    ConsumeStep(codec, a, |ended|);
    ConsumeStep(codec, b, |line|);
  }

  /** A blank line at the end of the buffer. */
  lemma LastBlankLine<D>(codec: Codec<D>, p: Parser, feed: string)
    requires feed == "\n" && p.buffer == feed
    ensures Consume(codec, p) == LineStep(codec, p.(buffer := ""), "")
  {
    var first := LineStep(codec, p.(buffer := ""), "");
    assert feed == "" + "\n" + "";
    FirstLineFeed("", "", feed);
    ConsumeStep(codec, p, 0);
    LineKeepsBuffer(codec, p.(buffer := ""), "");
    ConsumeNothing(codec, first.parser);
    assert first.events + [] == first.events;
  }

  /** Two line feeds after an unfinished line: the line, and the blank line after it. */
  lemma TwoLineFeeds<D>(codec: Codec<D>, p: Parser, feed: string)
    requires '\n' !in p.buffer && feed == "\n"
    ensures var first := LineStep(codec, p.(buffer := feed), Chomp(p.buffer));
            FeedStep(codec, p, feed + feed, false) == Then(first, if first.ok then LineStep(codec, first.parser.(buffer := ""), "") else first)
  {
    var more := p.(buffer := p.buffer + (feed + feed));
    assert more.buffer == p.buffer + "\n" + feed;
    FirstLineFeed(p.buffer, feed, more.buffer);
    ConsumeStep(codec, more, |p.buffer|);
    var first := LineStep(codec, p.(buffer := feed), Chomp(p.buffer));
    LineKeepsBuffer(codec, p.(buffer := feed), Chomp(p.buffer));
    if first.ok {
      LastBlankLine(codec, first.parser, feed);
    }
  }

  lemma ClosedExactly<D>(codec: Codec<D>, p: Parser)
    requires '\n' !in p.buffer
    ensures FeedStep(codec, p, "", true) == CloseStep(codec, Step(p, [], true))
  {
    assert p.buffer + "" == p.buffer;
    ConsumeNothing(codec, p);
  }

  /** The end of the stream ends the last line and the last event: it is as if two line feeds had come. */
  lemma EndOfStream<D>(codec: Codec<D>, p: Parser, feed: string)
    requires '\n' !in p.buffer && feed == "\n"
    ensures var end := FeedStep(codec, p, "", true); var fed := FeedStep(codec, p, feed + feed, false);
            end.ok == fed.ok && (end.ok ==> end.events == fed.events)
  {
    ClosedExactly(codec, p);
    TwoLineFeeds(codec, p, feed);
    LineKeepsBuffer(codec, p, Chomp(p.buffer));
  }
}
