/** One streamed answer, end to end: what the coordinator sends and stores (backend/app/chat/orchestrator.py) and what
    the client shows (frontend/src/lib/sse.ts). */
module ChatStream {
  import opened Basics
  import opened Wrappers
  import C = Citations
  import CT = CitationTheorems
  import opened Sse

  /** The fields of an event's data that the client looks at; absent fields are None. */
  datatype Payload = Payload(
    stage: Option<string>,
    text: Option<string>,
    items: Option<map<string, string>>,
    messageId: Option<string>,
    route: Option<string>,
    code: Option<string>,
    retryable: bool)

  const NOTHING := Payload(None, None, None, None, None, None, false)

  type Event = StreamEvent<Payload>

  function Status(stage: string): Event {
    StreamEvent("status", NOTHING.(stage := Some(stage)))
  }

  function Delta(text: string): Event {
    StreamEvent("delta", NOTHING.(text := Some(text)))
  }

  /** What one run of the generator, the gate and the other collaborators came to. */
  datatype Run = Run(
    grounded: bool,
    gateAnswers: bool,
    chunks: seq<string>,
    sources: map<string, string>,
    repair: (string, set<string>) -> string,
    noAnswer: string,
    assistantId: string)

  function AllowedOf(run: Run): set<string> {
    if run.grounded then run.sources.Keys else {}
  }

  /** The raw text of the generator. */
  function Raw(run: Run): string {
    Concat(run.chunks)
  }

  predicate Generates(run: Run) {
    !run.grounded || run.gateAnswers
  }

  /** The text one chunk lets through. */
  function PieceOf(before: string, chunk: string, allowed: set<string>): string {
    if chunk == "" then "" else C.Passed(C.Lex(before).held + chunk, allowed)
  }

  /** The pieces of all chunks, empty ones left out. */
  function Pieces(before: string, chunks: seq<string>, allowed: set<string>): seq<string>
    decreases |chunks|
  {
    if chunks == [] then []
    else
      var piece := PieceOf(before, chunks[0], allowed);
      (if piece == "" then [] else [piece]) + Pieces(before + chunks[0], chunks[1..], allowed)
  }

  function Deltas(pieces: seq<string>): seq<Event> {
    if pieces == [] then [] else [Delta(pieces[0])] + Deltas(pieces[1..])
  }

  /** The text that is stored as the assistant's message, its route and its citations. */
  datatype Answer = Answer(text: string, route: string, citations: map<string, string>)

  function CitationsFor(cited: seq<string>, sources: map<string, string>): map<string, string> {
    map id | id in sources && id in cited :: sources[id]
  }

  function Final(run: Run): Answer {
    if !Generates(run) then Answer(run.noAnswer, "no_answer", map[])
    else
      var text := run.repair(Raw(run), AllowedOf(run));
      var cited := C.Cited(text);
      if (run.grounded && cited == []) || text == "" then Answer(run.noAnswer, "no_answer", map[])
      else Answer(text, if run.grounded then "answer" else "conversation", CitationsFor(cited, run.sources))
  }

  function Opening(): seq<Event> {
    [StreamEvent("start", NOTHING), Status("planning"), Status("retrieving"), Status("reranking")]
  }

  function Body(run: Run): seq<Event> {
    if !Generates(run) then [Delta(run.noAnswer)]
    else
      [Status("generating")] + Deltas(Pieces("", run.chunks, AllowedOf(run)))
      + if Final(run).text != C.Scan(Raw(run), AllowedOf(run)) then [StreamEvent("replace", NOTHING.(text := Some(Final(run).text)))] else []
  }

  function Closing(run: Run): seq<Event> {
    [StreamEvent("citations", NOTHING.(items := Some(Final(run).citations))),
     StreamEvent("done", NOTHING.(messageId := Some(run.assistantId), route := Some(Final(run).route)))]
  }

  /** The transcript of a completed run: what is sent, and what is stored for replay. */
  function Transcript(run: Run): seq<Event> {
    Opening() + Body(run) + Closing(run)
  }

  /** `events`, up to the persisted answer: the text stored is the last value of `final_text`. */
  method Events(run: Run) returns (transcript: seq<Event>, answer: Answer)
    ensures transcript == Transcript(run) && answer == Final(run)
  {
    transcript := [StreamEvent("start", NOTHING)];
    var stages := ["planning", "retrieving", "reranking"];
    transcript := transcript + [Status(stages[0])] + [Status(stages[1])] + [Status(stages[2])];
    assert transcript == Opening();
    var body: seq<Event>;
    if run.grounded && !run.gateAnswers {
      answer := Answer(run.noAnswer, "no_answer", map[]);
      body := [Delta(answer.text)];
    } else {
      body, answer := Generate(run);
    }
    transcript := transcript + body;
    transcript := transcript + [StreamEvent("citations", NOTHING.(items := Some(answer.citations))),
                                StreamEvent("done", NOTHING.(messageId := Some(run.assistantId), route := Some(answer.route)))];
  }

  method Generate(run: Run) returns (transcript: seq<Event>, answer: Answer)
    requires Generates(run)
    ensures transcript == Body(run) && answer == Final(run)
  {
    var allowed := if run.grounded then run.sources.Keys else {};
    var sanitizer := new C.CitationStreamSanitizer(allowed, run.repair);
    var deltas := StreamDeltas(run, sanitizer);
    transcript := [Status("generating")] + deltas;
    var sanitized := sanitizer.Finish();
    var text, route, citations := sanitized.text, "answer", map[];
    if run.grounded && sanitized.citedSourceIds == [] {
      text, route := run.noAnswer, "no_answer";
    } else {
      citations := CitationsFor(sanitized.citedSourceIds, run.sources);
      if !run.grounded {
        route := "conversation";
      }
    }
    if text == "" {
      text, route, citations := run.noAnswer, "no_answer", map[];
    }
    answer := Answer(text, route, citations);
    if answer.text != sanitizer.emitted {
      transcript := transcript + [StreamEvent("replace", NOTHING.(text := Some(answer.text)))];
    }
  }

  lemma NextChunk(before: string, chunks: seq<string>, allowed: set<string>)
    requires chunks != []
    ensures var piece := PieceOf(before, chunks[0], allowed);
            Deltas(Pieces(before, chunks, allowed))
            == (if piece == "" then [] else [Delta(piece)]) + Deltas(Pieces(before + chunks[0], chunks[1..], allowed))
  {
    var piece, rest := PieceOf(before, chunks[0], allowed), Pieces(before + chunks[0], chunks[1..], allowed);
    if piece == "" {
      assert Pieces(before, chunks, allowed) == rest;
    } else {
      assert Pieces(before, chunks, allowed) == [piece] + rest;
      DeltasCons(piece, rest);
    }
  }

  lemma DeltasCons(piece: string, rest: seq<string>)
    ensures Deltas([piece] + rest) == [Delta(piece)] + Deltas(rest)
  {
  }

  /** So many deltas sent, and so many still to come. */
  ghost predicate Sent(run: Run, allowed: set<string>, deltas: seq<Event>, raw: string, chunks: seq<string>) {
    && Raw(run) == raw + Concat(chunks)
    && Deltas(Pieces("", run.chunks, allowed)) == deltas + Deltas(Pieces(raw, chunks, allowed))
  }

  lemma SentMore(run: Run, allowed: set<string>, deltas: seq<Event>, raw: string, chunks: seq<string>)
    requires Sent(run, allowed, deltas, raw, chunks) && chunks != []
    ensures var piece := PieceOf(raw, chunks[0], allowed);
            Sent(run, allowed, deltas + (if piece == "" then [] else [Delta(piece)]), raw + chunks[0], chunks[1..])
  {
    var piece := PieceOf(raw, chunks[0], allowed);
    NextChunk(raw, chunks, allowed);
    Associate(raw, chunks[0], Concat(chunks[1..]));
    Associate(deltas, if piece == "" then [] else [Delta(piece)], Deltas(Pieces(raw + chunks[0], chunks[1..], allowed)));
  }

  /** The loop over the generator's chunks. */
  method StreamDeltas(run: Run, sanitizer: C.CitationStreamSanitizer) returns (deltas: seq<Event>)
    requires sanitizer.Valid() && sanitizer.raw == ""
    modifies sanitizer
    ensures sanitizer.Valid() && sanitizer.raw == Raw(run)
    ensures deltas == Deltas(Pieces("", run.chunks, sanitizer.allowed))
  {
    deltas := [];
    for i := 0 to |run.chunks|
      invariant sanitizer.Valid()
      invariant Sent(run, sanitizer.allowed, deltas, sanitizer.raw, run.chunks[i..])
    {
      var chunk := run.chunks[i];
      SentMore(run, sanitizer.allowed, deltas, sanitizer.raw, run.chunks[i..]);
      assert run.chunks[i..][1..] == run.chunks[i + 1..];
      deltas := SendChunk(sanitizer, chunk, deltas);
    }
  }

  method SendChunk(sanitizer: C.CitationStreamSanitizer, chunk: string, sent: seq<Event>) returns (deltas: seq<Event>)
    requires sanitizer.Valid()
    modifies sanitizer
    ensures sanitizer.Valid() && sanitizer.raw == old(sanitizer.raw) + chunk
    ensures var piece := PieceOf(old(sanitizer.raw), chunk, sanitizer.allowed);
            deltas == sent + if piece == "" then [] else [Delta(piece)]
  {
    if chunk == "" {
      return sent;
    }
    C.PassedExtends(sanitizer.raw, chunk, sanitizer.allowed);
    var safe := sanitizer.Feed(chunk);
    deltas := sent;
    if safe != "" {
      deltas := deltas + [Delta(safe)];
    }
  }

  /** The pieces add up to what the sanitizer lets through, however the generator cut its text. */
  lemma {:induction false} PiecesAddUp(before: string, chunks: seq<string>, allowed: set<string>)
    ensures C.Passed(before, allowed) + Concat(Pieces(before, chunks, allowed)) == C.Passed(before + Concat(chunks), allowed)
    decreases |chunks|
  {
    if chunks == [] {
      assert before + "" == before;
    } else {
      var chunk, rest := chunks[0], Pieces(before + chunks[0], chunks[1..], allowed);
      var piece := PieceOf(before, chunk, allowed);
      PiecesAddUp(before + chunk, chunks[1..], allowed);
      C.PassedExtends(before, chunk, allowed);
      assert chunk == "" ==> before + chunk == before;
      assert Concat(Pieces(before, chunks, allowed)) == piece + Concat(rest) by {
        assert piece != "" ==> ([piece] + rest)[1..] == rest;
        assert piece == "" ==> [] + rest == rest;
      }
      Associate(C.Passed(before, allowed), piece, Concat(rest));
      Associate(before, chunk, Concat(chunks[1..]));
    }
  }

  /** The client's accumulator. */
  datatype Accumulator = Accumulator(
    answer: string,
    citations: map<string, string>,
    stages: seq<string>,
    messageId: Option<string>,
    route: Option<string>,
    errorCode: Option<string>,
    retryable: bool,
    started: bool,
    done: bool)

  const EMPTY := Accumulator("", map[], [], None, None, None, false, false, false)

  const STAGES := {"planning", "retrieving", "reranking", "generating"}

  /** Citations the client does not accept are left out. */
  type Validator = (string, string) -> bool

  function ValidCitations(valid: Validator, items: Option<map<string, string>>): map<string, string> {
    if items.None? then map[] else map id | id in items.value && valid(id, items.value[id]) :: items.value[id]
  }

  function ApplyEvent(valid: Validator, a: Accumulator, name: string, data: Payload): Accumulator {
    if name == "start" then EMPTY.(started := true)
    else if name == "status" then
      if data.stage.Some? && data.stage.value in STAGES then a.(stages := a.stages + [data.stage.value]) else a
    else if name == "delta" && data.text.Some? then a.(answer := a.answer + data.text.value)
    else if name == "replace" && data.text.Some? then a.(answer := data.text.value)
    else if name == "citations" then a.(citations := ValidCitations(valid, data.items))
    else if name == "done" then
      a.(messageId := if data.messageId.Some? then data.messageId else a.messageId,
         route := if data.route.Some? then data.route else a.route, done := true)
    else if name == "error" then
      a.(errorCode := Some(data.code.GetOr("chat_error")), retryable := data.retryable)
    else a
  }

  function Accumulate(valid: Validator, a: Accumulator, es: seq<Event>): Accumulator
    decreases |es|
  {
    if es == [] then a else Accumulate(valid, ApplyEvent(valid, a, es[0].name, es[0].data), es[1..])
  }

  function AccumulateParsed(valid: Validator, a: Accumulator, es: seq<SSEEvent<Payload>>): Accumulator
    decreases |es|
  {
    if es == [] then a else AccumulateParsed(valid, ApplyEvent(valid, a, es[0].event, es[0].data), es[1..])
  }

  class ChatAccumulator {
    const valid: Validator
    var answer: string
    var citations: map<string, string>
    var stages: seq<string>
    var messageId: Option<string>
    var route: Option<string>
    var errorCode: Option<string>
    var retryable: bool
    var started: bool
    var done: bool

    constructor (valid: Validator)
      ensures this.valid == valid && View() == EMPTY
    {
      this.valid := valid;
      answer, citations, stages, messageId, route, errorCode := "", map[], [], None, None, None;
      retryable, started, done := false, false, false;
    }

    function View(): Accumulator
      reads this
    {
      Accumulator(answer, citations, stages, messageId, route, errorCode, retryable, started, done)
    }

    method Apply(event: SSEEvent<Payload>)
      modifies this
      ensures View() == ApplyEvent(valid, old(View()), event.event, event.data)
    {
      var data := event.data;
      if event.event == "start" {
        answer, citations, stages, messageId, route, errorCode := "", map[], [], None, None, None;
        retryable, started, done := false, true, false;
      } else if event.event == "status" {
        if data.stage.Some? && data.stage.value in STAGES {
          stages := stages + [data.stage.value];
        }
      } else if event.event == "delta" && data.text.Some? {
        answer := answer + data.text.value;
      } else if event.event == "replace" && data.text.Some? {
        answer := data.text.value;
      } else if event.event == "citations" {
        citations := ValidCitations(valid, data.items);
      } else if event.event == "done" {
        if data.messageId.Some? {
          messageId := data.messageId;
        }
        if data.route.Some? {
          route := data.route;
        }
        done := true;
      } else if event.event == "error" {
        errorCode := if data.code.Some? then data.code else Some("chat_error");
        retryable := data.retryable;
      }
    }
  }

  lemma {:induction false} AccumulateConcat(valid: Validator, a: Accumulator, xs: seq<Event>, ys: seq<Event>)
    ensures Accumulate(valid, a, xs + ys) == Accumulate(valid, Accumulate(valid, a, xs), ys)
    decreases |xs|
  {
    if xs == [] {
      assert xs + ys == ys;
    } else {
      assert (xs + ys)[0] == xs[0] && (xs + ys)[1..] == xs[1..] + ys;
      AccumulateConcat(valid, ApplyEvent(valid, a, xs[0].name, xs[0].data), xs[1..], ys);
    }
  }

  /** Event ids make no difference to the accumulator. */
  lemma {:induction false} AccumulateNumbered(valid: Validator, a: Accumulator, es: seq<Event>, id: nat)
    ensures AccumulateParsed(valid, a, Numbered(es, id)) == Accumulate(valid, a, es)
    decreases |es|
  {
    if es != [] {
      var rest := Numbered(es[1..], id + 1);
      assert Numbered(es, id)[1..] == rest;
      AccumulateNumbered(valid, ApplyEvent(valid, a, es[0].name, es[0].data), es[1..], id + 1);
    }
  }

  lemma {:induction false} AccumulateDeltas(valid: Validator, a: Accumulator, pieces: seq<string>)
    ensures Accumulate(valid, a, Deltas(pieces)) == a.(answer := a.answer + Concat(pieces))
    decreases |pieces|
  {
    if pieces == [] {
      assert a.answer + "" == a.answer;
    } else {
      assert Deltas(pieces)[1..] == Deltas(pieces[1..]);
      AccumulateDeltas(valid, a.(answer := a.answer + pieces[0]), pieces[1..]);
      Associate(a.answer, pieces[0], Concat(pieces[1..]));
    }
  }

  lemma BracketIsHeld(s: string)
    requires s != "" && s[|s| - 1] == '['
    ensures C.Lex(s).held == "["
  {
    var before := s[..|s| - 1];
    assert s == before + "[";
    C.HeldIsOpen(before);
    C.LexExtends(before, "[");
    CT.OpenThenBracket(C.Lex(before).held, "[");
  }

  lemma HeldIsLast(s: string)
    requires C.Lex(s).held == "["
    ensures s != "" && s[|s| - 1] == '['
  {
    var before := C.Show(C.Lex(s).tokens);
    C.LexIsLossless(s);
    assert s == before + "[";
  }

  /** A lone bracket is held exactly when the text ends in one. */
  lemma HeldBracket(s: string)
    ensures C.Lex(s).held == "[" <==> s != "" && s[|s| - 1] == '['
  {
    if C.Lex(s).held == "[" {
      HeldIsLast(s);
    } else if s != "" && s[|s| - 1] == '[' {
      BracketIsHeld(s);
    }
  }

  /** The client after the opening events, and after the closing ones. */
  const OPENED := EMPTY.(started := true, stages := ["planning", "retrieving", "reranking"])

  function Closed(valid: Validator, a: Accumulator, run: Run): Accumulator {
    a.(citations := ValidCitations(valid, Some(Final(run).citations)), messageId := Some(run.assistantId), route := Some(Final(run).route), done := true)
  }

  lemma AccumulateOne(valid: Validator, a: Accumulator, e: Event)
    ensures Accumulate(valid, a, [e]) == ApplyEvent(valid, a, e.name, e.data)
  {
  }

  lemma AccumulateOpening(valid: Validator, a: Accumulator)
    ensures Accumulate(valid, a, Opening()) == OPENED
  {
  }

  lemma AccumulateClosing(valid: Validator, a: Accumulator, run: Run)
    ensures Accumulate(valid, a, Closing(run)) == Closed(valid, a, run)
  {
    var es := Closing(run);
    assert es[1..] == [es[1]];
    AccumulateOne(valid, a.(citations := ValidCitations(valid, Some(Final(run).citations))), es[1]);
  }

  /** The text the client shows when the last event before the citations has arrived. */
  function Shown(run: Run): string {
    if !Generates(run) then run.noAnswer
    else if Final(run).text != C.Scan(Raw(run), AllowedOf(run)) then Final(run).text
    else C.Passed(Raw(run), AllowedOf(run))
  }

  lemma AccumulateBody(valid: Validator, run: Run)
    ensures Accumulate(valid, OPENED, Body(run))
            == OPENED.(answer := Shown(run), stages := OPENED.stages + if Generates(run) then ["generating"] else [])
  {
    if Generates(run) {
      AccumulateGeneration(valid, run);
    } else {
      AccumulateOne(valid, OPENED, Delta(run.noAnswer));
      assert "" + run.noAnswer == run.noAnswer && OPENED.stages + [] == OPENED.stages;
    }
  }

  lemma AccumulateGeneration(valid: Validator, run: Run)
    requires Generates(run)
    ensures Accumulate(valid, OPENED, Body(run)) == OPENED.(answer := Shown(run), stages := OPENED.stages + ["generating"])
  {
    var raw, allowed := Raw(run), AllowedOf(run);
    var pieces := Pieces("", run.chunks, allowed);
    var started := OPENED.(stages := OPENED.stages + ["generating"]);
    var replaced := Final(run).text != C.Scan(raw, allowed);
    var last := if replaced then [StreamEvent("replace", NOTHING.(text := Some(Final(run).text)))] else [];
    AccumulateOne(valid, OPENED, Status("generating"));
    AccumulateConcat(valid, OPENED, [Status("generating")], Deltas(pieces));
    AccumulateDeltas(valid, started, pieces);
    AccumulateConcat(valid, OPENED, [Status("generating")] + Deltas(pieces), last);
    PiecesAddUp("", run.chunks, allowed);
    assert "" + raw == raw && C.Passed("", allowed) == "" && "" + Concat(pieces) == Concat(pieces);
    if replaced {
      AccumulateOne(valid, started.(answer := Concat(pieces)), last[0]);
    }
  }

  /** The client's state after a whole transcript, whatever it showed before. */
  lemma AccumulateTranscript(valid: Validator, a: Accumulator, run: Run)
    ensures Accumulate(valid, a, Transcript(run))
            == Closed(valid, OPENED.(answer := Shown(run), stages := OPENED.stages + if Generates(run) then ["generating"] else []), run)
  {
    AccumulateOpening(valid, a);
    AccumulateConcat(valid, a, Opening(), Body(run));
    AccumulateBody(valid, run);
    AccumulateConcat(valid, a, Opening() + Body(run), Closing(run));
    AccumulateClosing(valid, Accumulate(valid, a, Opening() + Body(run)), run);
  }

  /** The text that ends in "[" is streamed without it: when nothing else replaces the text, the client misses it. */
  predicate EndsInBracket(run: Run) {
    Raw(run) != "" && Raw(run)[|Raw(run)| - 1] == '['
  }

  /** End to end: for every chunk sequence and every fragmentation of the encoded response, the client ends up done, with
      the stored route, message and citations. It shows the stored text unless the generated text ends in "[" and is
      stored as it was streamed. */
  lemma ClientShowsStoredAnswer(codec: Codec<Payload>, valid: Validator, run: Run, fragments: seq<string>, a: Accumulator)
    requires Reads(codec) && Concat(fragments) == EncodeAll(codec, Transcript(run), 1)
    ensures FeedAll(codec, START, fragments).ok
    ensures var z := AccumulateParsed(valid, a, FeedAll(codec, START, fragments).events);
            && z.done && z.errorCode == None && z.route == Some(Final(run).route) && z.messageId == Some(run.assistantId)
            && z.citations == ValidCitations(valid, Some(Final(run).citations))
            && (z.answer == Final(run).text <==>
                  !(Generates(run) && EndsInBracket(run) && Final(run).text == C.Scan(Raw(run), AllowedOf(run))))
  {
    NamesAreLines(run);
    StreamArrives(codec, Transcript(run), fragments);
    AccumulateNumbered(valid, a, Transcript(run), 1);
    AccumulateTranscript(valid, a, run);
    HeldBracket(Raw(run));
    ShownIsStored(run);
  }

  lemma ShownIsStored(run: Run)
    ensures Shown(run) == Final(run).text <==>
              !(Generates(run) && C.Lex(Raw(run)).held == "[" && Final(run).text == C.Scan(Raw(run), AllowedOf(run)))
  {
  }

  /** Such a run: a generator that says "[" and no more. Nothing replaces the text, and the client shows none of it. */
  lemma LastBracketIsMissed(bracket: string) returns (run: Run)
    requires bracket == "["
    ensures Generates(run) && EndsInBracket(run) && Final(run).text == C.Scan(Raw(run), AllowedOf(run))
    ensures Final(run).text == bracket && Shown(run) == ""
  {
    run := Run(false, false, [bracket], map[], (text, allowed) => text, "", "");
    assert run.chunks[1..] == [] && Concat(run.chunks) == run.chunks[0] + Concat(run.chunks[1..]);
    assert bracket + "" == bracket && Raw(run) == bracket;
    HeldBracket(bracket);
    C.HeldIsOpen(bracket);
    assert C.Lex(bracket).tokens == [];
    assert C.Keep([], {}) == [];
  }

  /** An event that does not end the stream. */
  predicate Live(e: Event) {
    OneLine(e.name) && e.name != "done" && e.name != "error"
  }

  predicate AllLive(es: seq<Event>) {
    forall e :: e in es ==> Live(e)
  }

  lemma LiveConcat(xs: seq<Event>, ys: seq<Event>)
    requires AllLive(xs) && AllLive(ys)
    ensures AllLive(xs + ys)
  {
  }

  lemma StatusIsLive(stage: string)
    ensures Live(Status(stage))
  {
  }

  lemma OpeningIsLive()
    ensures AllLive(Opening())
  {
  }

  lemma {:induction false} DeltasAreLive(pieces: seq<string>)
    ensures AllLive(Deltas(pieces))
  {
    if pieces != [] {
      assert Live(Delta(pieces[0]));
      DeltasAreLive(pieces[1..]);
    }
  }

  lemma BodyIsLive(run: Run)
    ensures AllLive(Body(run))
  {
    if Generates(run) {
      var pieces, text := Pieces("", run.chunks, AllowedOf(run)), Final(run).text;
      DeltasAreLive(pieces);
      StatusIsLive("generating");
      LiveConcat([Status("generating")], Deltas(pieces));
      var last := StreamEvent("replace", NOTHING.(text := Some(text)));
      assert Live(last);
      LiveConcat([Status("generating")] + Deltas(pieces), [last]);
    } else {
      assert Live(Delta(run.noAnswer));
    }
  }

  lemma NamesAreLines(run: Run)
    ensures AllLive(Opening() + Body(run))
    ensures forall e :: e in Transcript(run) ==> OneLine(e.name)
  {
    OpeningIsLive();
    BodyIsLive(run);
    LiveConcat(Opening(), Body(run));
    assert OneLine("citations") && OneLine("done");
  }

  /** Replaying the stored transcript, over any connection, leaves the client where the first stream left it. */
  lemma ReplayShowsTheSame(codec: Codec<Payload>, valid: Validator, run: Run, live: seq<string>, replayed: seq<string>, a: Accumulator, b: Accumulator)
    requires Reads(codec)
    requires Concat(live) == EncodeAll(codec, Transcript(run), 1) && Concat(replayed) == EncodeAll(codec, Transcript(run), 1)
    ensures AccumulateParsed(valid, a, FeedAll(codec, START, live).events) == AccumulateParsed(valid, b, FeedAll(codec, START, replayed).events)
  {
    NamesAreLines(run);
    StreamArrives(codec, Transcript(run), live);
    StreamArrives(codec, Transcript(run), replayed);
    AccumulateNumbered(valid, a, Transcript(run), 1);
    AccumulateNumbered(valid, b, Transcript(run), 1);
    AccumulateTranscript(valid, a, run);
    AccumulateTranscript(valid, b, run);
  }

  /** A run that fails sends some of the transcript's events before the citations, then an error. */
  function FailedTranscript(run: Run, sent: nat, code: string, retryable: bool): seq<Event>
    requires sent <= |Opening() + Body(run)|
  {
    (Opening() + Body(run))[..sent] + [StreamEvent("error", NOTHING.(code := Some(code), retryable := retryable))]
  }

  lemma {:induction false} NotDoneYet(valid: Validator, a: Accumulator, es: seq<Event>)
    requires AllLive(es) && !a.done
    ensures !Accumulate(valid, a, es).done
    decreases |es|
  {
    if es != [] {
      assert es[0] in es;
      NotDoneYet(valid, ApplyEvent(valid, a, es[0].name, es[0].data), es[1..]);
    }
  }

  /** The client never takes a failed run for a finished one, and learns whether to try again. */
  lemma FailureIsShown(valid: Validator, run: Run, sent: nat, code: string, retryable: bool)
    requires sent <= |Opening() + Body(run)|
    ensures var z := Accumulate(valid, EMPTY, FailedTranscript(run, sent, code, retryable));
            !z.done && z.errorCode == Some(code) && z.retryable == retryable
  {
    NamesAreLines(run);
    LivePrefix(Opening() + Body(run), sent);
    ErrorLast(valid, (Opening() + Body(run))[..sent], code, retryable);
  }

  lemma LivePrefix(es: seq<Event>, n: nat)
    requires n <= |es| && AllLive(es)
    ensures AllLive(es[..n])
  {
  }

  lemma ErrorLast(valid: Validator, es: seq<Event>, code: string, retryable: bool)
    requires AllLive(es)
    ensures var z := Accumulate(valid, EMPTY, es + [StreamEvent("error", NOTHING.(code := Some(code), retryable := retryable))]);
            !z.done && z.errorCode == Some(code) && z.retryable == retryable
  {
    var e := StreamEvent("error", NOTHING.(code := Some(code), retryable := retryable));
    NotDoneYet(valid, EMPTY, es);
    AccumulateConcat(valid, EMPTY, es, [e]);
    AccumulateOne(valid, Accumulate(valid, EMPTY, es), e);
  }
}
