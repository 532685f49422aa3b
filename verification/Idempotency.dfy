/** Idempotent chat requests of one user: claims (backend/app/core/idempotency.py) and the coordinator's transactions
    around them (backend/app/chat/orchestrator.py).

    The request hash is injective on requests, so rows hold the request itself. */
module Idempotency {
  import opened Wrappers
  import ChatStream

  type Key = string
  type Transcript = seq<ChatStream.Event>

  newtype RequestId = n: int | 0 <= n
  newtype SessionId = n: int | 0 <= n
  newtype AssistantId = n: int | 0 <= n
  newtype StreamId = n: int | 0 <= n

  datatype Request = Request(session: SessionId, message: string, options: string, requestId: RequestId)

  datatype Status = InProgress | Completed | Failed

  datatype Row = Row(request: Request, status: Status, response: Option<Transcript>, expiresAt: int)

  datatype UserMessage = UserMessage(session: SessionId, content: string)

  datatype Assistant = Assistant(requestId: RequestId, session: SessionId, transcript: Transcript)

  /** A stream that was accepted and has not ended: its worker may still complete the claim. */
  datatype Stream = Stream(key: Key, request: Request)

  /** The tables, and the live streams. User messages are unique by client request id. */
  datatype System = System(
    rows: map<Key, Row>,
    messages: map<RequestId, UserMessage>,
    assistants: map<AssistantId, Assistant>,
    streams: map<StreamId, Stream>)

  datatype ClaimState = Claimed | Recovered | Busy | Replay(response: Option<Transcript>) | Conflict

  function ClaimOf(rows: map<Key, Row>, key: Key, request: Request, now: int): ClaimState {
    if key !in rows then Claimed
    else if rows[key].request != request then Conflict
    else if rows[key].status == Completed then Replay(rows[key].response)
    else if rows[key].status == InProgress && rows[key].expiresAt > now then Busy
    else Recovered
  }

  function ClaimedRows(rows: map<Key, Row>, key: Key, request: Request, now: int, ttl: nat): map<Key, Row> {
    if ClaimOf(rows, key, request, now) in {Claimed, Recovered} then rows[key := Row(request, InProgress, None, now + ttl)] else rows
  }

  /** What the caller of accept gets. */
  datatype Accepted = Streaming | Replayed(transcript: Transcript) | RequestConflict | RequestInProgress | SessionNotFound | BrokenReplay

  /** The user message of a request id belongs to another request. */
  predicate MessageConflict(s: System, request: Request, claim: ClaimState) {
    request.requestId in s.messages
    && (claim == Claimed || s.messages[request.requestId] != UserMessage(request.session, request.message))
  }

  function AcceptOutcome(s: System, key: Key, request: Request, owned: bool, now: int): Accepted {
    var claim := ClaimOf(s.rows, key, request, now);
    if !owned then SessionNotFound
    else if claim.Conflict? then RequestConflict
    else if claim.Busy? then RequestInProgress
    else if claim.Replay? then if claim.response.Some? then Replayed(claim.response.value) else BrokenReplay
    else if MessageConflict(s, request, claim) then RequestConflict
    else Streaming
  }

  function Accept(s: System, w: StreamId, key: Key, request: Request, owned: bool, now: int, ttl: nat): System {
    if AcceptOutcome(s, key, request, owned, now) != Streaming then s
    else
      System(ClaimedRows(s.rows, key, request, now, ttl),
             s.messages[request.requestId := UserMessage(request.session, request.message)],
             s.assistants,
             s.streams[w := Stream(key, request)])
  }

  function EndStream(s: System, w: StreamId): System {
    s.(streams := map x | x in s.streams && x != w :: s.streams[x])
  }

  predicate CanComplete(s: System, key: Key, owned: bool) {
    owned && key in s.rows && s.rows[key].status == InProgress
  }

  /** The answer and the completed claim are committed together, or the stream goes on to fail. */
  function Complete(s: System, w: StreamId, id: AssistantId, transcript: Transcript, owned: bool): System
    requires w in s.streams
  {
    var stream := s.streams[w];
    if !CanComplete(s, stream.key, owned) then s
    else
      EndStream(s.(assistants := s.assistants[id := Assistant(stream.request.requestId, stream.request.session, transcript)],
                   rows := s.rows[stream.key := s.rows[stream.key].(status := Completed, response := Some(transcript))]), w)
  }

  function FailedRows(rows: map<Key, Row>, key: Key): map<Key, Row> {
    if key in rows && rows[key].status != Completed then rows[key := rows[key].(status := Failed)] else rows
  }

  function Fail(s: System, w: StreamId): System
    requires w in s.streams
  {
    EndStream(s.(rows := FailedRows(s.rows, s.streams[w].key)), w)
  }

  function Prune(s: System, olderThan: int): System {
    s.(rows := map k | k in s.rows && s.rows[k].expiresAt >= olderThan :: s.rows[k])
  }

  datatype Event =
    | AcceptRequest(stream: StreamId, key: Key, request: Request, owned: bool, now: int, ttl: nat)
    | CompleteStream(stream: StreamId, id: AssistantId, transcript: Transcript, owned: bool)
    | FailStream(stream: StreamId)
    | CrashStream(stream: StreamId)
    | PruneRows(olderThan: int)

  predicate Enabled(s: System, e: Event) {
    match e
    case AcceptRequest(w, _, _, _, _, _) => w !in s.streams
    case CompleteStream(w, id, _, _) => w in s.streams && id !in s.assistants
    case FailStream(w) => w in s.streams
    case CrashStream(w) => w in s.streams
    case PruneRows(_) => true
  }

  function Apply(s: System, e: Event): System
    requires Enabled(s, e)
  {
    match e
    case AcceptRequest(w, key, request, owned, now, ttl) => Accept(s, w, key, request, owned, now, ttl)
    case CompleteStream(w, id, transcript, owned) => Complete(s, w, id, transcript, owned)
    case FailStream(w) => Fail(s, w)
    case CrashStream(w) => EndStream(s, w)
    case PruneRows(olderThan) => Prune(s, olderThan)
  }

  /** A completion commits on a row that another request has claimed meanwhile: it does not compare the two. */
  predicate Mismatches(s: System, e: Event) {
    && e.CompleteStream? && e.stream in s.streams && CanComplete(s, s.streams[e.stream].key, e.owned)
    && s.rows[s.streams[e.stream].key].request.requestId != s.streams[e.stream].request.requestId
  }

  /** Rows are pruned only when no worker still streams under them. */
  predicate Careful(s: System, e: Event) {
    e.PruneRows? ==> forall w :: w in s.streams && s.streams[w].key in s.rows ==> s.rows[s.streams[w].key].expiresAt >= e.olderThan
  }

  const FIRST := System(map[], map[], map[], map[])

  ghost predicate Run(ss: seq<System>, es: seq<Event>) {
    && |ss| == |es| + 1 && ss[0] == FIRST
    && forall i :: 0 <= i < |es| ==> Enabled(ss[i], es[i]) && ss[i + 1] == Apply(ss[i], es[i])
  }

  ghost predicate MatchedRun(ss: seq<System>, es: seq<Event>) {
    Run(ss, es) && forall i :: 0 <= i < |es| ==> !Mismatches(ss[i], es[i])
  }

  ghost predicate CarefulRun(ss: seq<System>, es: seq<Event>) {
    Run(ss, es) && forall i :: 0 <= i < |es| ==> Careful(ss[i], es[i])
  }

  /** Assistant message a answers request id r with a transcript. */
  predicate Answers(s: System, a: AssistantId, r: RequestId, transcript: Transcript) {
    a in s.assistants && s.assistants[a].requestId == r && s.assistants[a].transcript == transcript
  }

  ghost predicate Answered(s: System, r: RequestId, transcript: Transcript) {
    exists a :: Answers(s, a, r, transcript)
  }

  /** A row's user message is stored; it is completed exactly when its request is answered, with that answer. */
  ghost predicate RowOk(s: System, k: Key) {
    k in s.rows ==>
      var row := s.rows[k];
      && row.request.requestId in s.messages
      && s.messages[row.request.requestId] == UserMessage(row.request.session, row.request.message)
      && (row.status == Completed ==> row.response.Some? && Answered(s, row.request.requestId, row.response.value))
      && (row.status != Completed ==> forall a :: a in s.assistants ==> s.assistants[a].requestId != row.request.requestId)
  }

  predicate KeysDiffer(s: System, k: Key, l: Key) {
    k in s.rows && l in s.rows && k != l ==> s.rows[k].request.requestId != s.rows[l].request.requestId
  }

  predicate AnswersDiffer(s: System, a: AssistantId, b: AssistantId) {
    a in s.assistants && b in s.assistants && a != b ==> s.assistants[a].requestId != s.assistants[b].requestId
  }

  predicate AnswerOk(s: System, a: AssistantId) {
    a in s.assistants ==> s.assistants[a].requestId in s.messages
  }

  predicate StreamOk(s: System, w: StreamId) {
    w in s.streams ==> s.streams[w].key in s.rows && s.rows[s.streams[w].key].request == s.streams[w].request
  }

  /** What the tables keep. */
  ghost predicate TablesOk(s: System) {
    && (forall k {:trigger RowOk(s, k)} :: RowOk(s, k))
    && (forall k, l {:trigger KeysDiffer(s, k, l)} :: KeysDiffer(s, k, l))
    && (forall a, b {:trigger AnswersDiffer(s, a, b)} :: AnswersDiffer(s, a, b))
    && (forall a {:trigger AnswerOk(s, a)} :: AnswerOk(s, a))
  }

  /** With careful pruning, every live stream still has its own row. */
  ghost predicate StreamsOk(s: System) {
    forall w {:trigger StreamOk(s, w)} :: StreamOk(s, w)
  }

  /** A claim that was interrupted or expired is recovered with its own user message: recovery never conflicts. */
  lemma RecoveryNeverConflicts(s: System, key: Key, request: Request, now: int)
    requires TablesOk(s) && ClaimOf(s.rows, key, request, now) == Recovered
    ensures AcceptOutcome(s, key, request, true, now) == Streaming
  {
    assert RowOk(s, key);
  }

  lemma AcceptKeepsRow(s: System, w: StreamId, key: Key, request: Request, now: int, ttl: nat, k: Key)
    requires TablesOk(s) && AcceptOutcome(s, key, request, true, now) == Streaming
    ensures RowOk(Accept(s, w, key, request, true, now, ttl), k)
  {
    var t := Accept(s, w, key, request, true, now, ttl);
    assert RowOk(s, k) && RowOk(s, key);
    if k == key {
      forall a | a in s.assistants
        ensures s.assistants[a].requestId != request.requestId
      {
        assert AnswerOk(s, a);
      }
    } else if k in s.rows {
      assert KeysDiffer(s, k, key);
      if s.rows[k].status == Completed {
        var a :| Answers(s, a, s.rows[k].request.requestId, s.rows[k].response.value);
        assert Answers(t, a, s.rows[k].request.requestId, s.rows[k].response.value);
      }
    }
  }

  lemma AcceptKeepsTables(s: System, w: StreamId, key: Key, request: Request, now: int, ttl: nat)
    requires TablesOk(s) && AcceptOutcome(s, key, request, true, now) == Streaming
    ensures TablesOk(Accept(s, w, key, request, true, now, ttl))
  {
    var t := Accept(s, w, key, request, true, now, ttl);
    forall k ensures RowOk(t, k) {
      AcceptKeepsRow(s, w, key, request, now, ttl, k);
    }
    forall k, l ensures KeysDiffer(t, k, l) {
      assert KeysDiffer(s, k, l) && RowOk(s, k) && RowOk(s, l);
    }
    forall a, b ensures AnswersDiffer(t, a, b) {
      assert AnswersDiffer(s, a, b);
    }
    forall a ensures AnswerOk(t, a) {
      assert AnswerOk(s, a);
    }
  }

  /** A completion on a row of the same request id. */
  predicate Matches(s: System, w: StreamId) {
    && w in s.streams && CanComplete(s, s.streams[w].key, true)
    && s.rows[s.streams[w].key].request.requestId == s.streams[w].request.requestId
  }

  lemma CompleteKeepsRow(s: System, w: StreamId, id: AssistantId, transcript: Transcript, k: Key)
    requires TablesOk(s) && id !in s.assistants && Matches(s, w)
    ensures RowOk(Complete(s, w, id, transcript, true), k)
  {
    var t, key := Complete(s, w, id, transcript, true), s.streams[w].key;
    assert RowOk(s, k) && RowOk(s, key);
    if k == key {
      assert Answers(t, id, s.streams[w].request.requestId, transcript);
    } else if k in s.rows {
      assert KeysDiffer(s, k, key);
      if s.rows[k].status == Completed {
        var a :| Answers(s, a, s.rows[k].request.requestId, s.rows[k].response.value);
        assert Answers(t, a, s.rows[k].request.requestId, s.rows[k].response.value);
      }
    }
  }

  lemma CompleteKeepsTables(s: System, w: StreamId, id: AssistantId, transcript: Transcript)
    requires TablesOk(s) && id !in s.assistants && Matches(s, w)
    ensures TablesOk(Complete(s, w, id, transcript, true))
  {
    var t, key := Complete(s, w, id, transcript, true), s.streams[w].key;
    assert RowOk(s, key);
    forall k ensures RowOk(t, k) {
      CompleteKeepsRow(s, w, id, transcript, k);
    }
    forall k, l ensures KeysDiffer(t, k, l) {
      assert KeysDiffer(s, k, l);
    }
    forall a, b ensures AnswersDiffer(t, a, b) {
      assert AnswersDiffer(s, a, b);
    }
    forall a ensures AnswerOk(t, a) {
      assert AnswerOk(s, a);
    }
  }

  /** The client that repeats this request is shown a transcript that is no answer to it. */
  ghost predicate Misleads(s: System, key: Key, request: Request, now: int, transcript: Transcript) {
    AcceptOutcome(s, key, request, true, now) == Replayed(transcript) && !Answered(s, request.requestId, transcript)
  }

  lemma MismatchMisleads(s: System, e: Event)
    requires TablesOk(s) && Enabled(s, e) && Mismatches(s, e)
    ensures var row := s.rows[s.streams[e.stream].key];
            Misleads(Apply(s, e), s.streams[e.stream].key, row.request, 0, e.transcript)
  {
    var key := s.streams[e.stream].key;
    assert RowOk(s, key);
    assert forall a :: a in s.assistants ==> s.assistants[a].requestId != s.rows[key].request.requestId;
  }

  lemma TablesDoNotMislead(s: System, key: Key, request: Request, now: int, transcript: Transcript)
    requires TablesOk(s)
    ensures !Misleads(s, key, request, now, transcript)
  {
    assert RowOk(s, key);
  }

  predicate KeptOrFailed(s: System, t: System, k: Key) {
    k in t.rows && k in s.rows && t.rows[k].request == s.rows[k].request
    && (t.rows[k] == s.rows[k] || (s.rows[k].status != Completed && t.rows[k].status == Failed))
  }

  /** Steps that only fail rows, drop rows or end streams. */
  lemma RowsShrink(s: System, t: System)
    requires TablesOk(s) && t.messages == s.messages && t.assistants == s.assistants
    requires forall k :: k in t.rows ==> KeptOrFailed(s, t, k)
    ensures TablesOk(t)
  {
    forall k ensures RowOk(t, k) {
      assert RowOk(s, k);
      if k in t.rows && t.rows[k].status == Completed {
        var a :| Answers(s, a, s.rows[k].request.requestId, s.rows[k].response.value);
        assert Answers(t, a, s.rows[k].request.requestId, s.rows[k].response.value);
      }
    }
    forall k, l ensures KeysDiffer(t, k, l) {
      assert KeysDiffer(s, k, l);
    }
    forall a, b ensures AnswersDiffer(t, a, b) {
      assert AnswersDiffer(s, a, b);
    }
    forall a ensures AnswerOk(t, a) {
      assert AnswerOk(s, a);
    }
  }

  lemma MatchedEventKeepsTables(s: System, e: Event)
    requires TablesOk(s) && Enabled(s, e) && !Mismatches(s, e)
    ensures TablesOk(Apply(s, e))
  {
    match e
    case AcceptRequest(w, key, request, owned, now, ttl) =>
      if AcceptOutcome(s, key, request, owned, now) == Streaming {
        AcceptKeepsTables(s, w, key, request, now, ttl);
      }
    case CompleteStream(w, id, transcript, owned) =>
      if CanComplete(s, s.streams[w].key, owned) {
        CompleteKeepsTables(s, w, id, transcript);
      }
    case FailStream(w) => RowsShrink(s, Fail(s, w));
    case CrashStream(w) => RowsShrink(s, EndStream(s, w));
    case PruneRows(olderThan) => RowsShrink(s, Prune(s, olderThan));
  }

  /** A step keeps the tables in order exactly when it is not a completion for one request on the row of another: the
      comparison that completing a claim lacks. */
  lemma EventKeepsTablesExactly(s: System, e: Event)
    requires TablesOk(s) && Enabled(s, e)
    ensures TablesOk(Apply(s, e)) <==> !Mismatches(s, e)
  {
    if Mismatches(s, e) {
      var key := s.streams[e.stream].key;
      MismatchMisleads(s, e);
      if TablesOk(Apply(s, e)) {
        TablesDoNotMislead(Apply(s, e), key, s.rows[key].request, 0, e.transcript);
      }
    } else {
      MatchedEventKeepsTables(s, e);
    }
  }

  lemma EventKeepsStreams(s: System, e: Event)
    requires StreamsOk(s) && Enabled(s, e) && Careful(s, e)
    ensures StreamsOk(Apply(s, e))
  {
    forall w ensures StreamOk(Apply(s, e), w) {
      assert StreamOk(s, w);
    }
  }

  lemma StreamsMatch(s: System, e: Event)
    requires StreamsOk(s)
    ensures !Mismatches(s, e)
  {
    if e.CompleteStream? {
      assert StreamOk(s, e.stream);
    }
  }

  lemma {:induction false} CarefulRunKeepsStreams(ss: seq<System>, es: seq<Event>, i: nat)
    requires CarefulRun(ss, es) && i < |ss|
    ensures StreamsOk(ss[i])
  {
    if i > 0 {
      CarefulRunKeepsStreams(ss, es, i - 1);
      EventKeepsStreams(ss[i - 1], es[i - 1]);
    }
  }

  /** Careful pruning is enough for completions to match. */
  lemma CarefulRunIsMatched(ss: seq<System>, es: seq<Event>)
    requires CarefulRun(ss, es)
    ensures MatchedRun(ss, es)
  {
    forall i | 0 <= i < |es|
      ensures !Mismatches(ss[i], es[i])
    {
      CarefulRunKeepsStreams(ss, es, i);
      StreamsMatch(ss[i], es[i]);
    }
  }

  lemma {:induction false} MatchedPrefixIsOk(ss: seq<System>, es: seq<Event>, i: nat)
    requires Run(ss, es) && i < |ss| && forall k :: 0 <= k < i ==> !Mismatches(ss[k], es[k])
    ensures TablesOk(ss[i])
  {
    if i > 0 {
      MatchedPrefixIsOk(ss, es, i - 1);
      EventKeepsTablesExactly(ss[i - 1], es[i - 1]);
    }
  }

  /** The first mismatch of a run comes from tables in order, and misleads at once. */
  lemma {:induction false} FirstMismatch(ss: seq<System>, es: seq<Event>, k: nat) returns (i: nat, key: Key, request: Request, transcript: Transcript)
    requires Run(ss, es) && k < |es| && Mismatches(ss[k], es[k])
    ensures i < |ss| && Misleads(ss[i], key, request, 0, transcript)
  {
    if j: nat :| j < k && Mismatches(ss[j], es[j]) {
      i, key, request, transcript := FirstMismatch(ss, es, j);
    } else {
      MatchedPrefixIsOk(ss, es, k);
      MismatchMisleads(ss[k], es[k]);
      key := ss[k].streams[es[k].stream].key;
      i, request, transcript := k + 1, ss[k].rows[key].request, es[k].transcript;
    }
  }

  ghost predicate Truthful(s: System) {
    forall key, request, now, transcript {:trigger Misleads(s, key, request, now, transcript)} ::
      !Misleads(s, key, request, now, transcript)
  }

  /** On every run: no client can ever be replayed what is no answer to its request, exactly when every committed
      completion is for the request that its row holds. */
  lemma ReplaysTruthfulExactly(ss: seq<System>, es: seq<Event>)
    requires Run(ss, es)
    ensures (forall i :: 0 <= i < |ss| ==> Truthful(ss[i])) <==> MatchedRun(ss, es)
  {
    if MatchedRun(ss, es) {
      forall i | 0 <= i < |ss|
        ensures Truthful(ss[i])
      {
        MatchedPrefixIsOk(ss, es, i);
        forall key, request, now, transcript ensures !Misleads(ss[i], key, request, now, transcript) {
          TablesDoNotMislead(ss[i], key, request, now, transcript);
        }
      }
    } else {
      var k: nat :| k < |es| && Mismatches(ss[k], es[k]);
      var i, key, request, transcript := FirstMismatch(ss, es, k);
      assert !Truthful(ss[i]);
    }
  }

  /** Stored answers are never changed or removed. */
  lemma {:induction false} AnswersStay(ss: seq<System>, es: seq<Event>, i: nat, j: nat, a: AssistantId)
    requires Run(ss, es) && i <= j < |ss| && a in ss[i].assistants
    ensures a in ss[j].assistants && ss[j].assistants[a] == ss[i].assistants[a]
    decreases j - i
  {
    if i < j {
      assert ss[i + 1] == Apply(ss[i], es[i]);
      AnswersStay(ss, es, i + 1, j, a);
    }
  }

  /** At most one answer per client request id, over any interleaving of accepts, expiries, recoveries, completions,
      failures, crashes and prunings of any number of workers, as long as completions match. */
  lemma AtMostOneAnswer(ss: seq<System>, es: seq<Event>, i: nat, a: AssistantId, b: AssistantId)
    requires MatchedRun(ss, es) && i < |ss| && a in ss[i].assistants && b in ss[i].assistants
    requires ss[i].assistants[a].requestId == ss[i].assistants[b].requestId
    ensures a == b
  {
    MatchedPrefixIsOk(ss, es, i);
    assert AnswersDiffer(ss[i], a, b);
  }

  /** The result of the accept made by event i. */
  predicate Replays(ss: seq<System>, es: seq<Event>, i: nat, r: RequestId, transcript: Transcript) {
    && i < |es| && i < |ss| && es[i].AcceptRequest? && es[i].request.requestId == r
    && AcceptOutcome(ss[i], es[i].key, es[i].request, es[i].owned, es[i].now) == Replayed(transcript)
  }

  /** A replay returns the transcript that was committed with the one answer to the request. */
  lemma ReplayIsCommitted(ss: seq<System>, es: seq<Event>, i: nat, r: RequestId, transcript: Transcript)
    requires MatchedRun(ss, es) && Replays(ss, es, i, r, transcript)
    ensures Answered(ss[i], r, transcript)
    ensures forall a :: a in ss[i].assistants && ss[i].assistants[a].requestId == r ==> ss[i].assistants[a].transcript == transcript
  {
    MatchedPrefixIsOk(ss, es, i);
    assert RowOk(ss[i], es[i].key);
    var a :| Answers(ss[i], a, r, transcript);
    forall b | b in ss[i].assistants && ss[i].assistants[b].requestId == r
      ensures ss[i].assistants[b].transcript == transcript
    {
      assert AnswersDiffer(ss[i], a, b);
    }
  }

  /** So all replays of a request agree, for good. */
  lemma ReplaysAgree(ss: seq<System>, es: seq<Event>, i: nat, j: nat, r: RequestId, first: Transcript, second: Transcript)
    requires MatchedRun(ss, es) && i <= j && Replays(ss, es, i, r, first) && Replays(ss, es, j, r, second)
    ensures first == second
  {
    ReplayIsCommitted(ss, es, i, r, first);
    ReplayIsCommitted(ss, es, j, r, second);
    var a :| Answers(ss[i], a, r, first);
    AnswersStay(ss, es, i, j, a);
  }

  /** A broken replay cannot happen. */
  lemma ReplayIsWhole(ss: seq<System>, es: seq<Event>, i: nat)
    requires MatchedRun(ss, es) && i < |es| && es[i].AcceptRequest?
    ensures AcceptOutcome(ss[i], es[i].key, es[i].request, es[i].owned, es[i].now) != BrokenReplay
  {
    MatchedPrefixIsOk(ss, es, i);
    assert RowOk(ss[i], es[i].key);
  }

  /** A mismatch comes from pruning a row under a live stream: here one request's answer is replayed for another, which
      has no answer of its own. */
  lemma PruningUnderStreamMisleads(key: Key, mine: Request, other: Request, transcript: Transcript) returns (ss: seq<System>, es: seq<Event>)
    requires mine.requestId != other.requestId
    ensures Run(ss, es) && |es| == 5 && Replays(ss, es, 4, other.requestId, transcript)
    ensures forall a :: a in ss[4].assistants ==> ss[4].assistants[a].requestId == mine.requestId
  {
    var accept, prune := AcceptRequest(0, key, mine, true, 0, 1), PruneRows(2);
    var again, complete := AcceptRequest(1, key, other, true, 2, 1), CompleteStream(0, 0, transcript, true);
    var retry := AcceptRequest(2, key, other, true, 2, 1);
    var s1 := Apply(FIRST, accept);
    var s2 := Apply(s1, prune);
    var s3 := Apply(s2, again);
    assert key !in s2.rows && s3.streams[0] == Stream(key, mine);
    var s4 := Apply(s3, complete);
    var s5 := Apply(s4, retry);
    ss, es := [FIRST, s1, s2, s3, s4, s5], [accept, prune, again, complete, retry];
    assert Run(ss, es);
    assert s4.rows[key] == Row(other, Completed, Some(transcript), 3);
  }

  lemma RunExtends(ss: seq<System>, es: seq<Event>, e: Event)
    requires Run(ss, es) && Enabled(ss[|es|], e)
    ensures Run(ss + [Apply(ss[|es|], e)], es + [e])
  {
  }

  /** A request accepted, recovered after its expiry, answered by the second worker, and pruned under the first. */
  lemma AnsweredThenPruned(key: Key, mine: Request, transcript: Transcript) returns (ss: seq<System>, es: seq<Event>)
    ensures Run(ss, es) && |es| == 4
    ensures ss[4] == System(map[], map[mine.requestId := UserMessage(mine.session, mine.message)],
                            map[0 := Assistant(mine.requestId, mine.session, transcript)], map[0 := Stream(key, mine)])
  {
    var accept, recover := AcceptRequest(0, key, mine, true, 0, 1), AcceptRequest(1, key, mine, true, 1, 1);
    var complete, prune := CompleteStream(1, 0, transcript, true), PruneRows(3);
    var s1 := Apply(FIRST, accept);
    var s2 := Apply(s1, recover);
    assert s2.rows[key] == Row(mine, InProgress, None, 2) && s2.streams == map[0 := Stream(key, mine), 1 := Stream(key, mine)];
    var s3 := Apply(s2, complete);
    assert s3.streams == map[0 := Stream(key, mine)];
    var s4 := Apply(s3, prune);
    assert s4.rows == map[];
    ss, es := [FIRST, s1, s2, s3, s4], [accept, recover, complete, prune];
  }

  /** Another request claims the key, and the first worker goes on: two answers to one request. */
  lemma PruningUnderStreamAnswersTwice(key: Key, mine: Request, other: Request, transcript: Transcript) returns (ss: seq<System>, es: seq<Event>)
    requires mine.requestId != other.requestId
    ensures Run(ss, es) && |es| == 6
    ensures 0 in ss[6].assistants && 1 in ss[6].assistants
    ensures ss[6].assistants[0].requestId == mine.requestId == ss[6].assistants[1].requestId
  {
    ss, es := AnsweredThenPruned(key, mine, transcript);
    var claim, again := AcceptRequest(1, key, other, true, 3, 1), CompleteStream(0, 1, transcript, true);
    var s5 := Apply(ss[4], claim);
    RunExtends(ss, es, claim);
    assert s5.rows[key] == Row(other, InProgress, None, 4) && s5.streams[0] == Stream(key, mine);
    ss, es := ss + [s5], es + [claim];
    RunExtends(ss, es, again);
    ss, es := ss + [Apply(s5, again)], es + [again];
  }

  /** The tables, and the transactions on them. Live streams are known to nobody: they are a parameter of the view. */
  class ChatTables {
    var rows: map<Key, Row>
    var messages: map<RequestId, UserMessage>
    var assistants: map<AssistantId, Assistant>

    constructor ()
      ensures View(map[]) == FIRST
    {
      rows, messages, assistants := map[], map[], map[];
    }

    function View(streams: map<StreamId, Stream>): System
      reads this
    {
      System(rows, messages, assistants, streams)
    }

    /** `claim_idempotency`: insert unless the key exists, else decide on the existing row. */
    method Claim(key: Key, request: Request, now: int, ttl: nat) returns (claim: ClaimState)
      modifies this`rows
      ensures claim == ClaimOf(old(rows), key, request, now)
      ensures rows == ClaimedRows(old(rows), key, request, now, ttl)
    {
      if key !in rows {
        rows := rows[key := Row(request, InProgress, None, now + ttl)];
        return Claimed;
      }
      var record := rows[key];
      if record.request != request {
        return Conflict;
      }
      if record.status == Completed {
        return Replay(record.response);
      }
      if record.status == InProgress && record.expiresAt > now {
        return Busy;
      }
      rows := rows[key := record.(status := InProgress, response := None, expiresAt := now + ttl)];
      return Recovered;
    }

    /** `accept`: claims the key and stores the user message, or rolls everything back. */
    method AcceptChat(key: Key, request: Request, owned: bool, now: int, ttl: nat, w: StreamId, ghost streams: map<StreamId, Stream>)
      returns (outcome: Accepted)
      modifies this
      ensures outcome == AcceptOutcome(old(View(streams)), key, request, owned, now)
      ensures View(if outcome == Streaming then streams[w := Stream(key, request)] else streams)
              == Accept(old(View(streams)), w, key, request, owned, now, ttl)
    {
      if !owned {
        return SessionNotFound;
      }
      var saved := rows;
      var claim := Claim(key, request, now, ttl);
      if claim == Conflict {
        return RequestConflict;
      }
      if claim == Busy {
        return RequestInProgress;
      }
      if claim.Replay? {
        return if claim.response.Some? then Replayed(claim.response.value) else BrokenReplay;
      }
      if request.requestId in messages {
        var existing := messages[request.requestId];
        if claim == Claimed || existing.session != request.session || existing.content != request.message {
          rows := saved;
          return RequestConflict;
        }
      } else {
        messages := messages[request.requestId := UserMessage(request.session, request.message)];
      }
      return Streaming;
    }

    /** `_persist` with `complete_idempotency`: one transaction for the answer and the claim. */
    method Persist(stream: Stream, id: AssistantId, transcript: Transcript, owned: bool, w: StreamId, ghost streams: map<StreamId, Stream>)
      returns (committed: bool)
      requires w in streams && streams[w] == stream
      modifies this
      ensures committed == CanComplete(old(View(streams)), stream.key, owned)
      ensures committed ==> View(EndStream(old(View(streams)), w).streams) == Complete(old(View(streams)), w, id, transcript, owned)
      ensures !committed ==> View(streams) == Complete(old(View(streams)), w, id, transcript, owned) == old(View(streams))
    {
      if !owned {
        return false;
      }
      var saved := assistants;
      assistants := assistants[id := Assistant(stream.request.requestId, stream.request.session, transcript)];
      var completed := CompleteClaim(stream.key, transcript);
      if !completed {
        assistants := saved;
      }
      return completed;
    }

    /** Does not compare the request. */
    method CompleteClaim(key: Key, response: Transcript) returns (ok: bool)
      modifies this`rows
      ensures ok <==> key in old(rows) && old(rows)[key].status == InProgress
      ensures rows == if ok then old(rows)[key := old(rows)[key].(status := Completed, response := Some(response))] else old(rows)
    {
      if key !in rows || rows[key].status != InProgress {
        return false;
      }
      rows := rows[key := rows[key].(status := Completed, response := Some(response))];
      return true;
    }

    /** `fail_idempotency`: a completed claim stays completed. */
    method FailClaim(key: Key)
      modifies this`rows
      ensures rows == FailedRows(old(rows), key)
    {
      if key !in rows || rows[key].status == Completed {
        return;
      }
      rows := rows[key := rows[key].(status := Failed)];
    }

    /** The idempotency part of `prune_ephemeral_records`. */
    method PruneExpired(olderThan: int, ghost streams: map<StreamId, Stream>) returns (pruned: nat)
      modifies this`rows
      ensures View(streams) == Prune(old(View(streams)), olderThan)
      ensures pruned == |set k | k in old(rows) && old(rows)[k].expiresAt < olderThan|
    {
      pruned := |set k | k in rows && rows[k].expiresAt < olderThan|;
      rows := map k | k in rows && rows[k].expiresAt >= olderThan :: rows[k];
    }
  }
}
