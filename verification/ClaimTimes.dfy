/** What repeating a chat request comes to, by the times of the events: on every run, whatever happens to other keys. */
module ClaimTimes {
  import opened Wrappers
  import opened Idempotency
  import opened SecondAnswers

  /** The event may change the row under the key: an accept or an end of a stream under it, or a pruning of it. */
  predicate Disturbs(s: System, e: Event, key: Key) {
    match e
    case AcceptRequest(_, k, _, _, _, _) => k == key
    case CompleteStream(w, _, _, _) => w in s.streams && s.streams[w].key == key
    case FailStream(w) => w in s.streams && s.streams[w].key == key
    case CrashStream(_) => false
    case PruneRows(olderThan) => key in s.rows && s.rows[key].expiresAt < olderThan
  }

  /** None of the events from i on, before j, does. */
  ghost predicate Quiet(ss: seq<System>, es: seq<Event>, i: nat, j: nat, key: Key)
    requires |ss| == |es| + 1 && j <= |es|
  {
    forall k :: i <= k < j ==> !Disturbs(ss[k], es[k], key)
  }

  /** The row under the key, and the user message of its request. */
  predicate Stored(s: System, key: Key, row: Row) {
    && key in s.rows && s.rows[key] == row && row.request.requestId in s.messages
    && s.messages[row.request.requestId] == UserMessage(row.request.session, row.request.message)
  }

  lemma EventKeepsStored(s: System, e: Event, key: Key, row: Row)
    requires KeysFixed(s) && Enabled(s, e) && Stored(s, key, row) && !Disturbs(s, e, key)
    ensures Stored(Apply(s, e), key, row)
  {
    assert RowFixed(s, key);
  }

  lemma {:induction false} StoredAlong(ss: seq<System>, es: seq<Event>, i: nat, j: nat, key: Key, row: Row)
    requires Run(ss, es) && i <= j <= |es| && Stored(ss[i], key, row) && Quiet(ss, es, i, j, key)
    ensures Stored(ss[j], key, row)
    decreases j
  {
    if i < j {
      StoredAlong(ss, es, i, j - 1, key, row);
      RunKeepsKeys(ss, es, j - 1);
      EventKeepsStored(ss[j - 1], es[j - 1], key, row);
    }
  }

  /** Event i accepts the request and starts a stream. */
  predicate Streams(ss: seq<System>, es: seq<Event>, i: nat, key: Key, request: Request, now: int, ttl: nat)
    requires |ss| == |es| + 1
  {
    && i < |es| && es[i].AcceptRequest? && es[i].key == key && es[i].request == request && es[i].now == now && es[i].ttl == ttl
    && es[i].stream in ss[i + 1].streams
  }

  lemma StreamStores(ss: seq<System>, es: seq<Event>, i: nat, key: Key, request: Request, now: int, ttl: nat)
    requires Run(ss, es) && Streams(ss, es, i, key, request, now, ttl)
    ensures Stored(ss[i + 1], key, Row(request, InProgress, None, now + ttl))
  {
    assert ss[i + 1] == Apply(ss[i], es[i]);
  }

  /** A request accepted at time `now` for `ttl` is answered "in progress" before its claim expires, and streams again from
      then on; another request under its key is a conflict all the while. */
  lemma RepeatWhileStreaming(ss: seq<System>, es: seq<Event>, i: nat, j: nat, key: Key, request: Request, now: int, ttl: nat, later: int)
    requires Run(ss, es) && i < j <= |es| && Streams(ss, es, i, key, request, now, ttl) && Quiet(ss, es, i + 1, j, key)
    ensures later < now + ttl ==> AcceptOutcome(ss[j], key, request, true, later) == RequestInProgress
    ensures later >= now + ttl ==> AcceptOutcome(ss[j], key, request, true, later) == Streaming
    ensures forall other :: other != request ==> AcceptOutcome(ss[j], key, other, true, later) == RequestConflict
  {
    StreamStores(ss, es, i, key, request, now, ttl);
    StoredAlong(ss, es, i + 1, j, key, Row(request, InProgress, None, now + ttl));
  }

  /** Event i fails a stream under the key, whose row holds the request and is not completed. */
  predicate Fails(s: System, e: Event, key: Key, request: Request) {
    && e.FailStream? && e.stream in s.streams && s.streams[e.stream].key == key
    && key in s.rows && s.rows[key].request == request && s.rows[key].status != Completed
  }

  /** What a run keeps of every row: its request's user message. */
  predicate Messaged(s: System, k: Key) {
    k in s.rows ==> Stored(s, k, s.rows[k])
  }

  ghost predicate AllMessaged(s: System) {
    KeysFixed(s) && forall k {:trigger Messaged(s, k)} :: Messaged(s, k)
  }

  lemma EventKeepsMessaged(s: System, e: Event)
    requires AllMessaged(s) && Enabled(s, e)
    ensures AllMessaged(Apply(s, e))
  {
    EventKeepsKeys(s, e);
    forall k ensures Messaged(Apply(s, e), k) {
      assert Messaged(s, k) && RowFixed(s, k);
    }
  }

  lemma {:induction false} RunKeepsMessaged(ss: seq<System>, es: seq<Event>, i: nat)
    requires Run(ss, es) && i < |ss|
    ensures AllMessaged(ss[i])
  {
    if i > 0 {
      RunKeepsMessaged(ss, es, i - 1);
      EventKeepsMessaged(ss[i - 1], es[i - 1]);
    }
  }

  /** After a failure the request streams again at once. */
  lemma RepeatAfterFailure(ss: seq<System>, es: seq<Event>, i: nat, j: nat, key: Key, request: Request, later: int)
    requires Run(ss, es) && i < j <= |es| && Fails(ss[i], es[i], key, request) && Quiet(ss, es, i + 1, j, key)
    ensures AcceptOutcome(ss[j], key, request, true, later) == Streaming
    ensures forall other :: other != request ==> AcceptOutcome(ss[j], key, other, true, later) == RequestConflict
  {
    RunKeepsMessaged(ss, es, i);
    assert Messaged(ss[i], key);
    assert ss[i + 1] == Apply(ss[i], es[i]);
    StoredAlong(ss, es, i + 1, j, key, ss[i].rows[key].(status := Failed));
  }

  /** Event i commits an answer on the row of the request. */
  predicate Completes(s: System, e: Event, key: Key, request: Request) {
    && e.CompleteStream? && e.stream in s.streams && s.streams[e.stream].key == key && e.owned
    && key in s.rows && s.rows[key].request == request && s.rows[key].status == InProgress
  }

  /** After a completion the request is answered with the committed transcript, at any time, as long as its row is there. */
  lemma RepeatAfterAnswer(ss: seq<System>, es: seq<Event>, i: nat, j: nat, key: Key, request: Request, later: int)
    requires Run(ss, es) && i < j <= |es| && Completes(ss[i], es[i], key, request) && Quiet(ss, es, i + 1, j, key)
    ensures AcceptOutcome(ss[j], key, request, true, later) == Replayed(es[i].transcript)
    ensures forall other :: other != request ==> AcceptOutcome(ss[j], key, other, true, later) == RequestConflict
  {
    RunKeepsMessaged(ss, es, i);
    assert Messaged(ss[i], key);
    assert ss[i + 1] == Apply(ss[i], es[i]);
    StoredAlong(ss, es, i + 1, j, key, ss[i].rows[key].(status := Completed, response := Some(es[i].transcript)));
  }

  /** A request that was never accepted streams under a free key; one whose user message is stored does not. */
  lemma FirstRequest(s: System, key: Key, request: Request, now: int)
    requires key !in s.rows
    ensures AcceptOutcome(s, key, request, true, now) == if request.requestId in s.messages then RequestConflict else Streaming
  {
  }

  /** And without the session nothing is accepted, whatever the row says. */
  lemma NotOwned(s: System, key: Key, request: Request, now: int, w: StreamId, ttl: nat)
    ensures AcceptOutcome(s, key, request, false, now) == SessionNotFound && Accept(s, w, key, request, false, now, ttl) == s
  {
  }
}
