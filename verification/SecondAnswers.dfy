/** How one chat request comes to be answered twice.

    Completing a claim checks only that the row under the key is in progress, so the row must have been pruned and
    claimed for another request in between. */
module SecondAnswers {
  import opened Idempotency

  /** A completion commits for a request that has an answer: no constraint forbids a second assistant message. */
  predicate AnswersAgain(s: System, e: Event) {
    && e.CompleteStream? && e.stream in s.streams && CanComplete(s, s.streams[e.stream].key, e.owned)
    && exists a :: a in s.assistants && s.assistants[a].requestId == s.streams[e.stream].request.requestId
  }

  ghost predicate AllAnswersDiffer(s: System) {
    forall a, b {:trigger AnswersDiffer(s, a, b)} :: AnswersDiffer(s, a, b)
  }

  lemma EventKeepsAnswersDifferExactly(s: System, e: Event)
    requires AllAnswersDiffer(s) && Enabled(s, e)
    ensures AllAnswersDiffer(Apply(s, e)) <==> !AnswersAgain(s, e)
  {
    var t := Apply(s, e);
    if AnswersAgain(s, e) {
      var a :| a in s.assistants && s.assistants[a].requestId == s.streams[e.stream].request.requestId;
      assert !AnswersDiffer(t, a, e.id);
    } else {
      forall a, b ensures AnswersDiffer(t, a, b) {
        assert AnswersDiffer(s, a, b);
      }
    }
  }

  lemma {:induction false} AnswersDifferAlong(ss: seq<System>, es: seq<Event>, i: nat)
    requires Run(ss, es) && i < |ss| && forall k :: 0 <= k < i ==> !AnswersAgain(ss[k], es[k])
    ensures AllAnswersDiffer(ss[i])
  {
    if i > 0 {
      AnswersDifferAlong(ss, es, i - 1);
      EventKeepsAnswersDifferExactly(ss[i - 1], es[i - 1]);
    }
  }

  lemma AnswersDifferExactly(ss: seq<System>, es: seq<Event>)
    requires Run(ss, es)
    ensures (forall i :: 0 <= i < |ss| ==> AllAnswersDiffer(ss[i])) <==> forall i :: 0 <= i < |es| ==> !AnswersAgain(ss[i], es[i])
  {
    if forall i :: 0 <= i < |ss| ==> AllAnswersDiffer(ss[i]) {
      forall i | 0 <= i < |es|
        ensures !AnswersAgain(ss[i], es[i])
      {
        assert AllAnswersDiffer(ss[i]) && AllAnswersDiffer(ss[i + 1]);
        EventKeepsAnswersDifferExactly(ss[i], es[i]);
      }
    }
    if forall i :: 0 <= i < |es| ==> !AnswersAgain(ss[i], es[i]) {
      forall i | 0 <= i < |ss|
        ensures AllAnswersDiffer(ss[i])
      {
        AnswersDifferAlong(ss, es, i);
      }
    }
  }

  /** Event e commits an answer to request r on the row under the key. */
  predicate Commits(s: System, e: Event, key: Key, r: RequestId) {
    && e.CompleteStream? && e.stream in s.streams && s.streams[e.stream].key == key && s.streams[e.stream].request.requestId == r
    && CanComplete(s, key, e.owned)
  }

  predicate Prunes(s: System, e: Event, key: Key) {
    e.PruneRows? && key in s.rows && s.rows[key].expiresAt < e.olderThan
  }

  /** Event e claims the free key for a request other than r. */
  predicate ClaimsForOther(s: System, e: Event, key: Key, r: RequestId) {
    && e.AcceptRequest? && e.key == key && e.request.requestId != r && key !in s.rows
    && AcceptOutcome(s, key, e.request, e.owned, e.now) == Streaming
  }

  /** Whatever is stored of a stream's request is stored under the stream's key. */
  predicate StreamFixed(s: System, w: StreamId) {
    w in s.streams ==>
      var r := s.streams[w].request.requestId;
      && r in s.messages
      && (forall x :: x in s.streams && s.streams[x].request.requestId == r ==> s.streams[x].key == s.streams[w].key)
      && (forall k :: k in s.rows && s.rows[k].request.requestId == r ==> k == s.streams[w].key)
  }

  predicate RowFixed(s: System, k: Key) {
    k in s.rows ==>
      var r := s.rows[k].request.requestId;
      && r in s.messages
      && (forall x :: x in s.streams && s.streams[x].request.requestId == r ==> s.streams[x].key == k)
      && (forall l :: l in s.rows && s.rows[l].request.requestId == r ==> l == k)
  }

  /** A request keeps its key, whatever is pruned and whoever completes it. */
  ghost predicate KeysFixed(s: System) {
    && (forall w {:trigger StreamFixed(s, w)} :: StreamFixed(s, w))
    && (forall k {:trigger RowFixed(s, k)} :: RowFixed(s, k))
  }

  lemma AcceptKeepsKeys(s: System, w: StreamId, key: Key, request: Request, owned: bool, now: int, ttl: nat)
    requires KeysFixed(s) && w !in s.streams && AcceptOutcome(s, key, request, owned, now) == Streaming
    ensures KeysFixed(Accept(s, w, key, request, owned, now, ttl))
  {
    var t := Accept(s, w, key, request, owned, now, ttl);
    forall x | x in s.streams
      ensures s.streams[x].request.requestId in s.messages
    {
      assert StreamFixed(s, x);
    }
    forall k | k in s.rows
      ensures s.rows[k].request.requestId in s.messages
    {
      assert RowFixed(s, k);
    }
    forall x ensures StreamFixed(t, x) {
      assert StreamFixed(s, x) && RowFixed(s, key);
    }
    forall k ensures RowFixed(t, k) {
      assert RowFixed(s, k) && RowFixed(s, key);
    }
  }

  lemma OtherStepKeepsKeys(s: System, t: System)
    requires KeysFixed(s) && t.messages == s.messages
    requires forall w :: w in t.streams ==> w in s.streams && t.streams[w] == s.streams[w]
    requires forall k :: k in t.rows ==> k in s.rows && t.rows[k].request == s.rows[k].request
    ensures KeysFixed(t)
  {
    forall x ensures StreamFixed(t, x) {
      assert StreamFixed(s, x);
    }
    forall k ensures RowFixed(t, k) {
      assert RowFixed(s, k);
    }
  }

  lemma EventKeepsKeys(s: System, e: Event)
    requires KeysFixed(s) && Enabled(s, e)
    ensures KeysFixed(Apply(s, e))
  {
    if e.AcceptRequest? && AcceptOutcome(s, e.key, e.request, e.owned, e.now) == Streaming {
      AcceptKeepsKeys(s, e.stream, e.key, e.request, e.owned, e.now, e.ttl);
    } else {
      OtherStepKeepsKeys(s, Apply(s, e));
    }
  }

  lemma {:induction false} RunKeepsKeys(ss: seq<System>, es: seq<Event>, i: nat)
    requires Run(ss, es) && i < |ss|
    ensures KeysFixed(ss[i])
  {
    if i > 0 {
      RunKeepsKeys(ss, es, i - 1);
      EventKeepsKeys(ss[i - 1], es[i - 1]);
    }
  }

  /** Request r has been answered under the key: what is left of its streams is under the key, and no row of its own is open. */
  predicate Settled(s: System, key: Key, r: RequestId) {
    && r in s.messages
    && (forall w :: w in s.streams && s.streams[w].request.requestId == r ==> s.streams[w].key == key)
    && (forall k :: k in s.rows && s.rows[k].request.requestId == r ==> s.rows[k].status == Completed)
  }

  lemma CommitSettles(s: System, e: Event, key: Key, r: RequestId)
    requires KeysFixed(s) && Enabled(s, e) && Commits(s, e, key, r)
    ensures Settled(Apply(s, e), key, r)
    ensures key in Apply(s, e).rows && Apply(s, e).rows[key].status == Completed
  {
    assert StreamFixed(s, e.stream);
  }

  /** No new stream for a settled request is ever accepted. */
  lemma EventKeepsSettled(s: System, e: Event, key: Key, r: RequestId)
    requires Enabled(s, e) && Settled(s, key, r)
    ensures Settled(Apply(s, e), key, r)
    ensures forall w :: w in Apply(s, e).streams && Apply(s, e).streams[w].request.requestId == r ==>
              w in s.streams && s.streams[w] == Apply(s, e).streams[w]
  {
  }

  lemma {:induction false} SettledAlong(ss: seq<System>, es: seq<Event>, i: nat, j: nat, key: Key, r: RequestId)
    requires Run(ss, es) && i <= j < |ss| && Settled(ss[i], key, r)
    ensures Settled(ss[j], key, r)
    ensures forall w :: w in ss[j].streams && ss[j].streams[w].request.requestId == r ==> w in ss[i].streams && ss[i].streams[w] == ss[j].streams[w]
    decreases j
  {
    if i < j {
      SettledAlong(ss, es, i, j - 1, key, r);
      EventKeepsSettled(ss[j - 1], es[j - 1], key, r);
    }
  }

  predicate Closed(s: System, key: Key) {
    key in s.rows && s.rows[key].status == Completed
  }

  lemma ClosedUntilPruned(s: System, e: Event, key: Key)
    requires Enabled(s, e) && Closed(s, key)
    ensures Closed(Apply(s, e), key) || (Prunes(s, e, key) && key !in Apply(s, e).rows)
  {
  }

  /** A completed row that is open later was pruned in between. */
  lemma {:induction false} PruneBetween(ss: seq<System>, es: seq<Event>, i: nat, k: nat, key: Key) returns (l: nat)
    requires Run(ss, es) && i <= k < |ss| && Closed(ss[i], key) && !Closed(ss[k], key)
    ensures i <= l < k && Prunes(ss[l], es[l], key) && key !in ss[l + 1].rows
    decreases k - i
  {
    ClosedUntilPruned(ss[i], es[i], key);
    if Closed(ss[i + 1], key) {
      l := PruneBetween(ss, es, i + 1, k, key);
    } else {
      l := i;
    }
  }

  lemma FreeUntilClaimed(s: System, e: Event, key: Key, r: RequestId)
    requires Enabled(s, e) && key !in s.rows && r in s.messages
    ensures key !in Apply(s, e).rows || ClaimsForOther(s, e, key, r)
  {
  }

  /** A free key with a row later was claimed in between, and for another request than any that has its user message. */
  lemma {:induction false} ClaimBetween(ss: seq<System>, es: seq<Event>, l: nat, k: nat, key: Key, r: RequestId) returns (m: nat)
    requires Run(ss, es) && l <= k < |ss| && key !in ss[l].rows && key in ss[k].rows && Settled(ss[l], key, r)
    ensures l <= m < k && ClaimsForOther(ss[m], es[m], key, r)
    decreases k - l
  {
    FreeUntilClaimed(ss[l], es[l], key, r);
    if key in ss[l + 1].rows {
      m := l;
    } else {
      EventKeepsSettled(ss[l], es[l], key, r);
      m := ClaimBetween(ss, es, l + 1, k, key, r);
    }
  }

  lemma {:induction false} AnswerCommitted(ss: seq<System>, es: seq<Event>, k: nat, a: AssistantId) returns (i: nat, key: Key)
    requires Run(ss, es) && k < |ss| && a in ss[k].assistants
    ensures i < k && Commits(ss[i], es[i], key, ss[k].assistants[a].requestId)
  {
    var n := k - 1;
    assert ss[k] == Apply(ss[n], es[n]);
    if a in ss[n].assistants {
      i, key := AnswerCommitted(ss, es, n, a);
    } else {
      i, key := n, ss[n].streams[es[n].stream].key;
    }
  }

  /** Request r is answered under the key, the row is pruned, another request claims the key, and the claim of that one is
      completed by a stream of r that is still live. */
  predicate AnsweredTwice(ss: seq<System>, es: seq<Event>, i: nat, l: nat, m: nat, k: nat, key: Key, r: RequestId) {
    && i < l < m < k < |es| && |es| < |ss|
    && Commits(ss[i], es[i], key, r) && Prunes(ss[l], es[l], key) && ClaimsForOther(ss[m], es[m], key, r) && Commits(ss[k], es[k], key, r)
  }

  lemma SecondAnswerHistory(ss: seq<System>, es: seq<Event>, k: nat) returns (i: nat, l: nat, m: nat, key: Key, r: RequestId)
    requires Run(ss, es) && k < |es| && AnswersAgain(ss[k], es[k])
    ensures AnsweredTwice(ss, es, i, l, m, k, key, r)
  {
    r := ss[k].streams[es[k].stream].request.requestId;
    var a :| a in ss[k].assistants && ss[k].assistants[a].requestId == r;
    i, key := AnswerCommitted(ss, es, k, a);
    RunKeepsKeys(ss, es, i);
    CommitSettles(ss[i], es[i], key, r);
    SettledAlong(ss, es, i + 1, k, key, r);
    l := PruneBetween(ss, es, i + 1, k, key);
    SettledAlong(ss, es, i + 1, l + 1, key, r);
    m := ClaimBetween(ss, es, l + 1, k, key, r);
  }

  lemma HistoryGivesSecondAnswer(ss: seq<System>, es: seq<Event>, i: nat, l: nat, m: nat, k: nat, key: Key, r: RequestId)
    requires Run(ss, es) && AnsweredTwice(ss, es, i, l, m, k, key, r)
    ensures AnswersAgain(ss[k], es[k])
  {
    var a := es[i].id;
    assert ss[i + 1] == Apply(ss[i], es[i]);
    assert a in ss[i + 1].assistants && ss[i + 1].assistants[a].requestId == r;
    AnswersStay(ss, es, i + 1, k, a);
  }

  /** On every run: some request has two answers exactly when its row is pruned after the first, its key is claimed for
      another request after that, and a stream of its own completes the claim. */
  lemma AtMostOneAnswerExactly(ss: seq<System>, es: seq<Event>)
    requires Run(ss, es)
    ensures (forall i :: 0 <= i < |ss| ==> AllAnswersDiffer(ss[i])) <==> !exists i, l, m, k, key, r :: AnsweredTwice(ss, es, i, l, m, k, key, r)
  {
    AnswersDifferExactly(ss, es);
    if k: nat :| k < |es| && AnswersAgain(ss[k], es[k]) {
      var i, l, m, key, r := SecondAnswerHistory(ss, es, k);
    }
    if i, l, m, k, key, r :| AnsweredTwice(ss, es, i, l, m, k, key, r) {
      HistoryGivesSecondAnswer(ss, es, i, l, m, k, key, r);
    }
  }

  /** The event prunes no row under a live stream whose request has its answer. */
  ghost predicate SparesAnswered(s: System, e: Event) {
    forall w {:trigger s.streams[w]} :: w in s.streams && Prunes(s, e, s.streams[w].key) ==>
      forall a :: a in s.assistants ==> s.assistants[a].requestId != s.streams[w].request.requestId
  }

  /** So it is enough to prune no such row: no other request's row, and no unanswered one, needs sparing. */
  lemma SparedRunAnswersOnce(ss: seq<System>, es: seq<Event>, i: nat)
    requires Run(ss, es) && i < |ss| && forall l :: 0 <= l < |es| ==> SparesAnswered(ss[l], es[l])
    ensures AllAnswersDiffer(ss[i])
  {
    if i0, l, m, k, key, r :| AnsweredTwice(ss, es, i0, l, m, k, key, r) {
      PrunedUnderAnswered(ss, es, i0, l, m, k, key, r);
    }
    AtMostOneAnswerExactly(ss, es);
  }

  lemma PrunedUnderAnswered(ss: seq<System>, es: seq<Event>, i: nat, l: nat, m: nat, k: nat, key: Key, r: RequestId)
    requires Run(ss, es) && AnsweredTwice(ss, es, i, l, m, k, key, r)
    ensures !SparesAnswered(ss[l], es[l])
  {
    var w, a := es[k].stream, es[i].id;
    RunKeepsKeys(ss, es, i);
    CommitSettles(ss[i], es[i], key, r);
    SettledAlong(ss, es, i + 1, l, key, r);
    SettledAlong(ss, es, l, k, key, r);
    assert ss[i + 1] == Apply(ss[i], es[i]);
    assert a in ss[i + 1].assistants && ss[i + 1].assistants[a].requestId == r;
    AnswersStay(ss, es, i + 1, l, a);
    assert w in ss[l].streams && ss[l].streams[w] == Stream(key, ss[k].streams[w].request);
  }
}
