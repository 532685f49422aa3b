/** Cross-encoder reranking (backend/app/rag/reranker.py). */
module Reranker {
  import opened Basics
  import opened Wrappers
  import opened Evidence

  /** One result of the scoring service. */
  datatype Entry = Entry(index: int, score: real)

  datatype RerankError = RerankServiceError

  /** The first k entries name different places within range, with scores in range. */
  predicate PlacesDiffer(entries: seq<Entry>, k: nat, n: nat)
    requires k <= |entries|
  {
    && (forall i :: 0 <= i < k ==> 0 <= entries[i].index < n && 0.0 <= entries[i].score <= 1.0)
    && (forall i, j :: 0 <= i < j < k ==> entries[i].index != entries[j].index)
  }

  /** The service answered for every index exactly once, with scores in range. */
  predicate WellFormed(entries: seq<Entry>, n: nat) {
    |entries| == n && PlacesDiffer(entries, n, n)
  }

  function Below(n: nat): (s: set<int>)
    ensures |s| == n && forall i :: i in s <==> 0 <= i < n
  {
    if n == 0 then {} else Below(n - 1) + {n - 1}
  }

  /** The places of so many different indices. */
  function Places(entries: seq<Entry>, k: nat): (s: set<int>)
    requires k <= |entries|
    ensures forall x :: x in s <==> exists i :: 0 <= i < k && entries[i].index == x
  {
    if k == 0 then {} else Places(entries, k - 1) + {entries[k - 1].index}
  }

  lemma PlacesBelow(entries: seq<Entry>, k: nat, n: nat)
    requires k <= |entries| && PlacesDiffer(entries, k, n)
    ensures Places(entries, k) <= Below(n)
  {
  }

  /** Each of the first k places is new when its turn comes. */
  predicate EachIsNew(entries: seq<Entry>, k: nat)
    requires k <= |entries|
  {
    k > 0 ==> entries[k - 1].index !in Places(entries, k - 1) && EachIsNew(entries, k - 1)
  }

  lemma {:induction false} DifferentPlacesAreNew(entries: seq<Entry>, k: nat, n: nat)
    requires k <= |entries| && PlacesDiffer(entries, k, n)
    ensures EachIsNew(entries, k)
  {
    if k > 0 {
      DifferentPlacesAreNew(entries, k - 1, n);
    }
  }

  lemma {:induction false} PlacesCount(entries: seq<Entry>, k: nat)
    requires k <= |entries| && EachIsNew(entries, k)
    ensures |Places(entries, k)| == k
  {
    if k > 0 {
      PlacesCount(entries, k - 1);
    }
  }

  /** As many different places as there are leave none out. */
  lemma NoneLeftOut(entries: seq<Entry>, n: nat)
    requires WellFormed(entries, n)
    ensures forall i :: 0 <= i < n ==> i in Places(entries, n)
  {
    DifferentPlacesAreNew(entries, n, n);
    PlacesCount(entries, n);
    PlacesBelow(entries, n, n);
    forall i | 0 <= i < n
      ensures i in Places(entries, n)
    {
      if i !in Places(entries, n) {
        SubsetSize(Places(entries, n), Below(n) - {i});
      }
    }
  }

  /** Each of the first k scores is in its place, and nothing else is. */
  predicate Placed(entries: seq<Entry>, k: nat, scores: seq<Option<real>>)
    requires k <= |entries|
  {
    && PlacesDiffer(entries, k, |scores|)
    && (forall i :: 0 <= i < k ==> scores[entries[i].index] == Some(entries[i].score))
    && (forall i :: 0 <= i < |scores| && scores[i].Some? ==> i in Places(entries, k))
  }

  lemma PlacedMore(entries: seq<Entry>, k: nat, scores: seq<Option<real>>)
    requires k < |entries| && Placed(entries, k, scores)
    requires 0 <= entries[k].index < |scores| && scores[entries[k].index].None? && 0.0 <= entries[k].score <= 1.0
    ensures Placed(entries, k + 1, scores[entries[k].index := Some(entries[k].score)])
  {
  }

  /** `_score_batch`: puts each score in the place its entry names. It succeeds exactly when the answer is well formed,
      and then every candidate has a score. */
  method ScoreBatch(entries: seq<Entry>, n: nat) returns (r: Result<seq<real>, RerankError>)
    ensures r.Ok? <==> WellFormed(entries, n)
    ensures r.Ok? ==> |r.value| == n && forall k :: 0 <= k < n ==> r.value[entries[k].index] == entries[k].score
    ensures r.Ok? ==> forall i :: 0 <= i < n ==> 0.0 <= r.value[i] <= 1.0
  {
    if |entries| != n {
      return Err(RerankServiceError);
    }
    var scores: seq<Option<real>> := seq(n, _ => None);
    for k := 0 to n
      invariant |scores| == n && Placed(entries, k, scores)
    {
      var index, score := entries[k].index, entries[k].score;
      if index < 0 || index >= n || scores[index].Some? {
        assert !PlacesDiffer(entries, n, n);
        return Err(RerankServiceError);
      }
      if !(0.0 <= score <= 1.0) {
        return Err(RerankServiceError);
      }
      PlacedMore(entries, k, scores);
      scores := scores[index := Some(score)];
    }
    NoneLeftOut(entries, n);
    forall i | 0 <= i < n
      ensures scores[i].Some?
    {
      assert i in Places(entries, n);
    }
    r := Ok(seq(n, i requires 0 <= i < n && i < |scores| => scores[i].GetOr(0.0)));
  }

  /** Better evidence first: by score, then by retrieval rank, then by id. */
  predicate Better(a: Evidence, b: Evidence) {
    a.score > b.score || (a.score == b.score && Retrieved(a.candidate, b.candidate))
  }

  lemma BetterIsStrictWeak()
    ensures StrictWeak(Better)
  {
  }

  function Scored(candidates: seq<Candidate>, scores: seq<real>): seq<Evidence>
    requires |scores| == |candidates|
  {
    seq(|candidates|, i requires 0 <= i < |candidates| => Evidence(candidates[i], scores[i], 0))
  }

  /** Ranks are positions in the order, from 1. */
  function Ranked(es: seq<Evidence>): (r: seq<Evidence>)
    ensures |r| == |es| && forall i :: 0 <= i < |r| ==> r[i] == es[i].(rank := i + 1)
  {
    seq(|es|, i requires 0 <= i < |es| => es[i].(rank := i + 1))
  }

  /** The candidates sent to the service: the best ranked by retrieval. */
  function Bounded(candidates: seq<Candidate>, limit: nat): seq<Candidate> {
    var ordered := Sort(candidates, Retrieved);
    if |ordered| <= limit then ordered else ordered[..limit]
  }

  /** `rerank`, given the scores of the bounded candidates. */
  function Rerank(candidates: seq<Candidate>, limit: nat, scores: seq<real>): (r: seq<Evidence>)
    requires |scores| == |Bounded(candidates, limit)|
    ensures |r| == |scores|
  {
    Ranked(Sort(Scored(Bounded(candidates, limit), scores), Better))
  }

  predicate DistinctCandidates(candidates: seq<Candidate>) {
    forall i, j :: 0 <= i < j < |candidates| ==> candidates[i].id != candidates[j].id
  }

  /** Distinct ids survive any rearrangement. */
  lemma {:induction false} DistinctRearranged(a: seq<Candidate>, b: seq<Candidate>)
    requires DistinctCandidates(a) && multiset(a) == multiset(b)
    ensures DistinctCandidates(b)
  {
    forall i, j | 0 <= i < j < |b|
      ensures b[i].id != b[j].id
    {
      InMultiset(a, b);
      assert b[i] in a && b[j] in a;
      if b[i].id == b[j].id {
        var k :| 0 <= k < |a| && a[k] == b[i];
        var l :| 0 <= l < |a| && a[l] == b[j];
        assert k == l && b[i] == b[j];
        TwiceInMultiset(b, i, j);
        OnceInMultiset(a, k);
      }
    }
  }

  lemma OnceInMultiset(s: seq<Candidate>, k: nat)
    requires k < |s| && DistinctCandidates(s)
    ensures multiset(s)[s[k]] == 1
  {
    assert s == s[..k] + [s[k]] + s[k + 1..];
    assert s[k] !in s[..k] && s[k] !in s[k + 1..];
  }

  lemma PrefixOfDistinct(a: seq<Candidate>, n: nat)
    requires n <= |a| && DistinctCandidates(a)
    ensures DistinctCandidates(a[..n])
  {
  }

  lemma BoundedIsDistinct(candidates: seq<Candidate>, limit: nat)
    requires DistinctCandidates(candidates)
    ensures DistinctCandidates(Sort(candidates, Retrieved)) && DistinctCandidates(Bounded(candidates, limit))
    ensures forall x :: x in Bounded(candidates, limit) ==> x in candidates
  {
    var ordered := Sort(candidates, Retrieved);
    SortKeeps(candidates, Retrieved);
    DistinctRearranged(candidates, ordered);
    InMultiset(ordered, candidates);
    if |ordered| > limit {
      PrefixOfDistinct(ordered, limit);
    }
  }

  lemma RetrievedKeysDiffer(candidates: seq<Candidate>)
    requires DistinctCandidates(candidates)
    ensures KeysDiffer(candidates, Retrieved)
  {
  }

  /** Which candidates are reranked does not depend on the order they came in. */
  lemma BoundedInvariant(a: seq<Candidate>, b: seq<Candidate>, limit: nat)
    requires DistinctCandidates(a) && multiset(a) == multiset(b)
    ensures Bounded(a, limit) == Bounded(b, limit)
  {
    EarlierIsStrictWeak();
    BoundedIsDistinct(a, limit);
    RetrievedKeysDiffer(Sort(a, Retrieved));
    SortInvariant(a, b, Retrieved);
  }

  /** Nothing left out was retrieved ahead of anything kept. */
  lemma BoundedKeepsBest(candidates: seq<Candidate>, limit: nat, x: Candidate, y: Candidate)
    requires x in candidates && x !in Bounded(candidates, limit) && y in Bounded(candidates, limit)
    ensures !Retrieved(x, y)
  {
    var ordered := Sort(candidates, Retrieved);
    EarlierIsStrictWeak();
    SortSorts(candidates, Retrieved);
    SortKeeps(candidates, Retrieved);
    InMultiset(candidates, ordered);
    var bounded := Bounded(candidates, limit);
    var i :| 0 <= i < |ordered| && ordered[i] == x;
    var j :| 0 <= j < |bounded| && bounded[j] == y;
    assert bounded == ordered[..|bounded|] && x !in ordered[..|bounded|];
  }

  /** Evidence e carries the k-th candidate and its own score. */
  predicate Carries(e: Evidence, bounded: seq<Candidate>, scores: seq<real>, k: nat)
    requires |scores| == |bounded|
  {
    k < |bounded| && e.candidate == bounded[k] && e.score == scores[k]
  }

  /** Scores fall and ranks rise from 1. */
  lemma RerankOrders(candidates: seq<Candidate>, limit: nat, scores: seq<real>)
    requires |scores| == |Bounded(candidates, limit)|
    ensures InOrder(Rerank(candidates, limit, scores))
    ensures forall i :: 0 <= i < |scores| ==> Rerank(candidates, limit, scores)[i].rank == i + 1
  {
    var scored := Scored(Bounded(candidates, limit), scores);
    BetterIsStrictWeak();
    SortSorts(scored, Better);
  }

  /** Every reranked item is a bounded candidate with its own score. */
  lemma RerankedFrom(candidates: seq<Candidate>, limit: nat, scores: seq<real>, i: nat) returns (k: nat)
    requires |scores| == |Bounded(candidates, limit)| && i < |scores|
    ensures Carries(Rerank(candidates, limit, scores)[i], Bounded(candidates, limit), scores, k)
  {
    var scored := Scored(Bounded(candidates, limit), scores);
    var sorted := Sort(scored, Better);
    SortKeeps(scored, Better);
    InMultiset(scored, sorted);
    assert sorted[i] in scored;
    k :| 0 <= k < |scored| && scored[k] == sorted[i];
  }

  /** And no bounded candidate is lost. */
  lemma RerankedAt(candidates: seq<Candidate>, limit: nat, scores: seq<real>, k: nat) returns (i: nat)
    requires |scores| == |Bounded(candidates, limit)| && k < |scores|
    ensures i < |scores| && Carries(Rerank(candidates, limit, scores)[i], Bounded(candidates, limit), scores, k)
  {
    var scored := Scored(Bounded(candidates, limit), scores);
    var sorted := Sort(scored, Better);
    SortKeeps(scored, Better);
    InMultiset(scored, sorted);
    assert scored[k] in sorted;
    i :| 0 <= i < |sorted| && sorted[i] == scored[k];
  }

  lemma RerankedIsDistinct(candidates: seq<Candidate>, limit: nat, scores: seq<real>)
    requires DistinctCandidates(candidates) && |scores| == |Bounded(candidates, limit)|
    ensures DistinctIds(Rerank(candidates, limit, scores))
  {
    var bounded := Bounded(candidates, limit);
    var scored := Scored(bounded, scores);
    BoundedIsDistinct(candidates, limit);
    SortKeeps(scored, Better);
    EvidenceRearranged(scored, Sort(scored, Better));
  }
}
