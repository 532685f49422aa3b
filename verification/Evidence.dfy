/** Evidence passed from retrieval to the answer (backend/app/rag/candidates.py), and the stable sorts applied to it.

    Candidate identifiers are ordered and otherwise opaque; scores are real numbers. */
module Evidence {
  import opened Wrappers

  newtype CandidateId = n: int | 0 <= n

  datatype SourceType = Document | Web

  /** The metadata and the text that are formatted into the prompt are one string each. */
  datatype Candidate = Candidate(
    id: CandidateId,
    sourceType: SourceType,
    sourceKey: string,
    sectionKey: string,
    domain: Option<string>,
    span: Option<(nat, nat)>,
    metadata: string,
    text: string,
    textLexical: string,
    contentHash: string,
    lexicalHash: string,
    retrievalRank: nat,
    exactTerms: seq<string>,
    hints: seq<string>,
    collapsed: seq<CandidateId>)

  datatype Evidence = Evidence(candidate: Candidate, score: real, rank: nat)

  function Ids(es: seq<Evidence>): seq<CandidateId> {
    seq(|es|, i requires 0 <= i < |es| => es[i].candidate.id)
  }

  function TermsOf(e: Evidence): set<string> {
    set t | t in e.candidate.exactTerms
  }

  function AllTerms(es: seq<Evidence>): set<string> {
    set e, t | e in es && t in e.candidate.exactTerms :: t
  }

  lemma AllTermsAdd(es: seq<Evidence>, e: Evidence)
    ensures AllTerms(es + [e]) == AllTerms(es) + TermsOf(e)
  {
    assert e in es + [e];
    assert forall x :: x in es ==> x in es + [e];
  }

  predicate DistinctIds(es: seq<Evidence>) {
    forall i, j :: 0 <= i < j < |es| ==> es[i].candidate.id != es[j].candidate.id
  }

  /** Reranked order: ranks rise and scores do not. */
  predicate InOrder(es: seq<Evidence>) {
    forall i, j :: 0 <= i < j < |es| ==> es[i].rank < es[j].rank && es[i].score >= es[j].score
  }

  /** `stable_reranked_key`: by rank, then by id. */
  predicate Earlier(a: Evidence, b: Evidence) {
    a.rank < b.rank || (a.rank == b.rank && a.candidate.id < b.candidate.id)
  }

  /** `stable_candidate_key`. */
  predicate Retrieved(a: Candidate, b: Candidate) {
    a.retrievalRank < b.retrievalRank || (a.retrievalRank == b.retrievalRank && a.id < b.id)
  }

  /** Strictly smaller key, for a key with a total order. */
  ghost predicate StrictWeak<T(!new)>(less: (T, T) -> bool) {
    && (forall x, y :: less(x, y) ==> !less(y, x))
    && (forall x, y, z :: !less(x, y) && !less(y, z) ==> !less(x, z))
  }

  /** A stable sort: equal keys keep their order. */
  function Sort<T>(s: seq<T>, less: (T, T) -> bool): (r: seq<T>)
    ensures |r| == |s|
    decreases |s|
  {
    if s == [] then [] else Insert(Sort(s[..|s| - 1], less), s[|s| - 1], less)
  }

  function Insert<T>(s: seq<T>, x: T, less: (T, T) -> bool): (r: seq<T>)
    ensures |r| == |s| + 1
    decreases |s|
  {
    if s == [] || !less(x, s[|s| - 1]) then s + [x] else Insert(s[..|s| - 1], x, less) + [s[|s| - 1]]
  }

  predicate SortedBy<T>(s: seq<T>, less: (T, T) -> bool) {
    forall i, j :: 0 <= i < j < |s| ==> !less(s[j], s[i])
  }

  lemma {:induction false} InsertKeeps<T>(s: seq<T>, x: T, less: (T, T) -> bool)
    ensures multiset(Insert(s, x, less)) == multiset(s) + multiset{x}
    decreases |s|
  {
    if s != [] && less(x, s[|s| - 1]) {
      InsertKeeps(s[..|s| - 1], x, less);
      assert s == s[..|s| - 1] + [s[|s| - 1]];
    }
  }

  lemma {:induction false} SortKeeps<T>(s: seq<T>, less: (T, T) -> bool)
    ensures multiset(Sort(s, less)) == multiset(s)
    decreases |s|
  {
    if s != [] {
      SortKeeps(s[..|s| - 1], less);
      InsertKeeps(Sort(s[..|s| - 1], less), s[|s| - 1], less);
      assert s == s[..|s| - 1] + [s[|s| - 1]];
    }
  }

  lemma {:induction false} InsertSorts<T(!new)>(s: seq<T>, x: T, less: (T, T) -> bool)
    requires StrictWeak(less) && SortedBy(s, less)
    ensures SortedBy(Insert(s, x, less), less)
    decreases |s|
  {
    if s == [] {
    } else if less(x, s[|s| - 1]) {
      var n := |s| - 1;
      InsertSorts(s[..n], x, less);
      InsertKeeps(s[..n], x, less);
      var r := Insert(s[..n], x, less);
      forall i | 0 <= i < |r|
        ensures !less(s[n], r[i])
      {
        assert r[i] in multiset(r);
        if r[i] != x {
          assert r[i] in s[..n];
        }
      }
    } else {
      forall i | 0 <= i < |s|
        ensures !less(x, s[i])
      {
        assert i < |s| - 1 ==> !less(s[|s| - 1], s[i]);
      }
    }
  }

  lemma {:induction false} SortSorts<T(!new)>(s: seq<T>, less: (T, T) -> bool)
    requires StrictWeak(less)
    ensures SortedBy(Sort(s, less), less)
    decreases |s|
  {
    if s != [] {
      SortSorts(s[..|s| - 1], less);
      InsertSorts(Sort(s[..|s| - 1], less), s[|s| - 1], less);
    }
  }

  lemma InMultiset<T>(a: seq<T>, b: seq<T>)
    requires multiset(a) == multiset(b)
    ensures forall x :: x in a <==> x in b
  {
    forall x ensures x in a <==> x in b {
      assert x in multiset(a) <==> x in multiset(b);
    }
  }

  /** No two elements have equal keys. */
  ghost predicate KeysDiffer<T(!new)>(s: seq<T>, less: (T, T) -> bool) {
    forall i, j :: 0 <= i < j < |s| ==> less(s[i], s[j]) || less(s[j], s[i])
  }

  lemma SameLast<T(!new)>(a: seq<T>, b: seq<T>, less: (T, T) -> bool)
    requires SortedBy(a, less) && SortedBy(b, less) && KeysDiffer(a, less)
    requires a != [] && |a| == |b| && multiset(a) == multiset(b)
    ensures a[|a| - 1] == b[|a| - 1]
  {
    var n := |a| - 1;
    InMultiset(a, b);
    assert a[n] in b && b[n] in a;
    var i :| 0 <= i < |b| && b[i] == a[n];
    var j :| 0 <= j < |a| && a[j] == b[n];
  }

  lemma WithoutLast<T>(a: seq<T>, n: nat)
    requires |a| == n + 1
    ensures multiset(a[..n]) == multiset(a) - multiset{a[n]}
  {
    assert a == a[..n] + [a[n]];
  }

  lemma PrefixIsSorted<T(!new)>(a: seq<T>, n: nat, less: (T, T) -> bool)
    requires n <= |a| && SortedBy(a, less)
    ensures SortedBy(a[..n], less) && (KeysDiffer(a, less) ==> KeysDiffer(a[..n], less))
  {
  }

  lemma SameButLast<T>(a: seq<T>, b: seq<T>)
    requires a != [] && |a| == |b| && a[..|a| - 1] == b[..|a| - 1] && a[|a| - 1] == b[|a| - 1]
    ensures a == b
  {
  }

  /** A sorted sequence with distinct keys is determined by its elements. */
  lemma {:induction false} SortedUnique<T(!new)>(a: seq<T>, b: seq<T>, less: (T, T) -> bool)
    requires SortedBy(a, less) && SortedBy(b, less) && KeysDiffer(a, less)
    requires multiset(a) == multiset(b)
    ensures a == b
    decreases |a|
  {
    assert |multiset(a)| == |a| && |multiset(b)| == |b|;
    if a != [] {
      var n := |a| - 1;
      SameLast(a, b, less);
      WithoutLast(a, n);
      WithoutLast(b, n);
      PrefixIsSorted(a, n, less);
      PrefixIsSorted(b, n, less);
      SortedUnique(a[..n], b[..n], less);
      SameButLast(a, b);
    }
  }

  /** Sorting does not depend on the order of the input when keys are distinct. */
  lemma SortInvariant<T(!new)>(a: seq<T>, b: seq<T>, less: (T, T) -> bool)
    requires StrictWeak(less) && multiset(a) == multiset(b) && KeysDiffer(Sort(a, less), less)
    ensures Sort(a, less) == Sort(b, less)
  {
    SortSorts(a, less);
    SortSorts(b, less);
    SortKeeps(a, less);
    SortKeeps(b, less);
    SortedUnique(Sort(a, less), Sort(b, less), less);
  }

  lemma EarlierIsStrictWeak()
    ensures StrictWeak(Earlier) && StrictWeak(Retrieved)
  {
  }

  /** Evidence already in reranked order is left as it is by the sort. */
  lemma {:induction false} SortedAlready(es: seq<Evidence>)
    requires InOrder(es)
    ensures Sort(es, Earlier) == es
    decreases |es|
  {
    if es != [] {
      var n := |es| - 1;
      SortedAlready(es[..n]);
      assert n > 0 ==> es[..n][n - 1] == es[n - 1];
      assert es == es[..n] + [es[n]];
    }
  }

  lemma TwiceInMultiset<T>(s: seq<T>, i: nat, j: nat)
    requires i < j < |s| && s[i] == s[j]
    ensures multiset(s)[s[i]] >= 2
  {
    assert s == s[..i] + [s[i]] + s[i + 1..j] + [s[j]] + s[j + 1..];
  }

  lemma EvidenceRearranged(a: seq<Evidence>, b: seq<Evidence>)
    requires DistinctIds(a) && multiset(a) == multiset(b)
    ensures DistinctIds(b)
  {
    forall i, j | 0 <= i < j < |b|
      ensures b[i].candidate.id != b[j].candidate.id
    {
      InMultiset(a, b);
      assert b[i] in a && b[j] in a;
      if b[i].candidate.id == b[j].candidate.id {
        var k :| 0 <= k < |a| && a[k] == b[i];
        var l :| 0 <= l < |a| && a[l] == b[j];
        assert k == l && b[i] == b[j];
        TwiceInMultiset(b, i, j);
        OnlyOnce(a, k);
      }
    }
  }

  lemma OnlyOnce(s: seq<Evidence>, k: nat)
    requires k < |s| && DistinctIds(s)
    ensures multiset(s)[s[k]] == 1
  {
    assert s == s[..k] + [s[k]] + s[k + 1..];
    assert s[k] !in s[..k] && s[k] !in s[k + 1..];
  }
}
