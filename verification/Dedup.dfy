/** Collapsing repeated evidence (backend/app/rag/dedup.py). Text similarity is a parameter. */
module Dedup {
  import opened Wrappers
  import opened Evidence

  datatype Reason = ContentHash | LexicalHash | OverlappingSpan | NearDuplicate

  datatype Duplicate = Duplicate(reason: Reason, similarity: real)

  datatype DuplicateDecision = DuplicateDecision(dropped: CandidateId, kept: CandidateId, duplicate: Duplicate)

  datatype Deduplication = Deduplication(candidates: seq<Evidence>, decisions: seq<DuplicateDecision>)

  datatype Limits = Limits(overlap: real, near: real, similarity: (string, string) -> real)

  datatype DedupError = ThresholdOutOfRange

  function Min(a: int, b: int): int {
    if a < b then a else b
  }

  function Max(a: int, b: int): int {
    if a < b then b else a
  }

  /** The overlap of two spans of one section, relative to the shorter. */
  function SpanOverlap(left: Candidate, right: Candidate): real {
    if left.sourceKey != right.sourceKey || left.sectionKey != right.sectionKey || left.span.None? || right.span.None? then 0.0
    else
      var a, b := left.span.value, right.span.value;
      var intersection := Max(0, Min(a.1, b.1) - Max(a.0, b.0));
      var shortest := Min(a.1 - a.0, b.1 - b.0);
      if shortest > 0 then intersection as real / shortest as real else 0.0
  }

  function DuplicateReason(limits: Limits, existing: Evidence, current: Evidence): Option<Duplicate> {
    var left, right := existing.candidate, current.candidate;
    if left.contentHash == right.contentHash then Some(Duplicate(ContentHash, 1.0))
    else if left.lexicalHash == right.lexicalHash then Some(Duplicate(LexicalHash, 1.0))
    else if !(TermsOf(current) <= TermsOf(existing)) then None
    else if SpanOverlap(left, right) >= limits.overlap then Some(Duplicate(OverlappingSpan, SpanOverlap(left, right)))
    else if limits.similarity(left.textLexical, right.textLexical) >= limits.near then
      Some(Duplicate(NearDuplicate, limits.similarity(left.textLexical, right.textLexical)))
    else None
  }

  /** The elements of a sequence, each where it first appears. */
  function Unique<T(==, !new)>(s: seq<T>): (r: seq<T>)
    ensures forall x :: x in r <==> x in s
    decreases |s|
  {
    if s == [] then []
    else
      var before := Unique(s[..|s| - 1]);
      assert s == s[..|s| - 1] + [s[|s| - 1]];
      if s[|s| - 1] in before then before else before + [s[|s| - 1]]
  }

  /** `_merge_exact_provenance`. */
  function Merge(survivor: Evidence, duplicate: Evidence): Evidence {
    var left, right := survivor.candidate, duplicate.candidate;
    survivor.(candidate := left.(
      exactTerms := Unique(left.exactTerms + right.exactTerms),
      hints := Unique(left.hints + right.hints),
      collapsed := left.collapsed + [right.id]))
  }

  /** The first of the kept items that the current one repeats, or their number. */
  function FirstMatch(limits: Limits, kept: seq<Evidence>, current: Evidence): (i: nat)
    ensures i <= |kept|
    ensures i < |kept| ==> DuplicateReason(limits, kept[i], current).Some?
    ensures forall j :: 0 <= j < i ==> DuplicateReason(limits, kept[j], current).None?
  {
    if kept == [] then 0
    else
      var i := FirstMatch(limits, kept[..|kept| - 1], current);
      if i < |kept| - 1 || DuplicateReason(limits, kept[|kept| - 1], current).Some? then i else |kept|
  }

  /** One item more: kept, or merged into the first item it repeats. */
  function Absorb(limits: Limits, d: Deduplication, current: Evidence): Deduplication {
    var i := FirstMatch(limits, d.candidates, current);
    if i == |d.candidates| then Deduplication(d.candidates + [current], d.decisions)
    else
      Deduplication(d.candidates[i := Merge(d.candidates[i], current)],
                    d.decisions + [DuplicateDecision(current.candidate.id, d.candidates[i].candidate.id,
                                                     DuplicateReason(limits, d.candidates[i], current).value)])
  }

  function Collapse(limits: Limits, ranked: seq<Evidence>): Deduplication
    decreases |ranked|
  {
    if ranked == [] then Deduplication([], [])
    else Absorb(limits, Collapse(limits, ranked[..|ranked| - 1]), ranked[|ranked| - 1])
  }

  /** `deduplicate`: in reranked order, with the kept list updated in place. */
  method Deduplicate(limits: Limits, candidates: seq<Evidence>) returns (r: Result<Deduplication, DedupError>)
    ensures r.Ok? <==> 0.0 <= limits.overlap <= 1.0 && 0.0 <= limits.near <= 1.0
    ensures r.Ok? ==> r.value == Collapse(limits, Sort(candidates, Earlier))
  {
    if !(0.0 <= limits.overlap <= 1.0) || !(0.0 <= limits.near <= 1.0) {
      return Err(ThresholdOutOfRange);
    }
    var ranked := Sort(candidates, Earlier);
    var kept: seq<Evidence>, decisions: seq<DuplicateDecision> := [], [];
    for n := 0 to |ranked|
      invariant Deduplication(kept, decisions) == Collapse(limits, ranked[..n])
    {
      assert ranked[..n + 1][..n] == ranked[..n];
      var current := ranked[n];
      var index := FindDuplicate(limits, kept, current);
      if index == |kept| {
        kept := kept + [current];
      } else {
        var survivor := kept[index];
        var duplicate := DuplicateReason(limits, survivor, current).value;
        kept := kept[index := Merge(survivor, current)];
        decisions := decisions + [DuplicateDecision(current.candidate.id, survivor.candidate.id, duplicate)];
      }
    }
    assert ranked[..|ranked|] == ranked;
    r := Ok(Deduplication(kept, decisions));
  }

  /** The scan of the kept items, stopping at the first match. */
  method FindDuplicate(limits: Limits, kept: seq<Evidence>, current: Evidence) returns (index: nat)
    ensures index == FirstMatch(limits, kept, current)
  {
    index := 0;
    while index < |kept|
      invariant index <= |kept|
      invariant forall j :: 0 <= j < index ==> DuplicateReason(limits, kept[j], current).None?
    {
      if DuplicateReason(limits, kept[index], current).Some? {
        return;
      }
      index := index + 1;
    }
  }

  /** Same candidate, except for what merging adds. */
  predicate SameBase(p: Evidence, q: Evidence) {
    q == p.(candidate := p.candidate.(exactTerms := q.candidate.exactTerms, hints := q.candidate.hints, collapsed := q.candidate.collapsed))
  }

  /** Where an item ended up: the survivor its decision names, or itself. */
  function HomeOf(decisions: seq<DuplicateDecision>, id: CandidateId): CandidateId {
    if decisions == [] then id
    else if decisions[|decisions| - 1].dropped == id then decisions[|decisions| - 1].kept
    else HomeOf(decisions[..|decisions| - 1], id)
  }

  /** Survivor j holds item p: it is p, or p was collapsed into it; and p's exact terms are among its own. */
  predicate Houses(d: Deduplication, p: Evidence, j: nat) {
    && j < |d.candidates|
    && d.candidates[j].candidate.id == HomeOf(d.decisions, p.candidate.id)
    && TermsOf(p) <= TermsOf(d.candidates[j])
    && (if p.candidate.id == d.candidates[j].candidate.id then SameBase(p, d.candidates[j])
        else p.candidate.id in d.candidates[j].candidate.collapsed)
  }

  ghost predicate Housed(d: Deduplication, p: Evidence) {
    exists j :: Houses(d, p, j)
  }

  /** Survivor j is one of the items. */
  ghost predicate Original(ranked: seq<Evidence>, d: Deduplication, j: nat) {
    j < |d.candidates| ==>
      HomeOf(d.decisions, d.candidates[j].candidate.id) == d.candidates[j].candidate.id
      && exists i :: 0 <= i < |ranked| && SameBase(ranked[i], d.candidates[j])
  }

  predicate HasId(es: seq<Evidence>, id: CandidateId) {
    exists i :: 0 <= i < |es| && es[i].candidate.id == id
  }

  predicate Dropped(decisions: seq<DuplicateDecision>, id: CandidateId) {
    exists k :: 0 <= k < |decisions| && decisions[k].dropped == id
  }

  predicate HashesDiffer(es: seq<Evidence>) {
    forall i, j :: 0 <= i < j < |es| ==>
      es[i].candidate.contentHash != es[j].candidate.contentHash && es[i].candidate.lexicalHash != es[j].candidate.lexicalHash
  }

  /** Every item is a survivor or was dropped, never both. */
  predicate Split(ranked: seq<Evidence>, d: Deduplication, id: CandidateId) {
    && (HasId(ranked, id) <==> HasId(d.candidates, id) || Dropped(d.decisions, id))
    && !(HasId(d.candidates, id) && Dropped(d.decisions, id))
  }

  /** What deduplication keeps, at every step of the loop. */
  ghost predicate Sound(ranked: seq<Evidence>, d: Deduplication) {
    && |d.candidates| + |d.decisions| == |ranked|
    && DistinctIds(d.candidates) && HashesDiffer(d.candidates)
    && AllTerms(d.candidates) == AllTerms(ranked)
    && (forall id {:trigger Split(ranked, d, id)} :: Split(ranked, d, id))
    && (forall j {:trigger Original(ranked, d, j)} :: Original(ranked, d, j))
    && (forall p {:trigger Housed(d, p)} :: p in ranked ==> Housed(d, p))
  }

  lemma {:induction false} HomeStays(decisions: seq<DuplicateDecision>, more: DuplicateDecision, id: CandidateId)
    ensures HomeOf(decisions + [more], id) == if more.dropped == id then more.kept else HomeOf(decisions, id)
  {
  }

  lemma {:induction false} HomeOfUndropped(decisions: seq<DuplicateDecision>, id: CandidateId)
    requires !Dropped(decisions, id)
    ensures HomeOf(decisions, id) == id
  {
    if decisions != [] {
      var n := |decisions| - 1;
      assert decisions[n].dropped != id;
      assert !Dropped(decisions[..n], id);
      HomeOfUndropped(decisions[..n], id);
    }
  }

  lemma SplitAdds(ranked: seq<Evidence>, current: Evidence, id: CandidateId)
    ensures HasId(ranked + [current], id) <==> HasId(ranked, id) || current.candidate.id == id
  {
    var more := ranked + [current];
    if i :| 0 <= i < |ranked| && ranked[i].candidate.id == id {
      assert more[i].candidate.id == id;
    }
    assert more[|ranked|] == current;
  }

  /** An item that repeats nothing. */
  lemma KeepsNew(limits: Limits, ranked: seq<Evidence>, d: Deduplication, current: Evidence)
    requires Sound(ranked, d) && !HasId(ranked, current.candidate.id)
    requires FirstMatch(limits, d.candidates, current) == |d.candidates|
    ensures Sound(ranked + [current], Absorb(limits, d, current))
  {
    var t, more := Absorb(limits, d, current), ranked + [current];
    var id := current.candidate.id;
    assert Split(ranked, d, id);
    AllTermsAdd(d.candidates, current);
    AllTermsAdd(ranked, current);
    HomeOfUndropped(d.decisions, id);
    forall j | 0 <= j < |d.candidates|
      ensures d.candidates[j].candidate.id != id
      ensures d.candidates[j].candidate.contentHash != current.candidate.contentHash
      ensures d.candidates[j].candidate.lexicalHash != current.candidate.lexicalHash
    {
      assert DuplicateReason(limits, d.candidates[j], current).None?;
    }
    forall x ensures Split(more, t, x) {
      assert Split(ranked, d, x);
      SplitAdds(ranked, current, x);
      SplitAdds(d.candidates, current, x);
    }
    forall j: nat ensures Original(more, t, j) {
      NewIsOriginal(limits, ranked, d, current, j);
    }
    forall p | p in more
      ensures Housed(t, p)
    {
      if p in ranked {
        assert Housed(d, p);
        var j :| Houses(d, p, j);
        assert Houses(t, p, j);
      } else {
        assert Houses(t, current, |d.candidates|);
      }
    }
  }

  lemma NewIsOriginal(limits: Limits, ranked: seq<Evidence>, d: Deduplication, current: Evidence, j: nat)
    requires Sound(ranked, d) && HomeOf(d.decisions, current.candidate.id) == current.candidate.id
    requires FirstMatch(limits, d.candidates, current) == |d.candidates|
    ensures Original(ranked + [current], Absorb(limits, d, current), j)
  {
    var more := ranked + [current];
    assert Original(ranked, d, j);
    if j < |d.candidates| {
      var i :| 0 <= i < |ranked| && SameBase(ranked[i], d.candidates[j]);
      assert SameBase(more[i], d.candidates[j]);
    } else {
      assert SameBase(more[|ranked|], current);
    }
  }

  lemma MergeAddsTerms(survivor: Evidence, current: Evidence)
    ensures TermsOf(Merge(survivor, current)) == TermsOf(survivor) + TermsOf(current)
    ensures SameBase(survivor, Merge(survivor, current))
    ensures current.candidate.id in Merge(survivor, current).candidate.collapsed
    ensures forall x :: x in survivor.candidate.collapsed ==> x in Merge(survivor, current).candidate.collapsed
  {
  }

  lemma TermsReplace(es: seq<Evidence>, i: nat, e: Evidence, extra: set<string>)
    requires i < |es| && TermsOf(e) == TermsOf(es[i]) + extra
    ensures AllTerms(es[i := e]) == AllTerms(es) + extra
  {
    var t := es[i := e];
    assert t[i] == e && e in t;
    assert forall k :: 0 <= k < |es| && k != i ==> t[k] == es[k];
    forall x | x in AllTerms(es) + extra
      ensures x in AllTerms(t)
    {
      if x in AllTerms(es) {
        var y :| y in es && x in y.candidate.exactTerms;
        var k :| 0 <= k < |es| && es[k] == y;
        assert t[k] in t;
        assert x in TermsOf(t[k]);
      } else {
        assert x in TermsOf(e);
      }
    }
    forall x | x in AllTerms(t)
      ensures x in AllTerms(es) + extra
    {
      var y :| y in t && x in y.candidate.exactTerms;
      var k :| 0 <= k < |t| && t[k] == y;
      assert es[k] in es;
      assert x in TermsOf(t[k]);
    }
  }

  /** An item that repeats a survivor. */
  lemma KeepsMerged(limits: Limits, ranked: seq<Evidence>, d: Deduplication, current: Evidence)
    requires Sound(ranked, d) && !HasId(ranked, current.candidate.id)
    requires FirstMatch(limits, d.candidates, current) < |d.candidates|
    ensures Sound(ranked + [current], Absorb(limits, d, current))
  {
    var t, more := Absorb(limits, d, current), ranked + [current];
    var i := FirstMatch(limits, d.candidates, current);
    MergeAddsTerms(d.candidates[i], current);
    TermsReplace(d.candidates, i, Merge(d.candidates[i], current), TermsOf(current));
    AllTermsAdd(ranked, current);
    assert forall k :: 0 <= k < |t.candidates| ==> SameBase(d.candidates[k], t.candidates[k]);
    forall x ensures Split(more, t, x) {
      MergedSplits(limits, ranked, d, current, x);
    }
    forall j: nat ensures Original(more, t, j) {
      MergedIsOriginal(limits, ranked, d, current, j);
    }
    forall p | p in more
      ensures Housed(t, p)
    {
      MergedHouses(limits, ranked, d, current, p);
    }
  }

  lemma MergedSplits(limits: Limits, ranked: seq<Evidence>, d: Deduplication, current: Evidence, x: CandidateId)
    requires Sound(ranked, d) && !HasId(ranked, current.candidate.id)
    requires FirstMatch(limits, d.candidates, current) < |d.candidates|
    ensures Split(ranked + [current], Absorb(limits, d, current), x)
  {
    var t := Absorb(limits, d, current);
    assert Split(ranked, d, x);
    SplitAdds(ranked, current, x);
    assert HasId(t.candidates, x) <==> HasId(d.candidates, x) by {
      assert forall k :: 0 <= k < |t.candidates| ==> t.candidates[k].candidate.id == d.candidates[k].candidate.id;
    }
    var n := |d.decisions|;
    assert t.decisions[n].dropped == current.candidate.id && t.decisions[..n] == d.decisions;
    assert Dropped(t.decisions, x) <==> Dropped(d.decisions, x) || x == current.candidate.id by {
      if k :| 0 <= k < n && d.decisions[k].dropped == x {
        assert t.decisions[k].dropped == x;
      }
    }
  }

  lemma MergedIsOriginal(limits: Limits, ranked: seq<Evidence>, d: Deduplication, current: Evidence, j: nat)
    requires Sound(ranked, d) && !HasId(ranked, current.candidate.id)
    requires FirstMatch(limits, d.candidates, current) < |d.candidates|
    ensures Original(ranked + [current], Absorb(limits, d, current), j)
  {
    var t, more := Absorb(limits, d, current), ranked + [current];
    assert Original(ranked, d, j);
    if j < |d.candidates| {
      var k :| 0 <= k < |ranked| && SameBase(ranked[k], d.candidates[j]);
      assert SameBase(more[k], t.candidates[j]);
      assert ranked[k].candidate.id != current.candidate.id;
      HomeStays(d.decisions, t.decisions[|d.decisions|], d.candidates[j].candidate.id);
    }
  }

  lemma MergedHouses(limits: Limits, ranked: seq<Evidence>, d: Deduplication, current: Evidence, p: Evidence)
    requires Sound(ranked, d) && !HasId(ranked, current.candidate.id) && p in ranked + [current]
    requires FirstMatch(limits, d.candidates, current) < |d.candidates|
    ensures Housed(Absorb(limits, d, current), p)
  {
    var t := Absorb(limits, d, current);
    var i := FirstMatch(limits, d.candidates, current);
    HomeStays(d.decisions, t.decisions[|d.decisions|], p.candidate.id);
    MergeAddsTerms(d.candidates[i], current);
    if p in ranked {
      var k :| 0 <= k < |ranked| && ranked[k] == p;
      assert p.candidate.id != current.candidate.id;
      assert Housed(d, p);
      var j :| Houses(d, p, j);
      assert Houses(t, p, j);
    } else {
      SurvivorIsOld(ranked, d, i, current.candidate.id);
      assert Houses(t, current, i);
    }
  }

  lemma SurvivorIsOld(ranked: seq<Evidence>, d: Deduplication, i: nat, id: CandidateId)
    requires Sound(ranked, d) && !HasId(ranked, id) && i < |d.candidates|
    ensures d.candidates[i].candidate.id != id
  {
    assert Original(ranked, d, i);
  }

  /** Evidence is conserved: survivors and dropped items partition the input, each dropped item is collapsed into exactly
      one survivor, which has all its exact terms, the union of exact terms is unchanged, and survivors differ in both
      hashes. */
  lemma {:induction false} CollapseIsSound(limits: Limits, ranked: seq<Evidence>)
    requires DistinctIds(ranked)
    ensures Sound(ranked, Collapse(limits, ranked))
    decreases |ranked|
  {
    if ranked == [] {
    } else {
      var n := |ranked| - 1;
      var before, current := ranked[..n], ranked[n];
      CollapseIsSound(limits, before);
      assert before + [current] == ranked;
      var d := Collapse(limits, before);
      if FirstMatch(limits, d.candidates, current) == |d.candidates| {
        KeepsNew(limits, before, d, current);
      } else {
        KeepsMerged(limits, before, d, current);
      }
    }
  }

  /** Survivors keep their ranks, their scores and their order. */
  lemma {:induction false} CollapseKeepsOrder(limits: Limits, ranked: seq<Evidence>)
    requires DistinctIds(ranked) && InOrder(ranked)
    ensures InOrder(Collapse(limits, ranked).candidates)
    decreases |ranked|
  {
    if ranked != [] {
      var n := |ranked| - 1;
      CollapseIsSound(limits, ranked[..n]);
      CollapseKeepsOrder(limits, ranked[..n]);
      AbsorbKeepsOrder(limits, ranked, Collapse(limits, ranked[..n]));
    }
  }

  lemma AbsorbKeepsOrder(limits: Limits, ranked: seq<Evidence>, d: Deduplication)
    requires ranked != [] && InOrder(ranked) && Sound(ranked[..|ranked| - 1], d) && InOrder(d.candidates)
    ensures InOrder(Absorb(limits, d, ranked[|ranked| - 1]).candidates)
  {
    var n := |ranked| - 1;
    var i := FirstMatch(limits, d.candidates, ranked[n]);
    if i == |d.candidates| {
      forall j | 0 <= j < |d.candidates|
        ensures d.candidates[j].rank < ranked[n].rank && d.candidates[j].score >= ranked[n].score
      {
        EarlierThanLast(ranked, d, j);
      }
    } else {
      MergeAddsTerms(d.candidates[i], ranked[n]);
    }
  }

  lemma EarlierThanLast(ranked: seq<Evidence>, d: Deduplication, j: nat)
    requires ranked != [] && InOrder(ranked) && Sound(ranked[..|ranked| - 1], d) && j < |d.candidates|
    ensures d.candidates[j].rank < ranked[|ranked| - 1].rank && d.candidates[j].score >= ranked[|ranked| - 1].score
  {
    var n := |ranked| - 1;
    assert Original(ranked[..n], d, j);
    var i :| 0 <= i < n && SameBase(ranked[..n][i], d.candidates[j]);
  }

  /** `deduplicate` conserves evidence: survivors and dropped items partition the input, each dropped item is collapsed
      into exactly one survivor, which has all its exact terms, no term is lost or added, and no two survivors share a
      hash. */
  lemma EvidenceIsConserved(limits: Limits, candidates: seq<Evidence>)
    requires DistinctIds(candidates)
    ensures var d := Collapse(limits, Sort(candidates, Earlier));
            && |d.candidates| + |d.decisions| == |candidates|
            && (forall id :: HasId(candidates, id) <==> HasId(d.candidates, id) || Dropped(d.decisions, id))
            && (forall id :: !(HasId(d.candidates, id) && Dropped(d.decisions, id)))
            && (forall p :: p in candidates ==> Housed(d, p))
            && AllTerms(d.candidates) == AllTerms(candidates)
            && DistinctIds(d.candidates) && HashesDiffer(d.candidates)
  {
    var ranked := Sort(candidates, Earlier);
    var d := Collapse(limits, ranked);
    SortKeeps(candidates, Earlier);
    InMultiset(candidates, ranked);
    EvidenceRearranged(candidates, ranked);
    CollapseIsSound(limits, ranked);
    forall id ensures HasId(candidates, id) <==> HasId(ranked, id) {
      SameIds(candidates, ranked, id);
    }
    forall id
      ensures HasId(candidates, id) <==> HasId(d.candidates, id) || Dropped(d.decisions, id)
      ensures !(HasId(d.candidates, id) && Dropped(d.decisions, id))
    {
      assert Split(ranked, d, id);
    }
  }

  lemma SameIds(a: seq<Evidence>, b: seq<Evidence>, id: CandidateId)
    requires forall x :: x in a <==> x in b
    ensures HasId(a, id) <==> HasId(b, id)
  {
    if i :| 0 <= i < |a| && a[i].candidate.id == id {
      assert a[i] in b;
    }
    if i :| 0 <= i < |b| && b[i].candidate.id == id {
      assert b[i] in a;
    }
  }
}
