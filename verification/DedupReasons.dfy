/** What is dropped as a duplicate is one, and what is kept is none, stated on the evidence as it was reranked. */
module DedupReasons {
  import opened Wrappers
  import opened Evidence
  import opened Dedup

  predicate InSpan(k: nat, span: (nat, nat)) {
    span.0 <= k < span.1
  }

  /** The positions two spans share. */
  function Shared(a: (nat, nat), b: (nat, nat)): set<nat> {
    set k: nat | k < a.1 && InSpan(k, a) && InSpan(k, b)
  }

  function Positions(low: nat, high: nat): set<nat> {
    set k: nat | k < high && InSpan(k, (low, high))
  }

  lemma {:induction false} RangeSize(low: nat, high: nat)
    requires low <= high
    ensures |Positions(low, high)| == high - low
    decreases high
  {
    if low == high {
      assert Positions(low, high) == {};
    } else {
      RangeSize(low, high - 1);
      assert Positions(low, high) == Positions(low, high - 1) + {high - 1};
    }
  }

  lemma SharedSize(a: (nat, nat), b: (nat, nat))
    ensures |Shared(a, b)| == Max(0, Min(a.1, b.1) - Max(a.0, b.0))
  {
    var low, high: nat := if a.0 < b.0 then b.0 else a.0, if a.1 < b.1 then a.1 else b.1;
    if low <= high {
      RangeSize(low, high);
      assert Shared(a, b) == Positions(low, high);
    } else {
      assert Shared(a, b) == {};
    }
  }

  /** Two candidates from one section of one source, with spans. */
  predicate SamePlace(left: Candidate, right: Candidate) {
    left.sourceKey == right.sourceKey && left.sectionKey == right.sectionKey && left.span.Some? && right.span.Some?
  }

  /** Their overlap is the part of the shorter span that they share; other candidates have none. */
  lemma OverlapExactly(left: Candidate, right: Candidate)
    ensures !SamePlace(left, right) ==> SpanOverlap(left, right) == 0.0
    ensures SamePlace(left, right) && left.span.value.0 < left.span.value.1 && right.span.value.0 < right.span.value.1 ==>
              var a, b := left.span.value, right.span.value;
              var shortest := if a.1 - a.0 < b.1 - b.0 then a.1 - a.0 else b.1 - b.0;
              SpanOverlap(left, right) * shortest as real == |Shared(a, b)| as real
  {
    if SamePlace(left, right) {
      SharedSize(left.span.value, right.span.value);
    }
  }

  /** Why item p repeats item q, on the items themselves. */
  predicate Repeats(limits: Limits, q: Candidate, p: Candidate, why: Duplicate) {
    match why.reason
    case ContentHash => p.contentHash == q.contentHash && why.similarity == 1.0
    case LexicalHash => p.lexicalHash == q.lexicalHash && p.contentHash != q.contentHash && why.similarity == 1.0
    case OverlappingSpan => why.similarity == SpanOverlap(q, p) && SpanOverlap(q, p) >= limits.overlap
    case NearDuplicate => why.similarity == limits.similarity(q.textLexical, p.textLexical) && why.similarity >= limits.near
  }

  /** Items q and p have different texts, and their texts and places are different enough. */
  predicate Differs(limits: Limits, q: Candidate, p: Candidate) {
    && p.contentHash != q.contentHash && p.lexicalHash != q.lexicalHash
    && SpanOverlap(q, p) < limits.overlap && limits.similarity(q.textLexical, p.textLexical) < limits.near
  }

  lemma SameReason(limits: Limits, a: Evidence, b: Evidence, p: Evidence)
    requires SameBase(a, b)
    ensures SpanOverlap(a.candidate, p.candidate) == SpanOverlap(b.candidate, p.candidate)
    ensures a.candidate.contentHash == b.candidate.contentHash && a.candidate.lexicalHash == b.candidate.lexicalHash
    ensures a.candidate.textLexical == b.candidate.textLexical && a.candidate.id == b.candidate.id
  {
  }

  lemma ReasonIsTrue(limits: Limits, original: Evidence, existing: Evidence, current: Evidence)
    requires SameBase(original, existing)
    ensures var why := DuplicateReason(limits, existing, current);
            if why.Some? then
              && Repeats(limits, original.candidate, current.candidate, why.value)
              && (why.value.reason in {OverlappingSpan, NearDuplicate} ==> TermsOf(current) <= TermsOf(existing))
            else TermsOf(current) <= TermsOf(existing) ==> Differs(limits, original.candidate, current.candidate)
  {
    SameReason(limits, original, existing, current);
  }

  /** Decision k drops item j because it repeats the earlier item i. */
  predicate DecisionOf(limits: Limits, ranked: seq<Evidence>, d: Deduplication, k: nat, i: nat, j: nat) {
    && k < |d.decisions| && i < j < |ranked|
    && d.decisions[k].dropped == ranked[j].candidate.id && d.decisions[k].kept == ranked[i].candidate.id
    && Repeats(limits, ranked[i].candidate, ranked[j].candidate, d.decisions[k].duplicate)
  }

  ghost predicate DecisionOk(limits: Limits, ranked: seq<Evidence>, d: Deduplication, k: nat) {
    k < |d.decisions| ==> exists i: nat, j: nat :: DecisionOf(limits, ranked, d, k, i, j)
  }

  lemma DecisionStays(limits: Limits, ranked: seq<Evidence>, d: Deduplication, k: nat)
    requires ranked != [] && k < |d.decisions| && DecisionOk(limits, ranked[..|ranked| - 1], d, k)
    ensures DecisionOk(limits, ranked, Absorb(limits, d, ranked[|ranked| - 1]), k)
  {
    var n := |ranked| - 1;
    var i: nat, j: nat :| DecisionOf(limits, ranked[..n], d, k, i, j);
    assert DecisionOf(limits, ranked, Absorb(limits, d, ranked[n]), k, i, j);
  }

  lemma NewDecision(limits: Limits, ranked: seq<Evidence>, d: Deduplication)
    requires ranked != [] && Sound(ranked[..|ranked| - 1], d) && FirstMatch(limits, d.candidates, ranked[|ranked| - 1]) < |d.candidates|
    ensures DecisionOk(limits, ranked, Absorb(limits, d, ranked[|ranked| - 1]), |d.decisions|)
  {
    var n := |ranked| - 1;
    var x := FirstMatch(limits, d.candidates, ranked[n]);
    assert Original(ranked[..n], d, x);
    var i :| 0 <= i < n && SameBase(ranked[..n][i], d.candidates[x]);
    ReasonIsTrue(limits, ranked[i], d.candidates[x], ranked[n]);
    assert DecisionOf(limits, ranked, Absorb(limits, d, ranked[n]), |d.decisions|, i, n);
  }

  /** Whatever is dropped repeats an item ranked before it, for the reason and with the similarity given. */
  lemma {:induction false} DecisionsAreTrue(limits: Limits, ranked: seq<Evidence>, k: nat)
    requires DistinctIds(ranked)
    ensures DecisionOk(limits, ranked, Collapse(limits, ranked), k)
    decreases |ranked|
  {
    if ranked != [] {
      var n := |ranked| - 1;
      var d := Collapse(limits, ranked[..n]);
      DecisionsAreTrue(limits, ranked[..n], k);
      CollapseIsSound(limits, ranked[..n]);
      if k < |d.decisions| {
        DecisionStays(limits, ranked, d, k);
      } else if FirstMatch(limits, d.candidates, ranked[n]) < |d.candidates| && k == |d.decisions| {
        NewDecision(limits, ranked, d);
      }
    }
  }

  /** Survivors i and j are kept for good reasons: they are items ranked in this order, with different hashes, and if the later
      one brings no exact term that the earlier one lacks, they differ in text and place as well. */
  ghost predicate Apart(limits: Limits, ranked: seq<Evidence>, d: Deduplication, i: nat, j: nat) {
    i < j < |d.candidates| ==> exists a: nat, b: nat :: Survivors(limits, ranked, d, i, j, a, b)
  }

  predicate Survivors(limits: Limits, ranked: seq<Evidence>, d: Deduplication, i: nat, j: nat, a: nat, b: nat)
    requires i < j < |d.candidates|
  {
    && a < b < |ranked| && SameBase(ranked[a], d.candidates[i]) && SameBase(ranked[b], d.candidates[j])
    && TermsOf(ranked[a]) <= TermsOf(d.candidates[i]) && TermsOf(ranked[b]) <= TermsOf(d.candidates[j])
    && (TermsOf(ranked[b]) <= TermsOf(ranked[a]) ==> Differs(limits, ranked[a].candidate, ranked[b].candidate))
  }

  lemma ApartStays(limits: Limits, ranked: seq<Evidence>, d: Deduplication, i: nat, j: nat)
    requires ranked != [] && i < j < |d.candidates| && Apart(limits, ranked[..|ranked| - 1], d, i, j)
    ensures Apart(limits, ranked, Absorb(limits, d, ranked[|ranked| - 1]), i, j)
  {
    var n := |ranked| - 1;
    var a: nat, b: nat :| Survivors(limits, ranked[..n], d, i, j, a, b);
    var t := Absorb(limits, d, ranked[n]);
    var x := FirstMatch(limits, d.candidates, ranked[n]);
    if x < |d.candidates| {
      MergeAddsTerms(d.candidates[x], ranked[n]);
    }
    assert Survivors(limits, ranked, t, i, j, a, b);
  }

  lemma {:induction false} OriginalTerms(limits: Limits, ranked: seq<Evidence>, i: nat) returns (a: nat)
    requires DistinctIds(ranked) && i < |Collapse(limits, ranked).candidates|
    ensures a < |ranked| && SameBase(ranked[a], Collapse(limits, ranked).candidates[i])
    ensures TermsOf(ranked[a]) <= TermsOf(Collapse(limits, ranked).candidates[i])
    decreases |ranked|
  {
    var n := |ranked| - 1;
    var d := Collapse(limits, ranked[..n]);
    var x := FirstMatch(limits, d.candidates, ranked[n]);
    if i < |d.candidates| {
      a := OriginalTerms(limits, ranked[..n], i);
      if x < |d.candidates| {
        MergeAddsTerms(d.candidates[x], ranked[n]);
      }
    } else {
      a := n;
    }
  }

  lemma NewIsApart(limits: Limits, ranked: seq<Evidence>, i: nat)
    requires ranked != [] && DistinctIds(ranked)
    requires var d := Collapse(limits, ranked[..|ranked| - 1]);
             i < |d.candidates| && FirstMatch(limits, d.candidates, ranked[|ranked| - 1]) == |d.candidates|
    ensures Apart(limits, ranked, Collapse(limits, ranked), i, |Collapse(limits, ranked[..|ranked| - 1]).candidates|)
  {
    var n := |ranked| - 1;
    var d := Collapse(limits, ranked[..n]);
    var a := OriginalTerms(limits, ranked[..n], i);
    ReasonIsTrue(limits, ranked[a], d.candidates[i], ranked[n]);
    assert Survivors(limits, ranked, Collapse(limits, ranked), i, |d.candidates|, a, n);
  }

  /** Nothing that is kept repeats another kept item. */
  lemma {:induction false} SurvivorsAreApart(limits: Limits, ranked: seq<Evidence>, i: nat, j: nat)
    requires DistinctIds(ranked)
    ensures Apart(limits, ranked, Collapse(limits, ranked), i, j)
    decreases |ranked|
  {
    if ranked != [] && i < j {
      var n := |ranked| - 1;
      var d := Collapse(limits, ranked[..n]);
      SurvivorsAreApart(limits, ranked[..n], i, j);
      if j < |d.candidates| {
        ApartStays(limits, ranked, d, i, j);
      } else if j == |d.candidates| && FirstMatch(limits, d.candidates, ranked[n]) == |d.candidates| {
        NewIsApart(limits, ranked, i);
      }
    }
  }

  /** A merged item has the exact terms and the hints of both, and remembers what was merged into it, in order. */
  lemma MergeExactly(survivor: Evidence, duplicate: Evidence, x: string)
    ensures var m := Merge(survivor, duplicate).candidate;
            && (x in m.exactTerms <==> x in survivor.candidate.exactTerms || x in duplicate.candidate.exactTerms)
            && (x in m.hints <==> x in survivor.candidate.hints || x in duplicate.candidate.hints)
            && m.collapsed == survivor.candidate.collapsed + [duplicate.candidate.id] && m.id == survivor.candidate.id
  {
  }
}
