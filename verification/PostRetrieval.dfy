/** The pipeline from retrieved candidates to the gated prompt (backend/app/rag/postprocess.py). */
module PostRetrieval {
  import opened Wrappers
  import opened Evidence
  import opened Reranker
  import Dedup
  import Context
  import Gate

  /** The configuration and the collaborators: the scoring service answers with one score in [0, 1] per candidate. */
  datatype Settings = Settings(
    rerankLimit: nat,
    score: seq<Candidate> -> seq<real>,
    dedup: Dedup.Limits,
    scoreMin: real,
    topDelta: real,
    pack: Context.PackLimits,
    count: string -> nat)

  ghost predicate ValidSettings(x: Settings) {
    && x.rerankLimit >= 1 && Context.ValidLimits(x.pack) && 0.0 <= x.dedup.overlap <= 1.0 && 0.0 <= x.dedup.near <= 1.0
    && 0.0 <= x.scoreMin <= 1.0 && 0.0 <= x.topDelta <= 1.0
    && forall cs {:trigger x.score(cs)} :: |x.score(cs)| == |cs| && forall i :: 0 <= i < |cs| ==> 0.0 <= x.score(cs)[i] <= 1.0
  }

  datatype PostResult = PostResult(
    reranked: seq<Evidence>,
    deduplication: Dedup.Deduplication,
    cutoff: real,
    retained: seq<Evidence>,
    drops: seq<Gate.Drop>,
    context: Context.Packing,
    evidence: seq<Evidence>)

  function ScoresOf(x: Settings, candidates: seq<Candidate>): seq<real> {
    x.score(Bounded(candidates, x.rerankLimit))
  }

  /** `process`: each stage gets what the one before it kept; the gate judges what was packed. */
  function Process(x: Settings, candidates: seq<Candidate>): PostResult
    requires ValidSettings(x)
  {
    var reranked := Rerank(candidates, x.rerankLimit, ScoresOf(x, candidates));
    var d := Dedup.Collapse(x.dedup, Sort(reranked, Earlier));
    var survivors := Sort(d.candidates, Earlier);
    var cutoff := Gate.Cutoff(x.scoreMin, x.topDelta, survivors);
    var retained := Gate.Reaching(survivors, cutoff);
    var context := Context.PackAll(x.pack, x.count, Context.OrderOf(Sort(retained, Earlier)));
    PostResult(reranked, d, cutoff, retained, Gate.Missing(survivors, cutoff, x.scoreMin), context, Sort(context.selected, Earlier))
  }

  /** The stages as they run. */
  method ProcessEvidence(x: Settings, artifact: Gate.Artifact, candidates: seq<Candidate>) returns (p: PostResult, gate: Gate.Decision)
    requires ValidSettings(x)
    ensures p == Process(x, candidates)
    ensures gate.scores == Gate.ScoresOf(p.evidence) && (gate.answer <==> Gate.Answers(artifact, p.evidence))
    ensures Gate.InPlace(gate.reasons) && forall r :: r in gate.reasons <==> Gate.Applies(artifact, p.evidence, r)
  {
    var reranked := Rerank(candidates, x.rerankLimit, ScoresOf(x, candidates));
    var deduplication := Dedup.Deduplicate(x.dedup, reranked);
    var filtered := Gate.FilterByConfidence(x.scoreMin, x.topDelta, deduplication.value.candidates);
    var context := Context.Pack(x.pack, x.count, filtered.candidates);
    gate := Gate.Evaluate(artifact, context.selected);
    p := PostResult(reranked, deduplication.value, filtered.cutoff, filtered.candidates, filtered.decisions, context, Sort(context.selected, Earlier));
  }

  ghost predicate InRange(es: seq<Evidence>) {
    forall i :: 0 <= i < |es| ==> 0.0 <= es[i].score <= 1.0
  }

  lemma RerankInRange(x: Settings, candidates: seq<Candidate>)
    requires ValidSettings(x)
    ensures InRange(Rerank(candidates, x.rerankLimit, ScoresOf(x, candidates)))
  {
    var scores := ScoresOf(x, candidates);
    forall i | 0 <= i < |scores|
      ensures 0.0 <= Rerank(candidates, x.rerankLimit, scores)[i].score <= 1.0
    {
      var k := RerankedFrom(candidates, x.rerankLimit, scores, i);
    }
  }

  /** Items taken from a reranked sequence and put back in order are in reranked order. */
  lemma SortedSelection(all: seq<Evidence>, some: seq<Evidence>)
    requires InOrder(all) && InRange(all) && Context.DistinctIn(some, all)
    ensures InOrder(Sort(some, Earlier)) && InRange(Sort(some, Earlier)) && DistinctIds(Sort(some, Earlier))
    ensures forall e :: e in Sort(some, Earlier) <==> e in some
  {
    var sorted := Sort(some, Earlier);
    EarlierIsStrictWeak();
    SortSorts(some, Earlier);
    SortKeeps(some, Earlier);
    InMultiset(some, sorted);
    EvidenceRearranged(some, sorted);
    forall i, j | 0 <= i < j < |sorted|
      ensures sorted[i].rank < sorted[j].rank && sorted[i].score >= sorted[j].score
    {
      assert sorted[i] in all && sorted[j] in all;
      var k :| 0 <= k < |all| && all[k] == sorted[i];
      var l :| 0 <= l < |all| && all[l] == sorted[j];
      assert !Earlier(sorted[j], sorted[i]);
    }
    forall i | 0 <= i < |sorted|
      ensures 0.0 <= sorted[i].score <= 1.0
    {
      assert sorted[i] in all;
    }
  }

  /** Deduplication gives survivors in reranked order, each one a reranked item with merged provenance. */
  lemma SurvivorsInOrder(x: Settings, candidates: seq<Candidate>)
    requires ValidSettings(x) && DistinctCandidates(candidates)
    ensures var p := Process(x, candidates);
            && InOrder(p.reranked) && InRange(p.reranked) && DistinctIds(p.reranked)
            && InOrder(p.deduplication.candidates) && InRange(p.deduplication.candidates) && DistinctIds(p.deduplication.candidates)
            && Sort(p.deduplication.candidates, Earlier) == p.deduplication.candidates
            && Dedup.Sound(p.reranked, p.deduplication)
  {
    var scores := ScoresOf(x, candidates);
    var reranked := Rerank(candidates, x.rerankLimit, scores);
    RerankOrders(candidates, x.rerankLimit, scores);
    RerankInRange(x, candidates);
    RerankedIsDistinct(candidates, x.rerankLimit, scores);
    SortedAlready(reranked);
    var d := Dedup.Collapse(x.dedup, reranked);
    Dedup.CollapseIsSound(x.dedup, reranked);
    Dedup.CollapseKeepsOrder(x.dedup, reranked);
    SortedAlready(d.candidates);
    forall j | 0 <= j < |d.candidates|
      ensures 0.0 <= d.candidates[j].score <= 1.0
    {
      assert Dedup.Original(reranked, d, j);
    }
  }

  lemma PrefixOfOrder(es: seq<Evidence>, n: nat)
    requires n <= |es| && InOrder(es) && InRange(es) && DistinctIds(es)
    ensures InOrder(es[..n]) && InRange(es[..n]) && DistinctIds(es[..n])
  {
  }

  /** The filter keeps a prefix of the survivors. */
  lemma RetainedIsPrefix(x: Settings, candidates: seq<Candidate>)
    requires ValidSettings(x) && DistinctCandidates(candidates)
    ensures var p := Process(x, candidates);
            && p.retained <= p.deduplication.candidates
            && InOrder(p.retained) && InRange(p.retained) && DistinctIds(p.retained)
            && (forall i :: |p.retained| <= i < |p.deduplication.candidates| ==> p.deduplication.candidates[i].score < p.cutoff)
            && (forall i :: 0 <= i < |p.retained| ==> p.retained[i].score >= p.cutoff)
  {
    var p := Process(x, candidates);
    SurvivorsInOrder(x, candidates);
    var survivors := p.deduplication.candidates;
    Gate.FilterKeepsPrefix(survivors, p.cutoff);
    PrefixOfOrder(survivors, Gate.Reach(survivors, p.cutoff));
  }

  /** Scores do not rise along the ranks at any stage, and what the gate judges is the packed evidence in that order. */
  lemma PackedInOrder(x: Settings, candidates: seq<Candidate>)
    requires ValidSettings(x) && DistinctCandidates(candidates)
    ensures var p := Process(x, candidates);
            && InOrder(p.evidence) && InRange(p.evidence) && DistinctIds(p.evidence)
            && (forall e :: e in p.evidence ==> e in p.retained)
            && (forall e :: e in p.evidence <==> e in p.context.selected)
  {
    var p := Process(x, candidates);
    RetainedIsPrefix(x, candidates);
    SortedAlready(p.retained);
    Context.OrderIsDistinct(p.retained);
    var ordered := Context.OrderOf(p.retained);
    Context.PackedCount(x.pack, x.count, ordered);
    assert forall e :: e in p.context.selected ==> e in ordered;
    SortedSelection(p.retained, p.context.selected);
  }

  /** What the gate sees: a margin within [0, 1], at most the filter's delta when two items were packed, and no exact
      match above the top score. */
  lemma GateScoresMakeSense(x: Settings, candidates: seq<Candidate>)
    requires ValidSettings(x) && DistinctCandidates(candidates) && Process(x, candidates).evidence != []
    ensures var es := Process(x, candidates).evidence;
            && 0.0 <= Gate.Margin(es).value <= 1.0
            && (|es| >= 2 ==> Gate.Margin(es).value <= x.topDelta)
            && (Gate.BestExact(es).Some? ==> Gate.BestExact(es).value <= es[0].score)
  {
    var p := Process(x, candidates);
    PackedInOrder(x, candidates);
    RetainedIsPrefix(x, candidates);
    SurvivorsInOrder(x, candidates);
    Gate.ScoresMakeSense(p.evidence);
    if |p.evidence| >= 2 {
      assert p.evidence[0] in p.retained && p.evidence[1] in p.retained;
      CloseToTop(x, p.deduplication.candidates, p.retained, p.cutoff, p.evidence[0], p.evidence[1]);
    }
  }

  /** No two retained items are further apart than the delta. */
  lemma CloseToTop(x: Settings, survivors: seq<Evidence>, retained: seq<Evidence>, cutoff: real, a: Evidence, b: Evidence)
    requires InOrder(survivors) && retained <= survivors && a in retained && b in retained
    requires cutoff == Gate.Cutoff(x.scoreMin, x.topDelta, survivors) && forall i :: 0 <= i < |retained| ==> retained[i].score >= cutoff
    ensures a.score - b.score <= x.topDelta
  {
  }

  /** The packed context respects every limit, its selection and skips partition the retained evidence, and every cap
      that a skip names is full. */
  lemma PackedContextIsSound(x: Settings, candidates: seq<Candidate>)
    requires ValidSettings(x) && DistinctCandidates(candidates)
    ensures var p := Process(x, candidates);
            && Context.WithinLimits(x.pack, x.count, p.context)
            && |p.context.selected| + |p.context.skipped| == |p.retained|
            && (forall id :: Context.PartOf(p.context, Context.OrderOf(p.retained), id))
            && (forall k :: Context.SkipOk(x.pack, x.count, Context.OrderOf(p.retained), p.context, k))
  {
    var p := Process(x, candidates);
    RetainedIsPrefix(x, candidates);
    SortedAlready(p.retained);
    Context.OrderIsPermutation(p.retained);
    var ordered := Context.OrderOf(p.retained);
    assert |multiset(ordered)| == |ordered| && |multiset(p.retained)| == |p.retained|;
    Context.PackedWithinLimits(x.pack, x.count, ordered);
    Context.PackedCount(x.pack, x.count, ordered);
    forall id ensures Context.PartOf(p.context, ordered, id) {
      Context.PackedPartition(x.pack, x.count, ordered, id);
    }
    Context.SkipsAreJustified(x.pack, x.count, ordered);
  }

  /** The result does not depend on the order in which retrieval delivered the candidates. */
  lemma ProcessIgnoresOrder(x: Settings, a: seq<Candidate>, b: seq<Candidate>)
    requires ValidSettings(x) && DistinctCandidates(a) && multiset(a) == multiset(b)
    ensures Process(x, a) == Process(x, b)
  {
    BoundedInvariant(a, b, x.rerankLimit);
  }
}
