/** Which candidates are reranked and in which order, which pass the confidence filter, and what the gate decides, stated on
    scores and ranks. */
module RankingExactly {
  import opened Wrappers
  import opened Evidence
  import opened Reranker
  import Gate

  /** As many candidates are reranked as there are, or as the limit allows; and none left out has a better retrieval rank, or an equal
      one and a smaller identifier, than one that is. */
  lemma BoundedExactly(candidates: seq<Candidate>, limit: nat, x: Candidate, y: Candidate)
    requires x in candidates && x !in Bounded(candidates, limit) && y in Bounded(candidates, limit)
    ensures y.retrievalRank < x.retrievalRank || (y.retrievalRank == x.retrievalRank && y.id <= x.id)
  {
    BoundedKeepsBest(candidates, limit, x, y);
  }

  lemma BoundedCount(candidates: seq<Candidate>, limit: nat)
    ensures |Bounded(candidates, limit)| == if |candidates| <= limit then |candidates| else limit
    ensures forall x :: x in Bounded(candidates, limit) ==> x in candidates
  {
    var ordered := Sort(candidates, Retrieved);
    SortKeeps(candidates, Retrieved);
    InMultiset(ordered, candidates);
  }

  /** Equal scores are ordered by retrieval rank, and equal ranks by identifier. */
  lemma TiesExactly(candidates: seq<Candidate>, limit: nat, scores: seq<real>, i: nat, j: nat)
    requires |scores| == |Bounded(candidates, limit)| && i < j < |scores|
    ensures var a, b := Rerank(candidates, limit, scores)[i], Rerank(candidates, limit, scores)[j];
            a.score == b.score ==>
              a.candidate.retrievalRank < b.candidate.retrievalRank
              || (a.candidate.retrievalRank == b.candidate.retrievalRank && a.candidate.id <= b.candidate.id)
  {
    var scored := Scored(Bounded(candidates, limit), scores);
    BetterIsStrictWeak();
    SortSorts(scored, Better);
    assert !Better(Sort(scored, Better)[j], Sort(scored, Better)[i]);
  }

  /** Wherever evidence is put in order, it is ordered by rank, and equal ranks by identifier. */
  lemma RankOrderExactly(es: seq<Evidence>, i: nat, j: nat)
    requires i < j < |es|
    ensures var a, b := Sort(es, Earlier)[i], Sort(es, Earlier)[j];
            a.rank < b.rank || (a.rank == b.rank && a.candidate.id <= b.candidate.id)
  {
    EarlierIsStrictWeak();
    SortSorts(es, Earlier);
    assert !Earlier(Sort(es, Earlier)[j], Sort(es, Earlier)[i]);
  }

  lemma {:induction false} ReachingExactly(ranked: seq<Evidence>, cutoff: real, e: Evidence)
    ensures e in Gate.Reaching(ranked, cutoff) <==> e in ranked && e.score >= cutoff
    decreases |ranked|
  {
    if ranked != [] {
      var n := |ranked| - 1;
      ReachingExactly(ranked[..n], cutoff, e);
      assert ranked == ranked[..n] + [ranked[n]];
    }
  }

  lemma {:induction false} MissingExactly(ranked: seq<Evidence>, cutoff: real, scoreMin: real, d: Gate.Drop)
    ensures d in Gate.Missing(ranked, cutoff, scoreMin) <==>
              exists e :: e in ranked && e.score < cutoff
                          && d == Gate.Drop(e.candidate.id, e.rank, e.score, if e.score < scoreMin then Gate.BelowScoreMin else Gate.OutsideTopDelta)
    decreases |ranked|
  {
    if ranked != [] {
      var n := |ranked| - 1;
      MissingExactly(ranked[..n], cutoff, scoreMin, d);
      assert ranked == ranked[..n] + [ranked[n]];
    }
  }

  /** The filter keeps what reaches the minimum and is within the delta of the top score, and says of the rest which it missed. */
  lemma FilterExactly(scoreMin: real, topDelta: real, ranked: seq<Evidence>, e: Evidence)
    requires InOrder(ranked) && e in ranked
    ensures var cutoff := Gate.Cutoff(scoreMin, topDelta, ranked);
            && (e in Gate.Reaching(ranked, cutoff) <==>
                  e.score >= scoreMin && forall top :: top in ranked ==> e.score >= top.score - topDelta)
            && (e !in Gate.Reaching(ranked, cutoff) ==>
                  Gate.Drop(e.candidate.id, e.rank, e.score, if e.score < scoreMin then Gate.BelowScoreMin else Gate.OutsideTopDelta)
                  in Gate.Missing(ranked, cutoff, scoreMin))
  {
    var cutoff := Gate.Cutoff(scoreMin, topDelta, ranked);
    ReachingExactly(ranked, cutoff, e);
    MissingExactly(ranked, cutoff, scoreMin,
                   Gate.Drop(e.candidate.id, e.rank, e.score, if e.score < scoreMin then Gate.BelowScoreMin else Gate.OutsideTopDelta));
    assert ranked[0] in ranked;
    forall top | top in ranked
      ensures top.score <= ranked[0].score
    {
      var i :| 0 <= i < |ranked| && ranked[i] == top;
    }
  }

  /** The gate answers exactly when it is calibrated for the models in use and either an item with an exact term scores enough by itself,
      or there is enough evidence, the top score is enough, and it leads the next one, or zero, by enough. */
  lemma AnswersExactly(artifact: Gate.Artifact, ranked: seq<Evidence>, t: Gate.Thresholds)
    requires artifact.thresholds == Some(t)
    ensures Gate.Answers(artifact, ranked) <==>
              && artifact.calibrated && artifact.modelsMatch
              && ((exists e :: e in ranked && e.candidate.exactTerms != [] && e.score >= t.exactScoreMin)
                  || (|ranked| == 1 && 1 >= t.minEvidence && ranked[0].score >= t.topScoreMin && ranked[0].score >= t.scoreMarginMin)
                  || (|ranked| > 1 && |ranked| >= t.minEvidence && ranked[0].score >= t.topScoreMin
                      && ranked[0].score >= ranked[1].score + t.scoreMarginMin))
  {
    if e :| e in ranked && e.candidate.exactTerms != [] && e.score >= t.exactScoreMin {
      var i :| 0 <= i < |ranked| && ranked[i] == e;
    }
    if Gate.ExactPasses(t, ranked) {
      var i :| 0 <= i < |ranked| && ranked[i].candidate.exactTerms != [] && ranked[i].score >= t.exactScoreMin;
      assert ranked[i] in ranked;
    }
  }

  /** Without thresholds it never answers. */
  lemma UncalibratedNeverAnswers(artifact: Gate.Artifact, ranked: seq<Evidence>)
    requires artifact.thresholds == None || !artifact.calibrated || !artifact.modelsMatch
    ensures !Gate.Answers(artifact, ranked)
  {
  }

  /** What a refusal names, on a calibrated gate: each threshold that is missed, and no other. */
  lemma RefusalExactly(artifact: Gate.Artifact, ranked: seq<Evidence>, t: Gate.Thresholds, r: Gate.Reason)
    requires artifact == Gate.Artifact(true, true, Some(t)) && ranked != [] && !Gate.Answers(artifact, ranked)
    ensures var lead := if |ranked| > 1 then ranked[0].score - ranked[1].score else ranked[0].score;
            Gate.Applies(artifact, ranked, r) <==>
              || (r == Gate.InsufficientEvidence && |ranked| < t.minEvidence)
              || (r == Gate.TopScoreBelowThreshold && ranked[0].score < t.topScoreMin)
              || (r == Gate.ScoreMarginBelowThreshold && lead < t.scoreMarginMin)
  {
  }

  /** Reasons are named in the order in which the thresholds are checked. */
  lemma ReasonsInOrder(reasons: seq<Gate.Reason>, i: nat, j: nat)
    requires Gate.InPlace(reasons) && i < |reasons| && j < |reasons|
    ensures reasons[i] == Gate.InsufficientEvidence && reasons[j] == Gate.TopScoreBelowThreshold ==> i < j
    ensures reasons[i] == Gate.InsufficientEvidence && reasons[j] == Gate.ScoreMarginBelowThreshold ==> i < j
    ensures reasons[i] == Gate.TopScoreBelowThreshold && reasons[j] == Gate.ScoreMarginBelowThreshold ==> i < j
    ensures reasons[i] == reasons[j] ==> i == j
  {
  }
}
