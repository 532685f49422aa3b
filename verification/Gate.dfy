/** The confidence filter and the answer gate (backend/app/rag/confidence.py, backend/app/rag/gate.py). */
module Gate {
  import opened Wrappers
  import opened Evidence

  datatype DropReason = BelowScoreMin | OutsideTopDelta

  datatype Drop = Drop(id: CandidateId, rank: nat, score: real, reason: DropReason)

  datatype Filtered = Filtered(candidates: seq<Evidence>, decisions: seq<Drop>, topScore: Option<real>, cutoff: real)

  function MaxReal(a: real, b: real): real {
    if a < b then b else a
  }

  function TopScore(ranked: seq<Evidence>): Option<real> {
    if ranked == [] then None else Some(ranked[0].score)
  }

  function Cutoff(scoreMin: real, topDelta: real, ranked: seq<Evidence>): real {
    if ranked == [] then scoreMin else MaxReal(scoreMin, ranked[0].score - topDelta)
  }

  /** `CandidateConfidenceFilter.filter`: in reranked order this keeps a prefix. Everything kept reaches the cutoff,
      everything else is below it, and the reason says which of its two parts it misses. */
  method FilterByConfidence(scoreMin: real, topDelta: real, candidates: seq<Evidence>) returns (r: Filtered)
    ensures var ranked := Sort(candidates, Earlier);
            && r.topScore == TopScore(ranked) && r.cutoff == Cutoff(scoreMin, topDelta, ranked)
            && r.candidates == Reaching(ranked, r.cutoff)
            && r.decisions == Missing(ranked, r.cutoff, scoreMin)
  {
    var ranked := Sort(candidates, Earlier);
    var top := if ranked != [] then Some(ranked[0].score) else None;
    var cutoff := if top.Some? then MaxReal(scoreMin, top.value - topDelta) else scoreMin;
    var retained: seq<Evidence>, decisions: seq<Drop> := [], [];
    for n := 0 to |ranked|
      invariant retained == Reaching(ranked[..n], cutoff)
      invariant decisions == Missing(ranked[..n], cutoff, scoreMin)
    {
      assert ranked[..n + 1][..n] == ranked[..n];
      var item := ranked[n];
      if item.score >= cutoff {
        retained := retained + [item];
      } else {
        var reason := if item.score < scoreMin then BelowScoreMin else OutsideTopDelta;
        decisions := decisions + [Drop(item.candidate.id, item.rank, item.score, reason)];
      }
    }
    assert ranked[..|ranked|] == ranked;
    r := Filtered(retained, decisions, top, cutoff);
  }

  function Reaching(ranked: seq<Evidence>, cutoff: real): seq<Evidence>
    decreases |ranked|
  {
    if ranked == [] then []
    else
      var n := |ranked| - 1;
      Reaching(ranked[..n], cutoff) + if ranked[n].score >= cutoff then [ranked[n]] else []
  }

  function DropOf(e: Evidence, scoreMin: real): Drop {
    Drop(e.candidate.id, e.rank, e.score, if e.score < scoreMin then BelowScoreMin else OutsideTopDelta)
  }

  function Missing(ranked: seq<Evidence>, cutoff: real, scoreMin: real): seq<Drop>
    decreases |ranked|
  {
    if ranked == [] then []
    else
      var n := |ranked| - 1;
      Missing(ranked[..n], cutoff, scoreMin) + if ranked[n].score >= cutoff then [] else [DropOf(ranked[n], scoreMin)]
  }

  /** How many items from the front reach the cutoff. */
  function Reach(ranked: seq<Evidence>, cutoff: real): (k: nat)
    ensures k <= |ranked|
    ensures forall i :: 0 <= i < k ==> ranked[i].score >= cutoff
    ensures k < |ranked| ==> ranked[k].score < cutoff
  {
    if ranked == [] || ranked[0].score < cutoff then 0 else 1 + Reach(ranked[1..], cutoff)
  }

  lemma {:induction false} ReachingAll(ranked: seq<Evidence>, cutoff: real)
    requires forall i :: 0 <= i < |ranked| ==> ranked[i].score >= cutoff
    ensures Reaching(ranked, cutoff) == ranked
    decreases |ranked|
  {
    if ranked != [] {
      var n := |ranked| - 1;
      ReachingAll(ranked[..n], cutoff);
      assert ranked == ranked[..n] + [ranked[n]];
    }
  }

  lemma PrefixInOrder(ranked: seq<Evidence>, n: nat)
    requires n <= |ranked| && InOrder(ranked)
    ensures InOrder(ranked[..n])
  {
  }

  lemma BelowFromReach(ranked: seq<Evidence>, cutoff: real)
    requires InOrder(ranked)
    ensures forall i :: Reach(ranked, cutoff) <= i < |ranked| ==> ranked[i].score < cutoff
  {
    var k := Reach(ranked, cutoff);
    forall i | k <= i < |ranked|
      ensures ranked[i].score < cutoff
    {
      assert k < i ==> ranked[k].score >= ranked[i].score;
    }
  }

  /** In reranked order the filter keeps a prefix. */
  lemma {:induction false} FilterKeepsPrefix(ranked: seq<Evidence>, cutoff: real)
    requires InOrder(ranked)
    ensures Reaching(ranked, cutoff) == ranked[..Reach(ranked, cutoff)]
    ensures forall i :: Reach(ranked, cutoff) <= i < |ranked| ==> ranked[i].score < cutoff
    decreases |ranked|
  {
    var k := Reach(ranked, cutoff);
    if k == |ranked| {
      ReachingAll(ranked, cutoff);
      assert ranked[..k] == ranked;
    } else {
      var n := |ranked| - 1;
      BelowFromReach(ranked, cutoff);
      ReachOfPrefix(ranked, n, cutoff);
      PrefixInOrder(ranked, n);
      FilterKeepsPrefix(ranked[..n], cutoff);
      assert ranked[..n][..k] == ranked[..k];
    }
  }

  lemma {:induction false} MissingCount(ranked: seq<Evidence>, cutoff: real, scoreMin: real)
    ensures |Missing(ranked, cutoff, scoreMin)| + |Reaching(ranked, cutoff)| == |ranked|
    decreases |ranked|
  {
    if ranked != [] {
      MissingCount(ranked[..|ranked| - 1], cutoff, scoreMin);
    }
  }

  lemma DropsCount(ranked: seq<Evidence>, cutoff: real, scoreMin: real)
    requires InOrder(ranked)
    ensures |Missing(ranked, cutoff, scoreMin)| == |ranked| - Reach(ranked, cutoff)
  {
    MissingCount(ranked, cutoff, scoreMin);
    FilterKeepsPrefix(ranked, cutoff);
  }

  /** And drops the rest one by one, each with its own reason. */
  lemma {:induction false} FilterDropsRest(ranked: seq<Evidence>, cutoff: real, scoreMin: real, i: nat)
    requires InOrder(ranked) && Reach(ranked, cutoff) <= i < |ranked|
    ensures |Missing(ranked, cutoff, scoreMin)| == |ranked| - Reach(ranked, cutoff)
    ensures Missing(ranked, cutoff, scoreMin)[i - Reach(ranked, cutoff)] == DropOf(ranked[i], scoreMin)
    decreases |ranked|
  {
    var n := |ranked| - 1;
    var before := ranked[..n];
    FilterKeepsPrefix(ranked, cutoff);
    DropsCount(ranked, cutoff, scoreMin);
    DropsCount(before, cutoff, scoreMin);
    ReachOfPrefix(ranked, n, cutoff);
    assert Missing(ranked, cutoff, scoreMin) == Missing(before, cutoff, scoreMin) + [DropOf(ranked[n], scoreMin)];
    if i < n {
      FilterDropsRest(before, cutoff, scoreMin, i);
      assert before[i] == ranked[i];
    }
  }

  lemma {:induction false} MissingNone(ranked: seq<Evidence>, cutoff: real, scoreMin: real)
    requires forall i :: 0 <= i < |ranked| ==> ranked[i].score >= cutoff
    ensures Missing(ranked, cutoff, scoreMin) == []
    decreases |ranked|
  {
    if ranked != [] {
      MissingNone(ranked[..|ranked| - 1], cutoff, scoreMin);
    }
  }

  lemma ReachOfPrefix(ranked: seq<Evidence>, n: nat, cutoff: real)
    requires n <= |ranked| && Reach(ranked, cutoff) <= n
    ensures Reach(ranked[..n], cutoff) == Reach(ranked, cutoff)
  {
  }

  datatype Thresholds = Thresholds(topScoreMin: real, scoreMarginMin: real, exactScoreMin: real, minEvidence: nat)

  /** The artifact of the gate: calibrated exactly when it has thresholds. */
  datatype Artifact = Artifact(calibrated: bool, modelsMatch: bool, thresholds: Option<Thresholds>)

  datatype Scores = Scores(topScore: Option<real>, margin: Option<real>, bestExact: Option<real>, evidenceCount: nat)

  datatype Reason =
    | ThresholdsPassed | ExactThresholdPassed | NoCandidates | CalibrationUnavailable | ModelRevisionMismatch
    | InsufficientEvidence | TopScoreBelowThreshold | ScoreMarginBelowThreshold

  datatype Decision = Decision(answer: bool, reasons: seq<Reason>, scores: Scores)

  function Margin(ranked: seq<Evidence>): Option<real> {
    if |ranked| > 1 then Some(ranked[0].score - ranked[1].score) else TopScore(ranked)
  }

  function BestExact(ranked: seq<Evidence>): (r: Option<real>)
    ensures r.Some? <==> exists i :: 0 <= i < |ranked| && ranked[i].candidate.exactTerms != []
    ensures r.Some? ==> (exists i :: 0 <= i < |ranked| && ranked[i].candidate.exactTerms != [] && ranked[i].score == r.value)
                        && forall i :: 0 <= i < |ranked| && ranked[i].candidate.exactTerms != [] ==> ranked[i].score <= r.value
    decreases |ranked|
  {
    if ranked == [] then None
    else
      var n := |ranked| - 1;
      var before := BestExact(ranked[..n]);
      if ranked[n].candidate.exactTerms == [] then before
      else if before.None? || before.value < ranked[n].score then Some(ranked[n].score)
      else before
  }

  function ScoresOf(ranked: seq<Evidence>): Scores {
    Scores(TopScore(ranked), Margin(ranked), BestExact(ranked), |ranked|)
  }

  /** Some exact match is good enough by itself. */
  predicate ExactPasses(t: Thresholds, ranked: seq<Evidence>) {
    exists i :: 0 <= i < |ranked| && ranked[i].candidate.exactTerms != [] && ranked[i].score >= t.exactScoreMin
  }

  predicate ThresholdsPass(t: Thresholds, ranked: seq<Evidence>) {
    ranked != [] && |ranked| >= t.minEvidence && ranked[0].score >= t.topScoreMin && Margin(ranked).value >= t.scoreMarginMin
  }

  /** When a reason is given. */
  predicate Applies(artifact: Artifact, ranked: seq<Evidence>, r: Reason) {
    if ranked == [] then r == NoCandidates
    else if !artifact.calibrated then r == CalibrationUnavailable
    else if !artifact.modelsMatch then r == ModelRevisionMismatch
    else if artifact.thresholds.None? then r == CalibrationUnavailable
    else
      var t := artifact.thresholds.value;
      if ExactPasses(t, ranked) then r == ExactThresholdPassed
      else if ThresholdsPass(t, ranked) then r == ThresholdsPassed
      else
        match r
        case InsufficientEvidence => |ranked| < t.minEvidence
        case TopScoreBelowThreshold => ranked[0].score < t.topScoreMin
        case ScoreMarginBelowThreshold => Margin(ranked).value < t.scoreMarginMin
        case _ => false
  }

  /** The order in which reasons are checked. */
  function Place(r: Reason): nat {
    match r
    case ExactThresholdPassed => 0
    case NoCandidates => 1
    case CalibrationUnavailable => 2
    case ModelRevisionMismatch => 3
    case InsufficientEvidence => 4
    case TopScoreBelowThreshold => 5
    case ScoreMarginBelowThreshold => 6
    case ThresholdsPassed => 7
  }

  /** Each reason once, in that order. */
  predicate InPlace(reasons: seq<Reason>) {
    forall i, j :: 0 <= i < j < |reasons| ==> Place(reasons[i]) < Place(reasons[j])
  }

  /** The thresholds of a calibrated gate, on evidence that is there. */
  method Judge(t: Thresholds, ranked: seq<Evidence>) returns (answer: bool, reasons: seq<Reason>)
    requires ranked != []
    ensures answer <==> ExactPasses(t, ranked) || ThresholdsPass(t, ranked)
    ensures forall r :: r in reasons <==> Applies(Artifact(true, true, Some(t)), ranked, r)
    ensures InPlace(reasons)
  {
    var exact := BestExact(ranked);
    if exact.Some? && exact.value >= t.exactScoreMin {
      return true, [ExactThresholdPassed];
    }
    assert !ExactPasses(t, ranked);
    var margin := if |ranked| > 1 then ranked[0].score - ranked[1].score else ranked[0].score;
    reasons := [];
    if |ranked| < t.minEvidence {
      reasons := reasons + [InsufficientEvidence];
    }
    if ranked[0].score < t.topScoreMin {
      reasons := reasons + [TopScoreBelowThreshold];
    }
    if margin < t.scoreMarginMin {
      reasons := reasons + [ScoreMarginBelowThreshold];
    }
    answer := reasons == [];
    if answer {
      reasons := [ThresholdsPassed];
    }
  }

  /** The gate lets an answer through. */
  predicate Answers(artifact: Artifact, ranked: seq<Evidence>) {
    && ranked != [] && artifact.calibrated && artifact.modelsMatch && artifact.thresholds.Some?
    && (ExactPasses(artifact.thresholds.value, ranked) || ThresholdsPass(artifact.thresholds.value, ranked))
  }

  /** `ConfidenceGate.evaluate`. It answers exactly when there is evidence, the artifact is calibrated for the models in
      use, and either an exact match or the other three thresholds pass; and it names every reason that applies. */
  method Evaluate(artifact: Artifact, candidates: seq<Evidence>) returns (d: Decision)
    ensures d.scores == ScoresOf(Sort(candidates, Earlier))
    ensures d.answer <==> Answers(artifact, Sort(candidates, Earlier))
    ensures InPlace(d.reasons) && forall r :: r in d.reasons <==> Applies(artifact, Sort(candidates, Earlier), r)
  {
    d := Decide(artifact, Sort(candidates, Earlier));
  }

  method Decide(artifact: Artifact, ranked: seq<Evidence>) returns (d: Decision)
    ensures d.scores == ScoresOf(ranked) && (d.answer <==> Answers(artifact, ranked))
    ensures InPlace(d.reasons) && forall r :: r in d.reasons <==> Applies(artifact, ranked, r)
  {
    var top := if ranked != [] then Some(ranked[0].score) else None;
    var margin := if |ranked| > 1 then Some(ranked[0].score - ranked[1].score) else top;
    var scores := Scores(top, margin, BestExact(ranked), |ranked|);
    if ranked == [] {
      return Decision(false, [NoCandidates], scores);
    }
    if !artifact.calibrated {
      return Decision(false, [CalibrationUnavailable], scores);
    }
    if !artifact.modelsMatch {
      return Decision(false, [ModelRevisionMismatch], scores);
    }
    if artifact.thresholds.None? {
      return Decision(false, [CalibrationUnavailable], scores);
    }
    var answer, reasons := Judge(artifact.thresholds.value, ranked);
    assert artifact == Artifact(true, true, Some(artifact.thresholds.value));
    return Decision(answer, reasons, scores);
  }

  /** On evidence in reranked order the scores make sense: margin within [0, 1], no exact match above the top. */
  lemma ScoresMakeSense(ranked: seq<Evidence>)
    requires InOrder(ranked) && ranked != [] && forall i :: 0 <= i < |ranked| ==> 0.0 <= ranked[i].score <= 1.0
    ensures 0.0 <= Margin(ranked).value <= 1.0
    ensures BestExact(ranked).Some? ==> BestExact(ranked).value <= ranked[0].score
  {
  }
}
