/** What the calibration measures, on the sets of queries that are answered and that should be. */
module CalibrationCounts {
  import opened Wrappers
  import opened Evidence
  import Gate
  import opened Calibration

  /** The queries that the thresholds answer, and those that have an answer. */
  function AnsweredSet(os: seq<Observation>, t: Gate.Thresholds): set<nat> {
    set i: nat | i < |os| && GateAnswer(os[i], t)
  }

  function ExpectedSet(os: seq<Observation>): set<nat> {
    set i: nat | i < |os| && os[i].expected
  }

  function AllOf(os: seq<Observation>): set<nat> {
    set i: nat | i < |os| && InRange(os, i)
  }

  predicate InRange(os: seq<Observation>, i: nat) {
    i < |os|
  }

  lemma Grows(s: set<nat>, n: nat, inside: bool)
    requires n !in s
    ensures |s + if inside then {n} else {}| == |s| + if inside then 1 else 0
  {
  }

  lemma BothGrow(p: set<nat>, e: set<nat>, n: nat, x: set<nat>, y: set<nat>, predicted: bool, expected: bool)
    requires x == (if predicted then {n} else {}) && y == (if expected then {n} else {}) && n !in p && n !in e
    ensures (p + x) * (e + y) == p * e + if predicted && expected then {n} else {}
    ensures (p + x) - (e + y) == p - e + if predicted && !expected then {n} else {}
  {
  }

  lemma NeitherGrows(p: set<nat>, e: set<nat>, all: set<nat>, n: nat, x: set<nat>, y: set<nat>, predicted: bool, expected: bool)
    requires x == (if predicted then {n} else {}) && y == (if expected then {n} else {}) && n !in p && n !in e && n !in all
    ensures (all + {n}) - (p + x) - (e + y) == all - p - e + if !predicted && !expected then {n} else {}
  {
  }

  lemma LastQuery(os: seq<Observation>, t: Gate.Thresholds)
    requires os != []
    ensures var n := |os| - 1;
            && AnsweredSet(os, t) == AnsweredSet(os[..n], t) + (if GateAnswer(os[n], t) then {n} else {})
            && ExpectedSet(os) == ExpectedSet(os[..n]) + (if os[n].expected then {n} else {})
            && AllOf(os) == AllOf(os[..n]) + {n}
            && n !in AllOf(os[..n]) && n !in AnsweredSet(os[..n], t) && n !in ExpectedSet(os[..n])
  {
    var n := |os| - 1;
    assert forall i :: 0 <= i < n ==> os[..n][i] == os[i];
  }

  /** The sizes of the four parts, as the counts have them. */
  function Sizes(p: set<nat>, e: set<nat>, all: set<nat>): Counts {
    Counts(|p * e|, |p - e|, |all - p - e|, |e - p|)
  }

  lemma SizesGrow(p: set<nat>, e: set<nat>, all: set<nat>, n: nat, predicted: bool, expected: bool)
    requires n !in p && n !in e && n !in all
    ensures Sizes(p + (if predicted then {n} else {}), e + (if expected then {n} else {}), all + {n}) == Add(Sizes(p, e, all), predicted, expected)
  {
    var x, y := if predicted then {n} else {}, if expected then {n} else {};
    BothGrow(p, e, n, x, y, predicted, expected);
    BothGrow(e, p, n, y, x, expected, predicted);
    NeitherGrows(p, e, all, n, x, y, predicted, expected);
    Grows(p * e, n, predicted && expected);
    Grows(p - e, n, predicted && !expected);
    Grows(e - p, n, expected && !predicted);
    Grows(all - p - e, n, !predicted && !expected);
  }

  /** The four counts are the sizes of the four parts. */
  lemma {:induction false} CountsAreSizes(os: seq<Observation>, t: Gate.Thresholds)
    ensures var p, e, all := AnsweredSet(os, t), ExpectedSet(os), AllOf(os);
            Tally(os, t) == Counts(|p * e|, |p - e|, |all - p - e|, |e - p|)
    decreases |os|
  {
    var p, e, all := AnsweredSet(os, t), ExpectedSet(os), AllOf(os);
    if os == [] {
      assert p == {} && e == {} && all == {};
      assert p * e == {} && p - e == {} && all - p - e == {} && e - p == {};
    } else {
      var n := |os| - 1;
      CountsAreSizes(os[..n], t);
      LastQuery(os, t);
      SizesGrow(AnsweredSet(os[..n], t), ExpectedSet(os[..n]), AllOf(os[..n]), n, GateAnswer(os[n], t), os[n].expected);
    }
  }

  lemma RatioExactly(part: nat, other: nat)
    ensures Ratio(part, other) * (part + other) as real == part as real
    ensures part + other == 0 ==> Ratio(part, other) == 0.0
  {
  }

  lemma Parts(p: set<nat>, e: set<nat>)
    ensures |p * e| + |p - e| == |p| && |p * e| + |e - p| == |e|
  {
    assert p * e + (p - e) == p && p * e + (e - p) == e;
    assert (p * e) * (p - e) == {} && (p * e) * (e - p) == {};
  }

  lemma HarmonicExactly(c: Counts)
    ensures var m := MetricsOf(c);
            && m.f1 * (m.precision + m.recall) == 2.0 * m.precision * m.recall
            && (m.precision + m.recall == 0.0 ==> m.f1 == 0.0)
  {
  }

  /** Precision is the part of the answered queries that have an answer, recall the part of those with an answer that are
      answered, each 0 when there are none, and F1 is their harmonic mean. */
  predicate Measure(m: Metrics, hits: nat, answered: nat, expected: nat) {
    && m.precision * answered as real == hits as real && (answered == 0 ==> m.precision == 0.0)
    && m.recall * expected as real == hits as real && (expected == 0 ==> m.recall == 0.0)
    && m.f1 * (m.precision + m.recall) == 2.0 * m.precision * m.recall
    && (m.precision + m.recall == 0.0 ==> m.f1 == 0.0)
  }

  lemma MetricsOfSizes(c: Counts, answered: nat, expected: nat)
    requires c.truePositive + c.falsePositive == answered && c.truePositive + c.falseNegative == expected
    ensures Measure(MetricsOf(c), c.truePositive, answered, expected)
  {
    RatioExactly(c.truePositive, c.falsePositive);
    RatioExactly(c.truePositive, c.falseNegative);
    HarmonicExactly(c);
  }

  lemma MetricsExactly(os: seq<Observation>, t: Gate.Thresholds)
    ensures Measure(MetricsOf(Tally(os, t)), |AnsweredSet(os, t) * ExpectedSet(os)|, |AnsweredSet(os, t)|, |ExpectedSet(os)|)
  {
    CountsAreSizes(os, t);
    Parts(AnsweredSet(os, t), ExpectedSet(os));
    MetricsOfSizes(Tally(os, t), |AnsweredSet(os, t)|, |ExpectedSet(os)|);
  }

  /** The sweep's result meets the targets if any combination that is tried does; among those alike in this it has the best F1,
      then precision, then recall, then the strictest thresholds, then the most evidence; of equals it is the first tried. */
  lemma WinnerIsBest(os: seq<Observation>, targets: Targets, w: Trial, t: Gate.Thresholds)
    requires Winner(os, targets, w) && Swept(os, t)
    ensures var m, n := w.metrics, MetricsOf(Tally(os, t));
            var met, meets := m.precision >= targets.precision && m.recall >= targets.recall,
                              n.precision >= targets.precision && n.recall >= targets.recall;
            && w.targetsMet == met && (meets ==> met)
            && (meets == met ==>
                  && n.f1 <= m.f1 && (n.f1 == m.f1 ==> n.precision <= m.precision)
                  && (n.f1 == m.f1 && n.precision == m.precision ==> n.recall <= m.recall)
                  && (n == m ==>
                        var a, b := w.thresholds, t;
                        var x, y := a.topScoreMin + a.scoreMarginMin + a.exactScoreMin, b.topScoreMin + b.scoreMarginMin + b.exactScoreMin;
                        && y <= x && (y == x ==> b.minEvidence <= a.minEvidence)
                        && (y == x && b.minEvidence == a.minEvidence ==>
                              a == b || a.topScoreMin < b.topScoreMin
                              || (a.topScoreMin == b.topScoreMin && a.scoreMarginMin < b.scoreMarginMin))))
  {
  }

  /** Rounding goes to the nearest multiple of one millionth. */
  lemma RoundsToNearest(x: real) returns (k: int)
    ensures Round6(x) * 1000000.0 == k as real
    ensures -0.0000005 <= Round6(x) - x <= 0.0000005
  {
    k := (x * 1000000.0 + 0.5).Floor;
    assert Round6(x) * 1000000.0 == k as real;
  }

  /** The scores tried are those that some query has, and the evidence tried reaches to the most that one has, within 1 to 12. */
  lemma {:induction false} ScoresExactly(os: seq<Observation>, f: Field, x: real)
    ensures x in Scores(os, f) <==> exists i :: 0 <= i < |os| && Pick(os[i], f) == Some(x)
    decreases |os|
  {
    if os != [] {
      var n := |os| - 1;
      ScoresExactly(os[..n], f, x);
      assert forall i :: 0 <= i < n ==> os[..n][i] == os[i];
      if i :| 0 <= i < |os| && Pick(os[i], f) == Some(x) {
        assert i < n ==> Pick(os[..n][i], f) == Some(x);
      }
    }
  }

  lemma {:induction false} MostEvidenceExactly(os: seq<Observation>)
    ensures forall i :: 0 <= i < |os| ==> os[i].evidenceCount <= MostEvidence(os)
    ensures MostEvidence(os) == 0 || exists i :: 0 <= i < |os| && os[i].evidenceCount == MostEvidence(os)
    decreases |os|
  {
    if os != [] {
      var n := |os| - 1;
      MostEvidenceExactly(os[..n]);
      assert forall i :: 0 <= i < n ==> os[..n][i] == os[i];
    }
  }

  lemma EvidenceLimitExactly(os: seq<Observation>, k: nat)
    ensures 1 <= k <= EvidenceLimit(os) <==> k == 1 || (1 < k <= 12 && exists i :: 0 <= i < |os| && k <= os[i].evidenceCount)
  {
    MostEvidenceExactly(os);
  }
}
