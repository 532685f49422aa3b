/** Calibrating the gate's thresholds (backend/app/evaluation/calibration.py): a finite sweep that is optimal over all
    real thresholds. */
module Calibration {
  import opened Basics
  import opened Wrappers
  import opened Evidence
  import Gate

  /** One labelled query as the gate saw it. */
  datatype Observation = Observation(
    expected: bool,
    topScore: Option<real>,
    margin: Option<real>,
    bestExact: Option<real>,
    evidenceCount: nat)

  datatype Counts = Counts(truePositive: nat, falsePositive: nat, trueNegative: nat, falseNegative: nat)

  datatype Metrics = Metrics(precision: real, recall: real, f1: real)

  datatype CalibrationError = NoPositiveObservation

  const MICRO := 0.000001

  predicate Reaches(score: Option<real>, threshold: real) {
    score.Some? && score.value >= threshold
  }

  /** `gate_answer`. */
  predicate GateAnswer(o: Observation, t: Gate.Thresholds) {
    Reaches(o.bestExact, t.exactScoreMin)
    || (o.evidenceCount >= t.minEvidence && Reaches(o.topScore, t.topScoreMin) && Reaches(o.margin, t.scoreMarginMin))
  }

  function Add(c: Counts, predicted: bool, expected: bool): Counts {
    if predicted && expected then c.(truePositive := c.truePositive + 1)
    else if predicted then c.(falsePositive := c.falsePositive + 1)
    else if expected then c.(falseNegative := c.falseNegative + 1)
    else c.(trueNegative := c.trueNegative + 1)
  }

  /** The confusion counts of the gate. */
  function Tally(os: seq<Observation>, t: Gate.Thresholds): Counts
    decreases |os|
  {
    if os == [] then Counts(0, 0, 0, 0)
    else
      var n := |os| - 1;
      Add(Tally(os[..n], t), GateAnswer(os[n], t), os[n].expected)
  }

  function Ratio(part: nat, other: nat): (r: real)
    ensures 0.0 <= r <= 1.0
  {
    if part + other == 0 then 0.0 else part as real / (part + other) as real
  }

  function MetricsOf(c: Counts): Metrics {
    var precision, recall := Ratio(c.truePositive, c.falsePositive), Ratio(c.truePositive, c.falseNegative);
    Metrics(precision, recall, if precision + recall > 0.0 then 2.0 * precision * recall / (precision + recall) else 0.0)
  }

  /** `_raw_classification`: the same decision written out again, with its own loop. */
  method RawClassification(os: seq<Observation>, t: Gate.Thresholds) returns (counts: Counts, metrics: Metrics)
    ensures counts == Tally(os, t) && metrics == MetricsOf(counts)
  {
    var truePositive, falsePositive, trueNegative, falseNegative := 0, 0, 0, 0;
    for n := 0 to |os|
      invariant 0 <= truePositive && 0 <= falsePositive && 0 <= trueNegative && 0 <= falseNegative
      invariant Counts(truePositive, falsePositive, trueNegative, falseNegative) == Tally(os[..n], t)
    {
      assert os[..n + 1][..n] == os[..n];
      var o := os[n];
      var exactPass := o.bestExact.Some? && o.bestExact.value >= t.exactScoreMin;
      var thresholdPass := o.evidenceCount >= t.minEvidence && o.topScore.Some? && o.topScore.value >= t.topScoreMin
                           && o.margin.Some? && o.margin.value >= t.scoreMarginMin;
      var predicted := exactPass || thresholdPass;
      if predicted && o.expected {
        truePositive := truePositive + 1;
      } else if predicted {
        falsePositive := falsePositive + 1;
      } else if o.expected {
        falseNegative := falseNegative + 1;
      } else {
        trueNegative := trueNegative + 1;
      }
    }
    assert os[..|os|] == os;
    counts := Counts(truePositive, falsePositive, trueNegative, falseNegative);
    metrics := MetricsOf(counts);
  }

  /** `classification_metrics`: the same counts through `gate_answer`. */
  method ClassificationMetrics(os: seq<Observation>, t: Gate.Thresholds) returns (counts: Counts, metrics: Metrics)
    ensures counts == Tally(os, t) && metrics == MetricsOf(counts)
  {
    counts := Counts(0, 0, 0, 0);
    for n := 0 to |os|
      invariant counts == Tally(os[..n], t)
    {
      assert os[..n + 1][..n] == os[..n];
      var predicted := GateAnswer(os[n], t);
      if predicted && os[n].expected {
        counts := counts.(truePositive := counts.truePositive + 1);
      } else if predicted {
        counts := counts.(falsePositive := counts.falsePositive + 1);
      } else if os[n].expected {
        counts := counts.(falseNegative := counts.falseNegative + 1);
      } else {
        counts := counts.(trueNegative := counts.trueNegative + 1);
      }
    }
    assert os[..|os|] == os;
    metrics := MetricsOf(counts);
  }

  /** Every observation is counted once. */
  lemma {:induction false} TallyCounts(os: seq<Observation>, t: Gate.Thresholds)
    ensures var c := Tally(os, t); c.truePositive + c.falsePositive + c.trueNegative + c.falseNegative == |os|
    decreases |os|
  {
    if os != [] {
      TallyCounts(os[..|os| - 1], t);
    }
  }

  /** And every metric is a ratio. */
  lemma MetricsInRange(c: Counts)
    ensures var m := MetricsOf(c); 0.0 <= m.precision <= 1.0 && 0.0 <= m.recall <= 1.0 && 0.0 <= m.f1 <= 1.0
  {
    var p, r := Ratio(c.truePositive, c.falsePositive), Ratio(c.truePositive, c.falseNegative);
    var f1 := MetricsOf(c).f1;
    if p + r > 0.0 {
      HarmonicMean(p, r);
      assert f1 == 2.0 * p * r / (p + r);
    } else {
      assert f1 == 0.0;
    }
  }

  lemma HarmonicMean(p: real, r: real)
    requires 0.0 <= p <= 1.0 && 0.0 <= r <= 1.0 && p + r > 0.0
    ensures 0.0 <= 2.0 * p * r / (p + r) <= 1.0
  {
    ProductNotNegative(p, r);
    ProductNotNegative(p, 1.0 - r);
    ProductNotNegative(r, 1.0 - p);
    assert p * (1.0 - r) == p - p * r && r * (1.0 - p) == r - p * r;
    FractionInRange(2.0 * p * r, p + r);
  }

  /** What the gate sees of evidence in its order. */
  function ObservationOf(ranked: seq<Evidence>, expected: bool): Observation {
    var s := Gate.ScoresOf(ranked);
    Observation(expected, s.topScore, s.margin, s.bestExact, s.evidenceCount)
  }

  /** A calibrated gate for the right models decides on evidence as the calibration did on its observation. */
  lemma GateAgrees(artifact: Gate.Artifact, ranked: seq<Evidence>, expected: bool)
    requires artifact.calibrated && artifact.modelsMatch && artifact.thresholds.Some? && artifact.thresholds.value.minEvidence >= 1
    ensures Gate.Answers(artifact, ranked) <==> GateAnswer(ObservationOf(ranked, expected), artifact.thresholds.value)
  {
  }

  /** Rounding to six decimals. */
  function Round6(x: real): real {
    (x * 1000000.0 + 0.5).Floor as real / 1000000.0
  }

  function MinReal(a: real, b: real): real {
    if a < b then a else b
  }

  predicate Increasing(s: seq<real>) {
    forall i, j :: 0 <= i < j < |s| ==> s[i] < s[j]
  }

  lemma BelowLast(s: seq<real>, x: real, rest: seq<real>)
    requires Increasing(s) && s != [] && x < s[|s| - 1]
    requires forall y :: y in rest ==> y in s[..|s| - 1] || y == x
    ensures forall i :: 0 <= i < |rest| ==> rest[i] < s[|s| - 1]
  {
    forall i | 0 <= i < |rest|
      ensures rest[i] < s[|s| - 1]
    {
      assert rest[i] in rest;
    }
  }

  /** A value added to a sorted sequence without repetition. */
  function AddValue(s: seq<real>, x: real): (r: seq<real>)
    requires Increasing(s)
    ensures Increasing(r) && forall y :: y in r <==> y in s || y == x
    decreases |s|
  {
    if s == [] then [x]
    else
      var n := |s| - 1;
      assert s == s[..n] + [s[n]];
      if s[n] < x then s + [x]
      else if s[n] == x then s
      else
        var rest := AddValue(s[..n], x);
        BelowLast(s, x, rest);
        rest + [s[n]]
  }

  /** The thresholds tried for some scores. */
  predicate Tried(values: seq<real>, x: real) {
    x == 0.0 || x == 1.0 || exists i :: 0 <= i < |values| && (x == Round6(values[i]) || x == MinReal(1.0, Round6(Round6(values[i]) + MICRO)))
  }

  /** `_score_candidates`. */
  method ScoreCandidates(values: seq<real>) returns (r: seq<real>)
    ensures Increasing(r) && forall x :: x in r <==> Tried(values, x)
  {
    r := AddValue(AddValue([], 0.0), 1.0);
    for n := 0 to |values|
      invariant Increasing(r)
      invariant forall x :: x in r <==> Tried(values[..n], x)
    {
      ghost var before := r;
      var rounded := Round6(values[n]);
      r := AddValue(r, rounded);
      r := AddValue(r, MinReal(1.0, Round6(rounded + MICRO)));
      forall x ensures x in r <==> Tried(values[..n + 1], x) {
        assert x in before <==> Tried(values[..n], x);
        TriedMore(values, n, x);
      }
    }
    assert values[..|values|] == values;
  }

  lemma TriedMore(values: seq<real>, n: nat, x: real)
    requires n < |values|
    ensures Tried(values[..n + 1], x) <==>
              Tried(values[..n], x) || x == Round6(values[n]) || x == MinReal(1.0, Round6(Round6(values[n]) + MICRO))
  {
  }

  /** A score that is a multiple of one millionth. */
  predicate IsMicro(x: real, n: nat) {
    n <= 1000000 && x == n as real / 1000000.0
  }

  ghost predicate Micro(x: real) {
    exists n :: IsMicro(x, n)
  }

  lemma RoundedMicro(x: real, n: nat)
    requires IsMicro(x, n)
    ensures Round6(x) == x && Round6(x + MICRO) == x + MICRO
    ensures x < 1.0 ==> x + MICRO <= 1.0
  {
    assert x * 1000000.0 == n as real;
    assert (n as real + 0.5).Floor == n;
    assert (x + MICRO) * 1000000.0 == (n + 1) as real;
    assert ((n + 1) as real + 0.5).Floor == n + 1;
  }

  /** The largest score below a threshold, if one is. */
  lemma {:induction false} LargestBelow(values: seq<real>, t: real) returns (i: nat)
    ensures i < |values| ==> values[i] < t && forall j :: 0 <= j < |values| && values[j] < t ==> values[j] <= values[i]
    ensures i >= |values| ==> forall j :: 0 <= j < |values| ==> values[j] >= t
  {
    if values == [] {
      i := 0;
    } else {
      var n := |values| - 1;
      var k := LargestBelow(values[..n], t);
      assert forall j :: 0 <= j < n ==> values[..n][j] == values[j];
      if k < n {
        i := if values[n] < t && values[n] > values[k] then n else k;
      } else {
        i := if values[n] < t then n else n + 1;
      }
    }
  }

  /** The smallest score that reaches a threshold, if one does. */
  lemma {:induction false} SmallestReaching(values: seq<real>, t: real) returns (i: nat)
    ensures i < |values| ==> values[i] >= t && forall j :: 0 <= j < |values| && values[j] >= t ==> values[i] <= values[j]
    ensures i >= |values| ==> forall j :: 0 <= j < |values| ==> values[j] < t
  {
    if values == [] {
      i := 0;
    } else {
      var n := |values| - 1;
      var k := SmallestReaching(values[..n], t);
      assert forall j :: 0 <= j < n ==> values[..n][j] == values[j];
      if k < n {
        i := if values[n] >= t && values[n] < values[k] then n else k;
      } else {
        i := if values[n] >= t then n else n + 1;
      }
    }
  }

  predicate InUnit(values: seq<real>) {
    forall i :: 0 <= i < |values| ==> 0.0 <= values[i] <= 1.0
  }

  predicate Splits(values: seq<real>, c: real, low: real, high: real) {
    Tried(values, c) && low < c <= high
  }

  /** Any two different scores have a tried value between them. */
  ghost predicate Separated(values: seq<real>) {
    forall i, j {:trigger values[i], values[j]} :: 0 <= i < |values| && 0 <= j < |values| && values[i] < values[j] ==>
      exists c :: Splits(values, c, values[i], values[j])
  }

  /** No score tells the two thresholds apart. */
  predicate Agree(values: seq<real>, t: real, c: real) {
    forall i :: 0 <= i < |values| ==> (values[i] >= t <==> values[i] >= c)
  }

  ghost predicate HasTried(values: seq<real>, t: real) {
    exists c :: Tried(values, c) && Agree(values, t, c)
  }

  lemma MicroStep(x: real, n: nat, y: real, m: nat)
    requires IsMicro(x, n) && IsMicro(y, m) && x < y
    ensures x + MICRO <= y
  {
    assert n < m;
  }

  lemma TriedAbove(values: seq<real>, i: nat, n: nat)
    requires i < |values| && IsMicro(values[i], n) && values[i] < 1.0
    ensures Tried(values, values[i] + MICRO)
  {
    RoundedMicro(values[i], n);
    assert values[i] + MICRO == MinReal(1.0, Round6(Round6(values[i]) + MICRO));
  }

  lemma MicroPair(values: seq<real>, i: nat, j: nat)
    requires i < |values| && j < |values| && values[i] < values[j] && Micro(values[i]) && Micro(values[j])
    ensures Splits(values, values[i] + MICRO, values[i], values[j])
  {
    var n :| IsMicro(values[i], n);
    var m :| IsMicro(values[j], m);
    MicroStep(values[i], n, values[j], m);
    TriedAbove(values, i, n);
  }

  /** Scores that are multiples of one millionth are separated by what is tried. */
  lemma MicroIsSeparated(values: seq<real>)
    requires forall i :: 0 <= i < |values| ==> Micro(values[i])
    ensures InUnit(values) && Separated(values)
  {
    forall i, j | 0 <= i < |values| && 0 <= j < |values| && values[i] < values[j]
      ensures exists c :: Splits(values, c, values[i], values[j])
    {
      MicroPair(values, i, j);
    }
  }

  /** Every real threshold then has a tried one that the scores cannot tell from it. */
  lemma SomeTriedAgrees(values: seq<real>, t: real) returns (c: real)
    requires 0.0 <= t <= 1.0 && InUnit(values) && Separated(values)
    ensures Tried(values, c) && Agree(values, t, c)
  {
    var high := SmallestReaching(values, t);
    var low := LargestBelow(values, t);
    if low >= |values| {
      c := 0.0;
    } else if high >= |values| {
      c := 1.0;
    } else {
      assert values[low] < values[high];
      c :| Splits(values, c, values[low], values[high]);
    }
  }

  /** And only then: what is tried stands for all real thresholds exactly when it separates the scores. */
  lemma TriedSufficesExactly(values: seq<real>)
    requires InUnit(values)
    ensures Separated(values) <==> forall t :: 0.0 <= t <= 1.0 ==> HasTried(values, t)
  {
    if Separated(values) {
      forall t | 0.0 <= t <= 1.0
        ensures HasTried(values, t)
      {
        var c := SomeTriedAgrees(values, t);
      }
    }
    if forall t :: 0.0 <= t <= 1.0 ==> HasTried(values, t) {
      forall i, j | 0 <= i < |values| && 0 <= j < |values| && values[i] < values[j]
        ensures exists c :: Splits(values, c, values[i], values[j])
      {
        TriedSplits(values, i, j);
      }
    }
  }

  lemma TriedSplits(values: seq<real>, i: nat, j: nat)
    requires i < |values| && j < |values| && values[i] < values[j] && HasTried(values, values[j])
    ensures exists c :: Splits(values, c, values[i], values[j])
  {
    var c :| Tried(values, c) && Agree(values, values[j], c);
    assert Splits(values, c, values[i], values[j]);
  }

  /** A combination of thresholds with what it achieves. */
  datatype Trial = Trial(thresholds: Gate.Thresholds, metrics: Metrics, targetsMet: bool)

  datatype Targets = Targets(precision: real, recall: real)

  predicate Meets(m: Metrics, targets: Targets) {
    m.precision >= targets.precision && m.recall >= targets.recall
  }

  function TrialOf(os: seq<Observation>, targets: Targets, t: Gate.Thresholds): Trial {
    var m := MetricsOf(Tally(os, t));
    Trial(t, m, Meets(m, targets))
  }

  function ThresholdSum(t: Gate.Thresholds): real {
    t.topScoreMin + t.scoreMarginMin + t.exactScoreMin
  }

  /** The first four parts of the sweep's score, in order: targets met, F1, precision, recall. */
  predicate Beats(a: Trial, b: Trial) {
    if a.targetsMet != b.targetsMet then a.targetsMet
    else if a.metrics.f1 != b.metrics.f1 then a.metrics.f1 > b.metrics.f1
    else if a.metrics.precision != b.metrics.precision then a.metrics.precision > b.metrics.precision
    else a.metrics.recall > b.metrics.recall
  }

  /** The whole score: ties go to the stricter thresholds, then to more evidence. */
  predicate Better(a: Trial, b: Trial) {
    if a.targetsMet != b.targetsMet || a.metrics.f1 != b.metrics.f1 || a.metrics.precision != b.metrics.precision
       || a.metrics.recall != b.metrics.recall then Beats(a, b)
    else if ThresholdSum(a.thresholds) != ThresholdSum(b.thresholds) then ThresholdSum(a.thresholds) > ThresholdSum(b.thresholds)
    else a.thresholds.minEvidence > b.thresholds.minEvidence
  }

  /** The order in which the sweep tries combinations. */
  predicate Before(a: Gate.Thresholds, b: Gate.Thresholds) {
    if a.topScoreMin != b.topScoreMin then a.topScoreMin < b.topScoreMin
    else if a.scoreMarginMin != b.scoreMarginMin then a.scoreMarginMin < b.scoreMarginMin
    else if a.exactScoreMin != b.exactScoreMin then a.exactScoreMin < b.exactScoreMin
    else a.minEvidence < b.minEvidence
  }

  /** A trial that the sweep prefers: a better one, or the first of equals. */
  predicate Preferred(a: Trial, b: Trial) {
    Better(a, b) || (!Better(b, a) && (a.thresholds == b.thresholds || Before(a.thresholds, b.thresholds)))
  }

  lemma BetterPrefers(a: Trial, b: Trial, c: Trial)
    requires Better(a, b) && Preferred(b, c)
    ensures Preferred(a, c)
  {
  }

  /** The values tried for each threshold. */
  datatype Space = Space(tops: seq<real>, margins: seq<real>, exacts: seq<real>, limit: nat)

  predicate ValidSpace(x: Space) {
    Increasing(x.tops) && Increasing(x.margins) && Increasing(x.exacts)
  }

  predicate InSpace(x: Space, t: Gate.Thresholds) {
    t.topScoreMin in x.tops && t.scoreMarginMin in x.margins && t.exactScoreMin in x.exacts && 1 <= t.minEvidence <= x.limit
  }

  /** Tried before the loops reach these positions. */
  predicate Covered(x: Space, a: nat, b: nat, c: nat, k: nat, t: Gate.Thresholds)
    requires a <= |x.tops| && b <= |x.margins| && c <= |x.exacts|
  {
    InSpace(x, t)
    && (t.topScoreMin in x.tops[..a]
        || (a < |x.tops| && t.topScoreMin == x.tops[a]
            && (t.scoreMarginMin in x.margins[..b]
                || (b < |x.margins| && t.scoreMarginMin == x.margins[b]
                    && (t.exactScoreMin in x.exacts[..c]
                        || (c < |x.exacts| && t.exactScoreMin == x.exacts[c] && t.minEvidence < k))))))
  }

  /** The best of what was tried so far. */
  ghost predicate BestSoFar(os: seq<Observation>, targets: Targets, x: Space, a: nat, b: nat, c: nat, k: nat, best: Option<Trial>)
    requires a <= |x.tops| && b <= |x.margins| && c <= |x.exacts|
  {
    && (best.Some? ==> Covered(x, a, b, c, k, best.value.thresholds) && best.value == TrialOf(os, targets, best.value.thresholds))
    && forall t :: Covered(x, a, b, c, k, t) ==> best.Some? && Preferred(best.value, TrialOf(os, targets, t))
  }

  lemma CoveredIsBefore(x: Space, a: nat, b: nat, c: nat, k: nat, t: Gate.Thresholds)
    requires ValidSpace(x) && a < |x.tops| && b < |x.margins| && c < |x.exacts| && Covered(x, a, b, c, k, t)
    ensures Before(t, Gate.Thresholds(x.tops[a], x.margins[b], x.exacts[c], k))
  {
  }

  lemma CoveredMore(x: Space, a: nat, b: nat, c: nat, k: nat, t: Gate.Thresholds)
    requires a < |x.tops| && b < |x.margins| && c < |x.exacts| && 1 <= k <= x.limit
    ensures Covered(x, a, b, c, k + 1, t) <==>
              Covered(x, a, b, c, k, t) || t == Gate.Thresholds(x.tops[a], x.margins[b], x.exacts[c], k)
  {
  }

  /** One combination: the body of the innermost loop. */
  method Try(os: seq<Observation>, targets: Targets, ghost x: Space, ghost a: nat, ghost b: nat, ghost c: nat,
             t: Gate.Thresholds, best: Option<Trial>) returns (r: Option<Trial>)
    requires ValidSpace(x) && a < |x.tops| && b < |x.margins| && c < |x.exacts| && 1 <= t.minEvidence <= x.limit
    requires t == Gate.Thresholds(x.tops[a], x.margins[b], x.exacts[c], t.minEvidence)
    requires BestSoFar(os, targets, x, a, b, c, t.minEvidence, best)
    ensures r.Some? && BestSoFar(os, targets, x, a, b, c, t.minEvidence + 1, r)
  {
    var counts, metrics := RawClassification(os, t);
    var trial := Trial(t, metrics, metrics.precision >= targets.precision && metrics.recall >= targets.recall);
    r := best;
    if best.None? || Better(trial, best.value) {
      r := Some(trial);
    }
    forall y | Covered(x, a, b, c, t.minEvidence + 1, y)
      ensures Preferred(r.value, TrialOf(os, targets, y))
    {
      CoveredMore(x, a, b, c, t.minEvidence, y);
      if Covered(x, a, b, c, t.minEvidence, y) {
        if r != best {
          BetterPrefers(trial, best.value, TrialOf(os, targets, y));
        }
      } else if r == best {
        CoveredIsBefore(x, a, b, c, t.minEvidence, best.value.thresholds);
      }
    }
    CoveredMore(x, a, b, c, t.minEvidence, r.value.thresholds);
  }

  lemma NextExact(x: Space, a: nat, b: nat, c: nat, t: Gate.Thresholds)
    requires a < |x.tops| && b < |x.margins| && c < |x.exacts|
    ensures Covered(x, a, b, c + 1, 1, t) <==> Covered(x, a, b, c, x.limit + 1, t)
  {
  }

  lemma NextMargin(x: Space, a: nat, b: nat, t: Gate.Thresholds)
    requires a < |x.tops| && b < |x.margins|
    ensures Covered(x, a, b + 1, 0, 1, t) <==> Covered(x, a, b, |x.exacts|, 1, t)
  {
  }

  lemma NextTop(x: Space, a: nat, t: Gate.Thresholds)
    requires a < |x.tops|
    ensures Covered(x, a + 1, 0, 0, 1, t) <==> Covered(x, a, |x.margins|, 0, 1, t)
  {
  }

  method SweepEvidence(os: seq<Observation>, targets: Targets, x: Space, a: nat, b: nat, c: nat, best: Option<Trial>, tried: nat)
    returns (r: Option<Trial>, combinations: nat)
    requires ValidSpace(x) && a < |x.tops| && b < |x.margins| && c < |x.exacts|
    requires BestSoFar(os, targets, x, a, b, c, 1, best)
    ensures BestSoFar(os, targets, x, a, b, c + 1, 1, r) && combinations == tried + x.limit
  {
    r, combinations := best, tried;
    for k := 1 to x.limit + 1
      invariant BestSoFar(os, targets, x, a, b, c, k, r) && combinations == tried + (k - 1)
    {
      combinations := combinations + 1;
      r := Try(os, targets, x, a, b, c, Gate.Thresholds(x.tops[a], x.margins[b], x.exacts[c], k), r);
    }
    forall t {:trigger Covered(x, a, b, c + 1, 1, t)} ensures Covered(x, a, b, c + 1, 1, t) <==> Covered(x, a, b, c, x.limit + 1, t) {
      NextExact(x, a, b, c, t);
    }
    if r.Some? {
      NextExact(x, a, b, c, r.value.thresholds);
    }
  }

  method SweepExacts(os: seq<Observation>, targets: Targets, x: Space, a: nat, b: nat, best: Option<Trial>, tried: nat)
    returns (r: Option<Trial>, combinations: nat)
    requires ValidSpace(x) && a < |x.tops| && b < |x.margins|
    requires BestSoFar(os, targets, x, a, b, 0, 1, best)
    ensures BestSoFar(os, targets, x, a, b + 1, 0, 1, r) && combinations == tried + PerMargin(x)
  {
    r, combinations := best, tried;
    for c := 0 to |x.exacts|
      invariant BestSoFar(os, targets, x, a, b, c, 1, r) && combinations == tried + c * x.limit
    {
      r, combinations := SweepEvidence(os, targets, x, a, b, c, r, combinations);
      Distribute(c, x.limit);
    }
    forall t {:trigger Covered(x, a, b + 1, 0, 1, t)} ensures Covered(x, a, b + 1, 0, 1, t) <==> Covered(x, a, b, |x.exacts|, 1, t) {
      NextMargin(x, a, b, t);
    }
    if r.Some? {
      NextMargin(x, a, b, r.value.thresholds);
    }
  }

  /** How many combinations there are for one margin, and for one top score. */
  function PerMargin(x: Space): nat {
    |x.exacts| * x.limit
  }

  function PerTop(x: Space): nat {
    |x.margins| * PerMargin(x)
  }

  lemma Distribute(n: nat, m: nat)
    ensures (n + 1) * m == n * m + m
  {
  }

  method SweepMargins(os: seq<Observation>, targets: Targets, x: Space, a: nat, best: Option<Trial>, tried: nat)
    returns (r: Option<Trial>, combinations: nat)
    requires ValidSpace(x) && a < |x.tops|
    requires BestSoFar(os, targets, x, a, 0, 0, 1, best)
    ensures BestSoFar(os, targets, x, a + 1, 0, 0, 1, r) && combinations == tried + PerTop(x)
  {
    r, combinations := best, tried;
    for b := 0 to |x.margins|
      invariant BestSoFar(os, targets, x, a, b, 0, 1, r) && combinations == tried + b * PerMargin(x)
    {
      r, combinations := SweepExacts(os, targets, x, a, b, r, combinations);
      Distribute(b, PerMargin(x));
    }
    forall t {:trigger Covered(x, a + 1, 0, 0, 1, t)} ensures Covered(x, a + 1, 0, 0, 1, t) <==> Covered(x, a, |x.margins|, 0, 1, t) {
      NextTop(x, a, t);
    }
    if r.Some? {
      NextTop(x, a, r.value.thresholds);
    }
  }

  datatype Field = TopField | MarginField | ExactField

  function Pick(o: Observation, f: Field): Option<real> {
    match f
    case TopField => o.topScore
    case MarginField => o.margin
    case ExactField => o.bestExact
  }

  /** The scores of one kind that there are. */
  function Scores(os: seq<Observation>, f: Field): seq<real>
    decreases |os|
  {
    if os == [] then []
    else
      var n := |os| - 1;
      Scores(os[..n], f) + if Pick(os[n], f).Some? then [Pick(os[n], f).value] else []
  }

  function MostEvidence(os: seq<Observation>): nat
    decreases |os|
  {
    if os == [] then 0
    else
      var before, last := MostEvidence(os[..|os| - 1]), os[|os| - 1].evidenceCount;
      if before < last then last else before
  }

  function EvidenceLimit(os: seq<Observation>): (n: nat)
    ensures 1 <= n <= 12
  {
    if MostEvidence(os) < 1 then 1 else if MostEvidence(os) > 12 then 12 else MostEvidence(os)
  }

  /** The combinations that are tried. */
  predicate Swept(os: seq<Observation>, t: Gate.Thresholds) {
    && Tried(Scores(os, TopField), t.topScoreMin) && Tried(Scores(os, MarginField), t.scoreMarginMin)
    && Tried(Scores(os, ExactField), t.exactScoreMin) && 1 <= t.minEvidence <= EvidenceLimit(os)
  }

  predicate HasPositive(os: seq<Observation>) {
    exists i :: 0 <= i < |os| && os[i].expected
  }

  /** The sweep's result: a tried combination preferred to every other. */
  ghost predicate Winner(os: seq<Observation>, targets: Targets, w: Trial) {
    && Swept(os, w.thresholds) && w == TrialOf(os, targets, w.thresholds)
    && forall t :: Swept(os, t) ==> Preferred(w, TrialOf(os, targets, t))
  }

  method SweepTops(os: seq<Observation>, targets: Targets, x: Space) returns (w: Trial, combinations: nat)
    requires ValidSpace(x) && 0.0 in x.tops && 0.0 in x.margins && 0.0 in x.exacts && x.limit >= 1
    ensures InSpace(x, w.thresholds) && w == TrialOf(os, targets, w.thresholds)
    ensures forall t :: InSpace(x, t) ==> Preferred(w, TrialOf(os, targets, t))
    ensures combinations == |x.tops| * PerTop(x)
  {
    var best: Option<Trial> := None;
    combinations := 0;
    for a := 0 to |x.tops|
      invariant BestSoFar(os, targets, x, a, 0, 0, 1, best) && combinations == a * PerTop(x)
    {
      best, combinations := SweepMargins(os, targets, x, a, best, combinations);
      Distribute(a, PerTop(x));
    }
    assert x.tops[..|x.tops|] == x.tops;
    assert Covered(x, |x.tops|, 0, 0, 1, Gate.Thresholds(0.0, 0.0, 0.0, 1));
    w := best.value;
    forall t | InSpace(x, t)
      ensures Preferred(w, TrialOf(os, targets, t))
    {
      assert Covered(x, |x.tops|, 0, 0, 1, t);
    }
  }

  /** `sweep_thresholds`. */
  method SweepThresholds(os: seq<Observation>, targets: Targets)
    returns (r: Result<Trial, CalibrationError>, combinations: nat, ghost x: Space)
    ensures r.Err? <==> !HasPositive(os)
    ensures r.Ok? ==> Winner(os, targets, r.value)
    ensures r.Ok? ==> ValidSpace(x) && (forall t :: InSpace(x, t) <==> Swept(os, t)) && combinations == |x.tops| * PerTop(x)
  {
    combinations, x := 0, Space([], [], [], 0);
    if os == [] || !HasPositive(os) {
      r := Err(NoPositiveObservation);
      return;
    }
    var tops := ScoreCandidates(Scores(os, TopField));
    var margins := ScoreCandidates(Scores(os, MarginField));
    var exacts := ScoreCandidates(Scores(os, ExactField));
    var space := Space(tops, margins, exacts, EvidenceLimit(os));
    x := space;
    assert Tried(Scores(os, TopField), 0.0) && Tried(Scores(os, MarginField), 0.0) && Tried(Scores(os, ExactField), 0.0);
    var w;
    w, combinations := SweepTops(os, targets, space);
    forall t ensures InSpace(x, t) <==> Swept(os, t) {
    }
    r := Ok(w);
  }

  lemma {:induction false} SameTally(os: seq<Observation>, t: Gate.Thresholds, u: Gate.Thresholds)
    requires forall i :: 0 <= i < |os| ==> GateAnswer(os[i], t) == GateAnswer(os[i], u)
    ensures Tally(os, t) == Tally(os, u)
    decreases |os|
  {
    if os != [] {
      SameTally(os[..|os| - 1], t, u);
    }
  }

  lemma {:induction false} PickedIsScore(os: seq<Observation>, f: Field, i: nat) returns (k: nat)
    requires i < |os| && Pick(os[i], f).Some?
    ensures k < |Scores(os, f)| && Scores(os, f)[k] == Pick(os[i], f).value
    decreases |os|
  {
    var n := |os| - 1;
    if i < n {
      k := PickedIsScore(os[..n], f, i);
    } else {
      k := |Scores(os[..n], f)|;
    }
  }

  /** Two thresholds that no score tells apart. */
  ghost predicate Alike(os: seq<Observation>, f: Field, t: real, c: real) {
    forall i :: 0 <= i < |os| ==> (Reaches(Pick(os[i], f), t) <==> Reaches(Pick(os[i], f), c))
  }

  ghost predicate SeparatedScores(os: seq<Observation>, f: Field) {
    InUnit(Scores(os, f)) && Separated(Scores(os, f))
  }

  lemma TriedIsAlike(os: seq<Observation>, f: Field, t: real) returns (c: real)
    requires SeparatedScores(os, f) && 0.0 <= t <= 1.0
    ensures Tried(Scores(os, f), c) && Alike(os, f, t, c)
  {
    c := SomeTriedAgrees(Scores(os, f), t);
    forall i | 0 <= i < |os|
      ensures Reaches(Pick(os[i], f), t) <==> Reaches(Pick(os[i], f), c)
    {
      if Pick(os[i], f).Some? {
        var k := PickedIsScore(os, f, i);
      }
    }
  }

  lemma AlikeAnswers(os: seq<Observation>, t: Gate.Thresholds, u: Gate.Thresholds)
    requires Alike(os, TopField, t.topScoreMin, u.topScoreMin) && Alike(os, MarginField, t.scoreMarginMin, u.scoreMarginMin)
    requires Alike(os, ExactField, t.exactScoreMin, u.exactScoreMin) && t.minEvidence == u.minEvidence
    ensures Tally(os, t) == Tally(os, u)
  {
  }

  /** The sweep is globally optimal: when what is tried separates the scores, as it does for multiples of one millionth, no
      real thresholds, with a minimum of evidence in the swept range, beat its result on targets met, F1, precision and
      recall, in that order. */
  lemma NoRealThresholdsBeatTheWinner(os: seq<Observation>, targets: Targets, w: Trial, t: Gate.Thresholds)
    requires Winner(os, targets, w)
    requires forall f :: SeparatedScores(os, f)
    requires 0.0 <= t.topScoreMin <= 1.0 && 0.0 <= t.scoreMarginMin <= 1.0 && 0.0 <= t.exactScoreMin <= 1.0
    requires 1 <= t.minEvidence <= EvidenceLimit(os)
    ensures !Beats(TrialOf(os, targets, t), w)
  {
    var top := TriedIsAlike(os, TopField, t.topScoreMin);
    var margin := TriedIsAlike(os, MarginField, t.scoreMarginMin);
    var exact := TriedIsAlike(os, ExactField, t.exactScoreMin);
    var u := Gate.Thresholds(top, margin, exact, t.minEvidence);
    AlikeAnswers(os, t, u);
    assert Swept(os, u) && Preferred(w, TrialOf(os, targets, u));
  }

  /** One answerable and one unanswerable query with these top scores. */
  function Pair(high: real, low: real): seq<Observation> {
    [Observation(true, Some(high), Some(high), None, 1), Observation(false, Some(low), Some(low), None, 1)]
  }

  lemma TallyOfPair(high: real, low: real, t: Gate.Thresholds)
    requires t.minEvidence == 1
    ensures var a, b := GateAnswer(Pair(high, low)[0], t), GateAnswer(Pair(high, low)[1], t);
            Tally(Pair(high, low), t) == Counts(if a then 1 else 0, if b then 1 else 0, if b then 0 else 1, if a then 0 else 1)
  {
    var os := Pair(high, low);
    assert os[..1] == [os[0]] && [os[0]][..0] == [];
    assert Tally([os[0]], t) == Add(Tally([], t), GateAnswer(os[0], t), true);
    assert Tally(os, t) == Add(Tally(os[..1], t), GateAnswer(os[1], t), false);
  }

  lemma ScoresOfPair(high: real, low: real)
    ensures Scores(Pair(high, low), TopField) == [high, low] && Scores(Pair(high, low), MarginField) == [high, low]
    ensures EvidenceLimit(Pair(high, low)) == 1
  {
    var os := Pair(high, low);
    assert os[..1] == [os[0]] && [os[0]][..0] == [];
    assert Scores([os[0]], TopField) == [high] && Scores([os[0]], MarginField) == [high];
    assert MostEvidence([os[0]]) == 1;
  }

  /** What is tried for a score far below one millionth does not tell it from zero. */
  lemma TriedForTiny(x: real)
    requires Tried([0.0000001, 0.0], x)
    ensures x <= 0.0 || x > 0.0000001
  {
  }

  /** On finer scores the sweep can be beaten: thresholds at the answerable query's score classify both queries rightly,
      and no tried combination does. */
  lemma FinerScoresBeatTheSweep(targets: Targets, w: Trial)
    requires targets.precision <= 1.0 && targets.recall <= 1.0
    requires Winner(Pair(0.0000001, 0.0), targets, w)
    ensures Beats(TrialOf(Pair(0.0000001, 0.0), targets, Gate.Thresholds(0.0000001, 0.0, 1.0, 1)), w)
  {
    var os, best := Pair(0.0000001, 0.0), Gate.Thresholds(0.0000001, 0.0, 1.0, 1);
    ScoresOfPair(0.0000001, 0.0);
    TallyOfPair(0.0000001, 0.0, best);
    assert MetricsOf(Tally(os, best)) == Metrics(1.0, 1.0, 1.0);
    var t := w.thresholds;
    TriedForTiny(t.topScoreMin);
    TriedForTiny(t.scoreMarginMin);
    TallyOfPair(0.0000001, 0.0, t);
    if GateAnswer(os[0], t) {
      assert MetricsOf(Tally(os, t)).precision == 0.5 && MetricsOf(Tally(os, t)).recall == 1.0;
    } else {
      assert MetricsOf(Tally(os, t)).recall == 0.0;
    }
    assert w.metrics.f1 < 1.0;
  }
}
