/** For which scores the sweep is globally optimal, whatever the labels are: exactly when every set of queries that some
    real thresholds answer is also answered by a combination that is tried. */
module SweepOptimality {
  import opened Evidence
  import Gate
  import opened Calibration

  /** The same queries with other labels. */
  function Labelled(os: seq<Observation>, labels: seq<bool>): (r: seq<Observation>)
    requires |labels| == |os|
    ensures |r| == |os|
  {
    seq(|os|, i requires 0 <= i < |os| => os[i].(expected := labels[i]))
  }

  /** Any thresholds, with a minimum of evidence in the swept range. */
  predicate RealThresholds(os: seq<Observation>, t: Gate.Thresholds) {
    && 0.0 <= t.topScoreMin <= 1.0 && 0.0 <= t.scoreMarginMin <= 1.0 && 0.0 <= t.exactScoreMin <= 1.0
    && 1 <= t.minEvidence <= EvidenceLimit(os)
  }

  predicate SameAnswers(os: seq<Observation>, t: Gate.Thresholds, u: Gate.Thresholds) {
    forall i :: 0 <= i < |os| ==> (GateAnswer(os[i], t) <==> GateAnswer(os[i], u))
  }

  predicate AnswersSome(os: seq<Observation>, t: Gate.Thresholds) {
    exists i :: 0 <= i < |os| && GateAnswer(os[i], t)
  }

  ghost predicate HasSwept(os: seq<Observation>, t: Gate.Thresholds) {
    exists u :: Swept(os, u) && SameAnswers(os, t, u)
  }

  /** No real thresholds beat the sweep's result for these labels. */
  ghost predicate Optimal(os: seq<Observation>, targets: Targets, labels: seq<bool>)
    requires |labels| == |os|
  {
    forall w, t :: Winner(Labelled(os, labels), targets, w) && RealThresholds(os, t) ==>
      !Beats(TrialOf(Labelled(os, labels), targets, t), w)
  }

  lemma {:induction false} LabelsLeaveScores(os: seq<Observation>, labels: seq<bool>, f: Field)
    requires |labels| == |os|
    ensures Scores(Labelled(os, labels), f) == Scores(os, f) && MostEvidence(Labelled(os, labels)) == MostEvidence(os)
    decreases |os|
  {
    if os != [] {
      var n := |os| - 1;
      assert Labelled(os, labels)[..n] == Labelled(os[..n], labels[..n]);
      LabelsLeaveScores(os[..n], labels[..n], f);
    }
  }

  lemma LabelsLeaveSwept(os: seq<Observation>, labels: seq<bool>, t: Gate.Thresholds)
    requires |labels| == |os|
    ensures Swept(Labelled(os, labels), t) <==> Swept(os, t)
  {
    LabelsLeaveScores(os, labels, TopField);
    LabelsLeaveScores(os, labels, MarginField);
    LabelsLeaveScores(os, labels, ExactField);
  }

  /** Answering exactly what is labelled leaves no error. */
  lemma {:induction false} RightAnswers(os: seq<Observation>, t: Gate.Thresholds)
    ensures Tally(os, t).falsePositive == 0 && Tally(os, t).falseNegative == 0 <==>
              forall i :: 0 <= i < |os| ==> (GateAnswer(os[i], t) <==> os[i].expected)
    decreases |os|
  {
    if os != [] {
      var n := |os| - 1;
      RightAnswers(os[..n], t);
      assert forall i :: 0 <= i < n ==> os[..n][i] == os[i];
    }
  }

  lemma {:induction false} SomePositive(os: seq<Observation>, t: Gate.Thresholds, i: nat)
    requires i < |os| && GateAnswer(os[i], t) && os[i].expected
    ensures Tally(os, t).truePositive > 0
    decreases |os|
  {
    var n := |os| - 1;
    if i < n {
      SomePositive(os[..n], t, i);
    }
  }

  lemma {:induction false} NoAnswers(os: seq<Observation>, t: Gate.Thresholds)
    requires !AnswersSome(os, t)
    ensures Tally(os, t).truePositive == 0 && Tally(os, t).falsePositive == 0
    decreases |os|
  {
    if os != [] {
      assert !GateAnswer(os[|os| - 1], t);
      NoAnswers(os[..|os| - 1], t);
    }
  }

  lemma WholeRatio(part: nat, other: nat)
    ensures Ratio(part, other) == 1.0 <==> part > 0 && other == 0
  {
    if part + other > 0 && other > 0 {
      var whole := (part + other) as real;
      assert part as real < whole;
      assert part as real / whole * whole == part as real;
    }
  }

  /** Only the right answers score one throughout. */
  lemma PerfectMetrics(c: Counts)
    ensures MetricsOf(c).precision == 1.0 && MetricsOf(c).recall == 1.0 <==>
              c.truePositive > 0 && c.falsePositive == 0 && c.falseNegative == 0
    ensures MetricsOf(c).precision == 1.0 && MetricsOf(c).recall == 1.0 ==> MetricsOf(c).f1 == 1.0
  {
    WholeRatio(c.truePositive, c.falsePositive);
    WholeRatio(c.truePositive, c.falseNegative);
  }

  /** Perfect thresholds beat all that are not. */
  lemma PerfectBeats(targets: Targets, a: Trial, b: Trial, c: Counts)
    requires a.metrics == Metrics(1.0, 1.0, 1.0) && b.metrics == MetricsOf(c)
    requires a.targetsMet == Meets(a.metrics, targets) && b.targetsMet == Meets(b.metrics, targets) && !Beats(a, b)
    ensures b.metrics.precision == 1.0 && b.metrics.recall == 1.0
  {
    MetricsInRange(c);
  }

  predicate Labels(os: seq<Observation>, labels: seq<bool>, t: Gate.Thresholds) {
    |labels| == |os| && forall i :: 0 <= i < |os| ==> (labels[i] <==> GateAnswer(os[i], t))
  }

  lemma PerfectTrial(os: seq<Observation>, targets: Targets, labels: seq<bool>, t: Gate.Thresholds)
    requires Labels(os, labels, t) && AnswersSome(os, t)
    ensures TrialOf(Labelled(os, labels), targets, t).metrics == Metrics(1.0, 1.0, 1.0)
  {
    var ls := Labelled(os, labels);
    assert forall i :: 0 <= i < |os| ==> (GateAnswer(ls[i], t) <==> ls[i].expected);
    RightAnswers(ls, t);
    var i :| 0 <= i < |os| && GateAnswer(os[i], t);
    SomePositive(ls, t, i);
    PerfectMetrics(Tally(ls, t));
  }

  lemma OptimalIsSwept(os: seq<Observation>, targets: Targets, labels: seq<bool>, t: Gate.Thresholds, w: Trial)
    requires Labels(os, labels, t) && AnswersSome(os, t) && RealThresholds(os, t)
    requires Winner(Labelled(os, labels), targets, w) && Optimal(os, targets, labels)
    ensures HasSwept(os, t)
  {
    var ls := Labelled(os, labels);
    PerfectTrial(os, targets, labels, t);
    PerfectBeats(targets, TrialOf(ls, targets, t), w, Tally(ls, w.thresholds));
    PerfectMetrics(Tally(ls, w.thresholds));
    RightAnswers(ls, w.thresholds);
    forall i | 0 <= i < |os|
      ensures GateAnswer(os[i], t) <==> GateAnswer(os[i], w.thresholds)
    {
      assert ls[i].expected == labels[i];
      assert GateAnswer(ls[i], w.thresholds) <==> ls[i].expected;
    }
    LabelsLeaveSwept(os, labels, w.thresholds);
    assert SameAnswers(os, t, w.thresholds);
  }

  lemma EmptyNeverBeats(targets: Targets, a: Trial, c: Counts, b: Trial, d: Counts)
    requires a.metrics == MetricsOf(c) && b.metrics == MetricsOf(d) && c.truePositive == 0 && c.falsePositive == 0
    requires a.targetsMet == Meets(a.metrics, targets) && b.targetsMet == Meets(b.metrics, targets)
    ensures !Beats(a, b)
  {
    MetricsInRange(d);
    assert a.metrics == Metrics(0.0, 0.0, 0.0);
  }

  lemma SweptIsOptimal(os: seq<Observation>, targets: Targets, labels: seq<bool>, t: Gate.Thresholds, w: Trial)
    requires |labels| == |os| && Winner(Labelled(os, labels), targets, w)
    requires AnswersSome(os, t) ==> HasSwept(os, t)
    ensures !Beats(TrialOf(Labelled(os, labels), targets, t), w)
  {
    var ls := Labelled(os, labels);
    if AnswersSome(os, t) {
      var u :| Swept(os, u) && SameAnswers(os, t, u);
      LabelsLeaveSwept(os, labels, u);
      forall i | 0 <= i < |ls|
        ensures GateAnswer(ls[i], t) == GateAnswer(ls[i], u)
      {
        assert GateAnswer(os[i], t) <==> GateAnswer(os[i], u);
      }
      SameTally(ls, t, u);
      assert Preferred(w, TrialOf(ls, targets, u));
    } else {
      assert forall i :: 0 <= i < |ls| ==> !GateAnswer(os[i], t);
      NoAnswers(ls, t);
      EmptyNeverBeats(targets, TrialOf(ls, targets, t), Tally(ls, t), w, Tally(ls, w.thresholds));
    }
  }

  /** Preference is a total order. */
  lemma PreferredTransitive(a: Trial, b: Trial, c: Trial)
    requires Preferred(a, b) && Preferred(b, c)
    ensures Preferred(a, c)
  {
  }

  lemma PreferredTotal(a: Trial, b: Trial)
    ensures Preferred(a, b) || Preferred(b, a)
  {
  }

  predicate PreferredToAll(b: Trial, ts: set<Trial>) {
    forall t :: t in ts ==> Preferred(b, t)
  }

  lemma PreferredToAllToo(a: Trial, b: Trial, ts: set<Trial>)
    requires Preferred(a, b) && PreferredToAll(b, ts)
    ensures PreferredToAll(a, ts)
  {
    forall t | t in ts
      ensures Preferred(a, t)
    {
      PreferredTransitive(a, b, t);
    }
  }

  lemma {:induction false} BestExists(ts: set<Trial>) returns (b: Trial)
    requires ts != {}
    ensures b in ts && PreferredToAll(b, ts)
    decreases ts
  {
    var x :| x in ts;
    var rest := ts - {x};
    assert ts == rest + {x};
    b := x;
    PreferredTotal(x, x);
    if rest != {} {
      var y := BestExists(rest);
      PreferredTotal(x, y);
      if Preferred(x, y) {
        PreferredToAllToo(x, y, rest);
      } else {
        b := y;
      }
    }
  }

  function TriedValues(values: seq<real>): (r: set<real>)
    ensures forall x :: x in r <==> Tried(values, x)
  {
    {0.0, 1.0} + (set i | 0 <= i < |values| :: Round6(values[i]))
    + (set i | 0 <= i < |values| :: MinReal(1.0, Round6(Round6(values[i]) + MICRO)))
  }

  ghost function SweptSet(os: seq<Observation>): (r: set<Gate.Thresholds>)
    ensures forall t :: t in r <==> Swept(os, t)
  {
    set a, b, c, k: nat | a in TriedValues(Scores(os, TopField)) && b in TriedValues(Scores(os, MarginField))
                          && c in TriedValues(Scores(os, ExactField)) && 1 <= k <= EvidenceLimit(os) :: Gate.Thresholds(a, b, c, k)
  }

  /** The sweep always has a result. */
  lemma WinnerExists(os: seq<Observation>, targets: Targets) returns (w: Trial)
    ensures Winner(os, targets, w)
  {
    var none := Gate.Thresholds(0.0, 0.0, 0.0, 1);
    var trials := set t | t in SweptSet(os) :: TrialOf(os, targets, t);
    assert Swept(os, none) && TrialOf(os, targets, none) in trials;
    w := BestExists(trials);
    forall t | Swept(os, t)
      ensures Preferred(w, TrialOf(os, targets, t))
    {
      assert TrialOf(os, targets, t) in trials;
    }
  }

  /** For fixed scores: the sweep is optimal over all real thresholds for every labelling with a positive exactly when every
      set of queries that real thresholds answer, the empty one aside, is answered by a combination that is tried. */
  lemma OptimalExactly(os: seq<Observation>, targets: Targets)
    ensures (forall labels {:trigger Optimal(os, targets, labels)} ::
               |labels| == |os| && HasPositive(Labelled(os, labels)) ==> Optimal(os, targets, labels))
            <==> forall t {:trigger HasSwept(os, t)} :: RealThresholds(os, t) && AnswersSome(os, t) ==> HasSwept(os, t)
  {
    if forall labels {:trigger Optimal(os, targets, labels)} ::
         |labels| == |os| && HasPositive(Labelled(os, labels)) ==> Optimal(os, targets, labels) {
      forall t | RealThresholds(os, t) && AnswersSome(os, t)
        ensures HasSwept(os, t)
      {
        OptimalMeansSwept(os, targets, t);
      }
    }
    if forall t {:trigger HasSwept(os, t)} :: RealThresholds(os, t) && AnswersSome(os, t) ==> HasSwept(os, t) {
      forall labels: seq<bool>, w, t | |labels| == |os| && Winner(Labelled(os, labels), targets, w) && RealThresholds(os, t)
        ensures !Beats(TrialOf(Labelled(os, labels), targets, t), w)
      {
        SweptIsOptimal(os, targets, labels, t, w);
      }
    }
  }

  lemma OptimalMeansSwept(os: seq<Observation>, targets: Targets, t: Gate.Thresholds)
    requires RealThresholds(os, t) && AnswersSome(os, t)
    requires forall labels {:trigger Optimal(os, targets, labels)} ::
               |labels| == |os| && HasPositive(Labelled(os, labels)) ==> Optimal(os, targets, labels)
    ensures HasSwept(os, t)
  {
    var labels := seq(|os|, i requires 0 <= i < |os| => GateAnswer(os[i], t));
    var i :| 0 <= i < |os| && GateAnswer(os[i], t);
    assert Labelled(os, labels)[i].expected;
    var w := WinnerExists(Labelled(os, labels), targets);
    assert Optimal(os, targets, labels);
    OptimalIsSwept(os, targets, labels, t, w);
  }
}
