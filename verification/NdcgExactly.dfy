/** What the gain, the discounted sum and the ideal ranking are, stated apart from how they are computed. */
module NdcgExactly {
  import opened Basics
  import opened Evidence
  import opened N = Ndcg

  /** Each grade more doubles the gain and adds one: the gain is two to the grade, less one. */
  lemma GainExactly(grade: nat)
    ensures Gain(0) == 0 && Gain(grade + 1) == 2 * Gain(grade) + 1
  {
    PowerPositive(grade);
  }

  lemma {:induction false} DcgWithout(s: seq<nat>, discount: nat -> real, n: nat, i: nat)
    requires i < |s|
    ensures Dcg(s, discount, n) == Dcg(s[i := 0], discount, n) + if i < n then Times(Gain(s[i]), discount(i)) else 0.0
  {
    if n > 0 {
      DcgWithout(s, discount, n - 1, i);
      DcgStep(s, discount, n);
      DcgStep(s[i := 0], discount, n);
      GainExactly(0);
      assert At(s[i := 0], n - 1) == if n - 1 == i then 0 else At(s, n - 1);
    }
  }

  /** The discounted sum takes every position among the first n once, with its own discount: a position set to 0 takes that much away. */
  lemma DcgTakesOut(s: seq<nat>, discount: nat -> real, n: nat, i: nat)
    requires i < |s|
    ensures Dcg(s, discount, n) == Dcg(s[i := 0], discount, n) + if i < n then Gain(s[i]) as real * discount(i) else 0.0
  {
    DcgWithout(s, discount, n, i);
    TimesIs(Gain(s[i]), discount(i));
  }

  /** And nothing but zeros sums to zero. */
  lemma {:induction false} DcgOfZeros(s: seq<nat>, discount: nat -> real, n: nat)
    requires forall i :: 0 <= i < |s| ==> s[i] == 0
    ensures Dcg(s, discount, n) == 0.0
  {
    if n > 0 {
      DcgOfZeros(s, discount, n - 1);
      GainExactly(0);
    }
  }

  /** The observed grades are those of the ranked documents, 0 for one without a grade, up to the limit. */
  lemma ObservedExactly(rel: seq<Judgement>, ranked: seq<DocumentKey>, limit: nat, i: nat, j: nat)
    requires DistinctKeys(rel) && i < |ranked| && i < limit
    ensures var observed := Observed(rel, Take(ranked, limit));
            && |observed| == (if |ranked| <= limit then |ranked| else limit)
            && (j < |rel| && rel[j].key == ranked[i] ==> observed[i] == rel[j].grade)
            && ((forall k :: 0 <= k < |rel| ==> rel[k].key != ranked[i]) ==> observed[i] == 0)
  {
    var taken := Take(ranked, limit);
    ObservedAt(rel, taken, i);
    if j < |rel| && rel[j].key == ranked[i] {
      GradeAt(rel, j);
    }
    if forall k :: 0 <= k < |rel| ==> rel[k].key != ranked[i] {
      UnknownGrade(rel, ranked[i]);
    }
  }

  lemma {:induction false} GradeAt(rel: seq<Judgement>, j: nat)
    requires DistinctKeys(rel) && j < |rel|
    ensures GradeOf(rel, rel[j].key) == rel[j].grade
  {
    if j > 0 {
      assert rel[0].key != rel[j].key;
      GradeAt(rel[1..], j - 1);
    }
  }

  /** The ideal ranking has the given grades in falling order, cut at the limit. */
  lemma IdealExactly(rel: seq<Judgement>, limit: nat)
    ensures var ideal := Ideal(rel, limit);
            && |ideal| == (if |rel| <= limit then |rel| else limit)
            && (forall i, j :: 0 <= i < j < |ideal| ==> ideal[i] >= ideal[j])
            && (|rel| <= limit ==> multiset(ideal) == multiset(Grades(rel)))
  {
    GradesCount(rel);
    SortSorts(Grades(rel), Larger);
    SortKeeps(Grades(rel), Larger);
  }

  lemma {:induction false} GradesCount(rel: seq<Judgement>)
    ensures |Grades(rel)| == |rel| && forall i :: 0 <= i < |rel| ==> Grades(rel)[i] == rel[i].grade
  {
    if rel != [] {
      GradesCount(rel[1..]);
    }
  }

  /** The metric is the part of the ideal sum that the ranking reaches, and 0 if nothing can be gained. */
  lemma NdcgIsPart(rel: seq<Judgement>, ranked: seq<DocumentKey>, limit: nat, discount: nat -> real)
    ensures var ideal := Dcg(Ideal(rel, limit), discount, limit);
            && N.Ndcg(rel, ranked, limit, discount) * ideal
               == (if ideal == 0.0 then 0.0 else Dcg(Observed(rel, Take(ranked, limit)), discount, limit))
            && (ideal == 0.0 ==> N.Ndcg(rel, ranked, limit, discount) == 0.0)
  {
  }
}
