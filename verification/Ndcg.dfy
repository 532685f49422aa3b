/** Normalised discounted cumulative gain (backend/app/evaluation/metrics.py). The discount is any positive sequence that
    does not increase. */
module Ndcg {
  import opened Basics
  import opened Evidence

  newtype DocumentKey = n: int | 0 <= n

  /** The graded documents of a query, each key once: a dictionary in insertion order. */
  datatype Judgement = Judgement(key: DocumentKey, grade: nat)

  predicate DistinctKeys(rel: seq<Judgement>) {
    forall i, j :: 0 <= i < j < |rel| ==> rel[i].key != rel[j].key
  }

  predicate DistinctRanking(ranked: seq<DocumentKey>) {
    forall i, j :: 0 <= i < j < |ranked| ==> ranked[i] != ranked[j]
  }

  function GradeOf(rel: seq<Judgement>, key: DocumentKey): nat {
    if rel == [] then 0 else if rel[0].key == key then rel[0].grade else GradeOf(rel[1..], key)
  }

  function Grades(rel: seq<Judgement>): seq<nat> {
    if rel == [] then [] else [rel[0].grade] + Grades(rel[1..])
  }

  function Observed(rel: seq<Judgement>, ranked: seq<DocumentKey>): seq<nat> {
    if ranked == [] then [] else [GradeOf(rel, ranked[0])] + Observed(rel, ranked[1..])
  }

  predicate Larger(a: nat, b: nat) {
    a > b
  }

  function Take<T>(s: seq<T>, n: nat): seq<T> {
    if |s| <= n then s else s[..n]
  }

  function Ideal(rel: seq<Judgement>, limit: nat): seq<nat> {
    Take(Sort(Grades(rel), Larger), limit)
  }

  function Power(n: nat): nat {
    if n == 0 then 1 else 2 * Power(n - 1)
  }

  /** 2 to the grade, minus one. */
  function Gain(grade: nat): (g: nat)
    ensures grade == 0 ==> g == 0
  {
    PowerPositive(grade);
    Power(grade) - 1
  }

  lemma {:induction false} PowerPositive(n: nat)
    ensures Power(n) >= 1
  {
    if n > 0 {
      PowerPositive(n - 1);
    }
  }

  lemma {:induction false} GainGrows(a: nat, b: nat)
    requires a <= b
    ensures Gain(a) <= Gain(b)
    decreases b
  {
    PowerPositive(a);
    if a < b {
      GainGrows(a, b - 1);
    }
  }

  function At(s: seq<nat>, i: nat): nat {
    if i < |s| then s[i] else 0
  }

  /** The gain of the first n positions, discounted and not; positions past the end count nothing. */
  function Dcg(s: seq<nat>, discount: nat -> real, n: nat): real {
    if n == 0 then 0.0 else Dcg(s, discount, n - 1) + Gain(At(s, n - 1)) as real * discount(n - 1)
  }

  function Total(s: seq<nat>, n: nat): nat {
    if n == 0 then 0 else Total(s, n - 1) + Gain(At(s, n - 1))
  }

  ghost predicate Discount(discount: nat -> real) {
    forall i {:trigger discount(i)} :: discount(i) > 0.0 && forall j {:trigger discount(j)} :: i <= j ==> discount(j) <= discount(i)
  }

  /** `_ndcg`. */
  function Ndcg(rel: seq<Judgement>, ranked: seq<DocumentKey>, limit: nat, discount: nat -> real): real {
    var ideal := Dcg(Ideal(rel, limit), discount, limit);
    if ideal != 0.0 then Dcg(Observed(rel, Take(ranked, limit)), discount, limit) / ideal else 0.0
  }

  /** A discount counted so many times. */
  function Times(k: nat, w: real): real {
    if k == 0 then 0.0 else Times(k - 1, w) + w
  }

  lemma {:induction false} TimesIs(k: nat, w: real)
    ensures Times(k, w) == k as real * w
  {
    if k > 0 {
      TimesIs(k - 1, w);
      assert k as real * w == (k - 1) as real * w + w;
    }
  }

  lemma {:induction false} TimesAdd(k: nat, l: nat, w: real)
    ensures Times(k + l, w) == Times(k, w) + Times(l, w)
    decreases l
  {
    if l > 0 {
      TimesAdd(k, l - 1, w);
    }
  }

  lemma {:induction false} TimesGrow(k: nat, v: real, w: real)
    requires 0.0 <= w <= v
    ensures 0.0 <= Times(k, w) <= Times(k, v)
  {
    if k > 0 {
      TimesGrow(k - 1, v, w);
    }
  }

  lemma DcgStep(s: seq<nat>, discount: nat -> real, n: nat)
    requires n > 0
    ensures Dcg(s, discount, n) == Dcg(s, discount, n - 1) + Times(Gain(At(s, n - 1)), discount(n - 1))
  {
    TimesIs(Gain(At(s, n - 1)), discount(n - 1));
  }

  lemma DiscountFalls(discount: nat -> real, n: nat)
    requires Discount(discount)
    ensures 0.0 < discount(n + 1) <= discount(n)
  {
  }

  /** Abel's summation: if every prefix of b gains at least as much as that of a, so does the discounted sum, by at least
      the difference of the totals at the last discount. */
  lemma {:induction false} PrefixesDecide(a: seq<nat>, b: seq<nat>, discount: nat -> real, n: nat)
    requires Discount(discount) && n > 0 && forall j :: 0 <= j <= n ==> Total(a, j) <= Total(b, j)
    ensures Dcg(b, discount, n) - Dcg(a, discount, n) >= Times(Total(b, n) - Total(a, n), discount(n - 1))
  {
    var x, y, w := Gain(At(b, n - 1)), Gain(At(a, n - 1)), discount(n - 1);
    assert Total(a, n - 1) <= Total(b, n - 1) && Total(a, n) <= Total(b, n);
    var k, total := Total(b, n - 1) - Total(a, n - 1), Total(b, n) - Total(a, n);
    DcgStep(a, discount, n);
    DcgStep(b, discount, n);
    TimesAdd(total, y, w);
    TimesAdd(k, x, w);
    assert total + y == k + x;
    if n > 1 {
      PrefixesDecide(a, b, discount, n - 1);
      DiscountFalls(discount, n - 2);
      TimesGrow(k, discount(n - 2), w);
    }
  }

  /** The grades of a that count are among those of s. */
  ghost predicate Within(a: seq<nat>, s: seq<nat>) {
    forall v: nat :: v > 0 ==> multiset(a)[v] <= multiset(s)[v]
  }

  lemma {:induction false} TotalOfCons(x: nat, s: seq<nat>, n: nat)
    ensures Total([x] + s, n + 1) == Gain(x) + Total(s, n)
  {
    assert ([x] + s)[0] == x;
    if n > 0 {
      TotalOfCons(x, s, n - 1);
      assert At([x] + s, n) == At(s, n - 1);
    } else {
      assert At([x] + s, 0) == x;
      assert Total([x] + s, 1) == Total([x] + s, 0) + Gain(x);
    }
  }

  lemma {:induction false} TotalOfEmpty(n: nat)
    ensures Total([], n) == 0
  {
    if n > 0 {
      TotalOfEmpty(n - 1);
    }
  }

  function Without(a: seq<nat>, k: nat): seq<nat>
    requires k < |a|
  {
    a[..k] + a[k + 1..]
  }

  lemma WithoutCounts(a: seq<nat>, k: nat)
    requires k < |a|
    ensures multiset(Without(a, k)) == multiset(a) - multiset{a[k]} && multiset(a) == multiset(Without(a, k)) + multiset{a[k]}
  {
    assert a == a[..k] + [a[k]] + a[k + 1..];
  }

  lemma WithoutLater(a: seq<nat>, k: nat)
    requires 0 < k < |a|
    ensures Without(a, k) == [a[0]] + Without(a[1..], k - 1)
  {
  }

  /** Taking one element out of a sequence takes its gain out of the total. */
  lemma {:induction false} TotalWithout(a: seq<nat>, k: nat)
    requires k < |a|
    ensures Total(a, |a|) == Gain(a[k]) + Total(Without(a, k), |a| - 1)
    decreases k
  {
    assert a == [a[0]] + a[1..];
    TotalOfCons(a[0], a[1..], |a| - 1);
    if k == 0 {
      assert Without(a, 0) == a[1..];
    } else {
      TotalWithout(a[1..], k - 1);
      WithoutLater(a, k);
      TotalOfCons(a[0], Without(a[1..], k - 1), |a| - 2);
    }
  }

  /** No choice of grades gains more than the largest ones. */
  lemma {:induction false} LargestGainMost(a: seq<nat>, s: seq<nat>)
    requires Within(a, s) && SortedBy(s, Larger)
    ensures Total(a, |a|) <= Total(s, |a|)
    decreases |a|
  {
    if a == [] {
    } else if s == [] {
      GainsNothing(a);
      TotalOfEmpty(|a|);
    } else {
      var k := Chosen(a, s);
      var rest := Without(a, k);
      TotalWithout(a, k);
      PrefixIsSorted(s);
      LargestGainMost(rest, s[1..]);
      GainGrows(a[k], s[0]);
      assert s == [s[0]] + s[1..];
      TotalOfCons(s[0], s[1..], |a| - 1);
    }
  }

  lemma PrefixIsSorted(s: seq<nat>)
    requires s != [] && SortedBy(s, Larger)
    ensures SortedBy(s[1..], Larger)
  {
  }

  lemma {:induction false} GainsNothing(a: seq<nat>)
    requires Within(a, [])
    ensures Total(a, |a|) == 0
    decreases |a|
  {
    if a != [] {
      assert a[0] in multiset(a);
      assert a == [a[0]] + a[1..];
      WithinRest(a, []);
      GainsNothing(a[1..]);
      TotalOfCons(a[0], a[1..], |a| - 1);
    }
  }

  lemma WithinRest(a: seq<nat>, s: seq<nat>)
    requires a != [] && Within(a, s)
    ensures Within(a[1..], s)
  {
    assert a == [a[0]] + a[1..];
    assert multiset(a) == multiset{a[0]} + multiset(a[1..]);
  }

  /** An element to compare with the largest one: an equal one if there is one. */
  lemma Chosen(a: seq<nat>, s: seq<nat>) returns (k: nat)
    requires a != [] && s != [] && Within(a, s) && SortedBy(s, Larger)
    ensures k < |a| && a[k] <= s[0] && Within(Without(a, k), s[1..])
  {
    k := 0;
    if s[0] in a {
      k :| 0 <= k < |a| && a[k] == s[0];
    }
    WithoutCounts(a, k);
    assert s == [s[0]] + s[1..];
    assert multiset(s) == multiset{s[0]} + multiset(s[1..]);
    assert s[0] in a || multiset(a)[s[0]] == 0;
    forall v: nat | v > 0
      ensures multiset(Without(a, k))[v] <= multiset(s[1..])[v]
    {
      assert multiset(a)[v] <= multiset(s)[v];
    }
    NotAboveLargest(a, s, k);
  }

  lemma NotAboveLargest(a: seq<nat>, s: seq<nat>, k: nat)
    requires k < |a| && s != [] && Within(a, s) && SortedBy(s, Larger)
    ensures a[k] <= s[0]
  {
    if a[k] > 0 {
      assert a[k] in multiset(a) && multiset(a)[a[k]] <= multiset(s)[a[k]];
      assert a[k] in multiset(s) && a[k] in s;
      var i :| 0 <= i < |s| && s[i] == a[k];
    }
  }

  lemma {:induction false} ObservedAt(rel: seq<Judgement>, ranked: seq<DocumentKey>, i: nat)
    ensures |Observed(rel, ranked)| == |ranked|
    ensures i < |ranked| ==> Observed(rel, ranked)[i] == GradeOf(rel, ranked[i])
    decreases |ranked|
  {
    if ranked != [] {
      ObservedAt(rel, ranked[1..], if i > 0 then i - 1 else 0);
    }
  }

  lemma {:induction false} UnknownGrade(rel: seq<Judgement>, key: DocumentKey)
    requires forall i :: 0 <= i < |rel| ==> rel[i].key != key
    ensures GradeOf(rel, key) == 0
  {
    if rel != [] {
      UnknownGrade(rel[1..], key);
    }
  }

  /** One more judgement changes the observed grades in one place at most, where there was none. */
  lemma ObservedMore(rel: seq<Judgement>, ranked: seq<DocumentKey>)
    requires rel != [] && DistinctKeys(rel) && DistinctRanking(ranked)
    ensures || Observed(rel, ranked) == Observed(rel[1..], ranked)
            || exists i :: 0 <= i < |Observed(rel[1..], ranked)| && Observed(rel[1..], ranked)[i] == 0
                           && Observed(rel, ranked) == Observed(rel[1..], ranked)[i := rel[0].grade]
  {
    var some, rest := Observed(rel, ranked), Observed(rel[1..], ranked);
    forall i ensures |some| == |ranked| == |rest|
      ensures 0 <= i < |ranked| ==> some[i] == GradeOf(rel, ranked[i]) && rest[i] == GradeOf(rel[1..], ranked[i])
    {
      if 0 <= i < |ranked| {
        ObservedAt(rel, ranked, i);
        ObservedAt(rel[1..], ranked, i);
      } else {
        ObservedAt(rel, ranked, 0);
        ObservedAt(rel[1..], ranked, 0);
      }
    }
    if rel[0].key in ranked {
      var i :| 0 <= i < |ranked| && ranked[i] == rel[0].key;
      UnknownGrade(rel[1..], rel[0].key);
      assert some == rest[i := rel[0].grade];
    } else {
      assert some == rest;
    }
  }

  /** The grades observed for distinct ids are among those given. */
  lemma {:induction false} ObservedWithin(rel: seq<Judgement>, ranked: seq<DocumentKey>)
    requires DistinctKeys(rel) && DistinctRanking(ranked)
    ensures Within(Observed(rel, ranked), Grades(rel))
    decreases |rel|
  {
    if rel == [] {
      NothingObserved(ranked);
    } else {
      ObservedWithin(rel[1..], ranked);
      ObservedMore(rel, ranked);
      var some, rest := Observed(rel, ranked), Observed(rel[1..], ranked);
      if some != rest {
        var i :| 0 <= i < |rest| && rest[i] == 0 && some == rest[i := rel[0].grade];
        ReplaceCounts(rest, i, rel[0].grade);
      }
      assert multiset(Grades(rel)) == multiset{rel[0].grade} + multiset(Grades(rel[1..]));
    }
  }

  lemma ReplaceCounts(s: seq<nat>, i: nat, x: nat)
    requires i < |s|
    ensures multiset(s[i := x]) == multiset(s) - multiset{s[i]} + multiset{x}
  {
  }

  lemma {:induction false} NothingObserved(ranked: seq<DocumentKey>)
    ensures Within(Observed([], ranked), [])
  {
    forall v: nat | v > 0
      ensures multiset(Observed([], ranked))[v] == 0
    {
      if v in Observed([], ranked) {
        var i :| 0 <= i < |Observed([], ranked)| && Observed([], ranked)[i] == v;
        ObservedAt([], ranked, i);
      }
    }
  }

  lemma {:induction false} TotalOfPrefix(s: seq<nat>, n: nat, m: nat)
    requires m <= n
    ensures Total(Take(s, n), m) == Total(s, m)
  {
    if m > 0 {
      TotalOfPrefix(s, n, m - 1);
    }
  }

  lemma {:induction false} TotalPastEnd(s: seq<nat>, n: nat)
    requires n >= |s|
    ensures Total(s, n) == Total(s, |s|)
    decreases n
  {
    if n > |s| {
      TotalPastEnd(s, n - 1);
    }
  }

  lemma {:induction false} TotalGrows(s: seq<nat>, m: nat, n: nat)
    requires m <= n
    ensures Total(s, m) <= Total(s, n)
    decreases n
  {
    if m < n {
      TotalGrows(s, m, n - 1);
      PowerPositive(At(s, n - 1));
    }
  }

  lemma PrefixWithin(a: seq<nat>, s: seq<nat>, j: nat)
    requires Within(a, s)
    ensures Within(Take(a, j), s)
  {
    if j < |a| {
      assert a == a[..j] + a[j..];
      assert multiset(a) == multiset(a[..j]) + multiset(a[j..]);
    }
  }

  /** Every prefix of the observed grades gains at most what the ideal one does. */
  lemma IdealPrefixGainsMost(rel: seq<Judgement>, ranked: seq<DocumentKey>, limit: nat, j: nat)
    requires DistinctKeys(rel) && DistinctRanking(ranked) && j <= limit
    ensures Total(Observed(rel, Take(ranked, limit)), j) <= Total(Ideal(rel, limit), j)
  {
    var a, s := Observed(rel, Take(ranked, limit)), Sort(Grades(rel), Larger);
    ObservedWithin(rel, Take(ranked, limit));
    SortSorts(Grades(rel), Larger);
    SortKeeps(Grades(rel), Larger);
    PrefixWithin(a, s, j);
    var prefix := Take(a, j);
    LargestGainMost(prefix, s);
    TotalOfPrefix(a, j, j);
    TotalPastEnd(prefix, j);
    TotalGrows(s, |prefix|, j);
    TotalOfPrefix(s, limit, j);
  }

  lemma {:induction false} DcgNonNegative(s: seq<nat>, discount: nat -> real, n: nat)
    requires Discount(discount)
    ensures Dcg(s, discount, n) >= 0.0
  {
    if n > 0 {
      DcgNonNegative(s, discount, n - 1);
      PowerPositive(At(s, n - 1));
      ProductNotNegative(Gain(At(s, n - 1)) as real, discount(n - 1));
    }
  }

  /** The rearrangement inequality of the metric: for any positive, non-increasing discount, no ranking of distinct ids
      scores more than the grades in falling order. */
  lemma IdealScoresMost(rel: seq<Judgement>, ranked: seq<DocumentKey>, limit: nat, discount: nat -> real)
    requires DistinctKeys(rel) && DistinctRanking(ranked) && Discount(discount)
    ensures Dcg(Observed(rel, Take(ranked, limit)), discount, limit) <= Dcg(Ideal(rel, limit), discount, limit)
  {
    var a, b := Observed(rel, Take(ranked, limit)), Ideal(rel, limit);
    if limit > 0 {
      forall j | 0 <= j <= limit
        ensures Total(a, j) <= Total(b, j)
      {
        IdealPrefixGainsMost(rel, ranked, limit, j);
      }
      PrefixesDecide(a, b, discount, limit);
      TimesGrow(Total(b, limit) - Total(a, limit), discount(limit - 1), discount(limit - 1));
    }
  }

  /** nDCG lies in [0, 1]; it is 1 for a ranking whose grades are the ideal ones, if any grade counts. */
  lemma NdcgInRange(rel: seq<Judgement>, ranked: seq<DocumentKey>, limit: nat, discount: nat -> real)
    requires DistinctKeys(rel) && DistinctRanking(ranked) && Discount(discount)
    ensures 0.0 <= Ndcg(rel, ranked, limit, discount) <= 1.0
    ensures Observed(rel, Take(ranked, limit)) == Ideal(rel, limit) && Dcg(Ideal(rel, limit), discount, limit) != 0.0 ==>
              Ndcg(rel, ranked, limit, discount) == 1.0
  {
    IdealScoresMost(rel, ranked, limit, discount);
    DcgNonNegative(Observed(rel, Take(ranked, limit)), discount, limit);
    DcgNonNegative(Ideal(rel, limit), discount, limit);
    var part, whole := Dcg(Observed(rel, Take(ranked, limit)), discount, limit), Dcg(Ideal(rel, limit), discount, limit);
    if whole != 0.0 {
      FractionInRange(part, whole);
    }
  }

}
