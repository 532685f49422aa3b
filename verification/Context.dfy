/** Packing evidence into the prompt (backend/app/rag/context.py). The tokenizer is a parameter. */
module Context {
  import opened Wrappers
  import opened Evidence
  import Sse

  /** `_evidence_order`, declaratively: an item represents terms when it has one no earlier item has. */
  function TermRepresentatives(ranked: seq<Evidence>): seq<Evidence>
    decreases |ranked|
  {
    if ranked == [] then []
    else
      var n := |ranked| - 1;
      TermRepresentatives(ranked[..n]) + if TermsOf(ranked[n]) <= AllTerms(ranked[..n]) then [] else [ranked[n]]
  }

  predicate Has(es: seq<Evidence>, id: CandidateId) {
    exists i :: 0 <= i < |es| && es[i].candidate.id == id
  }

  /** The first item of a source type that is not yet among the representatives. */
  function FirstOfType(ranked: seq<Evidence>, t: SourceType, represented: seq<Evidence>): (r: Option<Evidence>)
    ensures r.Some? ==> r.value in ranked && r.value.candidate.sourceType == t && !Has(represented, r.value.candidate.id)
    ensures r.None? ==> forall e :: e in ranked && e.candidate.sourceType == t ==> Has(represented, e.candidate.id)
  {
    if ranked == [] then None
    else if ranked[0].candidate.sourceType == t && !Has(represented, ranked[0].candidate.id) then Some(ranked[0])
    else FirstOfType(ranked[1..], t, represented)
  }

  function WithType(ranked: seq<Evidence>, t: SourceType, represented: seq<Evidence>): seq<Evidence> {
    var first := FirstOfType(ranked, t, represented);
    if first.Some? then represented + [first.value] else represented
  }

  function Representatives(ranked: seq<Evidence>): seq<Evidence> {
    WithType(ranked, Web, WithType(ranked, Document, TermRepresentatives(ranked)))
  }

  /** The items that are not among the representatives. */
  function Others(ranked: seq<Evidence>, represented: seq<Evidence>): seq<Evidence>
    decreases |ranked|
  {
    if ranked == [] then []
    else
      var n := |ranked| - 1;
      Others(ranked[..n], represented) + if Has(represented, ranked[n].candidate.id) then [] else [ranked[n]]
  }

  function OrderOf(ranked: seq<Evidence>): seq<Evidence> {
    Representatives(ranked) + Others(ranked, Representatives(ranked))
  }

  /** `_evidence_order`. */
  method EvidenceOrder(candidates: seq<Evidence>) returns (order: seq<Evidence>)
    ensures order == OrderOf(Sort(candidates, Earlier))
  {
    var ranked := Sort(candidates, Earlier);
    var representatives, ids := RepresentTerms(ranked);
    representatives, ids := AddType(ranked, Document, representatives, ids);
    representatives, ids := AddType(ranked, Web, representatives, ids);
    var others: seq<Evidence> := [];
    for n := 0 to |ranked|
      invariant others == Others(ranked[..n], representatives)
    {
      assert ranked[..n + 1][..n] == ranked[..n];
      if ranked[n].candidate.id !in ids {
        others := others + [ranked[n]];
      }
    }
    assert ranked[..|ranked|] == ranked;
    order := representatives + others;
  }

  method RepresentTerms(ranked: seq<Evidence>) returns (representatives: seq<Evidence>, ids: set<CandidateId>)
    ensures representatives == TermRepresentatives(ranked)
    ensures forall id :: id in ids <==> Has(representatives, id)
  {
    var terms: set<string> := {};
    representatives, ids := [], {};
    for n := 0 to |ranked|
      invariant representatives == TermRepresentatives(ranked[..n])
      invariant terms == AllTerms(ranked[..n])
      invariant forall id :: id in ids <==> Has(representatives, id)
    {
      assert ranked[..n + 1][..n] == ranked[..n] && ranked[..n] + [ranked[n]] == ranked[..n + 1];
      var item := ranked[n];
      AllTermsAdd(ranked[..n], item);
      NothingNew(TermsOf(item), terms);
      if TermsOf(item) - terms != {} {
        HasAdd(representatives, item);
        representatives := representatives + [item];
        ids := ids + {item.candidate.id};
      }
      terms := terms + TermsOf(item);
    }
    assert ranked[..|ranked|] == ranked;
  }

  lemma NothingNew<T>(a: set<T>, b: set<T>)
    ensures a <= b <==> a - b == {}
  {
    assert a <= b + (a - b);
  }

  method AddType(ranked: seq<Evidence>, t: SourceType, before: seq<Evidence>, known: set<CandidateId>)
    returns (representatives: seq<Evidence>, ids: set<CandidateId>)
    requires forall id :: id in known <==> Has(before, id)
    ensures representatives == WithType(ranked, t, before)
    ensures forall id :: id in ids <==> Has(representatives, id)
  {
    representatives, ids := before, known;
    var first := FirstOfType(ranked, t, before);
    if first.Some? {
      HasAdd(before, first.value);
      representatives := representatives + [first.value];
      ids := ids + {first.value.candidate.id};
    }
  }

  lemma HasAdd(es: seq<Evidence>, e: Evidence)
    ensures forall id :: Has(es + [e], id) <==> Has(es, id) || id == e.candidate.id
  {
    var more := es + [e];
    assert more[|es|] == e;
    forall id ensures Has(more, id) <==> Has(es, id) || id == e.candidate.id {
      if i :| 0 <= i < |es| && es[i].candidate.id == id {
        assert more[i].candidate.id == id;
      }
    }
  }

  /** The term representatives cover every exact term. */
  lemma {:induction false} RepresentativesCover(ranked: seq<Evidence>)
    ensures AllTerms(TermRepresentatives(ranked)) == AllTerms(ranked)
    decreases |ranked|
  {
    if ranked != [] {
      var n := |ranked| - 1;
      RepresentativesCover(ranked[..n]);
      AllTermsAdd(ranked[..n], ranked[n]);
      AllTermsAdd(TermRepresentatives(ranked[..n]), ranked[n]);
      assert ranked == ranked[..n] + [ranked[n]];
    }
  }

  /** Each item adds a term that no earlier one had. */
  ghost predicate EachAdds(es: seq<Evidence>) {
    forall k :: 0 <= k < |es| ==> !(TermsOf(es[k]) <= AllTerms(es[..k]))
  }

  lemma EachAddsMore(es: seq<Evidence>, e: Evidence)
    requires EachAdds(es) && !(TermsOf(e) <= AllTerms(es))
    ensures EachAdds(es + [e])
  {
  }

  lemma {:induction false} RepresentativesAdd(ranked: seq<Evidence>)
    ensures EachAdds(TermRepresentatives(ranked))
    decreases |ranked|
  {
    if ranked != [] {
      var n := |ranked| - 1;
      RepresentativesAdd(ranked[..n]);
      RepresentativesCover(ranked[..n]);
      if !(TermsOf(ranked[n]) <= AllTerms(ranked[..n])) {
        EachAddsMore(TermRepresentatives(ranked[..n]), ranked[n]);
      }
    }
  }

  predicate DistinctIn(es: seq<Evidence>, all: seq<Evidence>) {
    DistinctIds(es) && forall e :: e in es ==> e in all
  }

  lemma {:induction false} TermRepresentativesAreDistinct(ranked: seq<Evidence>)
    requires DistinctIds(ranked)
    ensures DistinctIn(TermRepresentatives(ranked), ranked)
    decreases |ranked|
  {
    if ranked != [] {
      var n := |ranked| - 1;
      TermRepresentativesAreDistinct(ranked[..n]);
      assert forall e :: e in ranked[..n] ==> e.candidate.id != ranked[n].candidate.id;
    }
  }

  predicate OfType(es: seq<Evidence>, t: SourceType) {
    exists e :: e in es && e.candidate.sourceType == t
  }

  lemma TypeKeepsDistinct(ranked: seq<Evidence>, t: SourceType, before: seq<Evidence>)
    requires DistinctIn(before, ranked)
    ensures DistinctIn(WithType(ranked, t, before), ranked)
    ensures OfType(ranked, t) && DistinctIds(ranked) ==> OfType(WithType(ranked, t, before), t)
    ensures before <= WithType(ranked, t, before)
  {
    var first := FirstOfType(ranked, t, before);
    if first.Some? {
      assert first.value in WithType(ranked, t, before);
    } else if e :| e in ranked && e.candidate.sourceType == t {
      assert Has(before, e.candidate.id);
      var i :| 0 <= i < |before| && before[i].candidate.id == e.candidate.id;
      assert before[i] in ranked;
      if DistinctIds(ranked) {
        SameById(ranked, before[i], e);
      }
    }
  }

  lemma SameById(es: seq<Evidence>, a: Evidence, b: Evidence)
    requires DistinctIds(es) && a in es && b in es && a.candidate.id == b.candidate.id
    ensures a == b
  {
  }

  /** Representatives are distinct items, cover every exact term, and include each source type there is. */
  lemma RepresentativesSuffice(ranked: seq<Evidence>)
    requires DistinctIds(ranked)
    ensures DistinctIn(Representatives(ranked), ranked)
    ensures TermRepresentatives(ranked) <= Representatives(ranked)
    ensures AllTerms(TermRepresentatives(ranked)) == AllTerms(ranked) && EachAdds(TermRepresentatives(ranked))
    ensures forall t :: OfType(ranked, t) ==> OfType(Representatives(ranked), t)
  {
    var terms := TermRepresentatives(ranked);
    var documents := WithType(ranked, Document, terms);
    RepresentativesCover(ranked);
    RepresentativesAdd(ranked);
    TermRepresentativesAreDistinct(ranked);
    TypeKeepsDistinct(ranked, Document, terms);
    TypeKeepsDistinct(ranked, Web, documents);
    forall t | OfType(ranked, t)
      ensures OfType(Representatives(ranked), t)
    {
      if t == Document {
        var e :| e in documents && e.candidate.sourceType == Document;
        assert e in Representatives(ranked);
      }
    }
  }

  lemma {:induction false} OthersAreTheRest(ranked: seq<Evidence>, represented: seq<Evidence>)
    requires DistinctIds(ranked)
    ensures DistinctIn(Others(ranked, represented), ranked)
    ensures forall e :: e in Others(ranked, represented) <==> e in ranked && !Has(represented, e.candidate.id)
    decreases |ranked|
  {
    if ranked != [] {
      var n := |ranked| - 1;
      OthersAreTheRest(ranked[..n], represented);
      assert ranked == ranked[..n] + [ranked[n]];
      assert forall e :: e in ranked[..n] ==> e.candidate.id != ranked[n].candidate.id;
    }
  }

  lemma DistinctCounts(s: seq<Evidence>, x: Evidence)
    requires DistinctIds(s)
    ensures multiset(s)[x] == if x in s then 1 else 0
  {
    if x in s {
      var k :| 0 <= k < |s| && s[k] == x;
      OnlyOnce(s, k);
    }
  }

  lemma DistinctSame(a: seq<Evidence>, b: seq<Evidence>)
    requires DistinctIds(a) && DistinctIds(b) && forall x :: x in a <==> x in b
    ensures multiset(a) == multiset(b)
  {
    forall x ensures multiset(a)[x] == multiset(b)[x] {
      DistinctCounts(a, x);
      DistinctCounts(b, x);
    }
  }

  lemma OrderIsDistinct(ranked: seq<Evidence>)
    requires DistinctIds(ranked)
    ensures DistinctIds(OrderOf(ranked)) && forall x :: x in OrderOf(ranked) <==> x in ranked
  {
    var reps := Representatives(ranked);
    var rest := Others(ranked, reps);
    RepresentativesSuffice(ranked);
    OthersAreTheRest(ranked, reps);
    forall i, j | 0 <= i < |reps| && 0 <= j < |rest|
      ensures reps[i].candidate.id != rest[j].candidate.id
    {
      assert rest[j] in rest;
    }
    forall x | x in ranked
      ensures x in reps + rest
    {
      if Has(reps, x.candidate.id) {
        var i :| 0 <= i < |reps| && reps[i].candidate.id == x.candidate.id;
        assert reps[i] in ranked;
        SameById(ranked, reps[i], x);
      }
    }
  }

  /** `_evidence_order` is a permutation. */
  lemma OrderIsPermutation(candidates: seq<Evidence>)
    requires DistinctIds(candidates)
    ensures multiset(OrderOf(Sort(candidates, Earlier))) == multiset(candidates)
    ensures DistinctIds(OrderOf(Sort(candidates, Earlier)))
  {
    var ranked := Sort(candidates, Earlier);
    SortKeeps(candidates, Earlier);
    EvidenceRearranged(candidates, ranked);
    OrderIsDistinct(ranked);
    DistinctSame(OrderOf(ranked), ranked);
  }

  datatype PackLimits = PackLimits(tokenBudget: nat, maxCandidates: nat, sectionLimit: nat, sourceLimit: nat, domainLimit: nat,
                                   webLimit: Option<nat>)

  /** What the constructor accepts. */
  predicate ValidLimits(l: PackLimits) {
    && l.tokenBudget >= 1 && l.maxCandidates >= 1 && l.sectionLimit >= 1 && l.sourceLimit >= 1 && l.domainLimit >= 1
    && (l.webLimit.Some? ==> 1 <= l.webLimit.value <= l.maxCandidates)
  }

  datatype SkipReason = CandidateCap | SectionCap | SourceCap | DomainCap | SourceTypeCap | TokenBudget

  datatype Skip = Skip(id: CandidateId, reason: SkipReason)

  datatype Packing = Packing(selected: seq<Evidence>, skipped: seq<Skip>, text: string, tokens: nat)

  function Content(e: Evidence, number: string): string {
    match e.candidate.sourceType
    case Document => e.candidate.text
    case Web =>
      "--- BEGIN UNTRUSTED WEB SOURCE S" + number + " ---\n" + e.candidate.text + "\n--- END UNTRUSTED WEB SOURCE S" + number + " ---"
  }

  function Block(e: Evidence, index: nat): string {
    "[S" + Sse.Decimal(index) + "] " + e.candidate.metadata + "\n" + Content(e, Sse.Decimal(index))
  }

  /** `_format_context`: blocks numbered from 1. */
  function Format(es: seq<Evidence>): string
    decreases |es|
  {
    if es == [] then ""
    else
      var n := |es|;
      (if n == 1 then "" else Format(es[..n - 1]) + "\n\n") + Block(es[n - 1], n)
  }

  /** What the counters count. */
  datatype Group = Section(key: string) | Source(key: string) | Domain(name: string) | WebSources

  predicate InGroup(g: Group, c: Candidate) {
    match g
    case Section(key) => c.sectionKey == key
    case Source(key) => c.sourceKey == key
    case Domain(name) => c.domain == Some(name)
    case WebSources => c.sourceType == Web
  }

  function CountOf(es: seq<Evidence>, g: Group): nat
    decreases |es|
  {
    if es == [] then 0 else CountOf(es[..|es| - 1], g) + if InGroup(g, es[|es| - 1].candidate) then 1 else 0
  }

  /** The cap that an item meets, if any, with these items selected. */
  function CapReached(l: PackLimits, selected: seq<Evidence>, c: Candidate): Option<SkipReason> {
    if |selected| >= l.maxCandidates then Some(CandidateCap)
    else if CountOf(selected, Section(c.sectionKey)) >= l.sectionLimit then Some(SectionCap)
    else if CountOf(selected, Source(c.sourceKey)) >= l.sourceLimit then Some(SourceCap)
    else if c.domain.Some? && CountOf(selected, Domain(c.domain.value)) >= l.domainLimit then Some(DomainCap)
    else if c.sourceType == Web && l.webLimit.Some? && CountOf(selected, WebSources) >= l.webLimit.value then Some(SourceTypeCap)
    else None
  }

  function PackOne(l: PackLimits, count: string -> nat, p: Packing, item: Evidence): Packing {
    var cap := CapReached(l, p.selected, item.candidate);
    var tentative := Format(p.selected + [item]);
    if cap.Some? then p.(skipped := p.skipped + [Skip(item.candidate.id, cap.value)])
    else if count(tentative) > l.tokenBudget then p.(skipped := p.skipped + [Skip(item.candidate.id, TokenBudget)])
    else Packing(p.selected + [item], p.skipped, tentative, count(tentative))
  }

  function PackAll(l: PackLimits, count: string -> nat, ordered: seq<Evidence>): Packing
    decreases |ordered|
  {
    if ordered == [] then Packing([], [], "", 0)
    else PackOne(l, count, PackAll(l, count, ordered[..|ordered| - 1]), ordered[|ordered| - 1])
  }

  function CountIn<K>(m: map<K, nat>, k: K): nat {
    if k in m then m[k] else 0
  }

  /** The counters of the packing loop. */
  datatype Counters = Counters(sections: map<string, nat>, sources: map<string, nat>, domains: map<string, nat>, web: nat)

  ghost predicate Counting(n: Counters, selected: seq<Evidence>) {
    && (forall k :: CountIn(n.sections, k) == CountOf(selected, Section(k)))
    && (forall k :: CountIn(n.sources, k) == CountOf(selected, Source(k)))
    && (forall k :: CountIn(n.domains, k) == CountOf(selected, Domain(k)))
    && n.web == CountOf(selected, WebSources)
  }

  method Count(n: Counters, selected: seq<Evidence>, item: Evidence) returns (more: Counters)
    requires Counting(n, selected)
    ensures Counting(more, selected + [item])
  {
    var c := item.candidate;
    more := n.(sections := n.sections[c.sectionKey := CountIn(n.sections, c.sectionKey) + 1],
               sources := n.sources[c.sourceKey := CountIn(n.sources, c.sourceKey) + 1]);
    if c.domain.Some? {
      more := more.(domains := n.domains[c.domain.value := CountIn(n.domains, c.domain.value) + 1]);
    }
    if c.sourceType == Web {
      more := more.(web := n.web + 1);
    }
    CountingMore(n, more, selected, item);
  }

  /** One item more in the counters of its section, its source, its domain and its type. */
  lemma CountingMore(n: Counters, more: Counters, selected: seq<Evidence>, item: Evidence)
    requires Counting(n, selected)
    requires forall k :: CountIn(more.sections, k) == CountIn(n.sections, k) + if k == item.candidate.sectionKey then 1 else 0
    requires forall k :: CountIn(more.sources, k) == CountIn(n.sources, k) + if k == item.candidate.sourceKey then 1 else 0
    requires forall k :: CountIn(more.domains, k) == CountIn(n.domains, k) + if item.candidate.domain == Some(k) then 1 else 0
    requires more.web == n.web + if item.candidate.sourceType == Web then 1 else 0
    ensures Counting(more, selected + [item])
  {
    forall g ensures CountOf(selected + [item], g) == CountOf(selected, g) + if InGroup(g, item.candidate) then 1 else 0 {
      CountAdds(selected, item, g);
    }
  }

  method CheckCaps(l: PackLimits, n: Counters, selected: seq<Evidence>, c: Candidate) returns (reached: Option<SkipReason>)
    requires Counting(n, selected)
    ensures reached == CapReached(l, selected, c)
  {
    if |selected| >= l.maxCandidates {
      return Some(CandidateCap);
    }
    if CountIn(n.sections, c.sectionKey) >= l.sectionLimit {
      return Some(SectionCap);
    }
    if CountIn(n.sources, c.sourceKey) >= l.sourceLimit {
      return Some(SourceCap);
    }
    if c.domain.Some? && CountIn(n.domains, c.domain.value) >= l.domainLimit {
      return Some(DomainCap);
    }
    if c.sourceType == Web && l.webLimit.Some? && n.web >= l.webLimit.value {
      return Some(SourceTypeCap);
    }
    return None;
  }

  /** `ContextPacker.pack`. */
  method Pack(l: PackLimits, count: string -> nat, candidates: seq<Evidence>) returns (p: Packing)
    ensures p == PackAll(l, count, OrderOf(Sort(candidates, Earlier)))
  {
    var ordered := EvidenceOrder(candidates);
    p := Packing([], [], "", 0);
    var counters := Counters(map[], map[], map[], 0);
    for n := 0 to |ordered|
      invariant p == PackAll(l, count, ordered[..n])
      invariant Counting(counters, p.selected)
    {
      PackStep(l, count, ordered, n);
      p, counters := PackItem(l, count, p, counters, ordered[n]);
    }
    assert ordered[..|ordered|] == ordered;
  }

  lemma PackStep(l: PackLimits, count: string -> nat, ordered: seq<Evidence>, n: nat)
    requires n < |ordered|
    ensures PackAll(l, count, ordered[..n + 1]) == PackOne(l, count, PackAll(l, count, ordered[..n]), ordered[n])
  {
    assert ordered[..n + 1][..n] == ordered[..n];
  }

  method PackItem(l: PackLimits, count: string -> nat, before: Packing, counted: Counters, item: Evidence)
    returns (p: Packing, counters: Counters)
    requires Counting(counted, before.selected)
    ensures p == PackOne(l, count, before, item) && Counting(counters, p.selected)
  {
    p, counters := before, counted;
    var reached := CheckCaps(l, counters, p.selected, item.candidate);
    if reached.Some? {
      p := p.(skipped := p.skipped + [Skip(item.candidate.id, reached.value)]);
      return;
    }
    var tentative := Format(p.selected + [item]);
    var tokens := count(tentative);
    if tokens > l.tokenBudget {
      p := p.(skipped := p.skipped + [Skip(item.candidate.id, TokenBudget)]);
      return;
    }
    counters := Count(counters, p.selected, item);
    p := Packing(p.selected + [item], p.skipped, tentative, tokens);
  }

  lemma CountAdds(es: seq<Evidence>, e: Evidence, g: Group)
    ensures CountOf(es + [e], g) == CountOf(es, g) + if InGroup(g, e.candidate) then 1 else 0
  {
  }

  ghost predicate CapsHold(l: PackLimits, selected: seq<Evidence>) {
    && |selected| <= l.maxCandidates
    && (forall k :: CountOf(selected, Section(k)) <= l.sectionLimit)
    && (forall k :: CountOf(selected, Source(k)) <= l.sourceLimit)
    && (forall k :: CountOf(selected, Domain(k)) <= l.domainLimit)
    && (l.webLimit.Some? ==> CountOf(selected, WebSources) <= l.webLimit.value)
  }

  /** The caps hold of a selection, and its text and token count are those of its formatting. */
  ghost predicate WithinLimits(l: PackLimits, count: string -> nat, p: Packing) {
    && CapsHold(l, p.selected) && p.tokens <= l.tokenBudget
    && p.text == Format(p.selected) && (p.selected != [] ==> p.tokens == count(p.text))
  }

  lemma SelectOne(l: PackLimits, selected: seq<Evidence>, item: Evidence)
    requires CapsHold(l, selected) && CapReached(l, selected, item.candidate).None?
    ensures CapsHold(l, selected + [item])
  {
  }

  lemma PackOneWithinLimits(l: PackLimits, count: string -> nat, p: Packing, item: Evidence)
    requires WithinLimits(l, count, p)
    ensures WithinLimits(l, count, PackOne(l, count, p, item))
  {
    if CapReached(l, p.selected, item.candidate).None? {
      SelectOne(l, p.selected, item);
    }
  }

  /** Every cap and the token budget hold of the packed context. */
  lemma {:induction false} PackedWithinLimits(l: PackLimits, count: string -> nat, ordered: seq<Evidence>)
    requires ValidLimits(l)
    ensures WithinLimits(l, count, PackAll(l, count, ordered))
    decreases |ordered|
  {
    if ordered != [] {
      PackedWithinLimits(l, count, ordered[..|ordered| - 1]);
      PackOneWithinLimits(l, count, PackAll(l, count, ordered[..|ordered| - 1]), ordered[|ordered| - 1]);
    }
  }

  predicate Skipped(p: Packing, id: CandidateId) {
    exists k :: 0 <= k < |p.skipped| && p.skipped[k].id == id
  }

  predicate PartOf(p: Packing, ordered: seq<Evidence>, id: CandidateId) {
    && (Has(ordered, id) <==> Has(p.selected, id) || Skipped(p, id))
    && !(Has(p.selected, id) && Skipped(p, id))
  }

  /** One item is added to the selection or to the skips. */
  ghost predicate OneMore(p: Packing, t: Packing, item: Evidence) {
    || (t.selected == p.selected + [item] && t.skipped == p.skipped)
    || (t.selected == p.selected && exists r :: t.skipped == p.skipped + [Skip(item.candidate.id, r)])
  }

  lemma PackOneIsOneMore(l: PackLimits, count: string -> nat, p: Packing, item: Evidence)
    ensures OneMore(p, PackOne(l, count, p, item), item)
  {
  }

  lemma DistinctMore(p: Packing, t: Packing, all: seq<Evidence>, item: Evidence)
    requires OneMore(p, t, item) && DistinctIn(p.selected, all) && !Has(all, item.candidate.id)
    ensures DistinctIn(t.selected, all + [item]) && |t.selected| + |t.skipped| == |p.selected| + |p.skipped| + 1
  {
    forall i | 0 <= i < |p.selected|
      ensures p.selected[i].candidate.id != item.candidate.id
    {
      assert p.selected[i] in all;
    }
  }

  lemma {:induction false} PackedCount(l: PackLimits, count: string -> nat, ordered: seq<Evidence>)
    requires DistinctIds(ordered)
    ensures |PackAll(l, count, ordered).selected| + |PackAll(l, count, ordered).skipped| == |ordered|
    ensures DistinctIn(PackAll(l, count, ordered).selected, ordered)
    decreases |ordered|
  {
    if ordered != [] {
      var n := |ordered| - 1;
      PackedCount(l, count, ordered[..n]);
      PackOneIsOneMore(l, count, PackAll(l, count, ordered[..n]), ordered[n]);
      LastIsNew(ordered);
      DistinctMore(PackAll(l, count, ordered[..n]), PackAll(l, count, ordered), ordered[..n], ordered[n]);
    }
  }

  lemma LastIsNew(ordered: seq<Evidence>)
    requires DistinctIds(ordered) && ordered != []
    ensures ordered == ordered[..|ordered| - 1] + [ordered[|ordered| - 1]]
    ensures !Has(ordered[..|ordered| - 1], ordered[|ordered| - 1].candidate.id)
  {
  }

  /** Selected and skipped items partition the input. */
  lemma {:induction false} PackedPartition(l: PackLimits, count: string -> nat, ordered: seq<Evidence>, id: CandidateId)
    requires DistinctIds(ordered)
    ensures PartOf(PackAll(l, count, ordered), ordered, id)
    decreases |ordered|
  {
    if ordered != [] {
      var n := |ordered| - 1;
      var before, item := ordered[..n], ordered[n];
      PackedPartition(l, count, before, id);
      PackedPartition(l, count, before, item.candidate.id);
      assert ordered == before + [item];
      assert !Has(before, item.candidate.id);
      PartOfMore(l, count, before, PackAll(l, count, before), item, id);
    }
  }

  lemma PartOfMore(l: PackLimits, count: string -> nat, before: seq<Evidence>, p: Packing, item: Evidence, id: CandidateId)
    requires PartOf(p, before, id) && !Has(before, item.candidate.id) && PartOf(p, before, item.candidate.id)
    ensures PartOf(PackOne(l, count, p, item), before + [item], id)
  {
    HasAdd(before, item);
    HasAdd(p.selected, item);
    var t := PackOne(l, count, p, item);
    if |t.skipped| > |p.skipped| {
      assert t.skipped[|p.skipped|].id == item.candidate.id;
      assert t.skipped[..|p.skipped|] == p.skipped;
      assert Skipped(t, id) <==> Skipped(p, id) || id == item.candidate.id by {
        if k :| 0 <= k < |p.skipped| && p.skipped[k].id == id {
          assert t.skipped[k].id == id;
        }
      }
    }
  }

  /** What a skip names holds of a selection: the cap is exactly full, or the item does not fit into the token budget after the
      first of the items selected. */
  ghost predicate Saturated(l: PackLimits, count: string -> nat, selected: seq<Evidence>, item: Evidence, reason: SkipReason) {
    match reason
    case CandidateCap => |selected| == l.maxCandidates
    case SectionCap => CountOf(selected, Section(item.candidate.sectionKey)) == l.sectionLimit
    case SourceCap => CountOf(selected, Source(item.candidate.sourceKey)) == l.sourceLimit
    case DomainCap => item.candidate.domain.Some? && CountOf(selected, Domain(item.candidate.domain.value)) == l.domainLimit
    case SourceTypeCap => item.candidate.sourceType == Web && l.webLimit == Some(CountOf(selected, WebSources))
    case TokenBudget => exists m :: Overflows(l, count, selected, item, m)
  }

  predicate Overflows(l: PackLimits, count: string -> nat, selected: seq<Evidence>, item: Evidence, m: nat) {
    m <= |selected| && count(Format(selected[..m] + [item])) > l.tokenBudget
  }

  /** Skip k is of item i of the input, and what it names holds. */
  ghost predicate SkipOf(l: PackLimits, count: string -> nat, ordered: seq<Evidence>, p: Packing, k: nat, i: nat) {
    && k < |p.skipped| && i < |ordered| && ordered[i].candidate.id == p.skipped[k].id
    && Saturated(l, count, p.selected, ordered[i], p.skipped[k].reason)
  }

  ghost predicate SkipOk(l: PackLimits, count: string -> nat, ordered: seq<Evidence>, p: Packing, k: nat) {
    k < |p.skipped| ==> exists i: nat :: SkipOf(l, count, ordered, p, k, i)
  }

  /** Selecting one more keeps a full cap full: the item would have been skipped otherwise. */
  lemma StaysSaturated(l: PackLimits, count: string -> nat, p: Packing, item: Evidence, e: Evidence, reason: SkipReason)
    requires Saturated(l, count, p.selected, e, reason)
    ensures Saturated(l, count, PackOne(l, count, p, item).selected, e, reason)
  {
    if reason == TokenBudget {
      var m :| Overflows(l, count, p.selected, e, m);
      StillOverflows(l, count, p.selected, item, e, m);
    } else if CapReached(l, p.selected, item.candidate).None? {
      SelectKeepsFull(l, p.selected, item, e, reason);
    }
  }

  lemma StillOverflows(l: PackLimits, count: string -> nat, selected: seq<Evidence>, item: Evidence, e: Evidence, m: nat)
    requires Overflows(l, count, selected, e, m)
    ensures Overflows(l, count, selected + [item], e, m)
  {
    assert (selected + [item])[..m] == selected[..m];
  }

  lemma SelectKeepsFull(l: PackLimits, selected: seq<Evidence>, item: Evidence, e: Evidence, reason: SkipReason)
    requires reason != TokenBudget && CapReached(l, selected, item.candidate).None? && Saturated(l, _ => 0, selected, e, reason)
    ensures Saturated(l, _ => 0, selected + [item], e, reason)
  {
    CountAdds(selected, item, Section(e.candidate.sectionKey));
    CountAdds(selected, item, Source(e.candidate.sourceKey));
    CountAdds(selected, item, WebSources);
    if e.candidate.domain.Some? {
      CountAdds(selected, item, Domain(e.candidate.domain.value));
    }
  }

  /** Every cap that a skip names is still full in the final selection, and an item skipped for its tokens does not fit after what
      was selected before it. */
  lemma {:induction false} SkipsAreJustified(l: PackLimits, count: string -> nat, ordered: seq<Evidence>)
    requires ValidLimits(l)
    ensures forall k {:trigger SkipOk(l, count, ordered, PackAll(l, count, ordered), k)} :: SkipOk(l, count, ordered, PackAll(l, count, ordered), k)
    decreases |ordered|
  {
    if ordered != [] {
      var n := |ordered| - 1;
      var p, item := PackAll(l, count, ordered[..n]), ordered[n];
      SkipsAreJustified(l, count, ordered[..n]);
      PackedWithinLimits(l, count, ordered[..n]);
      forall k: nat ensures SkipOk(l, count, ordered, PackAll(l, count, ordered), k) {
        assert SkipOk(l, count, ordered[..n], p, k);
        SkipStaysOk(l, count, ordered, p, k);
      }
    }
  }

  lemma SkipStaysOk(l: PackLimits, count: string -> nat, ordered: seq<Evidence>, p: Packing, k: nat)
    requires ordered != [] && SkipOk(l, count, ordered[..|ordered| - 1], p, k) && WithinLimits(l, count, p)
    ensures SkipOk(l, count, ordered, PackOne(l, count, p, ordered[|ordered| - 1]), k)
  {
    var n := |ordered| - 1;
    var t := PackOne(l, count, p, ordered[n]);
    PackOneIsOneMore(l, count, p, ordered[n]);
    if k < |p.skipped| {
      var i: nat :| SkipOf(l, count, ordered[..n], p, k, i);
      StaysSaturated(l, count, p, ordered[n], ordered[..n][i], p.skipped[k].reason);
      SkipOfMore(l, count, ordered, p, t, k, i);
    } else if k < |t.skipped| {
      NewSkipIsSaturated(l, count, p, ordered[n]);
      assert SkipOf(l, count, ordered, t, k, n);
    }
  }

  lemma SkipOfMore(l: PackLimits, count: string -> nat, ordered: seq<Evidence>, p: Packing, t: Packing, k: nat, i: nat)
    requires ordered != [] && SkipOf(l, count, ordered[..|ordered| - 1], p, k, i) && p.skipped <= t.skipped
    requires Saturated(l, count, t.selected, ordered[..|ordered| - 1][i], p.skipped[k].reason)
    ensures SkipOf(l, count, ordered, t, k, i)
  {
  }

  lemma NewSkipIsSaturated(l: PackLimits, count: string -> nat, p: Packing, item: Evidence)
    requires WithinLimits(l, count, p)
    ensures var t := PackOne(l, count, p, item);
            |t.skipped| > |p.skipped| ==>
              && |t.skipped| == |p.skipped| + 1 && t.skipped[|p.skipped|].id == item.candidate.id && t.selected == p.selected
              && Saturated(l, count, t.selected, item, t.skipped[|p.skipped|].reason)
  {
    var cap := CapReached(l, p.selected, item.candidate);
    if cap.Some? {
      assert Saturated(l, count, p.selected, item, cap.value);
    } else {
      assert p.selected[..|p.selected|] == p.selected;
      assert count(Format(p.selected + [item])) > l.tokenBudget ==> Overflows(l, count, p.selected, item, |p.selected|);
    }
  }
}
