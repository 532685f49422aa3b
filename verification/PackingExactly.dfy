/** Which evidence is packed, in which order, and how it is formatted, stated on the items. */
module PackingExactly {
  import opened Wrappers
  import opened Evidence
  import opened Context
  import Sse

  /** How many of the items agree with one in a respect. */
  function SectionMates(es: seq<Evidence>, c: Candidate): set<nat> {
    set k: nat | k < |es| && es[k].candidate.sectionKey == c.sectionKey
  }

  function SourceMates(es: seq<Evidence>, c: Candidate): set<nat> {
    set k: nat | k < |es| && es[k].candidate.sourceKey == c.sourceKey
  }

  function DomainMates(es: seq<Evidence>, c: Candidate): set<nat> {
    set k: nat | k < |es| && c.domain.Some? && es[k].candidate.domain == c.domain
  }

  function WebItems(es: seq<Evidence>): set<nat> {
    set k: nat | k < |es| && es[k].candidate.sourceType == Web
  }

  function Members(es: seq<Evidence>, g: Group): set<nat> {
    set k: nat | k < |es| && InGroup(g, es[k].candidate)
  }

  lemma MembersStep(es: seq<Evidence>, g: Group)
    requires es != []
    ensures var n := |es| - 1;
            n !in Members(es[..n], g) && Members(es, g) == Members(es[..n], g) + if InGroup(g, es[n].candidate) then {n} else {}
  {
    var n := |es| - 1;
    assert forall k :: 0 <= k < n ==> es[..n][k] == es[k];
  }

  lemma AddedSize(s: set<nat>, n: nat, inside: bool)
    requires n !in s
    ensures |s + if inside then {n} else {}| == |s| + if inside then 1 else 0
  {
  }

  /** A count is the number of items counted. */
  lemma {:induction false} CountIsSize(es: seq<Evidence>, g: Group)
    ensures CountOf(es, g) == |Members(es, g)|
    decreases |es|
  {
    if es == [] {
      assert Members(es, g) == {};
    } else {
      var n := |es| - 1;
      CountIsSize(es[..n], g);
      MembersStep(es, g);
      AddedSize(Members(es[..n], g), n, InGroup(g, es[n].candidate));
    }
  }

  /** The reason an item is refused for, with these items selected before it: the first cap that is reached, or the budget. */
  function Refusal(l: PackLimits, count: string -> nat, before: seq<Evidence>, item: Evidence): Option<SkipReason> {
    var c := item.candidate;
    if |before| >= l.maxCandidates then Some(CandidateCap)
    else if |SectionMates(before, c)| >= l.sectionLimit then Some(SectionCap)
    else if |SourceMates(before, c)| >= l.sourceLimit then Some(SourceCap)
    else if c.domain.Some? && |DomainMates(before, c)| >= l.domainLimit then Some(DomainCap)
    else if c.sourceType == Web && l.webLimit.Some? && |WebItems(before)| >= l.webLimit.value then Some(SourceTypeCap)
    else if count(Format(before + [item])) > l.tokenBudget then Some(TokenBudget)
    else None
  }

  lemma CapIsRefusal(l: PackLimits, count: string -> nat, before: seq<Evidence>, item: Evidence)
    ensures var cap := CapReached(l, before, item.candidate);
            Refusal(l, count, before, item)
            == if cap.Some? then cap else if count(Format(before + [item])) > l.tokenBudget then Some(TokenBudget) else None
  {
    var c := item.candidate;
    CountIsSize(before, Section(c.sectionKey));
    CountIsSize(before, Source(c.sourceKey));
    CountIsSize(before, WebSources);
    assert Members(before, Section(c.sectionKey)) == SectionMates(before, c);
    assert Members(before, Source(c.sourceKey)) == SourceMates(before, c);
    assert Members(before, WebSources) == WebItems(before);
    if c.domain.Some? {
      CountIsSize(before, Domain(c.domain.value));
      assert Members(before, Domain(c.domain.value)) == DomainMates(before, c);
    }
  }

  lemma PrefixStep(l: PackLimits, count: string -> nat, ordered: seq<Evidence>, n: nat)
    requires n < |ordered|
    ensures var p, t := PackAll(l, count, ordered[..n]), PackAll(l, count, ordered[..n + 1]);
            var refusal := Refusal(l, count, p.selected, ordered[n]);
            && t.selected == (if refusal.None? then p.selected + [ordered[n]] else p.selected)
            && t.skipped == (if refusal.None? then p.skipped else p.skipped + [Skip(ordered[n].candidate.id, refusal.value)])
  {
    PackStep(l, count, ordered, n);
    CapIsRefusal(l, count, PackAll(l, count, ordered[..n]).selected, ordered[n]);
  }

  predicate Grows(p: Packing, t: Packing) {
    p.selected <= t.selected && p.skipped <= t.skipped
  }

  lemma StepGrows(l: PackLimits, count: string -> nat, ordered: seq<Evidence>, n: nat)
    requires n < |ordered|
    ensures Grows(PackAll(l, count, ordered[..n]), PackAll(l, count, ordered[..n + 1]))
  {
    PrefixStep(l, count, ordered, n);
  }

  lemma GrowsOn(p: Packing, q: Packing, t: Packing)
    requires Grows(p, q) && Grows(q, t)
    ensures Grows(p, t)
  {
  }

  /** What is packed after some items. */
  function PackedAt(l: PackLimits, count: string -> nat, ordered: seq<Evidence>, n: nat): Packing
    requires n <= |ordered|
  {
    PackAll(l, count, ordered[..n])
  }

  lemma {:induction false} PackedGrows(l: PackLimits, count: string -> nat, ordered: seq<Evidence>, i: nat, n: nat)
    requires i <= n <= |ordered|
    ensures Grows(PackedAt(l, count, ordered, i), PackedAt(l, count, ordered, n))
    decreases n
  {
    if i < n {
      var m := n - 1;
      PackedGrows(l, count, ordered, i, m);
      StepGrows(l, count, ordered, m);
      assert n == m + 1;
      GrowsOn(PackedAt(l, count, ordered, i), PackedAt(l, count, ordered, m), PackedAt(l, count, ordered, n));
    }
  }

  /** Every item is decided once, by what was selected before it: it is selected exactly when no cap is reached and the
      formatting with it fits, and else skipped for the first reason that applies. */
  lemma PackedExactly(l: PackLimits, count: string -> nat, ordered: seq<Evidence>, i: nat)
    requires DistinctIds(ordered) && i < |ordered|
    ensures var before, p := PackAll(l, count, ordered[..i]).selected, PackAll(l, count, ordered);
            var refusal := Refusal(l, count, before, ordered[i]);
            && before <= p.selected && (forall e :: e in before ==> e in ordered[..i])
            && (Has(p.selected, ordered[i].candidate.id) <==> refusal.None?)
            && (refusal.Some? ==> Skip(ordered[i].candidate.id, refusal.value) in p.skipped)
  {
    assert ordered[..|ordered|] == ordered;
    PackedGrows(l, count, ordered, i, |ordered|);
    PackedGrows(l, count, ordered, i + 1, |ordered|);
    PrefixStep(l, count, ordered, i);
    PackedPartition(l, count, ordered, ordered[i].candidate.id);
    PrefixDistinct(ordered, i);
    PackedCount(l, count, ordered[..i]);
    var p, t := PackAll(l, count, ordered), PackAll(l, count, ordered[..i + 1]);
    var refusal := Refusal(l, count, PackAll(l, count, ordered[..i]).selected, ordered[i]);
    if refusal.None? {
      var k := |t.selected| - 1;
      assert p.selected[k] == t.selected[k] == ordered[i];
    } else {
      var k := |t.skipped| - 1;
      assert p.skipped[k] == t.skipped[k] == Skip(ordered[i].candidate.id, refusal.value);
      assert p.skipped[k] in p.skipped && Skipped(p, ordered[i].candidate.id);
    }
  }

  lemma PrefixDistinct(es: seq<Evidence>, n: nat)
    requires DistinctIds(es) && n <= |es|
    ensures DistinctIds(es[..n])
  {
  }

  /** An item represents exact terms when it has one that no item before it has. */
  lemma {:induction false} TermRepresentativeExactly(ranked: seq<Evidence>, i: nat)
    requires DistinctIds(ranked) && i < |ranked|
    ensures ranked[i] in TermRepresentatives(ranked) <==>
              exists x :: x in ranked[i].candidate.exactTerms && forall j :: 0 <= j < i ==> x !in ranked[j].candidate.exactTerms
    decreases |ranked|
  {
    var n := |ranked| - 1;
    PrefixDistinct(ranked, n);
    if i < n {
      TermRepresentativeExactly(ranked[..n], i);
      assert ranked[n].candidate.id != ranked[i].candidate.id;
    } else {
      TermRepresentativesAreDistinct(ranked[..n]);
      assert ranked[n] !in ranked[..n];
      NewTerm(ranked, n);
    }
  }

  lemma NewTerm(ranked: seq<Evidence>, n: nat)
    requires n < |ranked|
    ensures !(TermsOf(ranked[n]) <= AllTerms(ranked[..n])) <==>
              exists x :: x in ranked[n].candidate.exactTerms && forall j :: 0 <= j < n ==> x !in ranked[j].candidate.exactTerms
  {
    forall x
      ensures x in AllTerms(ranked[..n]) <==> exists j :: 0 <= j < n && x in ranked[j].candidate.exactTerms
    {
      if x in AllTerms(ranked[..n]) {
        var e :| e in ranked[..n] && x in e.candidate.exactTerms;
        var j :| 0 <= j < n && ranked[..n][j] == e;
      }
      if j :| 0 <= j < n && x in ranked[j].candidate.exactTerms {
        assert ranked[j] in ranked[..n];
      }
    }
    if x :| x in ranked[n].candidate.exactTerms && forall j :: 0 <= j < n ==> x !in ranked[j].candidate.exactTerms {
      assert x in TermsOf(ranked[n]) && x !in AllTerms(ranked[..n]);
    }
  }

  /** The item that stands in for a source type is the first of it that represents no terms. */
  lemma {:induction false} FirstOfTypeIsFirst(ranked: seq<Evidence>, t: SourceType, represented: seq<Evidence>) returns (i: nat)
    requires FirstOfType(ranked, t, represented).Some?
    ensures i < |ranked| && ranked[i] == FirstOfType(ranked, t, represented).value && ranked[i].candidate.sourceType == t
    ensures forall j :: 0 <= j < i && ranked[j].candidate.sourceType == t ==> Has(represented, ranked[j].candidate.id)
  {
    if ranked[0].candidate.sourceType == t && !Has(represented, ranked[0].candidate.id) {
      i := 0;
    } else {
      var k := FirstOfTypeIsFirst(ranked[1..], t, represented);
      i := k + 1;
    }
  }

  lemma AppendInOrder(some: seq<Evidence>, all: seq<Evidence>, n: nat)
    requires InOrder(all) && n < |all| && InOrder(some) && forall e :: e in some ==> e in all[..n]
    ensures InOrder(some + [all[n]])
  {
    forall i | 0 <= i < |some|
      ensures some[i].rank < all[n].rank && some[i].score >= all[n].score
    {
      assert some[i] in all[..n];
      var j :| 0 <= j < n && all[..n][j] == some[i];
    }
  }

  /** Term representatives, and the items that are left, keep their ranks' order. */
  lemma {:induction false} PartsInOrder(ranked: seq<Evidence>, represented: seq<Evidence>)
    requires InOrder(ranked)
    ensures InOrder(TermRepresentatives(ranked)) && InOrder(Others(ranked, represented))
    ensures forall e :: e in TermRepresentatives(ranked) ==> e in ranked
    ensures forall e :: e in Others(ranked, represented) ==> e in ranked
    decreases |ranked|
  {
    if ranked != [] {
      var n := |ranked| - 1;
      assert InOrder(ranked[..n]);
      PartsInOrder(ranked[..n], represented);
      AppendInOrder(TermRepresentatives(ranked[..n]), ranked, n);
      AppendInOrder(Others(ranked[..n], represented), ranked, n);
    }
  }

  /** The order of packing: the term representatives, then at most one more document and one more web source that stand in for
      their types, then the rest. */
  lemma OrderParts(ranked: seq<Evidence>)
    ensures var terms := TermRepresentatives(ranked);
            var document := FirstOfType(ranked, Document, terms);
            var documents := if document.Some? then terms + [document.value] else terms;
            var web := FirstOfType(ranked, Web, documents);
            var represented := if web.Some? then documents + [web.value] else documents;
            OrderOf(ranked) == represented + Others(ranked, represented)
  {
  }

  /** How item number n of the context is formatted: its marker, its metadata, and its text, which is fenced if it comes from the
      web. */
  function BlockText(e: Evidence, n: nat): string {
    var number := Sse.Decimal(n);
    "[S" + number + "] " + e.candidate.metadata + "\n"
    + if e.candidate.sourceType == Web then
        "--- BEGIN UNTRUSTED WEB SOURCE S" + number + " ---\n" + e.candidate.text + "\n--- END UNTRUSTED WEB SOURCE S" + number + " ---"
      else e.candidate.text
  }

  /** The text before the block of item i. */
  function TextBefore(es: seq<Evidence>, i: nat): string
    requires i < |es|
  {
    if i == 0 then "" else Format(es[..i]) + "\n\n"
  }

  /** The block of item i, between the text before it and the text after it. */
  predicate Divides(es: seq<Evidence>, i: nat, after: string) {
    && i < |es| && Format(es) == TextBefore(es, i) + BlockText(es[i], i + 1) + after
    && if i == |es| - 1 then after == "" else |after| >= 2 && after[0] == '\n' && after[1] == '\n'
  }

  /** The text of the context has the block of every item, numbered from 1, between those of the items before it and of those
      after it, with blank lines between. */
  lemma {:induction false} BlockAt(es: seq<Evidence>, i: nat) returns (after: string)
    requires i < |es|
    ensures Divides(es, i, after)
    decreases |es|
  {
    if i == |es| - 1 {
      after := LastOfAll(es);
    } else {
      var rest := BlockAt(es[..|es| - 1], i);
      after := OneBlockMore(es, i, rest);
    }
  }

  lemma LastOfAll(es: seq<Evidence>) returns (after: string)
    requires es != []
    ensures Divides(es, |es| - 1, after)
  {
    var n := |es| - 1;
    LastBlock(es);
    after := "";
    var text := TextBefore(es, n) + BlockText(es[n], n + 1);
    assert text + after == text;
  }

  lemma OneBlockMore(es: seq<Evidence>, i: nat, rest: string) returns (after: string)
    requires i < |es| - 1 && Divides(es[..|es| - 1], i, rest)
    ensures Divides(es, i, after)
  {
    var n := |es| - 1;
    var gap := "\n\n";
    assert es[..n][..i] == es[..i];
    LastBlock(es);
    after := rest + (gap + BlockText(es[n], n + 1));
    MoreAfter(TextBefore(es, i) + BlockText(es[i], i + 1), rest, gap, BlockText(es[n], n + 1));
  }

  lemma MoreAfter(a: string, b: string, c: string, d: string)
    ensures ((a + b) + c) + d == a + (b + (c + d))
  {
  }

  lemma LastBlock(es: seq<Evidence>)
    requires es != []
    ensures var n := |es| - 1;
            Format(es) == TextBefore(es, n) + BlockText(es[n], n + 1)
  {
    var n := |es| - 1;
    BlockIsText(es[n], n + 1);
  }

  lemma BlockIsText(e: Evidence, n: nat)
    ensures Block(e, n) == BlockText(e, n)
  {
  }

  function DigitsValue(s: string): nat
    requires forall k :: 0 <= k < |s| ==> '0' <= s[k] <= '9'
  {
    if s == "" then 0 else 10 * DigitsValue(s[..|s| - 1]) + (s[|s| - 1] - '0') as nat
  }

  lemma DigitValue(n: nat)
    requires n < 10
    ensures '0' <= Sse.Digit(n) <= '9' && (Sse.Digit(n) - '0') as nat == n
  {
  }

  /** Numbers are printed in decimal. */
  lemma {:induction false} DecimalExactly(n: nat)
    ensures forall k :: 0 <= k < |Sse.Decimal(n)| ==> '0' <= Sse.Decimal(n)[k] <= '9'
    ensures DigitsValue(Sse.Decimal(n)) == n && (n > 0 ==> Sse.Decimal(n)[0] != '0')
  {
    if n < 10 {
      DigitValue(n);
      assert Sse.Decimal(n)[..0] == "";
    } else {
      DigitValue(n % 10);
      DecimalExactly(n / 10);
      var s := Sse.Decimal(n);
      assert s[..|s| - 1] == Sse.Decimal(n / 10);
    }
  }
}
