/** What a resolved scope can and cannot reach. */
module ScopeTheorems {
  import opened Wrappers
  import opened Corpus
  import opened Scope

  /** Hint number i names document d, and nothing else. */
  predicate NamesDocument(lexicon: Lexicon, hints: seq<string>, i: nat, allowed: set<DocumentId>, documents: map<DocumentId, Shown>, d: DocumentId)
    requires allowed <= documents.Keys
  {
    i < |hints| && MatchDocument(lexicon, hints[i], allowed, documents) == Match({d}, ExactScope)
  }

  /** Hint number i names a collection that holds document d. */
  predicate NamesCollectionOf(lexicon: Lexicon, hints: seq<string>, i: nat, c: CorpusView, d: DocumentId) {
    i < |hints| && NamesCollection(lexicon, hints, i, c) && d in MembersOf(c, MatchCollection(lexicon, hints[i], c.collections).ids)
  }

  predicate NamesCollection(lexicon: Lexicon, hints: seq<string>, i: nat, c: CorpusView) {
    i < |hints| && MatchCollection(lexicon, hints[i], c.collections).resolution == ExactScope
  }

  /** An exact match names one thing, and it exists. */
  lemma ExactDocumentIsOne(lexicon: Lexicon, hint: string, allowed: set<DocumentId>, documents: map<DocumentId, Shown>)
    requires allowed <= documents.Keys
    ensures MatchDocument(lexicon, hint, allowed, documents).ids <= allowed
    ensures MatchDocument(lexicon, hint, allowed, documents).resolution == ExactScope ==>
              exists d :: d in allowed && MatchDocument(lexicon, hint, allowed, documents).ids == {d}
  {
    var m := MatchDocument(lexicon, hint, allowed, documents);
    if m.resolution == ExactScope {
      assert |m.ids| == 1;
      var d :| d in m.ids;
      OnlyElement(m.ids, d);
    }
  }

  lemma OnlyElement<T>(s: set<T>, x: T)
    requires |s| == 1 && x in s
    ensures s == {x}
  {
    assert |s - {x}| == 0;
    assert s == (s - {x}) + {x};
  }

  lemma {:induction false} HintForDocument(lexicon: Lexicon, hints: seq<string>, allowed: set<DocumentId>, documents: map<DocumentId, Shown>,
    d: DocumentId)
    returns (i: nat)
    requires allowed <= documents.Keys && d in FindDocuments(lexicon, hints, allowed, documents).exact
    ensures NamesDocument(lexicon, hints, i, allowed, documents, d) && d in allowed
  {
    var n := |hints| - 1;
    if d in FindDocuments(lexicon, hints[..n], allowed, documents).exact {
      i := HintForDocument(lexicon, hints[..n], allowed, documents, d);
    } else {
      i := n;
      ExactDocumentIsOne(lexicon, hints[n], allowed, documents);
    }
  }

  lemma {:induction false} DocumentOfHint(lexicon: Lexicon, hints: seq<string>, allowed: set<DocumentId>, documents: map<DocumentId, Shown>,
    d: DocumentId, i: nat)
    requires allowed <= documents.Keys && NamesDocument(lexicon, hints, i, allowed, documents, d)
    ensures d in FindDocuments(lexicon, hints, allowed, documents).exact
  {
    if i < |hints| - 1 {
      DocumentOfHint(lexicon, hints[..|hints| - 1], allowed, documents, d, i);
    }
  }

  lemma FoundDocuments(lexicon: Lexicon, hints: seq<string>, allowed: set<DocumentId>, documents: map<DocumentId, Shown>, d: DocumentId)
    requires allowed <= documents.Keys
    ensures d in FindDocuments(lexicon, hints, allowed, documents).exact ==> d in allowed
    ensures d in FindDocuments(lexicon, hints, allowed, documents).exact <==> exists i: nat :: NamesDocument(lexicon, hints, i, allowed, documents, d)
  {
    if d in FindDocuments(lexicon, hints, allowed, documents).exact {
      var i := HintForDocument(lexicon, hints, allowed, documents, d);
    }
    if i: nat :| NamesDocument(lexicon, hints, i, allowed, documents, d) {
      DocumentOfHint(lexicon, hints, allowed, documents, d, i);
    }
  }

  lemma {:induction false} HintForMember(lexicon: Lexicon, hints: seq<string>, c: CorpusView, d: DocumentId) returns (i: nat)
    requires d in FindCollections(lexicon, hints, c).exact
    ensures NamesCollectionOf(lexicon, hints, i, c, d)
  {
    var n := |hints| - 1;
    if d in FindCollections(lexicon, hints[..n], c).exact {
      i := HintForMember(lexicon, hints[..n], c, d);
    } else {
      i := n;
    }
  }

  lemma {:induction false} MemberOfHint(lexicon: Lexicon, hints: seq<string>, c: CorpusView, d: DocumentId, i: nat)
    requires NamesCollectionOf(lexicon, hints, i, c, d)
    ensures d in FindCollections(lexicon, hints, c).exact
  {
    if i < |hints| - 1 {
      MemberOfHint(lexicon, hints[..|hints| - 1], c, d, i);
    }
  }

  /** One more hint adds one more decision. */
  lemma NarrowsStep(lexicon: Lexicon, hints: seq<string>, c: CorpusView)
    requires hints != []
    ensures NarrowsCollections(FindCollections(lexicon, hints, c).decisions) <==>
              NarrowsCollections(FindCollections(lexicon, hints[..|hints| - 1], c).decisions) || NamesCollection(lexicon, hints, |hints| - 1, c)
  {
  }

  lemma {:induction false} HintThatNarrows(lexicon: Lexicon, hints: seq<string>, c: CorpusView) returns (i: nat)
    requires NarrowsCollections(FindCollections(lexicon, hints, c).decisions)
    ensures NamesCollection(lexicon, hints, i, c)
  {
    var n := |hints| - 1;
    NarrowsStep(lexicon, hints, c);
    if NamesCollection(lexicon, hints, n, c) {
      i := n;
    } else {
      i := HintThatNarrows(lexicon, hints[..n], c);
    }
  }

  lemma {:induction false} NarrowsByHint(lexicon: Lexicon, hints: seq<string>, c: CorpusView, i: nat)
    requires NamesCollection(lexicon, hints, i, c)
    ensures NarrowsCollections(FindCollections(lexicon, hints, c).decisions)
  {
    NarrowsStep(lexicon, hints, c);
    if i < |hints| - 1 {
      NarrowsByHint(lexicon, hints[..|hints| - 1], c, i);
    }
  }

  lemma FoundCollections(lexicon: Lexicon, hints: seq<string>, c: CorpusView, d: DocumentId)
    ensures NarrowsCollections(FindCollections(lexicon, hints, c).decisions) <==> exists i: nat :: NamesCollection(lexicon, hints, i, c)
    ensures d in FindCollections(lexicon, hints, c).exact <==> exists i: nat :: NamesCollectionOf(lexicon, hints, i, c, d)
  {
    if NarrowsCollections(FindCollections(lexicon, hints, c).decisions) {
      var i := HintThatNarrows(lexicon, hints, c);
    }
    if i: nat :| NamesCollection(lexicon, hints, i, c) {
      NarrowsByHint(lexicon, hints, c, i);
    }
    if d in FindCollections(lexicon, hints, c).exact {
      var i := HintForMember(lexicon, hints, c, d);
    }
    if i: nat :| NamesCollectionOf(lexicon, hints, i, c, d) {
      MemberOfHint(lexicon, hints, c, d, i);
    }
  }

  /** The restrictions on a document: the active manifest shows it, every explicit restriction allows it, a document hint
      names it if any names something, and a collection hint names a collection of it if any names one. */
  ghost predicate Passes(lexicon: Lexicon, c: CorpusView, plan: Plan, ds: set<DocumentId>, ks: set<CollectionId>, d: DocumentId) {
    var requested := Requested(c, ds, ks);
    && d in c.documents
    && (ds == {} || d in ds)
    && (ks == {} || exists k :: k in ks && (d, k) in c.memberships)
    && ((exists i: nat, e :: NamesDocument(lexicon, plan.documentHints, i, requested, c.documents, e)) ==>
          exists i: nat :: NamesDocument(lexicon, plan.documentHints, i, requested, c.documents, d))
    && ((exists i: nat :: NamesCollection(lexicon, plan.collectionHints, i, c)) ==>
          exists i: nat :: NamesCollectionOf(lexicon, plan.collectionHints, i, c, d))
  }

  /** A document is in scope exactly when it passes all of them. */
  lemma InScopeExactly(lexicon: Lexicon, c: CorpusView, plan: Plan, ds: set<DocumentId>, ks: set<CollectionId>, d: DocumentId)
    requires Resolve(lexicon, c, plan, ds, ks).Ok?
    ensures d in Resolve(lexicon, c, plan, ds, ks).value.documents <==> Passes(lexicon, c, plan, ds, ks, d)
  {
    var requested := Requested(c, ds, ks);
    FoundDocuments(lexicon, plan.documentHints, requested, c.documents, d);
    FoundCollections(lexicon, plan.collectionHints, c, d);
    SomeDocumentNamed(lexicon, plan.documentHints, requested, c.documents);
    RequestedExactly(c, ds, ks, d);
    ScopedExactly(lexicon, c, plan, ds, ks, d);
  }

  lemma RequestedExactly(c: CorpusView, ds: set<DocumentId>, ks: set<CollectionId>, d: DocumentId)
    ensures d in Requested(c, ds, ks) <==>
              d in c.documents && (ds == {} || d in ds) && (ks == {} || exists k :: k in ks && (d, k) in c.memberships)
  {
    if k :| k in ks && (d, k) in c.memberships {
      assert (d, k).0 in MembersOf(c, ks);
    }
  }

  lemma ScopedExactly(lexicon: Lexicon, c: CorpusView, plan: Plan, ds: set<DocumentId>, ks: set<CollectionId>, d: DocumentId)
    ensures var requested := Requested(c, ds, ks);
            var f, k := FindDocuments(lexicon, plan.documentHints, requested, c.documents), FindCollections(lexicon, plan.collectionHints, c);
            d in ScopedDocuments(lexicon, c, plan, ds, ks) <==>
              d in requested && (f.exact == {} || d in f.exact) && (NarrowsCollections(k.decisions) ==> d in k.exact)
  {
  }

  lemma SomeDocumentNamed(lexicon: Lexicon, hints: seq<string>, allowed: set<DocumentId>, documents: map<DocumentId, Shown>)
    requires allowed <= documents.Keys
    ensures FindDocuments(lexicon, hints, allowed, documents).exact != {}
            <==> exists i: nat, e :: NamesDocument(lexicon, hints, i, allowed, documents, e)
  {
    var f := FindDocuments(lexicon, hints, allowed, documents);
    if f.exact != {} {
      var e :| e in f.exact;
      FoundDocuments(lexicon, hints, allowed, documents, e);
    }
    if i: nat, e :| NamesDocument(lexicon, hints, i, allowed, documents, e) {
      FoundDocuments(lexicon, hints, allowed, documents, e);
    }
  }

  /** Unknown explicit identifiers, and only they, are an error. */
  lemma RejectsUnknownExactly(lexicon: Lexicon, c: CorpusView, plan: Plan, ds: set<DocumentId>, ks: set<CollectionId>)
    ensures Resolve(lexicon, c, plan, ds, ks).Err? <==> (exists d :: d in ds && d !in c.documents) || exists k :: k in ks && k !in c.collections
  {
  }

  /** Section x is one of the rows, and everything under it is among the chosen ones. */
  ghost predicate Subtree(sections: set<SectionRow>, x: SectionId, chosen: set<SectionId>) {
    && (exists row :: row in sections && row.section.id == x)
    && (Distinct(sections) ==>
          forall row, under {:trigger Under(under, row)} ::
            row in sections && under in sections && row.section.id == x && Under(under, row) ==> under.section.id in chosen)
  }

  lemma {:induction false} FoundSections(lexicon: Lexicon, hints: seq<string>, sections: set<SectionRow>, x: SectionId)
    requires x in FindSections(lexicon, hints, sections).exact
    ensures Subtree(sections, x, FindSections(lexicon, hints, sections).exact)
  {
    var n := |hints| - 1;
    if x in FindSections(lexicon, hints[..n], sections).exact {
      FoundSections(lexicon, hints[..n], sections, x);
    } else {
      var m := MatchHeading(lexicon, hints[n], sections);
      assert x in Expand(m.ids, sections);
      forall row, under | row in sections && under in sections && row.section.id == x && Distinct(sections) && Under(under, row)
        ensures under.section.id in Expand(m.ids, sections)
      {
        var other, root :| other in sections && root in sections && root.section.id in m.ids && Under(other, root) && other.section.id == x;
        assert row == other;
        UnderTransitive(under, row, root);
      }
    }
  }

  /** Section identifiers tell rows apart. */
  predicate Distinct(sections: set<SectionRow>) {
    forall a, b :: a in sections && b in sections && a.section.id == b.section.id ==> a == b
  }

  lemma UnderTransitive(a: SectionRow, b: SectionRow, c: SectionRow)
    requires Under(a, b) && Under(b, c)
    ensures Under(a, c)
  {
  }

  /** The versions in scope are those of the documents in scope; a section restriction names only sections of those
      versions, and with a section its whole subtree. */
  lemma ScopeIsConfined(lexicon: Lexicon, c: CorpusView, plan: Plan, ds: set<DocumentId>, ks: set<CollectionId>)
    requires Resolve(lexicon, c, plan, ds, ks).Ok?
    ensures var scope := Resolve(lexicon, c, plan, ds, ks).value;
            && scope.documents <= c.documents.Keys
            && (forall v :: v in scope.versions <==> exists d :: d in scope.documents && c.documents[d].version == v)
            && (scope.sections.Some? ==>
                  scope.sections.value != {}
                  && forall x :: x in scope.sections.value ==> Subtree(SectionsIn(c, scope.versions), x, scope.sections.value))
  {
    var scope := Resolve(lexicon, c, plan, ds, ks).value;
    if scope.sections.Some? {
      forall x | x in scope.sections.value
        ensures Subtree(SectionsIn(c, scope.versions), x, scope.sections.value)
      {
        FoundSections(lexicon, plan.headingHints, SectionsIn(c, scope.versions), x);
      }
    }
  }

  predicate BoostWithin(boost: HintBoost, documents: set<DocumentId>, sections: set<SectionRow>) {
    match boost
    case DocumentBoost(_, ds) => ds != {} && ds <= documents
    case SectionBoost(_, xs) => xs != {} && forall x :: x in xs ==> exists row :: row in sections && row.section.id == x
  }

  lemma {:induction false} DocumentBoostsWithin(lexicon: Lexicon, hints: seq<string>, allowed: set<DocumentId>, documents: map<DocumentId, Shown>)
    requires allowed <= documents.Keys
    ensures forall b :: b in FindDocuments(lexicon, hints, allowed, documents).boosts ==> b.DocumentBoost? && BoostWithin(b, allowed, {})
  {
    if hints != [] {
      DocumentBoostsWithin(lexicon, hints[..|hints| - 1], allowed, documents);
      ExactDocumentIsOne(lexicon, hints[|hints| - 1], allowed, documents);
    }
  }

  lemma {:induction false} CollectionBoostsWithin(lexicon: Lexicon, hints: seq<string>, c: CorpusView)
    requires forall p :: p in c.memberships ==> p.0 in c.documents
    ensures forall b :: b in FindCollections(lexicon, hints, c).boosts ==> b.DocumentBoost? && BoostWithin(b, c.documents.Keys, {})
  {
    if hints != [] {
      CollectionBoostsWithin(lexicon, hints[..|hints| - 1], c);
    }
  }

  lemma {:induction false} SectionBoostsWithin(lexicon: Lexicon, hints: seq<string>, sections: set<SectionRow>)
    ensures forall b :: b in FindSections(lexicon, hints, sections).boosts ==> b.SectionBoost? && BoostWithin(b, {}, sections)
  {
    if hints != [] {
      SectionBoostsWithin(lexicon, hints[..|hints| - 1], sections);
    }
  }

  /** Boosts never point outside the active manifest. */
  lemma BoostsStayInManifest(lexicon: Lexicon, s: State, plan: Plan, ds: set<DocumentId>, ks: set<CollectionId>)
    requires Resolve(lexicon, View(s), plan, ds, ks).Ok?
    ensures var scope := Resolve(lexicon, View(s), plan, ds, ks).value;
            forall b :: b in scope.boosts ==> BoostWithin(b, View(s).documents.Keys, SectionsIn(View(s), scope.versions))
  {
    var c := View(s);
    var requested := Requested(c, ds, ks);
    DocumentBoostsWithin(lexicon, plan.documentHints, requested, c.documents);
    CollectionBoostsWithin(lexicon, plan.collectionHints, c);
    SectionBoostsWithin(lexicon, plan.headingHints, SectionsIn(c, VersionsOf(c, ScopedDocuments(lexicon, c, plan, ds, ks))));
  }

  /** A document that one of the boosts names. */
  predicate Boosted(boosts: seq<HintBoost>, d: DocumentId) {
    exists b :: b in boosts && b.DocumentBoost? && d in b.documents
  }

  lemma BoostedMore(boosts: seq<HintBoost>, more: seq<HintBoost>, d: DocumentId)
    ensures Boosted(boosts + more, d) <==> Boosted(boosts, d) || Boosted(more, d)
  {
    if b :| b in boosts && b.DocumentBoost? && d in b.documents {
      assert b in boosts + more;
    }
    if b :| b in more && b.DocumentBoost? && d in b.documents {
      assert b in boosts + more;
    }
  }

  lemma BoostedOne(hint: string, ds: set<DocumentId>, d: DocumentId)
    ensures Boosted([DocumentBoost(hint, ds)], d) <==> d in ds
  {
    assert DocumentBoost(hint, ds) in [DocumentBoost(hint, ds)];
  }

  /** Document hint number i matches document d, but not exactly. */
  predicate BoostsDocument(lexicon: Lexicon, hints: seq<string>, i: nat, allowed: set<DocumentId>, documents: map<DocumentId, Shown>, d: DocumentId)
    requires allowed <= documents.Keys
  {
    i < |hints| && Boosts(MatchDocument(lexicon, hints[i], allowed, documents)) && d in MatchDocument(lexicon, hints[i], allowed, documents).ids
  }

  /** Collection hint number i matches a collection of document d, but not exactly. */
  predicate BoostsMember(lexicon: Lexicon, hints: seq<string>, i: nat, c: CorpusView, d: DocumentId) {
    && i < |hints| && Boosts(MatchCollection(lexicon, hints[i], c.collections))
    && d in MembersOf(c, MatchCollection(lexicon, hints[i], c.collections).ids)
  }

  lemma DocumentBoostsStep(lexicon: Lexicon, hints: seq<string>, allowed: set<DocumentId>, documents: map<DocumentId, Shown>, d: DocumentId)
    requires allowed <= documents.Keys && hints != []
    ensures Boosted(FindDocuments(lexicon, hints, allowed, documents).boosts, d) <==>
              || Boosted(FindDocuments(lexicon, hints[..|hints| - 1], allowed, documents).boosts, d)
              || BoostsDocument(lexicon, hints, |hints| - 1, allowed, documents, d)
  {
    var n := |hints| - 1;
    var m := MatchDocument(lexicon, hints[n], allowed, documents);
    var more := if Boosts(m) && m.ids != {} then [DocumentBoost(hints[n], m.ids)] else [];
    BoostedMore(FindDocuments(lexicon, hints[..n], allowed, documents).boosts, more, d);
    BoostedOne(hints[n], m.ids, d);
  }

  lemma MemberBoostsStep(lexicon: Lexicon, hints: seq<string>, c: CorpusView, d: DocumentId)
    requires hints != []
    ensures Boosted(FindCollections(lexicon, hints, c).boosts, d) <==>
              Boosted(FindCollections(lexicon, hints[..|hints| - 1], c).boosts, d) || BoostsMember(lexicon, hints, |hints| - 1, c, d)
  {
    var n := |hints| - 1;
    var m := MatchCollection(lexicon, hints[n], c.collections);
    var more := if Boosts(m) && MembersOf(c, m.ids) != {} then [DocumentBoost(hints[n], MembersOf(c, m.ids))] else [];
    BoostedMore(FindCollections(lexicon, hints[..n], c).boosts, more, d);
    BoostedOne(hints[n], MembersOf(c, m.ids), d);
  }

  lemma {:induction false} HintOfDocumentBoost(lexicon: Lexicon, hints: seq<string>, allowed: set<DocumentId>, documents: map<DocumentId, Shown>,
    d: DocumentId)
    returns (i: nat)
    requires allowed <= documents.Keys && Boosted(FindDocuments(lexicon, hints, allowed, documents).boosts, d)
    ensures BoostsDocument(lexicon, hints, i, allowed, documents, d)
  {
    var n := |hints| - 1;
    DocumentBoostsStep(lexicon, hints, allowed, documents, d);
    if Boosted(FindDocuments(lexicon, hints[..n], allowed, documents).boosts, d) {
      i := HintOfDocumentBoost(lexicon, hints[..n], allowed, documents, d);
    } else {
      i := n;
    }
  }

  lemma {:induction false} DocumentBoostOfHint(lexicon: Lexicon, hints: seq<string>, allowed: set<DocumentId>, documents: map<DocumentId, Shown>,
    d: DocumentId, i: nat)
    requires allowed <= documents.Keys && BoostsDocument(lexicon, hints, i, allowed, documents, d)
    ensures Boosted(FindDocuments(lexicon, hints, allowed, documents).boosts, d)
  {
    DocumentBoostsStep(lexicon, hints, allowed, documents, d);
    if i < |hints| - 1 {
      DocumentBoostOfHint(lexicon, hints[..|hints| - 1], allowed, documents, d, i);
    }
  }

  lemma {:induction false} HintOfMemberBoost(lexicon: Lexicon, hints: seq<string>, c: CorpusView, d: DocumentId) returns (i: nat)
    requires Boosted(FindCollections(lexicon, hints, c).boosts, d)
    ensures BoostsMember(lexicon, hints, i, c, d)
  {
    var n := |hints| - 1;
    MemberBoostsStep(lexicon, hints, c, d);
    if Boosted(FindCollections(lexicon, hints[..n], c).boosts, d) {
      i := HintOfMemberBoost(lexicon, hints[..n], c, d);
    } else {
      i := n;
    }
  }

  lemma {:induction false} MemberBoostOfHint(lexicon: Lexicon, hints: seq<string>, c: CorpusView, d: DocumentId, i: nat)
    requires BoostsMember(lexicon, hints, i, c, d)
    ensures Boosted(FindCollections(lexicon, hints, c).boosts, d)
  {
    MemberBoostsStep(lexicon, hints, c, d);
    if i < |hints| - 1 {
      MemberBoostOfHint(lexicon, hints[..|hints| - 1], c, d, i);
    }
  }

  /** A hint boosts the document. */
  ghost predicate HintBoosts(lexicon: Lexicon, c: CorpusView, plan: Plan, ds: set<DocumentId>, ks: set<CollectionId>, d: DocumentId) {
    || (exists i: nat :: BoostsDocument(lexicon, plan.documentHints, i, Requested(c, ds, ks), c.documents, d))
    || (exists i: nat :: BoostsMember(lexicon, plan.collectionHints, i, c, d))
  }

  lemma HintsBoostExactly(lexicon: Lexicon, c: CorpusView, plan: Plan, ds: set<DocumentId>, ks: set<CollectionId>, d: DocumentId)
    ensures HintBoosts(lexicon, c, plan, ds, ks, d) <==>
              || Boosted(FindDocuments(lexicon, plan.documentHints, Requested(c, ds, ks), c.documents).boosts, d)
              || Boosted(FindCollections(lexicon, plan.collectionHints, c).boosts, d)
  {
    var requested := Requested(c, ds, ks);
    if Boosted(FindDocuments(lexicon, plan.documentHints, requested, c.documents).boosts, d) {
      var i := HintOfDocumentBoost(lexicon, plan.documentHints, requested, c.documents, d);
    }
    if Boosted(FindCollections(lexicon, plan.collectionHints, c).boosts, d) {
      var i := HintOfMemberBoost(lexicon, plan.collectionHints, c, d);
    }
    if i: nat :| BoostsDocument(lexicon, plan.documentHints, i, requested, c.documents, d) {
      DocumentBoostOfHint(lexicon, plan.documentHints, requested, c.documents, d, i);
    }
    if i: nat :| BoostsMember(lexicon, plan.collectionHints, i, c, d) {
      MemberBoostOfHint(lexicon, plan.collectionHints, c, d, i);
    }
  }

  lemma SectionBoostsNameNoDocument(lexicon: Lexicon, hints: seq<string>, sections: set<SectionRow>, d: DocumentId)
    ensures !Boosted(FindSections(lexicon, hints, sections).boosts, d)
  {
    SectionBoostsWithin(lexicon, hints, sections);
  }

  /** The documents that are boosted are those that a hint matches inexactly. */
  lemma BoostedExactly(lexicon: Lexicon, c: CorpusView, plan: Plan, ds: set<DocumentId>, ks: set<CollectionId>, d: DocumentId)
    requires Resolve(lexicon, c, plan, ds, ks).Ok?
    ensures Boosted(Resolve(lexicon, c, plan, ds, ks).value.boosts, d) <==> HintBoosts(lexicon, c, plan, ds, ks, d)
  {
    var requested := Requested(c, ds, ks);
    var f := FindDocuments(lexicon, plan.documentHints, requested, c.documents);
    var k := FindCollections(lexicon, plan.collectionHints, c);
    var sections := SectionsIn(c, VersionsOf(c, ScopedDocuments(lexicon, c, plan, ds, ks)));
    HintsBoostExactly(lexicon, c, plan, ds, ks, d);
    SectionBoostsNameNoDocument(lexicon, plan.headingHints, sections, d);
    BoostedMore(f.boosts, k.boosts, d);
    BoostedMore(f.boosts + k.boosts, FindSections(lexicon, plan.headingHints, sections).boosts, d);
  }

  /** Boosts are made before the restrictions of later hints apply. They stay in scope exactly when every document that a
      hint matches inexactly passes all the restrictions. */
  lemma BoostsStayInScopeExactly(lexicon: Lexicon, c: CorpusView, plan: Plan, ds: set<DocumentId>, ks: set<CollectionId>)
    requires Resolve(lexicon, c, plan, ds, ks).Ok?
    ensures (forall d :: Boosted(Resolve(lexicon, c, plan, ds, ks).value.boosts, d) ==> d in Resolve(lexicon, c, plan, ds, ks).value.documents)
            <==> forall d {:trigger HintBoosts(lexicon, c, plan, ds, ks, d)} ::
                   HintBoosts(lexicon, c, plan, ds, ks, d) ==> Passes(lexicon, c, plan, ds, ks, d)
  {
    var scope := Resolve(lexicon, c, plan, ds, ks).value;
    forall d
      ensures Boosted(scope.boosts, d) <==> HintBoosts(lexicon, c, plan, ds, ks, d)
      ensures d in scope.documents <==> Passes(lexicon, c, plan, ds, ks, d)
    {
      BoostedExactly(lexicon, c, plan, ds, ks, d);
      InScopeExactly(lexicon, c, plan, ds, ks, d);
    }
  }

  predicate SectionBoosted(boosts: seq<HintBoost>, x: SectionId) {
    exists b :: b in boosts && b.SectionBoost? && x in b.sections
  }

  lemma SectionBoostedMore(boosts: seq<HintBoost>, more: seq<HintBoost>, x: SectionId)
    ensures SectionBoosted(boosts + more, x) <==> SectionBoosted(boosts, x) || SectionBoosted(more, x)
  {
    if b :| b in boosts && b.SectionBoost? && x in b.sections {
      assert b in boosts + more;
    }
    if b :| b in more && b.SectionBoost? && x in b.sections {
      assert b in boosts + more;
    }
  }

  lemma SectionBoostedOne(hint: string, xs: set<SectionId>, x: SectionId)
    ensures SectionBoosted([SectionBoost(hint, xs)], x) <==> x in xs
  {
    assert SectionBoost(hint, xs) in [SectionBoost(hint, xs)];
  }

  /** Heading hint number i matches section x or one above it: exactly, or not. */
  predicate NamesSection(lexicon: Lexicon, hints: seq<string>, i: nat, sections: set<SectionRow>, x: SectionId) {
    && i < |hints| && MatchHeading(lexicon, hints[i], sections).resolution == ExactScope
    && x in Expand(MatchHeading(lexicon, hints[i], sections).ids, sections)
  }

  predicate BoostsSection(lexicon: Lexicon, hints: seq<string>, i: nat, sections: set<SectionRow>, x: SectionId) {
    && i < |hints| && Boosts(MatchHeading(lexicon, hints[i], sections))
    && x in Expand(MatchHeading(lexicon, hints[i], sections).ids, sections)
  }

  lemma SectionsStep(lexicon: Lexicon, hints: seq<string>, sections: set<SectionRow>, x: SectionId)
    requires hints != []
    ensures var n := |hints| - 1;
            var f, before := FindSections(lexicon, hints, sections), FindSections(lexicon, hints[..n], sections);
            && (SectionBoosted(f.boosts, x) <==> SectionBoosted(before.boosts, x) || BoostsSection(lexicon, hints, n, sections, x))
            && (x in f.exact <==> x in before.exact || NamesSection(lexicon, hints, n, sections, x))
  {
    var n := |hints| - 1;
    var m := MatchHeading(lexicon, hints[n], sections);
    var found := Expand(m.ids, sections);
    var more := if Boosts(m) && found != {} then [SectionBoost(hints[n], found)] else [];
    SectionBoostedMore(FindSections(lexicon, hints[..n], sections).boosts, more, x);
    SectionBoostedOne(hints[n], found, x);
  }

  lemma {:induction false} HintOfSection(lexicon: Lexicon, hints: seq<string>, sections: set<SectionRow>, x: SectionId) returns (i: nat)
    requires x in FindSections(lexicon, hints, sections).exact
    ensures NamesSection(lexicon, hints, i, sections, x)
  {
    var n := |hints| - 1;
    SectionsStep(lexicon, hints, sections, x);
    if x in FindSections(lexicon, hints[..n], sections).exact {
      i := HintOfSection(lexicon, hints[..n], sections, x);
    } else {
      i := n;
    }
  }

  lemma {:induction false} HintOfSectionBoost(lexicon: Lexicon, hints: seq<string>, sections: set<SectionRow>, x: SectionId) returns (i: nat)
    requires SectionBoosted(FindSections(lexicon, hints, sections).boosts, x)
    ensures BoostsSection(lexicon, hints, i, sections, x)
  {
    var n := |hints| - 1;
    SectionsStep(lexicon, hints, sections, x);
    if SectionBoosted(FindSections(lexicon, hints[..n], sections).boosts, x) {
      i := HintOfSectionBoost(lexicon, hints[..n], sections, x);
    } else {
      i := n;
    }
  }

  lemma {:induction false} SectionOfHint(lexicon: Lexicon, hints: seq<string>, sections: set<SectionRow>, x: SectionId, i: nat)
    requires i < |hints|
    ensures NamesSection(lexicon, hints, i, sections, x) ==> x in FindSections(lexicon, hints, sections).exact
    ensures BoostsSection(lexicon, hints, i, sections, x) ==> SectionBoosted(FindSections(lexicon, hints, sections).boosts, x)
  {
    SectionsStep(lexicon, hints, sections, x);
    if i < |hints| - 1 {
      SectionOfHint(lexicon, hints[..|hints| - 1], sections, x, i);
    }
  }

  ghost predicate HeadingNames(lexicon: Lexicon, hints: seq<string>, sections: set<SectionRow>, x: SectionId) {
    exists i: nat :: NamesSection(lexicon, hints, i, sections, x)
  }

  ghost predicate HeadingBoosts(lexicon: Lexicon, hints: seq<string>, sections: set<SectionRow>, x: SectionId) {
    exists i: nat :: BoostsSection(lexicon, hints, i, sections, x)
  }

  lemma HeadingsExactly(lexicon: Lexicon, hints: seq<string>, sections: set<SectionRow>, x: SectionId)
    ensures x in FindSections(lexicon, hints, sections).exact <==> HeadingNames(lexicon, hints, sections, x)
    ensures SectionBoosted(FindSections(lexicon, hints, sections).boosts, x) <==> HeadingBoosts(lexicon, hints, sections, x)
  {
    if x in FindSections(lexicon, hints, sections).exact {
      var i := HintOfSection(lexicon, hints, sections, x);
    }
    if SectionBoosted(FindSections(lexicon, hints, sections).boosts, x) {
      var i := HintOfSectionBoost(lexicon, hints, sections, x);
    }
    if i: nat :| NamesSection(lexicon, hints, i, sections, x) {
      SectionOfHint(lexicon, hints, sections, x, i);
    }
    if i: nat :| BoostsSection(lexicon, hints, i, sections, x) {
      SectionOfHint(lexicon, hints, sections, x, i);
    }
  }

  lemma {:induction false} CollectionBoostsNameDocuments(lexicon: Lexicon, hints: seq<string>, c: CorpusView)
    ensures forall b :: b in FindCollections(lexicon, hints, c).boosts ==> b.DocumentBoost?
  {
    if hints != [] {
      CollectionBoostsNameDocuments(lexicon, hints[..|hints| - 1], c);
    }
  }

  lemma SectionBoostedExactly(lexicon: Lexicon, c: CorpusView, plan: Plan, ds: set<DocumentId>, ks: set<CollectionId>, x: SectionId)
    requires Resolve(lexicon, c, plan, ds, ks).Ok?
    ensures var scope := Resolve(lexicon, c, plan, ds, ks).value;
            SectionBoosted(scope.boosts, x) <==> HeadingBoosts(lexicon, plan.headingHints, SectionsIn(c, scope.versions), x)
  {
    var requested := Requested(c, ds, ks);
    var f := FindDocuments(lexicon, plan.documentHints, requested, c.documents);
    var k := FindCollections(lexicon, plan.collectionHints, c);
    var sections := SectionsIn(c, VersionsOf(c, ScopedDocuments(lexicon, c, plan, ds, ks)));
    DocumentBoostsWithin(lexicon, plan.documentHints, requested, c.documents);
    CollectionBoostsNameDocuments(lexicon, plan.collectionHints, c);
    HeadingsExactly(lexicon, plan.headingHints, sections, x);
    SectionBoostedMore(f.boosts, k.boosts, x);
    SectionBoostedMore(f.boosts + k.boosts, FindSections(lexicon, plan.headingHints, sections).boosts, x);
  }

  /** Headings restrict the scope exactly when one of them is matched exactly, and then to what is matched exactly. */
  lemma SectionInScopeExactly(lexicon: Lexicon, c: CorpusView, plan: Plan, ds: set<DocumentId>, ks: set<CollectionId>, x: SectionId)
    requires Resolve(lexicon, c, plan, ds, ks).Ok?
    ensures var scope := Resolve(lexicon, c, plan, ds, ks).value;
            var rows := SectionsIn(c, scope.versions);
            && (HeadingNames(lexicon, plan.headingHints, rows, x) ==> scope.sections.Some?)
            && (scope.sections.Some? ==>
                  (exists z :: HeadingNames(lexicon, plan.headingHints, rows, z))
                  && (x in scope.sections.value <==> HeadingNames(lexicon, plan.headingHints, rows, x)))
  {
    var scope := Resolve(lexicon, c, plan, ds, ks).value;
    var rows := SectionsIn(c, scope.versions);
    var exact := FindSections(lexicon, plan.headingHints, rows).exact;
    assert scope.sections == if exact != {} then Some(exact) else None;
    HeadingsExactly(lexicon, plan.headingHints, rows, x);
    if z :| z in exact {
      HeadingsExactly(lexicon, plan.headingHints, rows, z);
    }
  }

  /** The same for sections: when headings restrict the scope, boosts stay in it exactly when every section that a heading
      hint matches inexactly is also named by an exact one. */
  lemma SectionBoostsStayInScopeExactly(lexicon: Lexicon, c: CorpusView, plan: Plan, ds: set<DocumentId>, ks: set<CollectionId>)
    requires Resolve(lexicon, c, plan, ds, ks).Ok?
    ensures var scope := Resolve(lexicon, c, plan, ds, ks).value;
            var rows := SectionsIn(c, scope.versions);
            (scope.sections.Some? ==> forall x :: SectionBoosted(scope.boosts, x) ==> x in scope.sections.value)
            <==> ((exists z :: HeadingNames(lexicon, plan.headingHints, rows, z)) ==>
                    forall x :: HeadingBoosts(lexicon, plan.headingHints, rows, x) ==> HeadingNames(lexicon, plan.headingHints, rows, x))
  {
    var scope := Resolve(lexicon, c, plan, ds, ks).value;
    var rows := SectionsIn(c, scope.versions);
    forall x
      ensures SectionBoosted(scope.boosts, x) <==> HeadingBoosts(lexicon, plan.headingHints, rows, x)
    {
      SectionBoostedExactly(lexicon, c, plan, ds, ks, x);
    }
    forall x
      ensures HeadingNames(lexicon, plan.headingHints, rows, x) ==> scope.sections.Some?
      ensures scope.sections.Some? ==>
                (exists z :: HeadingNames(lexicon, plan.headingHints, rows, z))
                && (x in scope.sections.value <==> HeadingNames(lexicon, plan.headingHints, rows, x))
    {
      SectionInScopeExactly(lexicon, c, plan, ds, ks, x);
    }
  }
}
