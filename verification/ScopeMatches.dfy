/** What a hint matches, and what a heading takes with it, stated on names, similarities and paths. */
module ScopeMatches {
  import opened Wrappers
  import opened Corpus
  import opened Scope
  import opened ScopeTheorems

  lemma OnlyOne<T>(s: set<T>, x: T)
    requires x in s && forall y :: y in s ==> y == x
    ensures s == {x} && |s| == 1
  {
    assert s == {x};
  }

  lemma MoreThanOne<T>(s: set<T>, x: T, y: T)
    requires x in s && y in s && x != y
    ensures |s| > 1
  {
    assert |s - {x} - {y}| == |s| - 2;
  }

  /** One exact match decides; several only boost; similar ones boost if there is no exact one. */
  lemma GradedExactly<K>(exact: set<K>, fuzzy: set<K>, x: K)
    ensures var m := Graded(exact, fuzzy);
            if exact == {} then
              && (x in m.ids <==> x in fuzzy) && (m.resolution == FuzzyBoost || (m.resolution == NoMatch && m.ids == {}))
              && (x in m.ids ==> m.resolution == FuzzyBoost)
            else
              && (x in m.ids <==> x in exact) && (m.resolution == ExactScope || m.resolution == AmbiguousBoost)
              && (x in m.ids ==> (m.resolution == ExactScope <==> forall y :: y in exact ==> y == x))
  {
    if x in exact {
      if forall y :: y in exact ==> y == x {
        OnlyOne(exact, x);
      } else {
        var y :| y in exact && y != x;
        MoreThanOne(exact, x, y);
      }
    }
  }

  lemma BestOfTwo(lexicon: Lexicon, hint: string, a: string, b: string)
    ensures Score(lexicon, hint, [a, b]) >= lexicon.ratio(hint, a) && Score(lexicon, hint, [a, b]) >= lexicon.ratio(hint, b)
    ensures Score(lexicon, hint, [a, b]) == lexicon.ratio(hint, a) || Score(lexicon, hint, [a, b]) == lexicon.ratio(hint, b)
    ensures Eligible([a, b]) <==> a != "" || b != ""
    ensures Eligible([a]) <==> a != ""
  {
    assert [a, b][0] == a && [a, b][1] == b && [a, b][1..] == [b] && [a][0] == a;
    assert a != "" ==> [a, b][0] != "";
    assert b != "" ==> [a, b][1] != "";
    assert a != "" ==> [a][0] != "";
  }

  /** The title or the file name, normalised, is the hint. */
  predicate Called(lexicon: Lexicon, hint: string, row: Shown) {
    lexicon.normalize(row.title) == lexicon.normalize(hint) || lexicon.normalize(row.sourceFilename) == lexicon.normalize(hint)
  }

  /** How similar two names are, at best, to the hint. */
  function Closeness(lexicon: Lexicon, hint: string, a: string, b: string): real {
    var h := lexicon.normalize(hint);
    if lexicon.ratio(h, a) >= lexicon.ratio(h, b) then lexicon.ratio(h, a) else lexicon.ratio(h, b)
  }

  function Likeness(lexicon: Lexicon, hint: string, row: Shown): real {
    Closeness(lexicon, hint, lexicon.normalize(row.title), lexicon.normalize(row.sourceFilename))
  }

  predicate Nameless(lexicon: Lexicon, row: Shown) {
    lexicon.normalize(row.title) == "" && lexicon.normalize(row.sourceFilename) == ""
  }

  /** Document d is at least 0.82 similar, and no other one is more similar. */
  ghost predicate NearestDocument(lexicon: Lexicon, hint: string, allowed: set<DocumentId>, documents: map<DocumentId, Shown>, d: DocumentId)
    requires allowed <= documents.Keys
  {
    && d in allowed && lexicon.normalize(hint) != "" && !Nameless(lexicon, documents[d]) && Likeness(lexicon, hint, documents[d]) >= 0.82
    && forall e :: e in allowed && !Nameless(lexicon, documents[e]) ==> Likeness(lexicon, hint, documents[e]) <= Likeness(lexicon, hint, documents[d])
  }

  lemma NearestDocuments(lexicon: Lexicon, hint: string, allowed: set<DocumentId>, documents: map<DocumentId, Shown>, d: DocumentId)
    requires allowed <= documents.Keys
    ensures var rows := set e | e in allowed :: (e, DocumentNames(lexicon, documents[e]));
            d in FuzzyMatches(lexicon, lexicon.normalize(hint), rows) <==> NearestDocument(lexicon, hint, allowed, documents, d)
  {
    var h := lexicon.normalize(hint);
    var rows := set e | e in allowed :: (e, DocumentNames(lexicon, documents[e]));
    forall e | e in allowed
      ensures (e, DocumentNames(lexicon, documents[e])) in rows
      ensures Eligible(DocumentNames(lexicon, documents[e])) <==> !Nameless(lexicon, documents[e])
      ensures Score(lexicon, h, DocumentNames(lexicon, documents[e])) == Likeness(lexicon, hint, documents[e])
    {
      BestOfTwo(lexicon, h, lexicon.normalize(documents[e].title), lexicon.normalize(documents[e].sourceFilename));
    }
    if d in allowed {
      var row := (d, DocumentNames(lexicon, documents[d]));
      assert row in rows;
      assert h != "" ==> (IsNearest(lexicon, h, rows, row) <==> NearestDocument(lexicon, hint, allowed, documents, d));
    }
  }

  /** What a document hint matches, in all cases: an identifier of an allowed document; else the only document of that name;
      else all of several; else the most similar ones, which must be at least 0.82 similar. */
  lemma DocumentMatchExactly(lexicon: Lexicon, hint: string, allowed: set<DocumentId>, documents: map<DocumentId, Shown>, d: DocumentId)
    requires allowed <= documents.Keys
    ensures var m := MatchDocument(lexicon, hint, allowed, documents);
            && (lexicon.asDocument(hint) == Some(d) && d in allowed ==> m == Match({d}, ExactScope))
            && ((forall e :: lexicon.asDocument(hint) == Some(e) ==> e !in allowed) ==>
                  if forall e :: e in allowed ==> !Called(lexicon, hint, documents[e]) then
                    && (d in m.ids <==> NearestDocument(lexicon, hint, allowed, documents, d))
                    && (m.resolution == FuzzyBoost || (m.resolution == NoMatch && m.ids == {}))
                    && (d in m.ids ==> m.resolution == FuzzyBoost)
                  else
                    && (d in m.ids <==> d in allowed && Called(lexicon, hint, documents[d]))
                    && (m.resolution == ExactScope || m.resolution == AmbiguousBoost)
                    && (d in m.ids ==>
                          (m.resolution == ExactScope <==> forall e :: e in allowed && Called(lexicon, hint, documents[e]) ==> e == d)))
  {
    var h := lexicon.normalize(hint);
    var named := set e | e in allowed && h in DocumentNames(lexicon, documents[e]);
    forall e | e in allowed
      ensures e in named <==> Called(lexicon, hint, documents[e])
    {
    }
    NearestDocuments(lexicon, hint, allowed, documents, d);
    GradedExactly(named, FuzzyMatches(lexicon, h, (set e | e in allowed :: (e, DocumentNames(lexicon, documents[e])))), d);
  }

  /** The same for collections, which have one name each. */
  ghost predicate NearestCollection(lexicon: Lexicon, hint: string, collections: map<CollectionId, string>, k: CollectionId) {
    var h := lexicon.normalize(hint);
    && k in collections && h != "" && lexicon.normalize(collections[k]) != "" && lexicon.ratio(h, lexicon.normalize(collections[k])) >= 0.82
    && forall l :: l in collections && lexicon.normalize(collections[l]) != "" ==>
         lexicon.ratio(h, lexicon.normalize(collections[l])) <= lexicon.ratio(h, lexicon.normalize(collections[k]))
  }

  lemma NearestCollections(lexicon: Lexicon, hint: string, collections: map<CollectionId, string>, k: CollectionId)
    ensures var rows := set l | l in collections :: (l, [lexicon.normalize(collections[l])]);
            k in FuzzyMatches(lexicon, lexicon.normalize(hint), rows) <==> NearestCollection(lexicon, hint, collections, k)
  {
    var h := lexicon.normalize(hint);
    var rows := set l | l in collections :: (l, [lexicon.normalize(collections[l])]);
    forall l | l in collections
      ensures (l, [lexicon.normalize(collections[l])]) in rows
      ensures Eligible([lexicon.normalize(collections[l])]) <==> lexicon.normalize(collections[l]) != ""
    {
      BestOfTwo(lexicon, h, lexicon.normalize(collections[l]), "");
    }
    if k in collections {
      var row := (k, [lexicon.normalize(collections[k])]);
      assert row in rows;
      assert h != "" ==> (IsNearest(lexicon, h, rows, row) <==> NearestCollection(lexicon, hint, collections, k));
    }
  }

  lemma CollectionMatchExactly(lexicon: Lexicon, hint: string, collections: map<CollectionId, string>, k: CollectionId)
    ensures var m, h := MatchCollection(lexicon, hint, collections), lexicon.normalize(hint);
            && (lexicon.asCollection(hint) == Some(k) && k in collections ==> m == Match({k}, ExactScope))
            && ((forall l :: lexicon.asCollection(hint) == Some(l) ==> l !in collections) ==>
                  if forall l :: l in collections ==> lexicon.normalize(collections[l]) != h then
                    && (k in m.ids <==> NearestCollection(lexicon, hint, collections, k))
                    && (m.resolution == FuzzyBoost || (m.resolution == NoMatch && m.ids == {}))
                    && (k in m.ids ==> m.resolution == FuzzyBoost)
                  else
                    && (k in m.ids <==> k in collections && lexicon.normalize(collections[k]) == h)
                    && (m.resolution == ExactScope || m.resolution == AmbiguousBoost)
                    && (k in m.ids ==>
                          (m.resolution == ExactScope <==> forall l :: l in collections && lexicon.normalize(collections[l]) == h ==> l == k)))
  {
    var h := lexicon.normalize(hint);
    var named := set l | l in collections && lexicon.normalize(collections[l]) == h;
    NearestCollections(lexicon, hint, collections, k);
    forall l ensures l in named <==> l in collections && lexicon.normalize(collections[l]) == h {
    }
    GradedExactly(named, FuzzyMatches(lexicon, h, (set l | l in collections :: (l, [lexicon.normalize(collections[l])]))), k);
  }

  /** A section's path is the hint, or no section's path is and its heading is. */
  predicate Headed(lexicon: Lexicon, hint: string, sections: set<SectionRow>, row: SectionRow) {
    var h := lexicon.normalize(hint);
    && row in sections
    && (row.section.pathLexical == h
        || (row.section.headingLexical == h && forall other :: other in sections ==> other.section.pathLexical != h))
  }

  function SectionLikeness(lexicon: Lexicon, hint: string, row: SectionRow): real {
    Closeness(lexicon, hint, row.section.headingLexical, row.section.pathLexical)
  }

  ghost predicate NearestSection(lexicon: Lexicon, hint: string, sections: set<SectionRow>, row: SectionRow) {
    && row in sections && lexicon.normalize(hint) != "" && (row.section.headingLexical != "" || row.section.pathLexical != "")
    && SectionLikeness(lexicon, hint, row) >= 0.82
    && forall other :: other in sections && (other.section.headingLexical != "" || other.section.pathLexical != "") ==>
         SectionLikeness(lexicon, hint, other) <= SectionLikeness(lexicon, hint, row)
  }

  lemma NearestSections(lexicon: Lexicon, hint: string, sections: set<SectionRow>, row: SectionRow)
    requires Distinct(sections) && row in sections
    ensures var rows := set r | r in sections :: (r.section.id, [r.section.headingLexical, r.section.pathLexical]);
            row.section.id in FuzzyMatches(lexicon, lexicon.normalize(hint), rows) <==> NearestSection(lexicon, hint, sections, row)
  {
    var h := lexicon.normalize(hint);
    var rows := set r | r in sections :: (r.section.id, [r.section.headingLexical, r.section.pathLexical]);
    forall r | r in sections
      ensures (r.section.id, [r.section.headingLexical, r.section.pathLexical]) in rows
      ensures Eligible([r.section.headingLexical, r.section.pathLexical]) <==> r.section.headingLexical != "" || r.section.pathLexical != ""
      ensures Score(lexicon, h, [r.section.headingLexical, r.section.pathLexical]) == SectionLikeness(lexicon, hint, r)
    {
      BestOfTwo(lexicon, h, r.section.headingLexical, r.section.pathLexical);
    }
    var it := (row.section.id, [row.section.headingLexical, row.section.pathLexical]);
    assert it in rows;
    assert h != "" ==> (IsNearest(lexicon, h, rows, it) <==> NearestSection(lexicon, hint, sections, row));
  }

  /** The sections that bear a heading hint as their path or, failing that, as their heading. */
  function HeadedIds(lexicon: Lexicon, hint: string, sections: set<SectionRow>): set<SectionId> {
    var h := lexicon.normalize(hint);
    var paths := set r | r in sections && r.section.pathLexical == h :: r.section.id;
    if paths != {} then paths else set r | r in sections && r.section.headingLexical == h :: r.section.id
  }

  lemma HeadedIdsExactly(lexicon: Lexicon, hint: string, sections: set<SectionRow>, x: SectionId)
    ensures x in HeadedIds(lexicon, hint, sections) <==> exists r :: Headed(lexicon, hint, sections, r) && r.section.id == x
  {
    var h := lexicon.normalize(hint);
    var paths := set r | r in sections && r.section.pathLexical == h :: r.section.id;
    if other :| other in sections && other.section.pathLexical == h {
      assert other.section.id in paths;
    }
    if x in HeadedIds(lexicon, hint, sections) {
      var r :| r in sections && r.section.id == x && (r.section.pathLexical == h || (paths == {} && r.section.headingLexical == h));
      assert Headed(lexicon, hint, sections, r);
    }
  }

  /** One section exactly, all headed ones, or none. */
  lemma HeadedOnly(lexicon: Lexicon, hint: string, sections: set<SectionRow>, row: SectionRow)
    requires Distinct(sections) && row in sections
    ensures var exact := HeadedIds(lexicon, hint, sections);
            && (exact == {} <==> forall r :: r in sections ==> !Headed(lexicon, hint, sections, r))
            && (row.section.id in exact <==> Headed(lexicon, hint, sections, row))
            && ((forall y :: y in exact ==> y == row.section.id) <==> forall r :: Headed(lexicon, hint, sections, r) ==> r == row)
  {
    forall x ensures x in HeadedIds(lexicon, hint, sections) <==> exists r :: Headed(lexicon, hint, sections, r) && r.section.id == x {
      HeadedIdsExactly(lexicon, hint, sections, x);
    }
    forall r | Headed(lexicon, hint, sections, r)
      ensures r.section.id in HeadedIds(lexicon, hint, sections)
    {
    }
  }

  /** What a heading hint matches, in all cases. */
  lemma HeadingMatchExactly(lexicon: Lexicon, hint: string, sections: set<SectionRow>, row: SectionRow)
    requires Distinct(sections) && row in sections
    ensures var m := MatchHeading(lexicon, hint, sections);
            && (lexicon.asSection(hint) == Some(row.section.id) ==> m == Match({row.section.id}, ExactScope))
            && ((forall r :: r in sections ==> lexicon.asSection(hint) != Some(r.section.id)) ==>
                  if forall r :: r in sections ==> !Headed(lexicon, hint, sections, r) then
                    && (row.section.id in m.ids <==> NearestSection(lexicon, hint, sections, row))
                    && (m.resolution == FuzzyBoost || (m.resolution == NoMatch && m.ids == {}))
                    && (row.section.id in m.ids ==> m.resolution == FuzzyBoost)
                  else
                    && (row.section.id in m.ids <==> Headed(lexicon, hint, sections, row))
                    && (m.resolution == ExactScope || m.resolution == AmbiguousBoost)
                    && (row.section.id in m.ids ==>
                          (m.resolution == ExactScope <==> forall r :: Headed(lexicon, hint, sections, r) ==> r == row)))
  {
    var h := lexicon.normalize(hint);
    HeadedOnly(lexicon, hint, sections, row);
    NearestSections(lexicon, hint, sections, row);
    GradedExactly(HeadedIds(lexicon, hint, sections),
                  FuzzyMatches(lexicon, h, (set r | r in sections :: (r.section.id, [r.section.headingLexical, r.section.pathLexical]))),
                  row.section.id);
  }

  /** Row x is section r or lies below it: its path is r's path, or continues it after a separator. */
  ghost predicate Below(x: SectionRow, r: SectionRow) {
    && x.version == r.version
    && (x.section.pathLexical == r.section.pathLexical
        || exists rest :: x.section.pathLexical == r.section.pathLexical + " / " + rest)
  }

  lemma UnderIsBelow(x: SectionRow, r: SectionRow)
    ensures Under(x, r) <==> Below(x, r)
  {
    var p := r.section.pathLexical + " / ";
    if p <= x.section.pathLexical {
      assert x.section.pathLexical == p + x.section.pathLexical[|p|..];
    }
    if rest :| x.section.pathLexical == r.section.pathLexical + " / " + rest {
      assert p <= p + rest;
    }
  }

  lemma ExpandExactly(roots: set<SectionId>, sections: set<SectionRow>, x: SectionRow)
    requires Distinct(sections) && x in sections
    ensures x.section.id in Expand(roots, sections) <==> exists r :: r in sections && r.section.id in roots && Below(x, r)
  {
    if x.section.id in Expand(roots, sections) {
      var row, root :| row in sections && root in sections && root.section.id in roots && Under(row, root) && row.section.id == x.section.id;
      UnderIsBelow(row, root);
      assert row == x;
    }
    if r :| r in sections && r.section.id in roots && Below(x, r) {
      UnderIsBelow(x, r);
    }
  }

  /** Heading hint i matches section r exactly. */
  predicate NamesRoot(lexicon: Lexicon, hints: seq<string>, i: nat, sections: set<SectionRow>, r: SectionRow) {
    && i < |hints| && r in sections && MatchHeading(lexicon, hints[i], sections).resolution == ExactScope
    && r.section.id in MatchHeading(lexicon, hints[i], sections).ids
  }

  /** Which sections a restricted scope has: those at or below a section that some heading hint matches exactly. */
  lemma SectionScopeOnPaths(lexicon: Lexicon, c: CorpusView, plan: Plan, ds: set<DocumentId>, ks: set<CollectionId>, x: SectionRow)
    requires Resolve(lexicon, c, plan, ds, ks).Ok? && Resolve(lexicon, c, plan, ds, ks).value.sections.Some?
    requires var rows := SectionsIn(c, Resolve(lexicon, c, plan, ds, ks).value.versions); Distinct(rows) && x in rows
    ensures var scope := Resolve(lexicon, c, plan, ds, ks).value;
            x.section.id in scope.sections.value <==>
              exists i: nat, r :: NamesRoot(lexicon, plan.headingHints, i, SectionsIn(c, scope.versions), r) && Below(x, r)
  {
    var rows, hints := SectionsIn(c, Resolve(lexicon, c, plan, ds, ks).value.versions), plan.headingHints;
    SectionInScopeExactly(lexicon, c, plan, ds, ks, x.section.id);
    if i: nat :| NamesSection(lexicon, hints, i, rows, x.section.id) {
      ExpandExactly(MatchHeading(lexicon, hints[i], rows).ids, rows, x);
      var r :| r in rows && r.section.id in MatchHeading(lexicon, hints[i], rows).ids && Below(x, r);
      assert NamesRoot(lexicon, hints, i, rows, r);
    }
    if i: nat, r :| NamesRoot(lexicon, hints, i, rows, r) && Below(x, r) {
      ExpandExactly(MatchHeading(lexicon, hints[i], rows).ids, rows, x);
      assert NamesSection(lexicon, hints, i, rows, x.section.id);
    }
  }

  /** A parent takes its child, and a child does not take its parent. */
  lemma ParentAndChild(v: VersionId, parent: Section, child: Section, part: string)
    requires parent.id != child.id && child.pathLexical == parent.pathLexical + " / " + part
    ensures var rows := {SectionRow(v, parent), SectionRow(v, child)};
            Expand({parent.id}, rows) == {parent.id, child.id} && Expand({child.id}, rows) == {child.id}
  {
    var up, down := SectionRow(v, parent), SectionRow(v, child);
    var rows := {up, down};
    assert Distinct(rows);
    assert |parent.pathLexical| < |child.pathLexical|;
    ExpandExactly({parent.id}, rows, up);
    ExpandExactly({parent.id}, rows, down);
    ExpandExactly({child.id}, rows, up);
    ExpandExactly({child.id}, rows, down);
    assert Below(down, up) && !Below(up, down);
    assert forall x :: x in Expand({parent.id}, rows) ==> x == parent.id || x == child.id;
  }

  /** Each hint adds one decision, after those of the hints before it. */
  lemma DocumentDecisionLast(lexicon: Lexicon, hints: seq<string>, allowed: set<DocumentId>, documents: map<DocumentId, Shown>)
    requires allowed <= documents.Keys && hints != []
    ensures var n, m := |hints| - 1, MatchDocument(lexicon, hints[|hints| - 1], allowed, documents);
            FindDocuments(lexicon, hints, allowed, documents).decisions
            == FindDocuments(lexicon, hints[..n], allowed, documents).decisions + [DocumentDecision(hints[n], m.resolution, m.ids)]
  {
  }

  lemma CollectionDecisionLast(lexicon: Lexicon, hints: seq<string>, c: CorpusView)
    requires hints != []
    ensures var n, m := |hints| - 1, MatchCollection(lexicon, hints[|hints| - 1], c.collections);
            FindCollections(lexicon, hints, c).decisions
            == FindCollections(lexicon, hints[..n], c).decisions + [CollectionDecision(hints[n], m.resolution, m.ids)]
  {
  }

  lemma HeadingDecisionLast(lexicon: Lexicon, hints: seq<string>, sections: set<SectionRow>)
    requires hints != []
    ensures var n, m := |hints| - 1, MatchHeading(lexicon, hints[|hints| - 1], sections);
            FindSections(lexicon, hints, sections).decisions
            == FindSections(lexicon, hints[..n], sections).decisions + [HeadingDecision(hints[n], m.resolution, m.ids, |Expand(m.ids, sections)|)]
  {
  }

  /** The decisions reported: explicit documents, explicit collections, and then one for every hint, in order. */
  lemma DecisionsInOrder(lexicon: Lexicon, c: CorpusView, plan: Plan, ds: set<DocumentId>, ks: set<CollectionId>)
    requires Resolve(lexicon, c, plan, ds, ks).Ok?
    ensures var scope := Resolve(lexicon, c, plan, ds, ks).value;
            var documents := FindDocuments(lexicon, plan.documentHints, Requested(c, ds, ks), c.documents).decisions;
            var collections := FindCollections(lexicon, plan.collectionHints, c).decisions;
            var headings := FindSections(lexicon, plan.headingHints, SectionsIn(c, scope.versions)).decisions;
            scope.decisions == (if ds == {} then [] else [DocumentDecision("explicit", ExplicitScope, ds)])
                               + (if ks == {} then [] else [CollectionDecision("explicit", ExplicitScope, ks)])
                               + (documents + collections) + headings
  {
  }

  /** A document boost carries the words of its hint and everything the hint matches inexactly; there are no others. */
  lemma {:induction false} DocumentBoostExactly(lexicon: Lexicon, hints: seq<string>, allowed: set<DocumentId>, documents: map<DocumentId, Shown>,
                                                boost: HintBoost)
    requires allowed <= documents.Keys
    ensures boost in FindDocuments(lexicon, hints, allowed, documents).boosts <==>
              exists hint :: hint in hints && DocumentBoostOf(lexicon, hint, allowed, documents, boost)
  {
    if hints != [] {
      var n := |hints| - 1;
      DocumentBoostExactly(lexicon, hints[..n], allowed, documents, boost);
      SomeDocumentHint(lexicon, hints, allowed, documents, boost);
      LastDocumentBoost(lexicon, hints, allowed, documents, boost);
    }
  }

  predicate DocumentBoostOf(lexicon: Lexicon, hint: string, allowed: set<DocumentId>, documents: map<DocumentId, Shown>, boost: HintBoost)
    requires allowed <= documents.Keys
  {
    var m := MatchDocument(lexicon, hint, allowed, documents);
    (m.resolution == AmbiguousBoost || m.resolution == FuzzyBoost) && m.ids != {} && boost == DocumentBoost(hint, m.ids)
  }

  lemma SomeDocumentHint(lexicon: Lexicon, hints: seq<string>, allowed: set<DocumentId>, documents: map<DocumentId, Shown>, boost: HintBoost)
    requires allowed <= documents.Keys && hints != []
    ensures (exists hint :: hint in hints && DocumentBoostOf(lexicon, hint, allowed, documents, boost)) <==>
              (exists hint :: hint in hints[..|hints| - 1] && DocumentBoostOf(lexicon, hint, allowed, documents, boost))
              || DocumentBoostOf(lexicon, hints[|hints| - 1], allowed, documents, boost)
  {
    assert hints == hints[..|hints| - 1] + [hints[|hints| - 1]];
  }

  lemma LastDocumentBoost(lexicon: Lexicon, hints: seq<string>, allowed: set<DocumentId>, documents: map<DocumentId, Shown>, boost: HintBoost)
    requires allowed <= documents.Keys && hints != []
    ensures var n := |hints| - 1;
            boost in FindDocuments(lexicon, hints, allowed, documents).boosts <==>
              boost in FindDocuments(lexicon, hints[..n], allowed, documents).boosts || DocumentBoostOf(lexicon, hints[n], allowed, documents, boost)
  {
  }

  predicate CollectionBoostOf(lexicon: Lexicon, hint: string, c: CorpusView, boost: HintBoost) {
    var m := MatchCollection(lexicon, hint, c.collections);
    (m.resolution == AmbiguousBoost || m.resolution == FuzzyBoost) && MembersOf(c, m.ids) != {} && boost == DocumentBoost(hint, MembersOf(c, m.ids))
  }

  lemma SomeCollectionHint(lexicon: Lexicon, hints: seq<string>, c: CorpusView, boost: HintBoost)
    requires hints != []
    ensures (exists hint :: hint in hints && CollectionBoostOf(lexicon, hint, c, boost)) <==>
              (exists hint :: hint in hints[..|hints| - 1] && CollectionBoostOf(lexicon, hint, c, boost))
              || CollectionBoostOf(lexicon, hints[|hints| - 1], c, boost)
  {
    assert hints == hints[..|hints| - 1] + [hints[|hints| - 1]];
  }

  lemma LastCollectionBoost(lexicon: Lexicon, hints: seq<string>, c: CorpusView, boost: HintBoost)
    requires hints != []
    ensures var n := |hints| - 1;
            boost in FindCollections(lexicon, hints, c).boosts <==>
              boost in FindCollections(lexicon, hints[..n], c).boosts || CollectionBoostOf(lexicon, hints[n], c, boost)
  {
  }

  /** The same for collection hints, through the memberships. */
  lemma {:induction false} CollectionBoostExactly(lexicon: Lexicon, hints: seq<string>, c: CorpusView, boost: HintBoost)
    ensures boost in FindCollections(lexicon, hints, c).boosts <==>
              exists hint :: hint in hints && CollectionBoostOf(lexicon, hint, c, boost)
  {
    if hints != [] {
      var n := |hints| - 1;
      CollectionBoostExactly(lexicon, hints[..n], c, boost);
      SomeCollectionHint(lexicon, hints, c, boost);
      LastCollectionBoost(lexicon, hints, c, boost);
    }
  }

  predicate SectionBoostOf(lexicon: Lexicon, hint: string, sections: set<SectionRow>, boost: HintBoost) {
    var m := MatchHeading(lexicon, hint, sections);
    (m.resolution == AmbiguousBoost || m.resolution == FuzzyBoost) && Expand(m.ids, sections) != {} && boost == SectionBoost(hint, Expand(m.ids, sections))
  }

  lemma SomeSectionHint(lexicon: Lexicon, hints: seq<string>, sections: set<SectionRow>, boost: HintBoost)
    requires hints != []
    ensures (exists hint :: hint in hints && SectionBoostOf(lexicon, hint, sections, boost)) <==>
              (exists hint :: hint in hints[..|hints| - 1] && SectionBoostOf(lexicon, hint, sections, boost))
              || SectionBoostOf(lexicon, hints[|hints| - 1], sections, boost)
  {
    assert hints == hints[..|hints| - 1] + [hints[|hints| - 1]];
  }

  lemma LastSectionBoost(lexicon: Lexicon, hints: seq<string>, sections: set<SectionRow>, boost: HintBoost)
    requires hints != []
    ensures var n := |hints| - 1;
            boost in FindSections(lexicon, hints, sections).boosts <==>
              boost in FindSections(lexicon, hints[..n], sections).boosts || SectionBoostOf(lexicon, hints[n], sections, boost)
  {
  }

  /** And for heading hints, with subtrees. */
  lemma {:induction false} SectionBoostExactly(lexicon: Lexicon, hints: seq<string>, sections: set<SectionRow>, boost: HintBoost)
    ensures boost in FindSections(lexicon, hints, sections).boosts <==>
              exists hint :: hint in hints && SectionBoostOf(lexicon, hint, sections, boost)
  {
    if hints != [] {
      var n := |hints| - 1;
      SectionBoostExactly(lexicon, hints[..n], sections, boost);
      SomeSectionHint(lexicon, hints, sections, boost);
      LastSectionBoost(lexicon, hints, sections, boost);
    }
  }

  /** What the resolver sees of a consistent corpus, on its rows. */
  lemma ViewExactly(s: State, d: DocumentId, k: CollectionId, x: SectionRow)
    requires Consistent(s)
    ensures View(s).generation == s.activeGeneration && View(s).revision == s.revision
    ensures d in View(s).documents <==> d in s.documents && !s.documents[d].deleted && s.documents[d].activeVersion.Some?
    ensures d in View(s).documents ==>
              View(s).documents[d] == Shown(s.documents[d].activeVersion.value, s.documents[d].title, s.documents[d].sourceFilename)
    ensures k in View(s).collections <==> k in s.collections && !s.collections[k].deleted
    ensures k in View(s).collections ==> View(s).collections[k] == s.collections[k].name.text
    ensures (d, k) in View(s).memberships <==> (d, k) in s.memberships && d in View(s).documents && k in View(s).collections
    ensures x in View(s).sections <==>
              x.version in s.sections && x.section in s.sections[x.version]
              && exists e :: e in View(s).documents && View(s).documents[e].version == x.version
  {
    assert d in Exposed(s) ==> DocumentOk(s, d);
    if x.version in s.sections && x.section in s.sections[x.version] {
      if e :| e in View(s).documents && View(s).documents[e].version == x.version {
        assert x.section in SectionsOf(s, View(s).documents[e].version);
      }
    }
  }
}
