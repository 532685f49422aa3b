/** Boosts outside the scope, in states that runs reach. */
module ScopeExamples {
  import opened Wrappers
  import opened Corpus
  import opened Documents
  import opened Collections
  import opened Service
  import opened Scope
  import opened ScopeTheorems
  import opened ParsedRuns
  import opened Reachability

  /** What a published document adds to the view. */
  lemma PublishedIsShown(s: State, t: State, p: Publication, sections: set<Section>)
    requires Consistent(s) && p.document !in s.documents && p.version !in s.versions && Published(s, t, p, sections)
    ensures ShownDocuments(t) == ShownDocuments(s)[p.document := Shown(p.version, p.title, p.filename)] && LiveNames(t) == LiveNames(s)
    ensures View(t).sections == View(s).sections + (set x | x in sections :: SectionRow(p.version, x))
  {
    forall d | d in ActiveManifest(s)
      ensures d in s.documents && ActiveManifest(s)[d] != p.version
    {
      assert d in Exposed(s) && DocumentOk(s, d);
    }
    assert ShownDocuments(t) == ShownDocuments(s)[p.document := Shown(p.version, p.title, p.filename)];
    forall row
      ensures row in View(t).sections <==> row in View(s).sections + (set x | x in sections :: SectionRow(p.version, x))
    {
      SectionRowShown(s, t, p, sections, row);
    }
  }

  lemma SectionRowShown(s: State, t: State, p: Publication, sections: set<Section>, row: SectionRow)
    requires p.document !in ShownDocuments(s) && t.sections == s.sections[p.version := sections]
    requires ShownDocuments(t) == ShownDocuments(s)[p.document := Shown(p.version, p.title, p.filename)]
    requires forall d :: d in ShownDocuments(s) ==> ShownDocuments(s)[d].version != p.version
    ensures row in View(t).sections <==> row in View(s).sections || (row.version == p.version && row.section in sections)
  {
    if row.version == p.version && row.section in sections {
      assert p.document in ShownDocuments(t) && row.section in SectionsOf(t, ShownDocuments(t)[p.document].version);
    }
    if row in View(s).sections {
      var d :| d in ShownDocuments(s) && ShownDocuments(s)[d].version == row.version && row.section in SectionsOf(s, row.version);
      assert d in ShownDocuments(t) && ShownDocuments(t)[d].version == row.version && row.section in SectionsOf(t, row.version);
    }
  }

  lemma PublishShown(y: Service, parse: Parser, p: Publication) returns (z: Service)
    requires Reached(y, parse) && p.document !in y.db.documents && p.version !in y.db.versions && y.workers == map[]
    requires p.collections <= LiveCollections(y.db)
    ensures Reached(z, parse) && z.workers == map[] && View(z.db).generation.Some?
    ensures z.db.documents.Keys == y.db.documents.Keys + {p.document} && z.db.versions.Keys == y.db.versions.Keys + {p.version}
    ensures z.db.collections == y.db.collections && z.db.memberships == y.db.memberships + (set k | k in p.collections :: (p.document, k))
    ensures View(z.db).documents == View(y.db).documents[p.document := Shown(p.version, p.title, p.filename)]
    ensures View(z.db).sections == View(y.db).sections + (set x | x in parse(p.version) :: SectionRow(p.version, x))
  {
    ReachedIsOk(y, parse);
    z := Publish(y, parse, p, 0);
    PublishedIsShown(y.db, z.db, p, parse(p.version));
  }

  lemma TwinsShown(parse: Parser, n: string) returns (y: Service)
    ensures Reached(y, parse) && y.workers == map[] && View(y.db).documents == map[0 := Shown(0, n, n), 1 := Shown(1, n, n)]
    ensures y.db.documents.Keys == {0, 1} && y.db.versions.Keys == {0, 1}
  {
    FirstReached(parse);
    y := PublishShown(FIRST, parse, Publication(0, 0, n, n, "", {}));
    y := PublishShown(y, parse, Publication(1, 1, n, n, "", {}));
  }

  /** Three documents, two of which have one title. */
  lemma NamesakesShown(parse: Parser, n: string, m: string) returns (y: Service)
    ensures Reached(y, parse) && View(y.db).documents == map[0 := Shown(0, n, n), 1 := Shown(1, n, n), 2 := Shown(2, m, m)]
  {
    y := TwinsShown(parse, n);
    y := PublishShown(y, parse, Publication(2, 2, m, m, "", {}));
  }

  lemma NamesakesDecided(lexicon: Lexicon, hints: seq<string>, documents: map<DocumentId, Shown>, n: string, m: string)
    requires hints == [n, m] && documents.Keys == {0, 1, 2}
    requires MatchDocument(lexicon, n, {0, 1, 2}, documents) == Match({0, 1}, AmbiguousBoost)
    requires MatchDocument(lexicon, m, {0, 1, 2}, documents) == Match({2}, ExactScope)
    ensures BoostsDocument(lexicon, hints, 0, {0, 1, 2}, documents, 0) && NamesDocument(lexicon, hints, 1, {0, 1, 2}, documents, 2)
    ensures forall i: nat :: !NamesDocument(lexicon, hints, i, {0, 1, 2}, documents, 0)
  {
    forall i: nat ensures !NamesDocument(lexicon, hints, i, {0, 1, 2}, documents, 0) {
      assert i < 2 ==> hints[i] == n || hints[i] == m;
    }
  }

  lemma NamesakesBoosted(lexicon: Lexicon, c: CorpusView, plan: Plan, n: string, m: string)
    requires lexicon.asDocument(n).None? && lexicon.asDocument(m).None? && lexicon.normalize(n) == n && lexicon.normalize(m) == m && n != m
    requires c.documents == map[0 := Shown(0, n, n), 1 := Shown(1, n, n), 2 := Shown(2, m, m)]
    requires plan.documentHints == [n, m]
    ensures Resolve(lexicon, c, plan, {}, {}).Ok?
    ensures Boosted(Resolve(lexicon, c, plan, {}, {}).value.boosts, 0) && 0 !in Resolve(lexicon, c, plan, {}, {}).value.documents
  {
    assert Requested(c, {}, {}) == {0, 1, 2};
    Namesakes(lexicon, c.documents, 0, 1, 2, n, m);
    NamesakesDecided(lexicon, plan.documentHints, c.documents, n, m);
    BoostedExactly(lexicon, c, plan, {}, {}, 0);
    InScopeExactly(lexicon, c, plan, {}, {}, 0);
  }

  /** A document hint boosts two documents of one title, and the next hint restricts the scope to a third. */
  lemma DocumentBoostOutsideScope(parse: Parser) returns (y: Service, lexicon: Lexicon, plan: Plan, boosted: DocumentId)
    ensures Reached(y, parse) && Resolve(lexicon, View(y.db), plan, {}, {}).Ok?
    ensures plan.collectionHints == [] && plan.headingHints == []
    ensures Boosted(Resolve(lexicon, View(y.db), plan, {}, {}).value.boosts, boosted)
    ensures boosted !in Resolve(lexicon, View(y.db), plan, {}, {}).value.documents
  {
    var n, m := "n", "m";
    lexicon := Lexicon(text => text, (a, b) => 0.0, hint => None, hint => None, hint => None);
    plan := Plan("knowledge", "", [n, m], [], [], []);
    boosted := 0;
    y := NamesakesShown(parse, n, m);
    NamesakesBoosted(lexicon, View(y.db), plan, n, m);
  }

  lemma Namesakes(lexicon: Lexicon, documents: map<DocumentId, Shown>, a: DocumentId, b: DocumentId, x: DocumentId, n: string, m: string)
    requires lexicon.asDocument(n).None? && lexicon.asDocument(m).None? && lexicon.normalize(n) == n && lexicon.normalize(m) == m
    requires n != m && a != b && a != x && b != x
    requires documents == map[a := Shown(0, n, n), b := Shown(1, n, n), x := Shown(2, m, m)]
    ensures MatchDocument(lexicon, n, {a, b, x}, documents) == Match({a, b}, AmbiguousBoost)
    ensures MatchDocument(lexicon, m, {a, b, x}, documents) == Match({x}, ExactScope)
  {
    var all := {a, b, x};
    assert (set d | d in all && n in DocumentNames(lexicon, documents[d])) == {a, b};
    assert (set d | d in all && m in DocumentNames(lexicon, documents[d])) == {x};
    assert |{a, b}| == 2 && |{x}| == 1;
  }

  lemma CollectionCreated(parse: Parser, n: string) returns (y: Service)
    ensures Reached(y, parse) && y == FIRST.(db := FIRST.db.(collections := map[0 := Collection(CollectionName(n, n), false)], revision := 2))
  {
    FirstReached(parse);
    var e := CreateCollection(0, CollectionName(n, n));
    NextReached(FIRST, e, parse);
    y := Apply(FIRST, e);
  }

  lemma FirstOfTwoShown(parse: Parser, n: string) returns (y: Service)
    ensures Reached(y, parse) && y.workers == map[] && View(y.db).documents == map[0 := Shown(0, "a", "a")]
    ensures y.db.documents.Keys == {0} && y.db.versions.Keys == {0} && y.db.collections == map[0 := Collection(CollectionName(n, n), false)]
  {
    y := CollectionCreated(parse, n);
    assert View(y.db).documents == map[];
    y := PublishShown(y, parse, Publication(0, 0, "a", "a", "", {}));
  }

  /** A collection with one of two documents. */
  lemma CollectionShown(parse: Parser, n: string) returns (y: Service)
    ensures Reached(y, parse) && View(y.db).documents == map[0 := Shown(0, "a", "a"), 1 := Shown(1, "b", "b")]
    ensures View(y.db).collections == map[0 := n] && (1, 0) in View(y.db).memberships
  {
    y := FirstOfTwoShown(parse, n);
    y := PublishShown(y, parse, Publication(1, 1, "b", "b", "", {0}));
    MemberShown(y.db, 1, 0);
  }

  lemma MemberShown(s: State, d: DocumentId, k: CollectionId)
    requires d in View(s).documents && LiveCollection(s, k) && (d, k) in s.memberships
    ensures (d, k) in View(s).memberships
  {
  }

  lemma MemberBoosted(lexicon: Lexicon, c: CorpusView, plan: Plan, m: string)
    requires 0 in c.documents && (1, 0) in c.memberships && plan.collectionHints == [m]
    requires MatchCollection(lexicon, m, c.collections) == Match({0}, FuzzyBoost)
    ensures Resolve(lexicon, c, plan, {0}, {}).Ok?
    ensures Boosted(Resolve(lexicon, c, plan, {0}, {}).value.boosts, 1) && 1 !in Resolve(lexicon, c, plan, {0}, {}).value.documents
  {
    assert 1 in MembersOf(c, {0}) by {
      var p: (DocumentId, CollectionId) := (1, 0);
      assert p in c.memberships && p.1 in {0};
    }
    assert BoostsMember(lexicon, plan.collectionHints, 0, c, 1);
    BoostedExactly(lexicon, c, plan, {0}, {}, 1);
    InScopeExactly(lexicon, c, plan, {0}, {}, 1);
  }

  /** A collection hint that matches a name inexactly can boost a document that an explicit restriction left out. */
  lemma CollectionBoostOutsideScope(parse: Parser) returns (y: Service, lexicon: Lexicon, plan: Plan, asked: DocumentId, other: DocumentId)
    ensures Reached(y, parse) && Resolve(lexicon, View(y.db), plan, {asked}, {}).Ok?
    ensures plan.documentHints == [] && plan.headingHints == []
    ensures Boosted(Resolve(lexicon, View(y.db), plan, {asked}, {}).value.boosts, other)
    ensures other !in Resolve(lexicon, View(y.db), plan, {asked}, {}).value.documents
  {
    var n, m := "n", "m";
    lexicon := Lexicon(text => text, (a, b) => 0.9, hint => None, hint => None, hint => None);
    plan := Plan("knowledge", "", [], [m], [], []);
    asked, other := 0, 1;
    y := CollectionShown(parse, n);
    NearlyNamed(lexicon, View(y.db).collections, 0, n, m);
    MemberBoosted(lexicon, View(y.db), plan, m);
  }

  lemma NearlyNamed(lexicon: Lexicon, collections: map<CollectionId, string>, k: CollectionId, n: string, m: string)
    requires lexicon.asCollection(m).None? && lexicon.normalize(n) == n && lexicon.normalize(m) == m && lexicon.ratio(m, n) == 0.9
    requires n != m && m != "" && n != "" && collections == map[k := n]
    ensures MatchCollection(lexicon, m, collections) == Match({k}, FuzzyBoost)
  {
    var rows := set x | x in collections :: (x, [lexicon.normalize(collections[x])]);
    var row := (k, [n]);
    assert k in collections && row in rows;
    assert rows == {row};
    assert Score(lexicon, m, [n]) == 0.9 && Eligible([n]);
    assert IsNearest(lexicon, m, rows, row);
    assert FuzzyMatches(lexicon, m, rows) == {k};
    assert (set x | x in collections && lexicon.normalize(collections[x]) == m) == {};
  }

  const FIRST_SECTION := Section(0, "a", "a")
  const SECOND_SECTION := Section(1, "b", "b")

  lemma SectionsShown(parse: Parser) returns (y: Service)
    requires parse(0) == {FIRST_SECTION, SECOND_SECTION}
    ensures Reached(y, parse) && View(y.db).documents == map[0 := Shown(0, "d", "d")]
    ensures View(y.db).sections == {SectionRow(0, FIRST_SECTION), SectionRow(0, SECOND_SECTION)}
  {
    FirstReached(parse);
    y := PublishShown(FIRST, parse, Publication(0, 0, "d", "d", "", {}));
    assert View(FIRST.db).documents == map[] && View(FIRST.db).sections == {};
  }

  lemma OneDocumentInScope(lexicon: Lexicon, c: CorpusView, plan: Plan)
    requires c.documents == map[0 := Shown(0, "d", "d")] && plan.documentHints == [] && plan.collectionHints == []
    ensures Resolve(lexicon, c, plan, {}, {}).Ok? && Resolve(lexicon, c, plan, {}, {}).value.versions == {0}
  {
    InScopeExactly(lexicon, c, plan, {}, {}, 0);
  }

  /** The first heading is matched exactly, by section x and not by z; the second inexactly, by z as well. */
  predicate Divided(lexicon: Lexicon, rows: set<SectionRow>, a: string, b: string, x: SectionId, z: SectionId) {
    var first, second := MatchHeading(lexicon, a, rows), MatchHeading(lexicon, b, rows);
    && first.resolution == ExactScope && x in Expand(first.ids, rows) && z !in Expand(first.ids, rows)
    && second.resolution == FuzzyBoost && z in Expand(second.ids, rows)
  }

  lemma SectionsDecided(lexicon: Lexicon, hints: seq<string>, rows: set<SectionRow>, a: string, b: string, x: SectionId, z: SectionId)
    requires hints == [a, b] && Divided(lexicon, rows, a, b, x, z)
    ensures HeadingNames(lexicon, hints, rows, x) && HeadingBoosts(lexicon, hints, rows, z) && !HeadingNames(lexicon, hints, rows, z)
  {
    assert NamesSection(lexicon, hints, 0, rows, x);
    assert BoostsSection(lexicon, hints, 1, rows, z);
  }

  lemma SecondSectionBoosted(lexicon: Lexicon, c: CorpusView, plan: Plan, a: string, b: string, x: SectionId, z: SectionId)
    requires c.documents == map[0 := Shown(0, "d", "d")] && plan.documentHints == [] && plan.collectionHints == []
    requires plan.headingHints == [a, b] && (forall row :: row in c.sections ==> row.version == 0)
    requires Divided(lexicon, c.sections, a, b, x, z)
    ensures Resolve(lexicon, c, plan, {}, {}).Ok?
    ensures var scope := Resolve(lexicon, c, plan, {}, {}).value;
            SectionBoosted(scope.boosts, z) && scope.sections.Some? && z !in scope.sections.value
  {
    OneDocumentInScope(lexicon, c, plan);
    var vs: set<VersionId> := {0};
    assert SectionsIn(c, vs) == c.sections;
    SectionsDecided(lexicon, plan.headingHints, c.sections, a, b, x, z);
    SectionBoostedExactly(lexicon, c, plan, {}, {}, z);
    SectionInScopeExactly(lexicon, c, plan, {}, {}, x);
    SectionInScopeExactly(lexicon, c, plan, {}, {}, z);
  }

  /** One heading hint names a section, and another matches both sections inexactly. */
  lemma SectionBoostOutsideScope() returns (parse: Parser, y: Service, lexicon: Lexicon, plan: Plan, boosted: SectionId)
    ensures Reached(y, parse) && Resolve(lexicon, View(y.db), plan, {}, {}).Ok?
    ensures plan.documentHints == [] && plan.collectionHints == []
    ensures var scope := Resolve(lexicon, View(y.db), plan, {}, {}).value;
            SectionBoosted(scope.boosts, boosted) && scope.sections.Some? && boosted !in scope.sections.value
  {
    var a, b := "a", "c";
    parse := v => {FIRST_SECTION, SECOND_SECTION};
    lexicon := Lexicon(text => text, (a, b) => 0.9, hint => None, hint => None, hint => None);
    plan := Plan("knowledge", "", [], [], [a, b], []);
    boosted := 1;
    y := SectionsShown(parse);
    TwoSections(lexicon, View(y.db).sections, a, b);
    SecondSectionBoosted(lexicon, View(y.db), plan, a, b, 0, 1);
  }

  lemma TwoSections(lexicon: Lexicon, rows: set<SectionRow>, a: string, b: string)
    requires rows == {SectionRow(0, FIRST_SECTION), SectionRow(0, SECOND_SECTION)} && a == "a" && b == "c"
    requires lexicon.asSection(a).None? && lexicon.asSection(b).None? && lexicon.normalize(a) == a && lexicon.normalize(b) == b
    requires forall x, z :: lexicon.ratio(x, z) == 0.9
    ensures Divided(lexicon, rows, a, b, 0, 1)
  {
    var first, second := SectionRow(0, FIRST_SECTION), SectionRow(0, SECOND_SECTION);
    assert (set row | row in rows && row.section.pathLexical == a :: row.section.id) == {0} by {
      assert first in rows;
    }
    assert !Under(second, first) && Under(first, first) && Under(second, second);
    assert Expand({0}, rows) == {0};
    assert 1 in Expand({0, 1}, rows) by {
      assert second in rows && second.section.id in {0, 1};
    }
    NearBoth(lexicon, rows, b);
  }

  lemma NearBoth(lexicon: Lexicon, rows: set<SectionRow>, b: string)
    requires rows == {SectionRow(0, FIRST_SECTION), SectionRow(0, SECOND_SECTION)} && b == "c"
    requires lexicon.asSection(b).None? && lexicon.normalize(b) == b && forall x, z :: lexicon.ratio(x, z) == 0.9
    ensures MatchHeading(lexicon, b, rows) == Match({0, 1}, FuzzyBoost)
  {
    var names := set row | row in rows :: (row.section.id, [row.section.headingLexical, row.section.pathLexical]);
    var first, second: (SectionId, seq<string>) := (0, ["a", "a"]), (1, ["b", "b"]);
    assert SectionRow(0, FIRST_SECTION) in rows && SectionRow(0, SECOND_SECTION) in rows;
    assert names == {first, second};
    assert Score(lexicon, b, first.1) == 0.9 && Score(lexicon, b, second.1) == 0.9;
    assert Eligible(first.1) by { assert first.1[0] != ""; }
    assert Eligible(second.1) by { assert second.1[0] != ""; }
    assert IsNearest(lexicon, b, names, first) && IsNearest(lexicon, b, names, second);
    assert FuzzyMatches(lexicon, b, names) == {0, 1};
    assert (set row | row in rows && row.section.pathLexical == b :: row.section.id) == {};
    assert (set row | row in rows && row.section.headingLexical == b :: row.section.id) == {};
  }
}
