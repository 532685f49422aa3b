/** Metadata resolution (backend/app/rag/scope.py): from a plan's hints and the explicitly named documents and
    collections to the documents, versions and sections a retrieval may search.

    Name normalisation, string similarity and identifier parsing are parameters. Sorted identifier tuples are sets. */
module Scope {
  import opened Wrappers
  import opened Corpus

  datatype Shown = Shown(version: VersionId, title: string, sourceFilename: string)

  datatype SectionRow = SectionRow(version: VersionId, section: Section)

  /** Everything the resolver reads of a tenant. */
  datatype CorpusView = CorpusView(
    generation: Option<GenerationId>,
    revision: nat,
    documents: map<DocumentId, Shown>,
    collections: map<CollectionId, string>,
    memberships: set<(DocumentId, CollectionId)>,
    sections: set<SectionRow>)

  datatype Plan = Plan(intent: string, query: string, documentHints: seq<string>, collectionHints: seq<string>,
                       headingHints: seq<string>, exactTerms: seq<string>)

  datatype Lexicon = Lexicon(
    normalize: string -> string,
    ratio: (string, string) -> real,
    asDocument: string -> Option<DocumentId>,
    asCollection: string -> Option<CollectionId>,
    asSection: string -> Option<SectionId>)

  datatype Resolution = ExplicitScope | ExactScope | AmbiguousBoost | FuzzyBoost | NoMatch

  datatype HintDecision =
    | DocumentDecision(hint: string, resolution: Resolution, documents: set<DocumentId>)
    | CollectionDecision(hint: string, resolution: Resolution, collections: set<CollectionId>)
    | HeadingDecision(hint: string, resolution: Resolution, sections: set<SectionId>, expanded: nat)

  datatype HintBoost =
    | DocumentBoost(hint: string, documents: set<DocumentId>)
    | SectionBoost(hint: string, sections: set<SectionId>)

  datatype ResolvedScope = ResolvedScope(
    generation: Option<GenerationId>,
    revision: nat,
    documents: set<DocumentId>,
    versions: set<VersionId>,
    sections: Option<set<SectionId>>,
    decisions: seq<HintDecision>,
    boosts: seq<HintBoost>)

  datatype ScopeError = ScopeNotFound

  const FUZZY_HINT_MINIMUM := 0.82

  function ShownDocuments(s: State): map<DocumentId, Shown> {
    map d | d in ActiveManifest(s) && d in s.documents && !s.documents[d].deleted ::
      Shown(ActiveManifest(s)[d], s.documents[d].title, s.documents[d].sourceFilename)
  }

  function LiveNames(s: State): map<CollectionId, string> {
    map k | k in s.collections && !s.collections[k].deleted :: s.collections[k].name.text
  }

  function SectionsOf(s: State, v: VersionId): set<Section> {
    if v in s.sections then s.sections[v] else {}
  }

  function View(s: State): CorpusView {
    var shown, live := ShownDocuments(s), LiveNames(s);
    CorpusView(s.activeGeneration, s.revision, shown, live,
               (set p | p in s.memberships && p.0 in shown && p.1 in live),
               set d, x | d in shown && x in SectionsOf(s, shown[d].version) :: SectionRow(shown[d].version, x))
  }

  /** What a hint matched, and how. */
  datatype Match<K> = Match(ids: set<K>, resolution: Resolution)

  predicate Boosts<K>(m: Match<K>) {
    m.resolution in {AmbiguousBoost, FuzzyBoost}
  }

  predicate Eligible(names: seq<string>) {
    exists i :: 0 <= i < |names| && names[i] != ""
  }

  function Score(lexicon: Lexicon, hint: string, names: seq<string>): real {
    if |names| == 0 then 0.0
    else if |names| == 1 then lexicon.ratio(hint, names[0])
    else
      var first, rest := lexicon.ratio(hint, names[0]), Score(lexicon, hint, names[1..]);
      if first < rest then rest else first
  }

  /** The rows with the best similarity, when it is good enough. */
  predicate IsNearest<K(==)>(lexicon: Lexicon, hint: string, rows: set<(K, seq<string>)>, row: (K, seq<string>)) {
    && row in rows && Eligible(row.1) && Score(lexicon, hint, row.1) >= FUZZY_HINT_MINIMUM
    && forall other :: other in rows && Eligible(other.1) ==> Score(lexicon, hint, other.1) <= Score(lexicon, hint, row.1)
  }

  function FuzzyMatches<K(==)>(lexicon: Lexicon, hint: string, rows: set<(K, seq<string>)>): set<K> {
    if hint == "" then {} else set row | row in rows && IsNearest(lexicon, hint, rows, row) :: row.0
  }

  function Graded<K(==)>(exact: set<K>, fuzzy: set<K>): Match<K> {
    if |exact| == 1 then Match(exact, ExactScope)
    else if exact != {} then Match(exact, AmbiguousBoost)
    else if fuzzy != {} then Match(fuzzy, FuzzyBoost)
    else Match({}, NoMatch)
  }

  function DocumentNames(lexicon: Lexicon, row: Shown): seq<string> {
    [lexicon.normalize(row.title), lexicon.normalize(row.sourceFilename)]
  }

  function MatchDocument(lexicon: Lexicon, hint: string, allowed: set<DocumentId>, documents: map<DocumentId, Shown>): Match<DocumentId>
    requires allowed <= documents.Keys
  {
    var id := lexicon.asDocument(hint);
    if id.Some? && id.value in allowed then Match({id.value}, ExactScope)
    else
      var normalized := lexicon.normalize(hint);
      Graded((set d | d in allowed && normalized in DocumentNames(lexicon, documents[d])),
             FuzzyMatches(lexicon, normalized, (set d | d in allowed :: (d, DocumentNames(lexicon, documents[d])))))
  }

  function MatchCollection(lexicon: Lexicon, hint: string, collections: map<CollectionId, string>): Match<CollectionId> {
    var id := lexicon.asCollection(hint);
    if id.Some? && id.value in collections then Match({id.value}, ExactScope)
    else
      var normalized := lexicon.normalize(hint);
      Graded((set k | k in collections && lexicon.normalize(collections[k]) == normalized),
             FuzzyMatches(lexicon, normalized, (set k | k in collections :: (k, [lexicon.normalize(collections[k])]))))
  }

  function MatchHeading(lexicon: Lexicon, hint: string, sections: set<SectionRow>): Match<SectionId> {
    var id := lexicon.asSection(hint);
    if id.Some? && exists row :: row in sections && row.section.id == id.value then Match({id.value}, ExactScope)
    else
      var normalized := lexicon.normalize(hint);
      var paths := set row | row in sections && row.section.pathLexical == normalized :: row.section.id;
      var headings := set row | row in sections && row.section.headingLexical == normalized :: row.section.id;
      Graded(if paths != {} then paths else headings,
             FuzzyMatches(lexicon, normalized,
                          (set row | row in sections :: (row.section.id, [row.section.headingLexical, row.section.pathLexical]))))
  }

  /** A section is under another when it is in the same version and its path continues the other's. */
  predicate Under(row: SectionRow, root: SectionRow) {
    row.version == root.version
    && (row.section.pathLexical == root.section.pathLexical || root.section.pathLexical + " / " <= row.section.pathLexical)
  }

  function Expand(roots: set<SectionId>, sections: set<SectionRow>): set<SectionId> {
    set row, root | row in sections && root in sections && root.section.id in roots && Under(row, root) :: row.section.id
  }

  /** The documents in any of the collections. */
  function MembersOf(c: CorpusView, ks: set<CollectionId>): set<DocumentId> {
    set p | p in c.memberships && p.1 in ks :: p.0
  }

  /** What the explicitly named documents and collections leave of the manifest. */
  function Requested(c: CorpusView, ds: set<DocumentId>, ks: set<CollectionId>): set<DocumentId> {
    set d | d in c.documents && (ds == {} || d in ds) && (ks == {} || d in MembersOf(c, ks))
  }

  function ExplicitDecisions(ds: set<DocumentId>, ks: set<CollectionId>): seq<HintDecision> {
    (if ds != {} then [DocumentDecision("explicit", ExplicitScope, ds)] else [])
    + (if ks != {} then [CollectionDecision("explicit", ExplicitScope, ks)] else [])
  }

  /** What the hints of one kind add up to: the decisions, the boosts, and the union of the exact matches. */
  datatype Findings<K> = Findings(decisions: seq<HintDecision>, boosts: seq<HintBoost>, exact: set<K>)

  function Noted<K>(f: Findings<K>, decision: HintDecision, boosts: seq<HintBoost>, exact: set<K>): Findings<K> {
    Findings(f.decisions + [decision], f.boosts + boosts, f.exact + exact)
  }

  function FindDocuments(lexicon: Lexicon, hints: seq<string>, allowed: set<DocumentId>, documents: map<DocumentId, Shown>): Findings<DocumentId>
    requires allowed <= documents.Keys
  {
    if hints == [] then Findings([], [], {})
    else
      var hint := hints[|hints| - 1];
      NoteDocuments(FindDocuments(lexicon, hints[..|hints| - 1], allowed, documents), hint, MatchDocument(lexicon, hint, allowed, documents))
  }

  function NoteDocuments(f: Findings<DocumentId>, hint: string, m: Match<DocumentId>): Findings<DocumentId> {
    Noted(f, DocumentDecision(hint, m.resolution, m.ids),
          if Boosts(m) && m.ids != {} then [DocumentBoost(hint, m.ids)] else [],
          if m.resolution == ExactScope then m.ids else {})
  }

  /** The exact matches of collection hints are counted in documents, through the memberships. */
  function FindCollections(lexicon: Lexicon, hints: seq<string>, c: CorpusView): Findings<DocumentId> {
    if hints == [] then Findings([], [], {})
    else
      var hint := hints[|hints| - 1];
      NoteCollections(FindCollections(lexicon, hints[..|hints| - 1], c), hint, MatchCollection(lexicon, hint, c.collections), c)
  }

  function NoteCollections(f: Findings<DocumentId>, hint: string, m: Match<CollectionId>, c: CorpusView): Findings<DocumentId> {
    Noted(f, CollectionDecision(hint, m.resolution, m.ids),
          if Boosts(m) && MembersOf(c, m.ids) != {} then [DocumentBoost(hint, MembersOf(c, m.ids))] else [],
          if m.resolution == ExactScope then MembersOf(c, m.ids) else {})
  }

  function FindSections(lexicon: Lexicon, hints: seq<string>, sections: set<SectionRow>): Findings<SectionId> {
    if hints == [] then Findings([], [], {})
    else
      var hint := hints[|hints| - 1];
      NoteSections(FindSections(lexicon, hints[..|hints| - 1], sections), hint, MatchHeading(lexicon, hint, sections), sections)
  }

  function NoteSections(f: Findings<SectionId>, hint: string, m: Match<SectionId>, sections: set<SectionRow>): Findings<SectionId> {
    Noted(f, HeadingDecision(hint, m.resolution, m.ids, |Expand(m.ids, sections)|),
          if Boosts(m) && Expand(m.ids, sections) != {} then [SectionBoost(hint, Expand(m.ids, sections))] else [],
          if m.resolution == ExactScope then Expand(m.ids, sections) else {})
  }

  predicate NarrowsCollections(decisions: seq<HintDecision>) {
    exists x :: x in decisions && x.CollectionDecision? && x.resolution == ExactScope
  }

  function AfterDocumentHints(requested: set<DocumentId>, f: Findings<DocumentId>): set<DocumentId> {
    if f.exact != {} then requested * f.exact else requested
  }

  function AfterCollectionHints(allowed: set<DocumentId>, f: Findings<DocumentId>): set<DocumentId> {
    if NarrowsCollections(f.decisions) then allowed * f.exact else allowed
  }

  function VersionsOf(c: CorpusView, ds: set<DocumentId>): set<VersionId>
    requires ds <= c.documents.Keys
  {
    set d | d in ds :: c.documents[d].version
  }

  function SectionsIn(c: CorpusView, vs: set<VersionId>): set<SectionRow> {
    set row | row in c.sections && row.version in vs
  }

  /** The documents in scope once every document and collection restriction is applied. */
  function ScopedDocuments(lexicon: Lexicon, c: CorpusView, plan: Plan, ds: set<DocumentId>, ks: set<CollectionId>): set<DocumentId> {
    var requested := Requested(c, ds, ks);
    AfterCollectionHints(AfterDocumentHints(requested, FindDocuments(lexicon, plan.documentHints, requested, c.documents)),
                         FindCollections(lexicon, plan.collectionHints, c))
  }

  /** The scope the resolver builds for a view of the corpus. */
  function Resolve(lexicon: Lexicon, c: CorpusView, plan: Plan, ds: set<DocumentId>, ks: set<CollectionId>): Result<ResolvedScope, ScopeError> {
    if !(ds <= c.documents.Keys) || !(ks <= c.collections.Keys) then Err(ScopeNotFound)
    else
      var requested := Requested(c, ds, ks);
      var f := FindDocuments(lexicon, plan.documentHints, requested, c.documents);
      var k := FindCollections(lexicon, plan.collectionHints, c);
      var documents := ScopedDocuments(lexicon, c, plan, ds, ks);
      var versions := VersionsOf(c, documents);
      var h := FindSections(lexicon, plan.headingHints, SectionsIn(c, versions));
      Ok(ResolvedScope(c.generation, c.revision, documents, versions, if h.exact != {} then Some(h.exact) else None,
                       ExplicitDecisions(ds, ks) + (f.decisions + k.decisions) + h.decisions,
                       (f.boosts + k.boosts) + h.boosts))
  }

  /** What every loop over hints does with a match. */
  method NoteHint<K(==)>(decisions: seq<HintDecision>, boosts: seq<HintBoost>, exact: set<K>,
                         decision: HintDecision, resolution: Resolution, found: set<K>, boost: HintBoost)
    returns (d: seq<HintDecision>, b: seq<HintBoost>, e: set<K>)
    ensures Findings(d, b, e) == Noted(Findings(decisions, boosts, exact), decision,
                                       if resolution in {AmbiguousBoost, FuzzyBoost} && found != {} then [boost] else [],
                                       if resolution == ExactScope then found else {})
  {
    d, b, e := decisions + [decision], boosts, exact;
    if resolution == ExactScope {
      e := e + found;
    } else if resolution in {AmbiguousBoost, FuzzyBoost} && found != {} {
      b := b + [boost];
    }
  }

  method ResolveDocumentHints(lexicon: Lexicon, hints: seq<string>, allowed: set<DocumentId>, documents: map<DocumentId, Shown>)
    returns (decisions: seq<HintDecision>, boosts: seq<HintBoost>, exact: set<DocumentId>)
    requires allowed <= documents.Keys
    ensures Findings(decisions, boosts, exact) == FindDocuments(lexicon, hints, allowed, documents)
  {
    decisions, boosts, exact := [], [], {};
    for i := 0 to |hints|
      invariant Findings(decisions, boosts, exact) == FindDocuments(lexicon, hints[..i], allowed, documents)
    {
      assert hints[..i + 1][..i] == hints[..i];
      var m := MatchDocument(lexicon, hints[i], allowed, documents);
      var found := m.ids;
      decisions, boosts, exact := NoteHint(decisions, boosts, exact, DocumentDecision(hints[i], m.resolution, m.ids),
                                            m.resolution, found, DocumentBoost(hints[i], found));
    }
    assert hints[..|hints|] == hints;
  }

  lemma CollectionsStep(lexicon: Lexicon, hints: seq<string>, i: nat, c: CorpusView)
    requires i < |hints|
    ensures var m := MatchCollection(lexicon, hints[i], c.collections);
            FindCollections(lexicon, hints[..i + 1], c)
            == Noted(FindCollections(lexicon, hints[..i], c), CollectionDecision(hints[i], m.resolution, m.ids),
                     if m.resolution in {AmbiguousBoost, FuzzyBoost} && MembersOf(c, m.ids) != {}
                     then [DocumentBoost(hints[i], MembersOf(c, m.ids))] else [],
                     if m.resolution == ExactScope then MembersOf(c, m.ids) else {})
  {
    assert hints[..i + 1][..i] == hints[..i];
  }

  method ResolveCollectionHints(lexicon: Lexicon, hints: seq<string>, c: CorpusView)
    returns (decisions: seq<HintDecision>, boosts: seq<HintBoost>, exact: set<DocumentId>)
    ensures Findings(decisions, boosts, exact) == FindCollections(lexicon, hints, c)
  {
    decisions, boosts, exact := [], [], {};
    for i := 0 to |hints|
      invariant Findings(decisions, boosts, exact) == FindCollections(lexicon, hints[..i], c)
    {
      CollectionsStep(lexicon, hints, i, c);
      var m := MatchCollection(lexicon, hints[i], c.collections);
      var found := MembersOf(c, m.ids);
      decisions, boosts, exact := NoteHint(decisions, boosts, exact, CollectionDecision(hints[i], m.resolution, m.ids),
                                            m.resolution, found, DocumentBoost(hints[i], found));
    }
    assert hints[..|hints|] == hints;
  }

  method ResolveHeadingHints(lexicon: Lexicon, hints: seq<string>, sections: set<SectionRow>)
    returns (decisions: seq<HintDecision>, boosts: seq<HintBoost>, exact: set<SectionId>)
    ensures Findings(decisions, boosts, exact) == FindSections(lexicon, hints, sections)
  {
    decisions, boosts, exact := [], [], {};
    for i := 0 to |hints|
      invariant Findings(decisions, boosts, exact) == FindSections(lexicon, hints[..i], sections)
    {
      assert hints[..i + 1][..i] == hints[..i];
      var m := MatchHeading(lexicon, hints[i], sections);
      var found := Expand(m.ids, sections);
      decisions, boosts, exact := NoteHint(decisions, boosts, exact, HeadingDecision(hints[i], m.resolution, m.ids, |found|),
                                            m.resolution, found, SectionBoost(hints[i], found));
    }
    assert hints[..|hints|] == hints;
  }

  method ApplyExplicitScope(c: CorpusView, ds: set<DocumentId>, ks: set<CollectionId>)
    returns (allowed: set<DocumentId>, decisions: seq<HintDecision>)
    ensures allowed == Requested(c, ds, ks) && decisions == ExplicitDecisions(ds, ks)
  {
    allowed, decisions := c.documents.Keys, [];
    if ds != {} {
      allowed := allowed * ds;
      decisions := decisions + [DocumentDecision("explicit", ExplicitScope, ds)];
    }
    if ks != {} {
      allowed := allowed * MembersOf(c, ks);
      decisions := decisions + [CollectionDecision("explicit", ExplicitScope, ks)];
    }
  }

  /** The stages that narrow the documents. */
  method NarrowDocuments(lexicon: Lexicon, c: CorpusView, plan: Plan, requested: set<DocumentId>)
    returns (allowed: set<DocumentId>, decisions: seq<HintDecision>, boosts: seq<HintBoost>)
    requires requested <= c.documents.Keys
    ensures var f, k := FindDocuments(lexicon, plan.documentHints, requested, c.documents), FindCollections(lexicon, plan.collectionHints, c);
            && allowed == AfterCollectionHints(AfterDocumentHints(requested, f), k)
            && decisions == f.decisions + k.decisions && boosts == f.boosts + k.boosts
  {
    allowed := requested;
    var d, documentBoosts, documentScope := ResolveDocumentHints(lexicon, plan.documentHints, allowed, c.documents);
    if documentScope != {} {
      allowed := allowed * documentScope;
    }
    var k, collectionBoosts, collectionScope := ResolveCollectionHints(lexicon, plan.collectionHints, c);
    if NarrowsCollections(k) {
      allowed := allowed * collectionScope;
    }
    decisions, boosts := d + k, documentBoosts + collectionBoosts;
  }

  /** `MetadataResolver.resolve`. */
  method ResolveScope(lexicon: Lexicon, c: CorpusView, plan: Plan, ds: set<DocumentId>, ks: set<CollectionId>)
    returns (r: Result<ResolvedScope, ScopeError>)
    ensures r == Resolve(lexicon, c, plan, ds, ks)
  {
    if !(ds <= c.documents.Keys) || !(ks <= c.collections.Keys) {
      return Err(ScopeNotFound);
    }
    var requested, explicit := ApplyExplicitScope(c, ds, ks);
    var allowed, decisions, boosts := NarrowDocuments(lexicon, c, plan, requested);
    var versions := VersionsOf(c, allowed);
    var h, headingBoosts, hard := ResolveHeadingHints(lexicon, plan.headingHints, SectionsIn(c, versions));
    r := Ok(ResolvedScope(c.generation, c.revision, allowed, versions, if hard != {} then Some(hard) else None,
                          explicit + decisions + h, boosts + headingBoosts));
  }
}
