/** The states that runs reach, and the way through the pipeline: nothing is ever stuck. */
module Reachability {
  import opened Wrappers
  import opened Corpus
  import opened IngestionJobs
  import opened Documents
  import opened Service
  import opened ParsedRuns

  /** Some run ends in the state, and every staging in it writes what the file is parsed into. */
  ghost predicate Reached(y: Service, parse: Parser) {
    exists ys, es :: ParsedRun(ys, es, parse) && y == ys[|es|]
  }

  lemma FirstReached(parse: Parser)
    ensures Reached(FIRST, parse)
  {
    assert ParsedRun([FIRST], [], parse);
  }

  lemma NextReached(y: Service, e: Event, parse: Parser)
    requires Reached(y, parse) && Enabled(y, e) && StagesParsed(y, e, parse)
    ensures Reached(Apply(y, e), parse)
  {
    var ys, es :| ParsedRun(ys, es, parse) && y == ys[|es|];
    var more, events := ys + [Apply(y, e)], es + [e];
    assert ParsedRun(more, events, parse);
    assert more[|events|] == Apply(y, e);
  }

  lemma ReachedIsOk(y: Service, parse: Parser)
    requires Reached(y, parse)
    ensures ServiceOk(y)
  {
    var ys, es :| ParsedRun(ys, es, parse) && y == ys[|es|];
    RunIsOk(ys, es, |es|);
  }

  lemma FreshGeneration(gs: set<GenerationId>) returns (g: GenerationId)
    ensures g !in gs
  {
    if gs == {} {
      g := 0;
    } else {
      LastExists(gs);
      var last :| IsLast(last, gs);
      g := last + 1;
    }
  }

  /** What bringing version v through the pipeline leaves alone until it is exposed. */
  ghost predicate Untouched(s: State, t: State) {
    && t.documents == s.documents && t.collections == s.collections && t.memberships == s.memberships
    && t.versions.Keys == s.versions.Keys && t.activeGeneration == s.activeGeneration && ActiveManifest(t) == ActiveManifest(s)
    && s.files <= t.files && forall u {:trigger SameVersion(s, t, u)} :: SameVersion(s, t, u)
  }

  /** Worker w has brought version v to this stage, starting from y. */
  ghost predicate UnderWay(y: Service, z: Service, parse: Parser, v: VersionId, w: WorkerId, stage: Stage) {
    && Reached(z, parse) && Untouched(y.db, z.db)
    && z.collectors == y.collectors && z.workers.Keys == y.workers.Keys + {w}
    && z.workers[w].stage == stage && z.workers[w].version == v && v in z.db.jobs && v in z.db.versions
    && z.db.jobs[v].status != JobSucceeded && (stage != Starting ==> z.db.jobs[v].status == JobProcessing)
    && (Past(stage) ==> z.workers[w].generation.Some?)
    && (stage in {Indexed, Validated, Marked} ==> v in z.db.points)
    && z.db.sections == if Past(stage) then y.db.sections[v := parse(v)] else y.db.sections
  }

  /** Version v is not exposed, nothing newer is, and its job can still be done. */
  predicate Exposable(s: State, v: VersionId) {
    && v in s.versions && v in s.jobs && v in s.files && s.jobs[v].status != JobSucceeded
    && s.versions[v].document in s.documents
    && var row := s.documents[s.versions[v].document];
       && !row.deleted
       && (row.activeVersion.Some? ==>
             row.activeVersion.value in s.versions && s.versions[row.activeVersion.value].number < s.versions[v].number)
  }

  lemma Begun(y: Service, parse: Parser, v: VersionId, w: WorkerId) returns (z: Service)
    requires Reached(y, parse) && Exposable(y.db, v) && w !in y.workers
    ensures UnderWay(y, z, parse, v, w, Starting)
  {
    NextReached(y, Begin(w, v), parse);
    z := Apply(y, Begin(w, v));
  }

  /** A time at which the last lease on the job is over. */
  function AfterLease(s: State, v: VersionId): int
    requires v in s.jobs
  {
    if s.jobs[v].heartbeat.Some? then s.jobs[v].heartbeat.value + 1 else 0
  }

  lemma StartTakes(s: State, t: State, v: VersionId)
    requires Untouched(s, t) && v in t.jobs && v in t.versions && t.jobs[v].status != JobSucceeded && t.versions[v].document in t.documents
    ensures var tx := StartTx(t, v, AfterLease(t, v), 0);
            && tx.outcome == Committed && Untouched(s, tx.state) && tx.state.sections == t.sections
            && v in tx.state.jobs && v in tx.state.versions && tx.state.jobs[v].status == JobProcessing
  {
    var tx := StartTx(t, v, AfterLease(t, v), 0);
    forall u ensures SameVersion(s, tx.state, u) {
      assert SameVersion(s, t, u);
    }
  }

  lemma StartedUp(y: Service, x: Service, parse: Parser, v: VersionId, w: WorkerId) returns (z: Service)
    requires UnderWay(y, x, parse, v, w, Starting)
    ensures UnderWay(y, z, parse, v, w, Started)
  {
    ReachedIsOk(x, parse);
    assert VersionOk(x.db, v);
    StartTakes(y.db, x.db, v);
    NextReached(x, Start(w, AfterLease(x.db, v), 0), parse);
    z := Apply(x, Start(w, AfterLease(x.db, v), 0));
  }

  lemma ParsedOnce(y: Service, x: Service, parse: Parser, v: VersionId, w: WorkerId) returns (z: Service)
    requires UnderWay(y, x, parse, v, w, Started) && v in y.db.files
    ensures UnderWay(y, z, parse, v, w, Parsed)
  {
    NextReached(x, Parse(w), parse);
    z := Apply(x, Parse(w));
  }

  lemma PersistTakes(s: State, t: State, v: VersionId, g: GenerationId, sections: set<Section>)
    requires Consistent(t) && Untouched(s, t) && v in t.jobs && v in t.versions && g !in t.generations
    ensures var tx := PersistTx(t, v, g, sections, 1, 0);
            && tx.outcome == Committed && Untouched(s, tx.state) && tx.state.sections == t.sections[v := sections]
            && v in tx.state.jobs && v in tx.state.versions && tx.state.jobs[v].status == t.jobs[v].status
  {
    var tx := PersistTx(t, v, g, sections, 1, 0);
    PersistKeepsConsistent(t, v, g, sections, 1, 0);
    forall u ensures SameVersion(s, tx.state, u) {
      assert SameVersion(s, t, u);
    }
  }

  lemma ReachedByPersist(x: Service, parse: Parser, w: WorkerId, v: VersionId, g: GenerationId) returns (z: Service)
    requires Reached(x, parse) && At(x, w, Parsed) && x.workers[w].version == v && g !in x.db.generations
    requires PersistTx(x.db, v, g, parse(v), 1, 0).outcome == Committed
    ensures Reached(z, parse)
    ensures z == x.(db := PersistTx(x.db, v, g, parse(v), 1, 0).state,
                    workers := x.workers[w := Worker(Persisted, v, Some(Target(x.db, v, g)))])
  {
    var e := Persist(w, g, parse(v), 1, 0);
    NextReached(x, e, parse);
    z := Apply(x, e);
  }

  lemma StagedUp(y: Service, x: Service, parse: Parser, v: VersionId, w: WorkerId) returns (z: Service)
    requires UnderWay(y, x, parse, v, w, Parsed)
    ensures UnderWay(y, z, parse, v, w, Persisted)
  {
    ReachedIsOk(x, parse);
    var g := FreshGeneration(x.db.generations.Keys);
    PersistTakes(y.db, x.db, v, g, parse(v));
    z := ReachedByPersist(x, parse, w, v, g);
  }

  lemma PointsLeave(s: State, t: State, points: set<VersionId>)
    requires Untouched(s, t)
    ensures Untouched(s, t.(points := points))
  {
    forall u ensures SameVersion(s, t.(points := points), u) {
      assert SameVersion(s, t, u);
    }
  }

  lemma ReachedByClearing(x: Service, parse: Parser, w: WorkerId) returns (z: Service)
    requires Reached(x, parse) && At(x, w, Persisted)
    ensures Reached(z, parse)
    ensures z == x.(db := x.db.(points := x.db.points - {x.workers[w].version}), workers := x.workers[w := x.workers[w].(stage := Cleared)])
  {
    NextReached(x, ClearPoints(w), parse);
    z := Apply(x, ClearPoints(w));
  }

  lemma ReachedByIndexing(x: Service, parse: Parser, w: WorkerId) returns (z: Service)
    requires Reached(x, parse) && At(x, w, Cleared)
    ensures Reached(z, parse)
    ensures z == x.(db := x.db.(points := x.db.points + {x.workers[w].version}), workers := x.workers[w := x.workers[w].(stage := Indexed)])
  {
    NextReached(x, IndexPoints(w), parse);
    z := Apply(x, IndexPoints(w));
  }

  lemma ReachedByValidating(x: Service, parse: Parser, w: WorkerId) returns (z: Service)
    requires Reached(x, parse) && At(x, w, Indexed) && x.workers[w].version in x.db.points
    ensures Reached(z, parse) && z == x.(workers := x.workers[w := x.workers[w].(stage := Validated)])
  {
    NextReached(x, Validate(w), parse);
    z := Apply(x, Validate(w));
  }

  lemma ClearedUp(y: Service, x: Service, parse: Parser, v: VersionId, w: WorkerId) returns (z: Service)
    requires UnderWay(y, x, parse, v, w, Persisted)
    ensures UnderWay(y, z, parse, v, w, Cleared)
  {
    z := ReachedByClearing(x, parse, w);
    PointsLeave(y.db, x.db, x.db.points - {v});
  }

  lemma IndexedUp(y: Service, x: Service, parse: Parser, v: VersionId, w: WorkerId) returns (z: Service)
    requires UnderWay(y, x, parse, v, w, Cleared)
    ensures UnderWay(y, z, parse, v, w, Indexed)
  {
    z := ReachedByIndexing(x, parse, w);
    PointsLeave(y.db, x.db, x.db.points + {v});
  }

  lemma ValidatedOnce(y: Service, x: Service, parse: Parser, v: VersionId, w: WorkerId) returns (z: Service)
    requires UnderWay(y, x, parse, v, w, Indexed)
    ensures UnderWay(y, z, parse, v, w, Validated)
  {
    z := ReachedByValidating(x, parse, w);
  }

  lemma MarkTakes(s: State, t: State, v: VersionId)
    requires Untouched(s, t) && v in t.jobs && v in t.versions && t.jobs[v].status == JobProcessing
    ensures var tx := MarkReadyTx(t, v, 0);
            && tx.outcome == Committed && Untouched(s, tx.state) && tx.state.sections == t.sections && tx.state.points == t.points
            && v in tx.state.jobs && v in tx.state.versions && tx.state.jobs[v].status == JobProcessing
  {
    var tx := MarkReadyTx(t, v, 0);
    forall u ensures SameVersion(s, tx.state, u) {
      assert SameVersion(s, t, u);
    }
  }

  lemma ReachedByMarking(x: Service, parse: Parser, w: WorkerId) returns (z: Service)
    requires Reached(x, parse) && At(x, w, Validated) && MarkReadyTx(x.db, x.workers[w].version, 0).outcome == Committed
    ensures Reached(z, parse)
    ensures z == x.(db := MarkReadyTx(x.db, x.workers[w].version, 0).state, workers := x.workers[w := x.workers[w].(stage := Marked)])
  {
    NextReached(x, MarkReady(w, 0), parse);
    z := Apply(x, MarkReady(w, 0));
  }

  lemma MarkedReady(y: Service, x: Service, parse: Parser, v: VersionId, w: WorkerId) returns (z: Service)
    requires UnderWay(y, x, parse, v, w, Validated)
    ensures UnderWay(y, z, parse, v, w, Marked)
  {
    MarkTakes(y.db, x.db, v);
    z := ReachedByMarking(x, parse, w);
  }

  /** Version v is exposed, and nothing else has changed that the resolver reads. */
  predicate Switched(s: State, t: State, v: VersionId, sections: set<Section>) {
    && v in s.versions && s.versions[v].document in s.documents
    && var d := s.versions[v].document;
       && t.documents == s.documents[d := s.documents[d].(activeVersion := Some(v))]
       && ActiveManifest(t) == ActiveManifest(s)[d := v] && t.activeGeneration.Some?
       && t.collections == s.collections && t.memberships == s.memberships
       && t.versions.Keys == s.versions.Keys && t.sections == s.sections[v := sections]
  }

  lemma ActivationSwitches(s: State, t: State, v: VersionId, g: GenerationId, sections: set<Section>)
    requires Consistent(t) && Exposable(s, v) && Untouched(s, t) && v in t.jobs && t.jobs[v].status == JobProcessing
    requires g in t.generations && t.generations[g].changed == Some(v)
    requires t.sections == s.sections[v := sections]
    ensures var tx := ActivateTx(t, v, g, 0);
            tx.outcome == Committed && Switched(s, tx.state, v, sections)
  {
    assert SameVersion(s, t, v);
    var current := s.documents[s.versions[v].document].activeVersion;
    if current.Some? {
      assert SameVersion(s, t, current.value);
    }
    ActivationCommitsExactly(t, v, g, 0, s.versions[v].document);
    ActivationSwitchesOneDocument(t, v, g, 0);
    assert Exposed(t) == ActiveManifest(s);
  }

  lemma SwitchedAtLast(y: Service, x: Service, parse: Parser, v: VersionId, w: WorkerId) returns (z: Service)
    requires UnderWay(y, x, parse, v, w, Marked) && Exposable(y.db, v) && w !in y.workers
    ensures Reached(z, parse) && Switched(y.db, z.db, v, parse(v))
    ensures z.workers.Keys == y.workers.Keys && z.collectors == y.collectors
  {
    ReachedIsOk(x, parse);
    assert WorkerOk(x, w);
    ActivationSwitches(y.db, x.db, v, x.workers[w].generation.value, parse(v));
    NextReached(x, Activate(w, 0), parse);
    z := Apply(x, Activate(w, 0));
  }

  /** Nothing is ever stuck: from every reached state, a version with its file whose job is not done, of a live document
      that exposes nothing newer, can be brought to exposure, whatever happened to its job before. */
  lemma Finish(y: Service, parse: Parser, v: VersionId, w: WorkerId) returns (z: Service)
    requires Reached(y, parse) && Exposable(y.db, v) && w !in y.workers
    ensures Reached(z, parse) && Switched(y.db, z.db, v, parse(v))
    ensures z.workers.Keys == y.workers.Keys && z.collectors == y.collectors
  {
    z := Begun(y, parse, v, w);
    z := StartedUp(y, z, parse, v, w);
    z := ParsedOnce(y, z, parse, v, w);
    z := StagedUp(y, z, parse, v, w);
    z := ClearedUp(y, z, parse, v, w);
    z := IndexedUp(y, z, parse, v, w);
    z := ValidatedOnce(y, z, parse, v, w);
    z := MarkedReady(y, z, parse, v, w);
    z := SwitchedAtLast(y, z, parse, v, w);
  }

  /** A new document and its first version. */
  datatype Publication = Publication(document: DocumentId, version: VersionId, title: string, filename: string, mime: string,
                                     collections: set<CollectionId>)

  predicate Publishable(y: Service, p: Publication, w: WorkerId) {
    p.document !in y.db.documents && p.version !in y.db.versions && w !in y.workers && p.collections <= LiveCollections(y.db)
  }

  /** The document is exposed, and nothing else has changed that the resolver reads. */
  predicate Published(s: State, t: State, p: Publication, sections: set<Section>) {
    && t.documents == s.documents[p.document := Document(p.title, p.filename, p.mime, Some(p.version), false)]
    && ActiveManifest(t) == ActiveManifest(s)[p.document := p.version] && t.activeGeneration.Some?
    && t.collections == s.collections && t.memberships == s.memberships + (set k | k in p.collections :: (p.document, k))
    && t.versions.Keys == s.versions.Keys + {p.version}
    && t.sections == s.sections[p.version := sections]
  }

  /** The document is there and exposes nothing yet. */
  predicate Drafted(s: State, t: State, p: Publication) {
    && Exposable(t, p.version) && t.versions[p.version].document == p.document
    && t.documents == s.documents[p.document := Document(p.title, p.filename, p.mime, None, false)]
    && t.collections == s.collections && t.memberships == s.memberships + (set k | k in p.collections :: (p.document, k))
    && t.versions.Keys == s.versions.Keys + {p.version}
    && ActiveManifest(t) == ActiveManifest(s) && t.sections == s.sections
  }

  lemma UploadDrafts(s: State, p: Publication)
    requires p.document !in s.documents && p.version !in s.versions && p.collections <= LiveCollections(s)
    ensures var tx := UploadTx(s, None, p.document, p.version, p.title, p.filename, p.mime, p.collections, 0);
            tx.outcome == Committed && Drafted(s, tx.state, p)
  {
  }

  lemma DraftIsPublished(s: State, t: State, u: State, p: Publication, sections: set<Section>)
    requires Drafted(s, t, p) && Switched(t, u, p.version, sections)
    ensures Published(s, u, p, sections)
  {
  }

  /** From every reached state a run goes on to expose a new document, whatever other jobs and collections are under way. */
  lemma Publish(y: Service, parse: Parser, p: Publication, w: WorkerId) returns (z: Service)
    requires Reached(y, parse) && Publishable(y, p, w)
    ensures Reached(z, parse) && Published(y.db, z.db, p, parse(p.version))
    ensures z.workers.Keys == y.workers.Keys && z.collectors == y.collectors
  {
    var e := Upload(None, p.document, p.version, p.title, p.filename, p.mime, p.collections, 0);
    UploadDrafts(y.db, p);
    NextReached(y, e, parse);
    var x := Apply(y, e);
    z := Finish(x, parse, p.version, w);
    DraftIsPublished(y.db, x.db, z.db, p, parse(p.version));
  }

  lemma FreshDocument(ds: set<DocumentId>) returns (d: DocumentId)
    ensures forall x :: x in ds ==> x < d
  {
    d := 0;
    if ds != {} {
      var x :| x in ds;
      var e := FreshDocument(ds - {x});
      d := if e <= x then x + 1 else e;
      assert forall y :: y in ds ==> y == x || y in ds - {x};
    }
  }

  /** Version v of document d is there, newer than what is exposed, and the rest of what the resolver reads is as it was. */
  predicate Queued(s: State, t: State, d: DocumentId, v: VersionId) {
    && Exposable(t, v) && t.versions[v].document == d
    && t.documents == s.documents && t.collections == s.collections && t.memberships == s.memberships
    && t.versions.Keys == s.versions.Keys + {v} && ActiveManifest(t) == ActiveManifest(s) && t.sections == s.sections
  }

  lemma UploadQueues(s: State, d: DocumentId, unused: DocumentId, v: VersionId)
    requires Consistent(s) && d in s.documents && !s.documents[d].deleted && v !in s.versions
    ensures var tx := UploadTx(s, Some(d), unused, v, s.documents[d].title, "", s.documents[d].mime, {}, 0);
            tx.outcome == Committed && Queued(s, tx.state, d, v)
  {
    assert DocumentOk(s, d);
    var current := s.documents[d].activeVersion;
    assert current.Some? ==> s.versions[current.value].number in Numbers(s, d);
  }

  lemma ReindexQueues(s: State, d: DocumentId, v: VersionId)
    requires Consistent(s) && d in s.documents && !s.documents[d].deleted && v !in s.versions
    requires s.documents[d].activeVersion.Some? && s.documents[d].activeVersion.value in s.files
    ensures var tx := ReindexTx(s, d, v, 0);
            tx.outcome == Committed && Queued(s, tx.state, d, v)
  {
    assert DocumentOk(s, d);
    assert s.versions[s.documents[d].activeVersion.value].number in Numbers(s, d);
  }

  /** Document d exposes version v now, and nothing else has changed that the resolver reads. */
  predicate Replaced(s: State, t: State, d: DocumentId, v: VersionId, sections: set<Section>) {
    && d in s.documents && t.documents == s.documents[d := s.documents[d].(activeVersion := Some(v))]
    && ActiveManifest(t) == ActiveManifest(s)[d := v] && t.activeGeneration.Some?
    && t.collections == s.collections && t.memberships == s.memberships
    && t.versions.Keys == s.versions.Keys + {v} && t.sections == s.sections[v := sections]
  }

  /** And so it does to expose a new version of any live document, whether it exposes one already or not. */
  lemma PublishVersion(y: Service, parse: Parser, d: DocumentId, v: VersionId, w: WorkerId) returns (z: Service)
    requires Reached(y, parse) && d in y.db.documents && !y.db.documents[d].deleted && v !in y.db.versions && w !in y.workers
    ensures Reached(z, parse) && Replaced(y.db, z.db, d, v, parse(v))
    ensures z.workers.Keys == y.workers.Keys && z.collectors == y.collectors
  {
    ReachedIsOk(y, parse);
    var unused := FreshDocument(y.db.documents.Keys);
    var e := Upload(Some(d), unused, v, y.db.documents[d].title, "", y.db.documents[d].mime, {}, 0);
    UploadQueues(y.db, d, unused, v);
    NextReached(y, e, parse);
    z := Finish(Apply(y, e), parse, v, w);
  }

  /** The same by reindexing what is exposed. */
  lemma Reindexed(y: Service, parse: Parser, d: DocumentId, v: VersionId, w: WorkerId) returns (z: Service)
    requires Reached(y, parse) && d in y.db.documents && !y.db.documents[d].deleted && v !in y.db.versions && w !in y.workers
    requires y.db.documents[d].activeVersion.Some? && y.db.documents[d].activeVersion.value in y.db.files
    ensures Reached(z, parse) && Replaced(y.db, z.db, d, v, parse(v))
    ensures z.workers.Keys == y.workers.Keys && z.collectors == y.collectors
  {
    ReachedIsOk(y, parse);
    ReindexQueues(y.db, d, v);
    NextReached(y, Reindex(d, v, 0), parse);
    z := Finish(Apply(y, Reindex(d, v, 0)), parse, v, w);
  }
}
