/** The retrieval cache (backend/app/rag/service.py): results are kept under the generation, the revision, the plan and
    the explicit identifiers, and never invalidated.

    A hit is right only if the revision changes whenever anything the resolver reads changes. */
module RetrievalCache {
  import opened Wrappers
  import opened Corpus
  import opened IngestionJobs
  import opened Documents
  import opened Reconcile
  import opened CorpusProgress
  import opened Service
  import opened DisciplinedRuns
  import opened Scope

  /** Tables the resolver reads that agree on everything the manifest reaches give one view. */
  lemma SameTablesSameView(s: State, t: State)
    requires s.activeGeneration == t.activeGeneration && s.revision == t.revision && ActiveManifest(s) == ActiveManifest(t)
    requires s.collections == t.collections
    requires forall d :: d in ActiveManifest(s) ==> SameRow(s, t, d)
    ensures View(s) == View(t)
  {
    assert forall d :: d in ActiveManifest(s) ==> SameRow(s, t, d);
    assert ShownDocuments(s) == ShownDocuments(t);
    assert LiveNames(s) == LiveNames(t);
    assert View(s).memberships == View(t).memberships;
    assert View(s).sections == View(t).sections;
  }

  /** Document d looks the same to the resolver. */
  ghost predicate SameRow(s: State, t: State, d: DocumentId) {
    && (d in s.documents <==> d in t.documents)
    && (d in s.documents ==> s.documents[d] == t.documents[d])
    && (forall k :: (d, k) in s.memberships <==> (d, k) in t.memberships)
    && (d in ActiveManifest(s) ==> SectionsOf(s, ActiveManifest(s)[d]) == SectionsOf(t, ActiveManifest(s)[d]))
  }

  lemma ManifestIsCurrent(s: State, d: DocumentId)
    requires Consistent(s) && d in ActiveManifest(s)
    ensures d in s.documents && Current(s, ActiveManifest(s)[d]) && s.versions[ActiveManifest(s)[d]].document == d
  {
    assert d in Exposed(s) && DocumentOk(s, d);
  }

  lemma UploadKeepsView(y: Service, e: Event)
    requires ServiceOk(y) && Enabled(y, e) && e.Upload? && Consistent(Apply(y, e).db) && Progress(y.db, Apply(y, e).db)
    ensures View(Apply(y, e).db) == View(y.db)
  {
    var s, tx := y.db, UploadTx(y.db, e.target, e.newDocument, e.newVersion, e.title, e.filename, e.mime, e.collections, e.now);
    if tx.outcome == Committed {
      forall d | d in ActiveManifest(s)
        ensures SameRow(s, tx.state, d)
      {
        ManifestIsCurrent(s, d);
        assert d != e.newDocument;
        UploadLeavesOthers(s, e.target, e.newDocument, e.newVersion, e.title, e.filename, e.mime, e.collections, e.now, d);
      }
      SameTablesSameView(s, tx.state);
    }
  }

  /** Uploading touches no other document's row or memberships, and no staged sections. */
  lemma UploadLeavesOthers(s: State, target: Option<DocumentId>, newDocument: DocumentId, v: VersionId,
                           title: string, filename: string, mime: string, collections: set<CollectionId>, now: int, d: DocumentId)
    requires UploadTx(s, target, newDocument, v, title, filename, mime, collections, now).outcome == Committed
    requires d != newDocument && newDocument !in s.documents
    ensures SameRow(s, UploadTx(s, target, newDocument, v, title, filename, mime, collections, now).state, d)
  {
    if target.None? {
      var mid := AddDocument(s, newDocument, title, filename, mime, collections);
      assert SameRow(s, mid, d);
      assert SameRow(s, AddVersion(mid, newDocument, v, NextNumber(s, newDocument), now), d);
    } else {
      assert SameRow(s, AddVersion(s, target.value, v, NextNumber(s, target.value), now), d);
    }
  }

  /** The sections of an exposed version are what the resolver sees of it. */
  lemma SectionShown(s: State, v: VersionId, x: Section)
    requires Consistent(s) && Current(s, v)
    ensures SectionRow(v, x) in View(s).sections <==> x in SectionsOf(s, v)
  {
    var d := s.versions[v].document;
    assert DocumentOk(s, d) && d in Exposed(s) && ActiveManifest(s)[d] == v;
    assert d in ShownDocuments(s) && ShownDocuments(s)[d].version == v;
  }

  lemma SameViewSameSections(s: State, t: State, v: VersionId)
    requires Consistent(s) && Consistent(t) && Current(s, v) && Current(t, v) && View(s) == View(t)
    ensures SectionsOf(s, v) == SectionsOf(t, v)
  {
    forall x ensures x in SectionsOf(s, v) <==> x in SectionsOf(t, v) {
      SectionShown(s, v, x);
      SectionShown(t, v, x);
    }
  }

  /** The event stages other sections for an exposed version. */
  predicate Restages(y: Service, e: Event) {
    && e.Persist? && e.worker in y.workers && Current(y.db, y.workers[e.worker].version)
    && SectionsOf(y.db, y.workers[e.worker].version) != e.sections
  }

  predicate Strips(y: Service, e: Event, v: VersionId) {
    && e.DropRows? && e.collector in y.collectors && v in y.collectors[e.collector].failed
    && Current(y.db, v) && SectionsOf(y.db, v) != {}
  }

  /** The two ways to change what the resolver sees without moving the revision: staging an exposed version again, and
      deleting the rows of a failed candidate that is exposed. */
  ghost predicate Breaks(y: Service, e: Event) {
    Restages(y, e) || exists v :: Strips(y, e, v)
  }

  lemma PersistSections(s: State, u: VersionId, newId: GenerationId, sections: set<Section>, chunks: nat, now: int, v: VersionId)
    requires Consistent(s) && newId !in s.generations && PersistTx(s, u, newId, sections, chunks, now).outcome == Committed
    ensures var t := PersistTx(s, u, newId, sections, chunks, now).state;
            && SectionsOf(t, v) == (if v == u then sections else SectionsOf(s, v))
            && (Current(t, v) <==> Current(s, v))
            && t.documents == s.documents && t.memberships == s.memberships && t.collections == s.collections
            && t.activeGeneration == s.activeGeneration && t.revision == s.revision
  {
  }

  lemma PersistKeepsView(y: Service, e: Event)
    requires ServiceOk(y) && Enabled(y, e) && e.Persist?
    ensures View(Apply(y, e).db) == View(y.db) <==> !Restages(y, e)
    ensures Apply(y, e).db.revision == y.db.revision
  {
    var s, u := y.db, y.workers[e.worker].version;
    var tx := PersistTx(s, u, e.newGeneration, e.sections, e.chunks, e.now);
    assert VersionOk(s, u);
    if tx.outcome == Committed {
      PersistKeepsConsistent(s, u, e.newGeneration, e.sections, e.chunks, e.now);
      PersistSections(s, u, e.newGeneration, e.sections, e.chunks, e.now, u);
      if Restages(y, e) {
        if View(tx.state) == View(s) {
          SameViewSameSections(s, tx.state, u);
        }
      } else {
        forall d | d in ActiveManifest(s)
          ensures SameRow(s, tx.state, d)
        {
          ManifestIsCurrent(s, d);
          PersistSections(s, u, e.newGeneration, e.sections, e.chunks, e.now, ActiveManifest(s)[d]);
        }
        SameTablesSameView(s, tx.state);
      }
    }
  }

  lemma DropSections(s: State, vs: set<VersionId>, v: VersionId)
    ensures var t := DropRowsTx(s, vs);
            SectionsOf(t, v) == (if v in vs then {} else SectionsOf(s, v)) && (Current(t, v) <==> Current(s, v))
  {
  }

  /** Deleting the rows of some versions changes the view exactly when one of them is exposed and has sections. */
  lemma DropKeepsView(s: State, vs: set<VersionId>)
    requires Consistent(s)
    ensures View(DropRowsTx(s, vs)) == View(s) <==> forall v :: v in vs && Current(s, v) ==> SectionsOf(s, v) == {}
  {
    var t := DropRowsTx(s, vs);
    DropKeepsConsistent(s, vs);
    if v :| v in vs && Current(s, v) && SectionsOf(s, v) != {} {
      DropSections(s, vs, v);
      if View(t) == View(s) {
        SameViewSameSections(s, t, v);
      }
    } else {
      forall d | d in ActiveManifest(s)
        ensures SameRow(s, t, d)
      {
        ManifestIsCurrent(s, d);
        DropSections(s, vs, ActiveManifest(s)[d]);
      }
      SameTablesSameView(s, t);
    }
  }

  lemma DropRowsKeepsView(y: Service, e: Event)
    requires ServiceOk(y) && Enabled(y, e) && e.DropRows?
    ensures View(Apply(y, e).db) == View(y.db) <==> !exists v :: Strips(y, e, v)
    ensures Apply(y, e).db.revision == y.db.revision
  {
    var it := y.collectors[e.collector];
    assert CollectorOk(y, e.collector);
    DropKeepsView(y.db, it.superseded + it.failed);
    forall v | v in it.superseded + it.failed && Current(y.db, v) && SectionsOf(y.db, v) != {}
      ensures Strips(y, e, v)
    {
    }
  }

  /** Steps that move nothing the resolver reads. */
  lemma StatusKeepsView(s: State, t: State)
    requires t == s.(versions := t.versions, jobs := t.jobs, generations := t.generations, points := t.points, files := t.files, chunks := t.chunks)
    ensures View(t) == View(s)
  {
    assert forall d :: d in ActiveManifest(s) ==> SameRow(s, t, d);
    SameTablesSameView(s, t);
  }

  lemma WorkerStepKeepsView(y: Service, e: Event)
    requires Enabled(y, e) && (e.Start? || e.MarkReady? || e.Heartbeat? || e.MarkFailed? || e.ClearPoints? || e.IndexPoints?)
    ensures View(Apply(y, e).db) == View(y.db)
  {
    if e.MarkFailed? {
      FailureKeepsView(y.db, y.workers[e.worker].version, e.now);
    } else if e.Start? {
      StatusKeepsView(y.db, StartTx(y.db, y.workers[e.worker].version, e.now, e.timeout).state);
    } else if e.MarkReady? {
      StatusKeepsView(y.db, MarkReadyTx(y.db, y.workers[e.worker].version, e.now).state);
    } else if e.Heartbeat? {
      StatusKeepsView(y.db, HeartbeatTx(y.db, y.workers[e.worker].version, e.now).state);
    } else {
      StatusKeepsView(y.db, Apply(y, e).db);
    }
  }

  lemma FailureKeepsView(s: State, v: VersionId, now: int)
    ensures View(MarkFailedTx(s, v, now).state) == View(s)
  {
    if MarkFailedTx(s, v, now).outcome == Committed {
      if v in s.versions && s.versions[v].status != Active {
        StatusKeepsView(s, Abandon(FailVersion(FailJob(s, v, now), v), v));
      } else {
        StatusKeepsView(s, FailJob(s, v, now));
      }
    }
  }

  lemma OtherStepKeepsView(y: Service, e: Event)
    requires Enabled(y, e) && (e.Reindex? || e.Enqueue? || e.DropPoints? || e.DropFile?)
    ensures View(Apply(y, e).db) == View(y.db)
  {
    StatusKeepsView(y.db, Apply(y, e).db);
  }

  /** A step that changes a table the resolver reads in place moves the revision. */
  lemma CommitBumpsRevision(y: Service, e: Event)
    requires Enabled(y, e)
    requires e.Activate? || e.Delete? || e.CreateCollection? || e.UpdateCollection? || e.DeleteCollection? || e.AddMember? || e.RemoveMember?
    ensures Apply(y, e).db == y.db || Apply(y, e).db.revision == y.db.revision + 1
  {
  }

  lemma OtherEventKeepsView(y: Service, e: Event)
    requires ServiceOk(y) && Enabled(y, e) && !e.Persist? && !e.DropRows?
    ensures View(Apply(y, e).db) == View(y.db) || Apply(y, e).db.revision > y.db.revision
  {
    if e.Upload? {
      EventKeepsServiceOk(y, e);
      UploadKeepsView(y, e);
    } else if e.Start? || e.MarkReady? || e.Heartbeat? || e.MarkFailed? || e.ClearPoints? || e.IndexPoints? {
      WorkerStepKeepsView(y, e);
    } else if e.Reindex? || e.Enqueue? || e.DropPoints? || e.DropFile? {
      OtherStepKeepsView(y, e);
    } else if IsQuiet(e) {
      assert Apply(y, e).db == y.db;
    } else {
      CommitBumpsRevision(y, e);
    }
  }

  /** The revision tells the two states apart if the resolver can. */
  predicate Honest(s: State, t: State) {
    View(t) == View(s) || t.revision > s.revision
  }

  lemma PersistIsHonestExactly(y: Service, e: Event)
    requires ServiceOk(y) && Enabled(y, e) && e.Persist?
    ensures Honest(y.db, Apply(y, e).db) <==> !Breaks(y, e)
  {
    PersistKeepsView(y, e);
    assert forall v :: !Strips(y, e, v);
  }

  lemma DropRowsIsHonestExactly(y: Service, e: Event)
    requires ServiceOk(y) && Enabled(y, e) && e.DropRows?
    ensures Honest(y.db, Apply(y, e).db) <==> !Breaks(y, e)
  {
    DropRowsKeepsView(y, e);
    assert !Restages(y, e);
  }

  lemma OtherIsHonest(y: Service, e: Event)
    requires ServiceOk(y) && Enabled(y, e) && !e.Persist? && !e.DropRows?
    ensures Honest(y.db, Apply(y, e).db) && !Breaks(y, e)
  {
    OtherEventKeepsView(y, e);
  }

  /** A step leaves what the resolver sees alone, or moves the revision, exactly when it is neither of the two. */
  lemma EventKeepsView(y: Service, e: Event)
    requires ServiceOk(y) && Enabled(y, e)
    ensures Honest(y.db, Apply(y, e).db) <==> !Breaks(y, e)
  {
    if e.Persist? {
      PersistIsHonestExactly(y, e);
    } else if e.DropRows? {
      DropRowsIsHonestExactly(y, e);
    } else {
      OtherIsHonest(y, e);
    }
  }

  /** Over steps of which none is one of the two, one revision means one view. */
  lemma {:induction false} RevisionFixesView(ys: seq<Service>, es: seq<Event>, i: nat, j: nat)
    requires Run(ys, es) && i <= j < |ys| && forall k :: i <= k < j ==> !Breaks(ys[k], es[k])
    ensures ys[i].db.revision == ys[j].db.revision ==> View(ys[i].db) == View(ys[j].db)
    decreases j - i
  {
    if i < j {
      RunIsOk(ys, es, i);
      EventKeepsView(ys[i], es[i]);
      RunProgresses(ys, es, i, i + 1);
      RunProgresses(ys, es, i + 1, j);
      RevisionFixesView(ys, es, i + 1, j);
    }
  }

  lemma BreakShows(ys: seq<Service>, es: seq<Event>, k: nat)
    requires Run(ys, es) && k < |es| && Breaks(ys[k], es[k])
    ensures View(ys[k].db) != View(ys[k + 1].db) && ys[k].db.revision == ys[k + 1].db.revision
  {
    RunIsOk(ys, es, k);
    EventKeepsView(ys[k], es[k]);
    RunProgresses(ys, es, k, k + 1);
  }

  /** With one live worker per job, and no job restarted under a collector that lists its version, neither happens. */
  lemma SafeBreaksNothing(y: Service, e: Event)
    requires Safe(y) && Enabled(y, e)
    ensures !Breaks(y, e)
  {
    if Restages(y, e) {
      CurrentHasNoRunner(y, y.workers[e.worker].version);
    }
    if v :| Strips(y, e, v) {
      ListedIsIdle(y, e.collector, v);
    }
  }

  datatype Key = Key(generation: Option<GenerationId>, revision: nat, plan: Plan, documents: set<DocumentId>, collections: set<CollectionId>)

  datatype RetrievalResult = RetrievalResult(plan: Plan, scope: ResolvedScope, candidates: seq<nat>, cacheHit: bool)

  /** Views that were current at some time, no two with one revision. */
  ghost predicate History(seen: set<CorpusView>) {
    forall a, b :: a in seen && b in seen && a.revision == b.revision ==> a == b
  }

  /** Candidates are searched only for a knowledge question with something in scope. */
  predicate Searched(plan: Plan, scope: ResolvedScope) {
    plan.intent == "knowledge" && scope.versions != {}
  }

  /** The entry under a key was resolved from the view of its time. */
  ghost predicate EntryOk(lexicon: Lexicon, seen: set<CorpusView>, k: Key, entry: RetrievalResult) {
    && entry.plan == k.plan && (!Searched(k.plan, entry.scope) ==> entry.candidates == [])
    && exists c :: c in seen && c.generation == k.generation && c.revision == k.revision
                   && Resolve(lexicon, c, k.plan, k.documents, k.collections) == Ok(entry.scope)
  }

  class RetrievalService {
    const lexicon: Lexicon
    var cache: map<Key, RetrievalResult>

    constructor (lexicon: Lexicon)
      ensures this.lexicon == lexicon && cache == map[]
    {
      this.lexicon := lexicon;
      cache := map[];
    }

    ghost predicate Coherent(seen: set<CorpusView>)
      reads this
    {
      History(seen) && forall k :: k in cache ==> EntryOk(lexicon, seen, k, cache[k])
    }

    /** The cache is Redis: entries expire, and a read or a write may fail. */
    method Expire(k: Key, ghost seen: set<CorpusView>)
      requires Coherent(seen)
      modifies this`cache
      ensures Coherent(seen) && cache == map x | x in old(cache) && x != k :: old(cache)[x]
    {
      cache := map x | x in cache && x != k :: cache[x];
    }

    /** `retrieve`, after planning. The search results are what the retriever would return now. */
    method Retrieve(c: CorpusView, plan: Plan, ds: set<DocumentId>, ks: set<CollectionId>,
                    search: seq<nat>, readable: bool, writable: bool, ghost seen: set<CorpusView>)
      returns (r: Result<RetrievalResult, ScopeError>)
      requires Coherent(seen) && c in seen
      modifies this`cache
      ensures Coherent(seen)
      ensures r.Ok? <==> Resolve(lexicon, c, plan, ds, ks).Ok?
      ensures r.Err? ==> cache == old(cache)
      ensures r.Ok? ==> r.value.plan == plan && Resolve(lexicon, c, plan, ds, ks) == Ok(r.value.scope)
      ensures r.Ok? && (plan.intent != "knowledge" || r.value.scope.versions == {}) ==> r.value.candidates == []
      ensures r.Ok? ==> var k := Key(c.generation, c.revision, plan, ds, ks);
                if readable && k in old(cache) then r.value == old(cache)[k].(cacheHit := true) && cache == old(cache)
                else
                  && !r.value.cacheHit
                  && (plan.intent == "knowledge" && r.value.scope.versions != {} ==> r.value.candidates == search)
                  && cache == if writable then old(cache)[k := r.value] else old(cache)
    {
      var resolved := ResolveScope(lexicon, c, plan, ds, ks);
      if resolved.Err? {
        return Err(resolved.error);
      }
      var scope := resolved.value;
      var key := Key(scope.generation, scope.revision, plan, ds, ks);
      if readable && key in cache {
        HitIsFresh(lexicon, c, seen, key, cache[key]);
        return Ok(cache[key].(cacheHit := true));
      }
      var candidates := [];
      if Searched(plan, scope) {
        candidates := search;
      }
      var result := RetrievalResult(plan, scope, candidates, false);
      if writable {
        cache := cache[key := result];
      }
      return Ok(result);
    }
  }

  /** A hit carries the scope a fresh resolution would build. */
  lemma HitIsFresh(lexicon: Lexicon, c: CorpusView, seen: set<CorpusView>, k: Key, entry: RetrievalResult)
    requires History(seen) && c in seen && EntryOk(lexicon, seen, k, entry) && k.revision == c.revision
    ensures Resolve(lexicon, c, k.plan, k.documents, k.collections) == Ok(entry.scope)
  {
  }

  /** What the retrieval service may have seen of a run. */
  ghost function ViewsOf(ys: seq<Service>): set<CorpusView> {
    set i | 0 <= i < |ys| :: View(ys[i].db)
  }

  /** On every run: no two views that the cache can have been filled from clash exactly when no event is one of the two. */
  lemma CacheCoherentExactly(ys: seq<Service>, es: seq<Event>)
    requires Run(ys, es)
    ensures History(ViewsOf(ys)) <==> forall k :: 0 <= k < |es| ==> !Breaks(ys[k], es[k])
  {
    if forall k :: 0 <= k < |es| ==> !Breaks(ys[k], es[k]) {
      forall a, b | a in ViewsOf(ys) && b in ViewsOf(ys) && a.revision == b.revision
        ensures a == b
      {
        var i :| 0 <= i < |ys| && a == View(ys[i].db);
        var j :| 0 <= j < |ys| && b == View(ys[j].db);
        RevisionFixesView(ys, es, if i < j then i else j, if i < j then j else i);
      }
    } else {
      var k :| 0 <= k < |es| && Breaks(ys[k], es[k]);
      BreakShows(ys, es, k);
      assert View(ys[k].db) in ViewsOf(ys) && View(ys[k + 1].db) in ViewsOf(ys);
    }
  }

  /** So the cache of a disciplined run needs no invalidation. */
  lemma CacheNeedsNoInvalidation(ys: seq<Service>, es: seq<Event>)
    requires DisciplinedRun(ys, es)
    ensures History(ViewsOf(ys))
  {
    forall k | 0 <= k < |es|
      ensures !Breaks(ys[k], es[k])
    {
      DisciplinedRunIsSafe(ys, es, k);
      SafeBreaksNothing(ys[k], es[k]);
    }
    CacheCoherentExactly(ys, es);
  }
}
