/** Runs in which every staging of a version writes the sections its file is parsed into.

    A version's file and its document's type never change, and section identifiers are computed from the version and
    the path, so parsing a version again gives the same rows. On such runs only garbage collection can make the
    retrieval cache lie, however many workers hold one job. */
module ParsedRuns {
  import opened Wrappers
  import opened Corpus
  import opened IngestionJobs
  import opened Reconcile
  import opened Documents
  import opened CorpusProgress
  import opened Service
  import opened DisciplinedRuns
  import opened ExposureRuns
  import opened Scope
  import opened RetrievalCache

  type Parser = VersionId -> set<Section>

  predicate StagesParsed(y: Service, e: Event, parse: Parser) {
    e.Persist? && e.worker in y.workers ==> e.sections == parse(y.workers[e.worker].version)
  }

  ghost predicate ParsedRun(ys: seq<Service>, es: seq<Event>, parse: Parser) {
    Run(ys, es) && forall i :: 0 <= i < |es| ==> StagesParsed(ys[i], es[i], parse)
  }

  /** The section rows of a version are those of its file, or gone. */
  predicate RowsParsed(s: State, parse: Parser, v: VersionId) {
    v in s.sections ==> s.sections[v] == parse(v)
  }

  lemma FailureLeavesSections(s: State, u: VersionId, now: int)
    ensures MarkFailedTx(s, u, now).state.sections == s.sections
  {
    if MarkFailedTx(s, u, now).outcome == Committed && u in s.versions && s.versions[u].status != Active {
      assert Abandon(FailVersion(FailJob(s, u, now), u), u).sections == s.sections;
    }
  }

  lemma PipelineLeavesSections(y: Service, e: Event)
    requires Enabled(y, e) && (e.Start? || e.MarkReady? || e.Activate? || e.Heartbeat? || e.MarkFailed?)
    ensures Apply(y, e).db.sections == y.db.sections
  {
    if e.MarkFailed? {
      FailureLeavesSections(y.db, y.workers[e.worker].version, e.now);
    }
  }

  lemma TombstoneLeavesSections(s: State, d: DocumentId, newId: GenerationId, now: int)
    ensures TombstoneTx(s, d, newId, now).state.sections == s.sections
  {
  }

  lemma UploadLeavesSections(s: State, target: Option<DocumentId>, newDocument: DocumentId, v: VersionId,
                             title: string, filename: string, mime: string, collections: set<CollectionId>, now: int)
    ensures UploadTx(s, target, newDocument, v, title, filename, mime, collections, now).state.sections == s.sections
  {
  }

  lemma CollectionRouteLeavesSections(y: Service, e: Event)
    requires Enabled(y, e) && IsCollectionRoute(e)
    ensures Apply(y, e).db.sections == y.db.sections
  {
  }

  lemma RouteLeavesSections(y: Service, e: Event)
    requires Enabled(y, e) && IsRoute(e)
    ensures Apply(y, e).db.sections == y.db.sections
  {
    if e.Delete? {
      TombstoneLeavesSections(y.db, e.document, e.newGeneration, e.now);
    } else if e.Upload? {
      UploadLeavesSections(y.db, e.target, e.newDocument, e.newVersion, e.title, e.filename, e.mime, e.collections, e.now);
    } else if IsCollectionRoute(e) {
      CollectionRouteLeavesSections(y, e);
    } else {
      assert Apply(y, e).db.sections == y.db.sections;
    }
  }

  lemma DropLeavesSections(s: State, vs: set<VersionId>, parse: Parser, v: VersionId)
    requires RowsParsed(s, parse, v)
    ensures RowsParsed(DropPointsTx(s, vs), parse, v) && RowsParsed(DropFilesTx(s, vs), parse, v) && RowsParsed(DropRowsTx(s, vs), parse, v)
  {
  }

  lemma PersistParses(s: State, u: VersionId, newId: GenerationId, sections: set<Section>, chunks: nat, now: int, parse: Parser, v: VersionId)
    requires RowsParsed(s, parse, v) && sections == parse(u)
    ensures RowsParsed(PersistTx(s, u, newId, sections, chunks, now).state, parse, v)
  {
  }

  lemma EventKeepsParsed(y: Service, e: Event, parse: Parser, v: VersionId)
    requires Enabled(y, e) && StagesParsed(y, e, parse) && RowsParsed(y.db, parse, v)
    ensures RowsParsed(Apply(y, e).db, parse, v)
  {
    if e.Persist? {
      PersistParses(y.db, y.workers[e.worker].version, e.newGeneration, e.sections, e.chunks, e.now, parse, v);
    } else if IsDrop(e) {
      var it := y.collectors[e.collector];
      DropLeavesSections(y.db, if e.DropFile? then {e.version} else it.superseded + it.failed, parse, v);
    } else if IsRoute(e) {
      RouteLeavesSections(y, e);
    } else if e.Start? || e.MarkReady? || e.Activate? || e.Heartbeat? || e.MarkFailed? {
      PipelineLeavesSections(y, e);
    } else {
      assert Apply(y, e).db.sections == y.db.sections;
    }
  }

  lemma {:induction false} RunIsParsed(ys: seq<Service>, es: seq<Event>, parse: Parser, i: nat, v: VersionId)
    requires ParsedRun(ys, es, parse) && i < |ys|
    ensures RowsParsed(ys[i].db, parse, v)
  {
    if i > 0 {
      RunIsParsed(ys, es, parse, i - 1, v);
      EventKeepsParsed(ys[i - 1], es[i - 1], parse, v);
    }
  }

  /** The event stages an exposed version whose section rows were deleted. */
  predicate Refills(y: Service, e: Event) {
    && e.Persist? && e.worker in y.workers && Current(y.db, y.workers[e.worker].version)
    && SectionsOf(y.db, y.workers[e.worker].version) == {} && e.sections != {}
  }

  /** Staging an exposed version again changes what the resolver sees only when its rows are gone. */
  lemma RestagesIsRefills(y: Service, e: Event, parse: Parser)
    requires StagesParsed(y, e, parse) && (e.Persist? && e.worker in y.workers ==> RowsParsed(y.db, parse, y.workers[e.worker].version))
    ensures Restages(y, e) <==> Refills(y, e)
  {
  }

  lemma RestagesInRun(ys: seq<Service>, es: seq<Event>, parse: Parser, k: nat)
    requires ParsedRun(ys, es, parse) && k < |es|
    ensures Restages(ys[k], es[k]) <==> Refills(ys[k], es[k])
  {
    if es[k].Persist? {
      RunIsParsed(ys, es, parse, k, ys[k].workers[es[k].worker].version);
    }
    RestagesIsRefills(ys[k], es[k], parse);
  }

  /** On every parsed run, with any number of workers on a job: the cache is coherent exactly when no event deletes the
      rows of an exposed version or brings back rows that are gone. */
  lemma ParsedCacheCoherentExactly(ys: seq<Service>, es: seq<Event>, parse: Parser)
    requires ParsedRun(ys, es, parse)
    ensures History(ViewsOf(ys)) <==> forall k :: 0 <= k < |es| ==> !Refills(ys[k], es[k]) && !exists v :: Strips(ys[k], es[k], v)
  {
    CacheCoherentExactly(ys, es);
    forall k | 0 <= k < |es|
      ensures Breaks(ys[k], es[k]) <==> Refills(ys[k], es[k]) || exists v :: Strips(ys[k], es[k], v)
    {
      RestagesInRun(ys, es, parse, k);
    }
  }

  lemma RowsKeptBreaksNothing(y: Service, e: Event, parse: Parser)
    requires ServiceOk(y) && Enabled(y, e) && StagesParsed(y, e, parse) && (forall v :: RowsParsed(y.db, parse, v))
    requires AllHave(y.db, Rows) && !Harms(y, e, Rows)
    ensures !Breaks(y, e)
  {
    if e.Persist? {
      assert RowsParsed(y.db, parse, y.workers[e.worker].version);
    }
    forall v
      ensures !Strips(y, e, v)
    {
      assert Strips(y, e, v) ==> Current(y.db, v) && Takes(y, e, Rows, v);
    }
  }

  /** So it is enough that exposed versions keep their rows. */
  lemma KeptRowsKeepCache(ys: seq<Service>, es: seq<Event>, parse: Parser)
    requires ParsedRun(ys, es, parse) && forall k :: 0 <= k < |es| ==> !Harms(ys[k], es[k], Rows)
    ensures History(ViewsOf(ys))
  {
    ExposedHavePayloadExactly(ys, es, Rows);
    forall k | 0 <= k < |es|
      ensures !Breaks(ys[k], es[k])
    {
      RunIsOk(ys, es, k);
      forall v ensures RowsParsed(ys[k].db, parse, v) {
        RunIsParsed(ys, es, parse, k, v);
      }
      assert AllHave(ys[k].db, Rows);
      RowsKeptBreaksNothing(ys[k], es[k], parse);
    }
    CacheCoherentExactly(ys, es);
  }

  /** Whatever a collector deletes the rows of was idle when it took its snapshot, and not taken up since. */
  ghost predicate Undisturbed(ys: seq<Service>, es: seq<Event>, i: nat, j: nat, c: CollectorId)
    requires |es| < |ys| && j < |es|
  {
    Holds(ys, es, i, j, c) && es[j].DropRows? && es[j].collector == c ==>
      forall v :: v in ys[j].collectors[c].failed ==> NoRunner(ys[i], v) && forall k :: i <= k < j ==> !Restarts(ys[k], es[k], v)
  }

  ghost predicate UndisturbedRun(ys: seq<Service>, es: seq<Event>) {
    Run(ys, es) && forall i: nat, j: nat, c {:trigger Undisturbed(ys, es, i, j, c)} :: j < |es| ==> Undisturbed(ys, es, i, j, c)
  }

  lemma {:induction false} SnapshotOf(ys: seq<Service>, es: seq<Event>, j: nat, c: CollectorId) returns (i: nat)
    requires Steps(ys, es) && j <= |es| && c in ys[j].collectors
    ensures Holds(ys, es, i, j, c)
    decreases j
  {
    var n := j - 1;
    assert n >= 0 ==> Step(ys, es, n);
    if es[n].Snapshot? && es[n].collector == c {
      i := n;
    } else {
      ListKept(ys[n], ys[j], es[n], c);
      i := SnapshotOf(ys, es, n, c);
    }
  }

  /** A listed version whose rows are about to go is done with, or hidden with no worker on it. */
  lemma StrippedIsIdle(ys: seq<Service>, es: seq<Event>, j: nat, v: VersionId)
    requires UndisturbedRun(ys, es) && j < |es| && es[j].DropRows? && Listed(ys[j], es[j].collector, v)
    ensures !Current(ys[j].db, v) && (Done(ys[j].db, v) || NoRunner(ys[j], v))
  {
    var c := es[j].collector;
    RunSteps(ys, es);
    assert Step(ys, es, j) && CollectorOk(ys[j], c);
    if v in ys[j].collectors[c].failed {
      var i := SnapshotOf(ys, es, j, c);
      assert Undisturbed(ys, es, i, j, c);
      HeldList(ys, es, i, j, c);
      FailedIsHidden(ys, es, i, c, v);
      HiddenAlong(ys, es, i, j, v);
    }
  }

  /** The worker has staged its version. */
  predicate Past(stage: Stage) {
    Running(stage) && stage != Started && stage != Parsed
  }

  /** A worker that has staged its version, which may still be activated, finds the rows it staged. */
  predicate StagedOk(y: Service, w: WorkerId) {
    w in y.workers && Past(y.workers[w].stage) && !Done(y.db, y.workers[w].version) ==> HasRows(y.db, y.workers[w].version)
  }

  lemma PersistStages(y: Service, e: Event)
    requires Enabled(y, e) && e.Persist?
    ensures StagedOk(Apply(y, e), e.worker)
  {
  }

  lemma OwnStepMoves(y: Service, e: Event, w: WorkerId)
    requires Enabled(y, e) && StepOf(e, w) && !e.Persist? && w in Apply(y, e).workers && Past(Apply(y, e).workers[w].stage)
    ensures w in y.workers && Past(y.workers[w].stage)
  {
  }

  lemma PastMoves(y: Service, e: Event, w: WorkerId)
    requires Enabled(y, e) && w in Apply(y, e).workers && Past(Apply(y, e).workers[w].stage) && !(e.Persist? && e.worker == w)
    ensures w in y.workers && Past(y.workers[w].stage) && y.workers[w].version == Apply(y, e).workers[w].version
  {
    WorkerMoves(y, e, w);
    if StepOf(e, w) {
      OwnStepMoves(y, e, w);
    }
  }

  lemma EventKeepsStaged(y: Service, e: Event, w: WorkerId)
    requires ServiceOk(y) && Enabled(y, e) && StagedOk(y, w)
    requires e.DropRows? ==> forall v :: Listed(y, e.collector, v) ==> Done(y.db, v) || NoRunner(y, v)
    ensures StagedOk(Apply(y, e), w)
  {
    if e.Persist? && e.worker == w {
      PersistStages(y, e);
    } else if w in Apply(y, e).workers && Past(Apply(y, e).workers[w].stage) {
      var v := Apply(y, e).workers[w].version;
      PastMoves(y, e, w);
      EventKeepsServiceOk(y, e);
      assert VersionProgress(y.db, Apply(y, e).db, v) && WorkerOk(y, w);
      PayloadMoves(y, e, Rows, v);
    }
  }

  lemma {:induction false} RunIsStaged(ys: seq<Service>, es: seq<Event>, i: nat, w: WorkerId)
    requires UndisturbedRun(ys, es) && i < |ys|
    ensures StagedOk(ys[i], w)
  {
    if i > 0 {
      var n := i - 1;
      RunIsStaged(ys, es, n, w);
      RunIsOk(ys, es, n);
      if es[n].DropRows? {
        forall v | Listed(ys[n], es[n].collector, v)
          ensures Done(ys[n].db, v) || NoRunner(ys[n], v)
        {
          StrippedIsIdle(ys, es, n, v);
        }
      }
      EventKeepsStaged(ys[n], es[n], w);
    }
  }

  lemma ActivationNeedsRows(y: Service, e: Event, v: VersionId)
    requires ServiceOk(y) && Enabled(y, e) && Exposes(y, e, v) && StagedOk(y, e.worker)
    ensures HasRows(y.db, v)
  {
  }

  lemma UndisturbedHarmsNoRows(ys: seq<Service>, es: seq<Event>, k: nat)
    requires UndisturbedRun(ys, es) && k < |es|
    ensures !Harms(ys[k], es[k], Rows)
  {
    RunIsOk(ys, es, k);
    if v :| Current(ys[k].db, v) && Takes(ys[k], es[k], Rows, v) {
      StrippedIsIdle(ys, es, k, v);
    }
    if v :| Exposes(ys[k], es[k], v) && !Has(ys[k].db, Rows, v) {
      RunIsStaged(ys, es, k, es[k].worker);
      ActivationNeedsRows(ys[k], es[k], v);
    }
  }

  /** With any number of workers on a job: as long as no failed candidate of a row deletion is taken up between snapshot
      and deletion, what the corpus exposes never lacks its rows. */
  lemma UndisturbedKeepsRows(ys: seq<Service>, es: seq<Event>)
    requires UndisturbedRun(ys, es)
    ensures forall i :: 0 <= i < |ys| ==> AllHave(ys[i].db, Rows)
  {
    forall k | 0 <= k < |es|
      ensures !Harms(ys[k], es[k], Rows)
    {
      UndisturbedHarmsNoRows(ys, es, k);
    }
    ExposedHavePayloadExactly(ys, es, Rows);
  }

  /** And the retrieval cache needs no invalidation. */
  lemma UndisturbedCacheIsCoherent(ys: seq<Service>, es: seq<Event>, parse: Parser)
    requires ParsedRun(ys, es, parse) && UndisturbedRun(ys, es)
    ensures History(ViewsOf(ys))
  {
    forall k | 0 <= k < |es|
      ensures !Harms(ys[k], es[k], Rows)
    {
      UndisturbedHarmsNoRows(ys, es, k);
    }
    KeptRowsKeepCache(ys, es, parse);
  }
}
