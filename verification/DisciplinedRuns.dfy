/** Runs with at most one live worker per job, in which no job is restarted while a collector holds its failed version.

    The lease on a job is a timeout, so the code alone does not guarantee either; with both, what the corpus exposes
    is always active and complete. */
module DisciplinedRuns {
  import opened Wrappers
  import opened Corpus
  import opened IngestionJobs
  import opened Reconcile
  import opened Documents
  import Collections
  import opened CorpusProgress
  import opened Service

  /** The two assumptions, event by event. */
  ghost predicate Disciplined(y: Service, e: Event) {
    && (e.Begin? ==> forall w :: w in y.workers ==> y.workers[w].version != e.version)
    && (e.Start? && e.worker in y.workers ==>
          forall c :: c in y.collectors ==> y.workers[e.worker].version !in y.collectors[c].failed)
  }

  ghost predicate DisciplinedRun(ys: seq<Service>, es: seq<Event>) {
    Run(ys, es) && forall i :: 0 <= i < |es| ==> Disciplined(ys[i], es[i])
  }

  predicate Running(stage: Stage) {
    stage != Starting && stage != Failing
  }

  predicate HasRows(s: State, v: VersionId) {
    v in s.sections && v in s.chunks
  }

  /** Everything a reader needs of a version: its rows, its index points and its raw file. */
  predicate Complete(s: State, v: VersionId) {
    HasRows(s, v) && v in s.points && v in s.files
  }

  predicate DocumentDeleted(s: State, v: VersionId) {
    v in s.versions && Deleted(s, s.versions[v].document)
  }

  /** A running worker owns its job, unless the document was deleted under it. */
  predicate WorkerSafe(y: Service, w: WorkerId) {
    w in y.workers && Running(y.workers[w].stage) && !DocumentDeleted(y.db, y.workers[w].version) ==>
      var v := y.workers[w].version;
      && v in y.db.versions && v in y.db.jobs
      && y.db.jobs[v].status == JobProcessing && y.db.versions[v].status in {Processing, Ready}
      && (y.workers[w].stage != Started ==> v in y.db.files)
      && (y.workers[w].stage !in {Started, Parsed} ==> HasRows(y.db, v))
      && (y.workers[w].stage in {Indexed, Validated, Marked} ==> v in y.db.points)
  }

  predicate Alone(y: Service, w: WorkerId, x: WorkerId) {
    w in y.workers && x in y.workers && w != x ==> y.workers[w].version != y.workers[x].version
  }

  predicate VersionSafe(y: Service, v: VersionId) {
    Current(y.db, v) ==> y.db.versions[v].status == Active && Complete(y.db, v)
  }

  predicate NoRunner(y: Service, v: VersionId) {
    forall w :: w in y.workers && y.workers[w].version == v ==> !Running(y.workers[w].stage)
  }

  predicate CandidateSafe(y: Service, c: CollectorId, v: VersionId) {
    c in y.collectors && v in y.collectors[c].failed ==>
      v in y.db.versions && !Current(y.db, v) && (Done(y.db, v) || NoRunner(y, v))
  }

  ghost predicate Safe(y: Service) {
    && ServiceOk(y)
    && (forall w {:trigger WorkerSafe(y, w)} :: WorkerSafe(y, w))
    && (forall w, x {:trigger Alone(y, w, x)} :: Alone(y, w, x))
    && (forall v {:trigger VersionSafe(y, v)} :: VersionSafe(y, v))
    && (forall c, v {:trigger CandidateSafe(y, c, v)} :: CandidateSafe(y, c, v))
  }

  /** The versions whose rows an event may change. */
  ghost function Touched(y: Service, e: Event): set<VersionId>
    requires Enabled(y, e)
  {
    match e
    case Start(w, _, _) => {y.workers[w].version}
    case Persist(w, _, _, _, _) => {y.workers[w].version}
    case ClearPoints(w) => {y.workers[w].version}
    case IndexPoints(w) => {y.workers[w].version}
    case MarkReady(w, _) => {y.workers[w].version}
    case MarkFailed(w, _) => {y.workers[w].version}
    case Activate(w, _) => set v | v in y.db.versions && y.workers[w].version in y.db.versions
                                   && y.db.versions[v].document == y.db.versions[y.workers[w].version].document
    case Delete(d, _, _) => set v | v in y.db.versions && y.db.versions[v].document == d
    case DropPoints(c) => y.collectors[c].superseded + y.collectors[c].failed
    case DropFile(c, _) => y.collectors[c].superseded + y.collectors[c].failed
    case DropRows(c) => y.collectors[c].superseded + y.collectors[c].failed
    case _ => {}
  }

  /** An event leaves a version alone: same statuses, nothing lost, nothing exposed or deleted. */
  predicate Calm(s: State, t: State, v: VersionId) {
    v in s.versions && v in s.jobs ==>
      && v in t.versions && v in t.jobs
      && s.versions[v].status == t.versions[v].status && s.versions[v].document == t.versions[v].document
      && (s.jobs[v].status == t.jobs[v].status || s.jobs[v].status == JobStaged)
      && (HasRows(s, v) ==> HasRows(t, v)) && (v in s.points ==> v in t.points) && (v in s.files ==> v in t.files)
      && (Current(t, v) ==> Current(s, v))
      && (DocumentDeleted(t, v) <==> DocumentDeleted(s, v))
  }

  lemma AddVersionIsCalm(s: State, d: DocumentId, u: VersionId, number: nat, now: int, v: VersionId)
    requires u !in s.versions && v in s.versions
    ensures Calm(s, AddVersion(s, d, u, number, now), v)
  {
  }

  lemma AddDocumentIsCalm(s: State, d: DocumentId, title: string, filename: string, mime: string, collections: set<CollectionId>, v: VersionId)
    requires d !in s.documents && v in s.versions && VersionOk(s, v)
    ensures Calm(s, AddDocument(s, d, title, filename, mime, collections), v)
  {
  }

  lemma UploadIsCalm(s: State, target: Option<DocumentId>, newDocument: DocumentId, u: VersionId,
                     title: string, filename: string, mime: string, collections: set<CollectionId>, now: int, v: VersionId)
    requires VersionOk(s, v) && newDocument !in s.documents && u !in s.versions && v in s.versions
    ensures Calm(s, UploadTx(s, target, newDocument, u, title, filename, mime, collections, now).state, v)
  {
    if UploadTx(s, target, newDocument, u, title, filename, mime, collections, now).outcome == Committed {
      if target.None? {
        AddDocumentIsCalm(s, newDocument, title, filename, mime, collections, v);
        AddVersionIsCalm(AddDocument(s, newDocument, title, filename, mime, collections), newDocument, u, NextNumber(s, newDocument), now, v);
      } else {
        AddVersionIsCalm(s, target.value, u, NextNumber(s, target.value), now, v);
      }
    }
  }

  lemma DeleteIsCalm(s: State, d: DocumentId, newId: GenerationId, now: int, v: VersionId)
    requires v in s.versions && s.versions[v].document != d && DocumentOk(s, d)
    ensures Calm(s, TombstoneTx(s, d, newId, now).state, v)
  {
  }

  lemma PersistIsCalm(s: State, u: VersionId, newId: GenerationId, sections: set<Section>, chunks: nat, now: int, v: VersionId)
    requires v != u
    ensures Calm(s, PersistTx(s, u, newId, sections, chunks, now).state, v)
  {
  }

  lemma ActivateIsCalm(s: State, u: VersionId, g: GenerationId, now: int, v: VersionId)
    requires v in s.versions && u in s.versions && s.versions[v].document != s.versions[u].document
    requires DocumentOk(s, s.versions[u].document)
    ensures Calm(s, ActivateTx(s, u, g, now).state, v)
  {
  }

  lemma DropIsCalm(s: State, vs: set<VersionId>, v: VersionId)
    requires v !in vs
    ensures Calm(s, DropPointsTx(s, vs), v) && Calm(s, DropFilesTx(s, vs), v) && Calm(s, DropRowsTx(s, vs), v)
  {
  }

  /** A version whose own rows stay the same is left alone. */
  lemma SameRowsAreCalm(s: State, t: State, v: VersionId)
    requires s.documents == t.documents && s.sections == t.sections && s.chunks == t.chunks && s.points == t.points && s.files == t.files
    requires v in s.versions && v in t.versions && t.versions[v] == s.versions[v]
    requires v in s.jobs ==> v in t.jobs && (t.jobs[v].status == s.jobs[v].status || s.jobs[v].status == JobStaged)
    ensures Calm(s, t, v)
  {
  }

  lemma FailureIsCalm(s: State, u: VersionId, now: int, v: VersionId)
    requires v != u && v in s.versions && u in s.versions && u in s.jobs
    ensures Calm(s, Abandon(FailVersion(FailJob(s, u, now), u), u), v)
  {
    SameRowsAreCalm(s, Abandon(FailVersion(FailJob(s, u, now), u), u), v);
  }

  lemma MarkFailedIsCalm(s: State, u: VersionId, now: int, v: VersionId)
    requires v != u && v in s.versions
    ensures Calm(s, MarkFailedTx(s, u, now).state, v)
  {
    if MarkFailedTx(s, u, now).outcome == Committed {
      if u in s.versions && s.versions[u].status != Active {
        FailureIsCalm(s, u, now, v);
      } else {
        SameRowsAreCalm(s, FailJob(s, u, now), v);
      }
    }
  }

  lemma HeartbeatIsCalm(s: State, u: VersionId, now: int, v: VersionId)
    requires v in s.versions
    ensures Calm(s, HeartbeatTx(s, u, now).state, v)
  {
    if HeartbeatTx(s, u, now).outcome == Committed {
      SameRowsAreCalm(s, HeartbeatTx(s, u, now).state, v);
    }
  }

  lemma EnqueueIsCalm(s: State, u: VersionId, now: int, v: VersionId)
    requires v in s.versions
    ensures Calm(s, EnqueueTx(s, u, now).state, v)
  {
    if EnqueueTx(s, u, now).outcome == Committed {
      SameRowsAreCalm(s, EnqueueTx(s, u, now).state, v);
    }
  }

  lemma StartIsCalm(s: State, u: VersionId, now: int, timeout: nat, v: VersionId)
    requires v != u && v in s.versions
    ensures Calm(s, StartTx(s, u, now, timeout).state, v)
  {
    if StartTx(s, u, now, timeout).outcome == Committed {
      SameRowsAreCalm(s, StartTx(s, u, now, timeout).state, v);
    }
  }

  lemma MarkReadyIsCalm(s: State, u: VersionId, now: int, v: VersionId)
    requires v != u && v in s.versions
    ensures Calm(s, MarkReadyTx(s, u, now).state, v)
  {
    if MarkReadyTx(s, u, now).outcome == Committed {
      SameRowsAreCalm(s, MarkReadyTx(s, u, now).state, v);
    }
  }

  lemma ReindexIsCalm(s: State, d: DocumentId, u: VersionId, now: int, v: VersionId)
    requires u !in s.versions && v in s.versions
    ensures Calm(s, ReindexTx(s, d, u, now).state, v)
  {
  }

  lemma CollectionIsCalm(s: State, t: State, v: VersionId)
    requires t == s.(collections := t.collections, memberships := t.memberships, revision := t.revision)
    ensures Calm(s, t, v)
  {
  }

  lemma PointsAreCalm(s: State, t: State, u: VersionId, v: VersionId)
    requires u != v && t == s.(points := t.points) && s.points - {u} <= t.points
    ensures Calm(s, t, v)
  {
  }

  predicate IsDrop(e: Event) {
    e.DropPoints? || e.DropFile? || e.DropRows?
  }

  /** Events that change no table. */
  predicate IsQuiet(e: Event) {
    e.Begin? || e.Parse? || e.Validate? || e.Raise? || e.Crash? || e.Snapshot? || e.AbandonCollection?
  }

  lemma CollectionRouteIsCalm(y: Service, e: Event, v: VersionId)
    requires Enabled(y, e) && IsCollectionRoute(e)
    ensures Calm(y.db, Apply(y, e).db, v)
  {
    var s := y.db;
    match e
    case CreateCollection(k, name) => CollectionIsCalm(s, Collections.CreateTx(s, k, name).state, v);
    case UpdateCollection(k, patch) => CollectionIsCalm(s, Collections.UpdateTx(s, k, patch).state, v);
    case DeleteCollection(k) => CollectionIsCalm(s, Collections.DeleteTx(s, k).state, v);
    case AddMember(k, d) => CollectionIsCalm(s, Collections.AddDocumentTx(s, k, d).state, v);
    case RemoveMember(k, d) => CollectionIsCalm(s, Collections.RemoveDocumentTx(s, k, d).state, v);
  }

  lemma RouteIsCalm(y: Service, e: Event, v: VersionId)
    requires ServiceOk(y) && Enabled(y, e) && IsRoute(e) && v in y.db.versions && v !in Touched(y, e)
    ensures Calm(y.db, Apply(y, e).db, v)
  {
    var s := y.db;
    if e.Upload? {
      assert VersionOk(s, v);
      UploadIsCalm(s, e.target, e.newDocument, e.newVersion, e.title, e.filename, e.mime, e.collections, e.now, v);
    } else if e.Delete? {
      assert DocumentOk(s, e.document);
      DeleteIsCalm(s, e.document, e.newGeneration, e.now, v);
    } else if e.Reindex? {
      ReindexIsCalm(s, e.document, e.newVersion, e.now, v);
    } else if e.Enqueue? {
      EnqueueIsCalm(s, e.version, e.now, v);
    } else {
      CollectionRouteIsCalm(y, e, v);
    }
  }

  lemma DropEventIsCalm(y: Service, e: Event, v: VersionId)
    requires Enabled(y, e) && IsDrop(e) && v !in Touched(y, e)
    ensures Calm(y.db, Apply(y, e).db, v)
  {
    var it := y.collectors[e.collector];
    DropIsCalm(y.db, if e.DropFile? then {e.version} else it.superseded + it.failed, v);
  }

  lemma ActivationIsCalm(y: Service, e: Event, v: VersionId)
    requires ServiceOk(y) && Enabled(y, e) && e.Activate? && v in y.db.versions && v !in Touched(y, e)
    ensures Calm(y.db, Apply(y, e).db, v)
  {
    var s, u := y.db, y.workers[e.worker].version;
    assert WorkerOk(y, e.worker) && DocumentOk(s, s.versions[u].document);
    ActivateIsCalm(s, u, y.workers[e.worker].generation.value, e.now, v);
  }

  lemma PipelineStepIsCalm(y: Service, e: Event, v: VersionId)
    requires ServiceOk(y) && Enabled(y, e) && (e.Persist? || e.Activate? || e.Start? || e.MarkReady? || e.MarkFailed?)
    requires v in y.db.versions && v !in Touched(y, e)
    ensures Calm(y.db, Apply(y, e).db, v)
  {
    var s, u := y.db, y.workers[e.worker].version;
    if e.Persist? {
      PersistIsCalm(s, u, e.newGeneration, e.sections, e.chunks, e.now, v);
    } else if e.Activate? {
      ActivationIsCalm(y, e, v);
    } else if e.Start? {
      StartIsCalm(s, u, e.now, e.timeout, v);
    } else if e.MarkReady? {
      MarkReadyIsCalm(s, u, e.now, v);
    } else {
      MarkFailedIsCalm(s, u, e.now, v);
    }
  }

  lemma PointsStepIsCalm(y: Service, e: Event, v: VersionId)
    requires Enabled(y, e) && (e.ClearPoints? || e.IndexPoints?) && v !in Touched(y, e)
    ensures Calm(y.db, Apply(y, e).db, v)
  {
    PointsAreCalm(y.db, Apply(y, e).db, y.workers[e.worker].version, v);
  }

  /** Events leave every version alone that they do not touch. */
  lemma UntouchedIsCalm(y: Service, e: Event, v: VersionId)
    requires ServiceOk(y) && Enabled(y, e) && v in y.db.versions && v !in Touched(y, e)
    ensures Calm(y.db, Apply(y, e).db, v)
  {
    if IsRoute(e) {
      RouteIsCalm(y, e, v);
    } else if IsDrop(e) {
      DropEventIsCalm(y, e, v);
    } else if e.ClearPoints? || e.IndexPoints? {
      PointsStepIsCalm(y, e, v);
    } else if e.Heartbeat? {
      HeartbeatIsCalm(y.db, y.workers[e.worker].version, e.now, v);
    } else if IsQuiet(e) {
      assert Apply(y, e).db == y.db;
    } else {
      PipelineStepIsCalm(y, e, v);
    }
  }

  /** The worker an event belongs to, when it is a step of one. */
  predicate StepOf(e: Event, w: WorkerId) {
    match e
    case Start(x, _, _) => x == w
    case Parse(x) => x == w
    case Persist(x, _, _, _, _) => x == w
    case ClearPoints(x) => x == w
    case IndexPoints(x) => x == w
    case Validate(x) => x == w
    case MarkReady(x, _) => x == w
    case Activate(x, _) => x == w
    case MarkFailed(x, _) => x == w
    case _ => false
  }

  lemma WorkerStepMoves(y: Service, e: Event, w: WorkerId)
    requires Enabled(y, e) && !IsRoute(e) && !IsCollectorStep(e) && w in Apply(y, e).workers
    ensures w !in y.workers ==> e == Begin(w, Apply(y, e).workers[w].version) && !Running(Apply(y, e).workers[w].stage)
    ensures w in y.workers ==> Apply(y, e).workers[w].version == y.workers[w].version
    ensures w in y.workers && !StepOf(e, w) && Running(Apply(y, e).workers[w].stage) ==>
              Apply(y, e).workers[w].stage == y.workers[w].stage
    ensures w in y.workers && StepOf(e, w) && Running(Apply(y, e).workers[w].stage) && !Running(y.workers[w].stage) ==> e.Start?
  {
  }

  /** Only a worker's own step makes it run; it never changes its version. */
  lemma WorkerMoves(y: Service, e: Event, w: WorkerId)
    requires Enabled(y, e) && w in Apply(y, e).workers
    ensures w !in y.workers ==> e == Begin(w, Apply(y, e).workers[w].version) && !Running(Apply(y, e).workers[w].stage)
    ensures w in y.workers ==> Apply(y, e).workers[w].version == y.workers[w].version
    ensures w in y.workers && !StepOf(e, w) && Running(Apply(y, e).workers[w].stage) ==>
              Apply(y, e).workers[w].stage == y.workers[w].stage
    ensures w in y.workers && StepOf(e, w) && Running(Apply(y, e).workers[w].stage) && !Running(y.workers[w].stage) ==> e.Start?
  {
    if IsRoute(e) {
      RouteLeavesProcesses(y, e);
    } else if IsCollectorStep(e) {
      CollectorStepLeavesWorkers(y, e);
    } else {
      WorkerStepMoves(y, e, w);
    }
  }

  lemma CalmKeepsWorker(y: Service, z: Service, w: WorkerId)
    requires WorkerSafe(y, w) && w in y.workers && w in z.workers && z.workers[w].version == y.workers[w].version
    requires Running(z.workers[w].stage) ==> z.workers[w].stage == y.workers[w].stage
    requires var v := y.workers[w].version; v in y.db.versions && v in y.db.jobs && Calm(y.db, z.db, v)
    ensures WorkerSafe(z, w)
  {
  }

  lemma StartKeepsWorker(y: Service, e: Event)
    requires Enabled(y, e) && e.Start?
    ensures WorkerSafe(Apply(y, e), e.worker)
  {
  }

  lemma PersistKeepsWorkerSafe(y: Service, e: Event)
    requires Enabled(y, e) && e.Persist? && WorkerSafe(y, e.worker)
    ensures WorkerSafe(Apply(y, e), e.worker)
  {
  }

  lemma PointsKeepWorker(y: Service, e: Event)
    requires Enabled(y, e) && (e.ClearPoints? || e.IndexPoints?) && WorkerSafe(y, e.worker)
    ensures WorkerSafe(Apply(y, e), e.worker)
  {
  }

  lemma CheckKeepsWorker(y: Service, e: Event)
    requires Enabled(y, e) && (e.Parse? || e.Validate?) && WorkerSafe(y, e.worker)
    ensures WorkerSafe(Apply(y, e), e.worker)
  {
  }

  lemma MarkReadyKeepsWorker(y: Service, e: Event)
    requires Enabled(y, e) && e.MarkReady? && WorkerSafe(y, e.worker)
    ensures WorkerSafe(Apply(y, e), e.worker)
  {
  }

  lemma OtherActivationIsCalm(s: State, u: VersionId, g: GenerationId, now: int, v: VersionId)
    requires u in s.versions && v in s.versions && v in s.jobs && u != v && !Current(s, v) && DocumentOk(s, s.versions[u].document)
    ensures Calm(s, ActivateTx(s, u, g, now).state, v)
  {
    if ActivateTx(s, u, g, now).outcome == Committed {
      ActivateRowOf(s, u, g, now, v);
    }
  }

  lemma ActivationLeavesWorkers(y: Service, e: Event, w: WorkerId)
    requires Enabled(y, e) && e.Activate? && w != e.worker && w in y.workers
    ensures w in Apply(y, e).workers && Apply(y, e).workers[w] == y.workers[w]
    ensures Apply(y, e).db == ActivateTx(y.db, y.workers[e.worker].version, y.workers[e.worker].generation.value, e.now).state
  {
  }

  /** Another worker's activation of the same document takes nothing from a running worker. */
  lemma ActivateKeepsOthers(y: Service, e: Event, w: WorkerId)
    requires ServiceOk(y) && Enabled(y, e) && e.Activate? && WorkerSafe(y, w) && Alone(y, w, e.worker) && w != e.worker
    ensures WorkerSafe(Apply(y, e), w)
  {
    if w in y.workers {
      var me := y.workers[e.worker];
      var v := y.workers[w].version;
      ActivationLeavesWorkers(y, e, w);
      assert WorkerOk(y, w) && WorkerOk(y, e.worker) && VersionOk(y.db, v);
      if Running(y.workers[w].stage) {
        assert DocumentOk(y.db, y.db.versions[me.version].document) && DocumentOk(y.db, y.db.versions[v].document);
        OtherActivationIsCalm(y.db, me.version, me.generation.value, e.now, v);
        CalmKeepsWorker(y, Apply(y, e), w);
      }
    }
  }

  /** Activation changes the rows of two versions only: the new one, and the one it replaces. */
  lemma ActivateRowOf(s: State, u: VersionId, g: GenerationId, now: int, v: VersionId)
    requires ActivateTx(s, u, g, now).outcome == Committed && v in s.versions && v in s.jobs && u != v
    requires DocumentOk(s, s.versions[u].document)
    ensures v in ActivateTx(s, u, g, now).state.versions && v in ActivateTx(s, u, g, now).state.jobs
    ensures ActivateTx(s, u, g, now).state.jobs[v] == s.jobs[v]
    ensures !Current(s, v) ==> ActivateTx(s, u, g, now).state.versions[v] == s.versions[v]
  {
  }

  lemma TombstoneDeletes(s: State, d: DocumentId, newId: GenerationId, now: int, v: VersionId)
    requires TombstoneTx(s, d, newId, now).outcome == Committed && v in s.versions && s.versions[v].document == d
    ensures DocumentDeleted(TombstoneTx(s, d, newId, now).state, v)
  {
  }

  lemma DeleteKeepsWorker(y: Service, e: Event, w: WorkerId)
    requires Enabled(y, e) && e.Delete? && w in y.workers && y.workers[w].version in y.db.versions
    requires y.db.versions[y.workers[w].version].document == e.document && WorkerSafe(y, w)
    ensures WorkerSafe(Apply(y, e), w)
  {
    if TombstoneTx(y.db, e.document, e.newGeneration, e.now).outcome == Committed {
      TombstoneDeletes(y.db, e.document, e.newGeneration, e.now, y.workers[w].version);
    }
  }

  /** What a collector may take is exposed nowhere and belongs to no running job of a live document. */
  lemma ListedIsIdle(y: Service, c: CollectorId, v: VersionId)
    requires Safe(y) && Listed(y, c, v)
    ensures v in y.db.versions && !Current(y.db, v)
    ensures Done(y.db, v) || NoRunner(y, v)
  {
    assert CollectorOk(y, c) && CandidateSafe(y, c, v);
  }

  lemma DropKeepsWorker(y: Service, e: Event, w: WorkerId)
    requires Safe(y) && Enabled(y, e) && IsDrop(e) && w in y.workers && y.workers[w].version in Touched(y, e)
    ensures WorkerSafe(Apply(y, e), w)
  {
    ListedIsIdle(y, e.collector, y.workers[w].version);
    assert WorkerSafe(y, w);
  }

  lemma EventKeepsWorkerSafe(y: Service, e: Event, w: WorkerId)
    requires Safe(y) && Enabled(y, e)
    ensures WorkerSafe(Apply(y, e), w)
  {
    if w in Apply(y, e).workers {
      WorkerMoves(y, e, w);
      if w in y.workers {
        assert WorkerSafe(y, w) && WorkerOk(y, w);
        if StepOf(e, w) {
          OwnStepKeepsWorker(y, e);
        } else if y.workers[w].version !in Touched(y, e) {
          assert VersionOk(y.db, y.workers[w].version);
          UntouchedIsCalm(y, e, y.workers[w].version);
          CalmKeepsWorker(y, Apply(y, e), w);
        } else {
          ForeignStepKeepsWorker(y, e, w);
        }
      }
    }
  }

  lemma OwnStepKeepsWorker(y: Service, e: Event)
    requires Safe(y) && Enabled(y, e)
    requires e.Start? || e.Parse? || e.Persist? || e.ClearPoints? || e.IndexPoints? || e.Validate? || e.MarkReady? || e.Activate? || e.MarkFailed?
    ensures WorkerSafe(Apply(y, e), e.worker)
  {
    assert WorkerSafe(y, e.worker);
    if e.Start? {
      StartKeepsWorker(y, e);
    } else if e.Persist? {
      PersistKeepsWorkerSafe(y, e);
    } else if e.ClearPoints? || e.IndexPoints? {
      PointsKeepWorker(y, e);
    } else if e.MarkReady? {
      MarkReadyKeepsWorker(y, e);
    } else if e.Parse? || e.Validate? {
      CheckKeepsWorker(y, e);
    }
  }

  lemma ForeignStepKeepsWorker(y: Service, e: Event, w: WorkerId)
    requires Safe(y) && Enabled(y, e) && w in y.workers && !StepOf(e, w) && y.workers[w].version in Touched(y, e)
    ensures WorkerSafe(Apply(y, e), w)
  {
    assert WorkerSafe(y, w) && WorkerOk(y, w);
    if !e.Delete? && !IsDrop(e) {
      assert Alone(y, w, e.worker);
    }
    if e.Activate? {
      ActivateKeepsOthers(y, e, w);
    } else if e.Delete? {
      DeleteKeepsWorker(y, e, w);
    } else if IsDrop(e) {
      DropKeepsWorker(y, e, w);
    }
  }

  /** The document rows change only when a version is added, activated or its document deleted. */
  lemma DocumentsMove(y: Service, e: Event)
    requires Enabled(y, e) && !e.Upload? && !e.Activate? && !e.Delete?
    ensures Apply(y, e).db.documents == y.db.documents
  {
    if e.MarkFailed? {
      MarkFailedLeavesDocuments(y.db, y.workers[e.worker].version, e.now);
    }
  }

  lemma MarkFailedLeavesDocuments(s: State, u: VersionId, now: int)
    ensures MarkFailedTx(s, u, now).state.documents == s.documents
  {
    if MarkFailedTx(s, u, now).outcome == Committed {
      if u in s.versions && s.versions[u].status != Active {
        assert Abandon(FailVersion(FailJob(s, u, now), u), u).documents == s.documents;
      }
    }
  }

  lemma UploadExposesNothing(y: Service, e: Event, d: DocumentId)
    requires Enabled(y, e) && e.Upload? && d in Apply(y, e).db.documents && Apply(y, e).db.documents[d].activeVersion.Some?
    ensures d in y.db.documents && y.db.documents[d].activeVersion == Apply(y, e).db.documents[d].activeVersion
  {
    var tx := UploadTx(y.db, e.target, e.newDocument, e.newVersion, e.title, e.filename, e.mime, e.collections, e.now);
    if tx.outcome == Committed {
      if e.target.None? {
        assert tx.state.documents == y.db.documents[e.newDocument := Document(e.title, e.filename, e.mime, None, false)];
      } else {
        assert tx.state.documents == y.db.documents;
      }
    }
  }

  lemma DeleteExposesNothing(y: Service, e: Event, d: DocumentId)
    requires Enabled(y, e) && e.Delete? && d in Apply(y, e).db.documents && Apply(y, e).db.documents[d].activeVersion.Some?
    ensures d in y.db.documents && y.db.documents[d].activeVersion == Apply(y, e).db.documents[d].activeVersion
  {
  }

  /** What a document exposes comes from an activation of that version. */
  lemma ExposureMoves(y: Service, e: Event, d: DocumentId)
    requires Enabled(y, e) && d in Apply(y, e).db.documents && Apply(y, e).db.documents[d].activeVersion.Some?
    ensures || (d in y.db.documents && y.db.documents[d].activeVersion == Apply(y, e).db.documents[d].activeVersion)
            || (e.Activate? && Apply(y, e).db.documents[d].activeVersion.value == y.workers[e.worker].version)
  {
    if e.Upload? {
      UploadExposesNothing(y, e, d);
    } else if e.Delete? {
      DeleteExposesNothing(y, e, d);
    } else if !e.Activate? {
      DocumentsMove(y, e);
    }
  }

  /** Only its own activation makes a version current. */
  lemma BecomesCurrent(y: Service, e: Event, v: VersionId)
    requires ServiceOk(y) && Enabled(y, e) && Current(Apply(y, e).db, v) && !Current(y.db, v)
    requires VersionProgress(y.db, Apply(y, e).db, v)
    ensures e.Activate? && y.workers[e.worker].version == v
  {
    var d := Apply(y, e).db.versions[v].document;
    ExposureMoves(y, e, d);
    assert DocumentOk(y.db, d);
  }

  lemma NoRunnerKept(y: Service, e: Event, v: VersionId)
    requires Enabled(y, e) && NoRunner(y, v)
    requires e.Start? ==> y.workers[e.worker].version != v
    ensures NoRunner(Apply(y, e), v)
  {
    var z := Apply(y, e);
    forall w | w in z.workers && z.workers[w].version == v
      ensures !Running(z.workers[w].stage)
    {
      WorkerMoves(y, e, w);
    }
  }

  /** A collector's list is fixed when it takes its snapshot. */
  lemma ListIsFixed(y: Service, e: Event, c: CollectorId)
    requires Enabled(y, e) && c in Apply(y, e).collectors && !(e.Snapshot? && e.collector == c)
    ensures c in y.collectors && y.collectors[c].failed == Apply(y, e).collectors[c].failed
  {
    if !e.Snapshot? && !e.DropPoints? && !e.DropRows? && !e.AbandonCollection? {
      OthersLeaveCollectors(y, e);
    }
  }

  lemma OthersLeaveCollectors(y: Service, e: Event)
    requires Enabled(y, e) && !e.Snapshot? && !e.DropPoints? && !e.DropRows? && !e.AbandonCollection?
    ensures Apply(y, e).collectors == y.collectors
  {
    if IsRoute(e) {
      RouteLeavesProcesses(y, e);
    }
  }

  lemma EventKeepsCandidate(y: Service, e: Event, c: CollectorId, v: VersionId)
    requires Safe(y) && Enabled(y, e) && Disciplined(y, e) && Progress(y.db, Apply(y, e).db)
    ensures CandidateSafe(Apply(y, e), c, v)
  {
    if e.Snapshot? && e.collector == c {
      SnapshotIsSafe(y, e, v);
    } else if c in Apply(y, e).collectors && v in Apply(y, e).collectors[c].failed {
      ListIsFixed(y, e, c);
      assert CandidateSafe(y, c, v) && VersionProgress(y.db, Apply(y, e).db, v);
      CandidateStaysIdle(y, e, c, v);
    }
  }

  lemma CandidateStaysIdle(y: Service, e: Event, c: CollectorId, v: VersionId)
    requires ServiceOk(y) && Enabled(y, e) && Disciplined(y, e) && c in y.collectors && v in y.collectors[c].failed
    requires CandidateSafe(y, c, v) && VersionProgress(y.db, Apply(y, e).db, v)
    ensures !Current(Apply(y, e).db, v) && (Done(Apply(y, e).db, v) || NoRunner(Apply(y, e), v))
  {
    if !Done(y.db, v) {
      NoRunnerKept(y, e, v);
      if Current(Apply(y, e).db, v) {
        BecomesCurrent(y, e, v);
      }
    }
  }

  lemma SnapshotIsSafe(y: Service, e: Event, v: VersionId)
    requires Safe(y) && Enabled(y, e) && e.Snapshot?
    ensures CandidateSafe(Apply(y, e), e.collector, v)
  {
    assert VersionSafe(y, v);
    if v in y.db.versions && y.db.versions[v].status == Failed && !Done(y.db, v) {
      forall w | w in y.workers && y.workers[w].version == v
        ensures !Running(y.workers[w].stage)
      {
        assert WorkerSafe(y, w);
      }
    }
  }

  lemma CalmKeepsVersion(y: Service, z: Service, v: VersionId)
    requires VersionSafe(y, v) && v in y.db.versions && v in y.db.jobs && Calm(y.db, z.db, v)
    ensures VersionSafe(z, v)
  {
  }

  /** An activation exposes what its worker prepared. */
  lemma ActivationIsSafe(y: Service, e: Event, v: VersionId)
    requires Safe(y) && Enabled(y, e) && e.Activate? && y.workers[e.worker].version in y.db.versions
    requires v in y.db.versions && y.db.versions[v].document == y.db.versions[y.workers[e.worker].version].document
    ensures VersionSafe(Apply(y, e), v)
  {
    var me := y.workers[e.worker];
    assert WorkerSafe(y, e.worker) && VersionSafe(y, v);
    if ActivateTx(y.db, me.version, me.generation.value, e.now).outcome == Committed {
      assert Current(Apply(y, e).db, v) ==> v == me.version;
    }
  }

  /** While a version is exposed, no worker runs on its job. */
  lemma CurrentHasNoRunner(y: Service, v: VersionId)
    requires Safe(y) && Current(y.db, v)
    ensures NoRunner(y, v)
  {
    assert VersionOk(y.db, v) && DocumentOk(y.db, y.db.versions[v].document);
    forall w | w in y.workers && y.workers[w].version == v
      ensures !Running(y.workers[w].stage)
    {
      assert WorkerSafe(y, w);
    }
  }

  lemma EventKeepsVersionSafe(y: Service, e: Event, v: VersionId)
    requires Safe(y) && Enabled(y, e)
    ensures VersionSafe(Apply(y, e), v)
  {
    assert VersionSafe(y, v) && VersionOk(y.db, v);
    if v !in y.db.versions {
      NewVersionIsHidden(y, e, v);
    } else if v !in Touched(y, e) {
      UntouchedIsCalm(y, e, v);
      CalmKeepsVersion(y, Apply(y, e), v);
    } else if e.Activate? {
      assert WorkerOk(y, e.worker);
      ActivationIsSafe(y, e, v);
    } else if Current(y.db, v) {
      CurrentHasNoRunner(y, v);
      if IsDrop(e) {
        ListedIsIdle(y, e.collector, v);
      }
      CurrentIsLeftAlone(y, e, v);
    } else if Current(Apply(y, e).db, v) {
      EventKeepsServiceOk(y, e);
      assert VersionProgress(y.db, Apply(y, e).db, v);
      BecomesCurrent(y, e, v);
    }
  }

  lemma FinishedJobIsLeftAlone(y: Service, e: Event)
    requires Enabled(y, e) && (e.Start? || e.MarkReady? || e.MarkFailed?)
    requires y.workers[e.worker].version in y.db.jobs && y.db.jobs[y.workers[e.worker].version].status == JobSucceeded
    requires e.Start? ==> y.workers[e.worker].version in y.db.versions
    ensures Apply(y, e).db == y.db
  {
  }

  /** The steps that touch an exposed version without hiding it see that its job is over. */
  lemma CurrentIsLeftAlone(y: Service, e: Event, v: VersionId)
    requires ServiceOk(y) && Enabled(y, e) && VersionSafe(y, v) && Current(y.db, v)
    requires v in Touched(y, e) && !e.Activate? && !IsDrop(e)
    requires NoRunner(y, v)
    ensures VersionSafe(Apply(y, e), v)
  {
    assert VersionOk(y.db, v);
    if e.Start? || e.MarkReady? || e.MarkFailed? {
      FinishedJobIsLeftAlone(y, e);
    } else if e.Delete? {
      DeletedIsNotCurrent(y, e, v);
    }
  }

  lemma DeletedIsNotCurrent(y: Service, e: Event, v: VersionId)
    requires Enabled(y, e) && e.Delete? && v in y.db.versions && y.db.versions[v].document == e.document && VersionSafe(y, v)
    ensures VersionSafe(Apply(y, e), v)
  {
    var tx := TombstoneTx(y.db, e.document, e.newGeneration, e.now);
    if tx.outcome == Committed {
      assert v in tx.state.versions ==> tx.state.versions[v].document == e.document;
      assert tx.state.documents[e.document].activeVersion.None?;
    }
  }

  lemma NewVersionIsHidden(y: Service, e: Event, v: VersionId)
    requires ServiceOk(y) && Enabled(y, e) && v !in y.db.versions
    ensures !Current(Apply(y, e).db, v)
  {
    if Current(Apply(y, e).db, v) {
      if e.Activate? {
        assert WorkerOk(y, e.worker);
      }
      BecomesCurrent(y, e, v);
    }
  }

  lemma EventKeepsAlone(y: Service, e: Event, w: WorkerId, x: WorkerId)
    requires Alone(y, w, x) && Enabled(y, e) && Disciplined(y, e)
    ensures Alone(Apply(y, e), w, x)
  {
    if w in Apply(y, e).workers && x in Apply(y, e).workers {
      WorkerMoves(y, e, w);
      WorkerMoves(y, e, x);
    }
  }

  lemma EventKeepsSafe(y: Service, e: Event)
    requires Safe(y) && Enabled(y, e) && Disciplined(y, e)
    ensures Safe(Apply(y, e))
  {
    var z := Apply(y, e);
    EventKeepsServiceOk(y, e);
    forall w ensures WorkerSafe(z, w) {
      EventKeepsWorkerSafe(y, e, w);
    }
    forall w, x ensures Alone(z, w, x) {
      assert Alone(y, w, x);
      EventKeepsAlone(y, e, w, x);
    }
    forall v ensures VersionSafe(z, v) {
      EventKeepsVersionSafe(y, e, v);
    }
    forall c, v ensures CandidateSafe(z, c, v) {
      EventKeepsCandidate(y, e, c, v);
    }
  }

  lemma FirstIsSafe()
    ensures Safe(FIRST)
  {
  }

  lemma {:induction false} DisciplinedRunIsSafe(ys: seq<Service>, es: seq<Event>, i: nat)
    requires DisciplinedRun(ys, es) && i < |ys|
    ensures Safe(ys[i])
  {
    if i == 0 {
      FirstIsSafe();
    } else {
      DisciplinedRunIsSafe(ys, es, i - 1);
      EventKeepsSafe(ys[i - 1], es[i - 1]);
    }
  }

  /** Whatever the interleaving, every version the active manifest shows is active and has its rows, its points and its
      file. */
  lemma ExposedIsActiveAndComplete(ys: seq<Service>, es: seq<Event>, i: nat, d: DocumentId)
    requires DisciplinedRun(ys, es) && i < |ys|
    requires d in ActiveManifest(ys[i].db)
    ensures var s := ys[i].db; var v := ActiveManifest(s)[d];
            v in s.versions && s.versions[v].status == Active && Complete(s, v)
  {
    var s := ys[i].db;
    DisciplinedRunIsSafe(ys, es, i);
    assert d in Exposed(s) && DocumentOk(s, d) && VersionSafe(ys[i], ActiveManifest(s)[d]);
  }

  /** Garbage collection never holds a version that is exposed, from its snapshot to its last deletion. */
  lemma CollectorsHoldNothingExposed(ys: seq<Service>, es: seq<Event>, i: nat, c: CollectorId, v: VersionId)
    requires DisciplinedRun(ys, es) && i < |ys| && Listed(ys[i], c, v)
    ensures forall d :: d in ActiveManifest(ys[i].db) ==> ActiveManifest(ys[i].db)[d] != v
  {
    var s := ys[i].db;
    DisciplinedRunIsSafe(ys, es, i);
    ListedIsIdle(ys[i], c, v);
    forall d | d in ActiveManifest(s)
      ensures ActiveManifest(s)[d] != v
    {
      assert d in Exposed(s) && DocumentOk(s, d);
    }
  }
}
