/** All the processes of one tenant's corpus, interleaved: routes, ingestion workers and garbage collectors.

    A worker carries a program counter, because its transactions are separate; it may stop for good between any
    two of them. Clock readings are parameters of the events, so the clocks of different processes need not agree. */
module Service {
  import opened Wrappers
  import opened Corpus
  import opened IngestionJobs
  import opened Documents
  import Collections
  import opened Reconcile
  import opened CorpusProgress

  newtype WorkerId = n: int | 0 <= n
  newtype CollectorId = n: int | 0 <= n

  /** Where a call of `process` stands: the last thing it did. */
  datatype Stage = Starting | Started | Parsed | Persisted | Cleared | Indexed | Validated | Marked | Failing

  datatype Worker = Worker(stage: Stage, version: VersionId, generation: Option<GenerationId>)

  /** A garbage collection under way, with the versions its snapshot listed, by the status they had then. */
  datatype Collector = Collector(superseded: set<VersionId>, failed: set<VersionId>, pointsGone: bool)

  datatype Service = Service(db: State, workers: map<WorkerId, Worker>, collectors: map<CollectorId, Collector>)

  datatype Event =
    | Upload(target: Option<DocumentId>, newDocument: DocumentId, newVersion: VersionId,
             title: string, filename: string, mime: string, collections: set<CollectionId>, now: int)
    | Reindex(document: DocumentId, newVersion: VersionId, now: int)
    | Enqueue(version: VersionId, now: int)
    | Delete(document: DocumentId, newGeneration: GenerationId, now: int)
    | CreateCollection(collection: CollectionId, name: CollectionName)
    | UpdateCollection(collection: CollectionId, patch: Collections.Patch)
    | DeleteCollection(collection: CollectionId)
    | AddMember(collection: CollectionId, document: DocumentId)
    | RemoveMember(collection: CollectionId, document: DocumentId)
    | Begin(worker: WorkerId, version: VersionId)
    | Start(worker: WorkerId, now: int, timeout: nat)
    | Parse(worker: WorkerId)
    | Persist(worker: WorkerId, newGeneration: GenerationId, sections: set<Section>, chunks: nat, now: int)
    | ClearPoints(worker: WorkerId)
    | IndexPoints(worker: WorkerId)
    | Validate(worker: WorkerId)
    | MarkReady(worker: WorkerId, now: int)
    | Activate(worker: WorkerId, now: int)
    | Heartbeat(worker: WorkerId, now: int)
    | Raise(worker: WorkerId)
    | MarkFailed(worker: WorkerId, now: int)
    | Crash(worker: WorkerId)
    | Snapshot(collector: CollectorId, limit: nat, olderThan: Option<int>)
    | DropPoints(collector: CollectorId)
    | DropFile(collector: CollectorId, version: VersionId)
    | DropRows(collector: CollectorId)
    | AbandonCollection(collector: CollectorId)

  predicate At(y: Service, w: WorkerId, stage: Stage) {
    w in y.workers && y.workers[w].stage == stage
  }

  predicate Listed(y: Service, c: CollectorId, v: VersionId) {
    c in y.collectors && v in y.collectors[c].superseded + y.collectors[c].failed
  }

  /** When an event can happen. New keys are fresh: they are drawn from a sequence or at random. */
  ghost predicate Enabled(y: Service, e: Event) {
    match e
    case Upload(_, d, v, _, _, _, _, _) => d !in y.db.documents && v !in y.db.versions
    case Reindex(_, v, _) => v !in y.db.versions
    case Enqueue(_, _) => true
    case Delete(_, g, _) => g !in y.db.generations
    case CreateCollection(k, _) => k !in y.db.collections
    case UpdateCollection(_, _) => true
    case DeleteCollection(_) => true
    case AddMember(_, _) => true
    case RemoveMember(_, _) => true
    case Begin(w, v) => w !in y.workers && v in y.db.jobs
    case Start(w, _, _) => At(y, w, Starting)
    case Parse(w) => At(y, w, Started) && y.workers[w].version in y.db.files
    case Persist(w, g, _, _, _) => At(y, w, Parsed) && g !in y.db.generations
    case ClearPoints(w) => At(y, w, Persisted)
    case IndexPoints(w) => At(y, w, Cleared)
    case Validate(w) => At(y, w, Indexed) && y.workers[w].version in y.db.points
    case MarkReady(w, _) => At(y, w, Validated)
    case Activate(w, _) => At(y, w, Marked) && y.workers[w].generation.Some?
    case Heartbeat(w, _) => w in y.workers && y.workers[w].stage != Starting
    case Raise(w) => w in y.workers
    case MarkFailed(w, _) => At(y, w, Failing)
    case Crash(w) => w in y.workers
    case Snapshot(c, limit, olderThan) => c !in y.collectors && Candidates(y.db, limit, olderThan) != {}
    case DropPoints(c) => c in y.collectors && !y.collectors[c].pointsGone
    case DropFile(c, v) => c in y.collectors && y.collectors[c].pointsGone && Listed(y, c, v)
    case DropRows(c) => c in y.collectors && y.collectors[c].pointsGone
    case AbandonCollection(c) => c in y.collectors
  }

  function WithDb(y: Service, tx: Tx): Service {
    y.(db := tx.state)
  }

  function Except<K, V>(m: map<K, V>, k: K): map<K, V> {
    map x | x in m && x != k :: m[x]
  }

  /** A worker whose transaction raised goes on to mark the job failed. */
  function Advance(y: Service, w: WorkerId, tx: Tx, next: Worker, skipped: map<WorkerId, Worker>): Service
    requires w in y.workers
  {
    match tx.outcome
    case Committed => y.(db := tx.state, workers := y.workers[w := next])
    case Skipped => y.(db := tx.state, workers := skipped)
    case Rejected => y.(workers := y.workers[w := y.workers[w].(stage := Failing)])
  }

  ghost function Apply(y: Service, e: Event): Service
    requires Enabled(y, e)
  {
    match e
    case Upload(target, d, v, title, filename, mime, collections, now) =>
      WithDb(y, UploadTx(y.db, target, d, v, title, filename, mime, collections, now))
    case Reindex(d, v, now) => WithDb(y, ReindexTx(y.db, d, v, now))
    case Enqueue(v, now) => WithDb(y, EnqueueTx(y.db, v, now))
    case Delete(d, g, now) => WithDb(y, TombstoneTx(y.db, d, g, now))
    case CreateCollection(k, name) => WithDb(y, Collections.CreateTx(y.db, k, name))
    case UpdateCollection(k, patch) => WithDb(y, Collections.UpdateTx(y.db, k, patch))
    case DeleteCollection(k) => WithDb(y, Collections.DeleteTx(y.db, k))
    case AddMember(k, d) => WithDb(y, Collections.AddDocumentTx(y.db, k, d))
    case RemoveMember(k, d) => WithDb(y, Collections.RemoveDocumentTx(y.db, k, d))
    case Begin(w, v) => y.(workers := y.workers[w := Worker(Starting, v, None)])
    case Start(w, now, timeout) =>
      var v := y.workers[w].version;
      Advance(y, w, StartTx(y.db, v, now, timeout), Worker(Started, v, None), Except(y.workers, w))
    case Parse(w) => y.(workers := y.workers[w := y.workers[w].(stage := Parsed)])
    case Persist(w, g, sections, chunks, now) =>
      var v := y.workers[w].version;
      Advance(y, w, PersistTx(y.db, v, g, sections, chunks, now), Worker(Persisted, v, Some(Target(y.db, v, g))), y.workers)
    case ClearPoints(w) =>
      y.(db := y.db.(points := y.db.points - {y.workers[w].version}), workers := y.workers[w := y.workers[w].(stage := Cleared)])
    case IndexPoints(w) =>
      y.(db := y.db.(points := y.db.points + {y.workers[w].version}), workers := y.workers[w := y.workers[w].(stage := Indexed)])
    case Validate(w) => y.(workers := y.workers[w := y.workers[w].(stage := Validated)])
    case MarkReady(w, now) =>
      var next := y.workers[w].(stage := Marked);
      Advance(y, w, MarkReadyTx(y.db, next.version, now), next, y.workers[w := next])
    case Activate(w, now) =>
      var me := y.workers[w];
      var tx := ActivateTx(y.db, me.version, me.generation.value, now);
      if tx.outcome == Rejected then y.(workers := y.workers[w := me.(stage := Failing)])
      else Service(tx.state, Except(y.workers, w), y.collectors)
    case Heartbeat(w, now) => WithDb(y, HeartbeatTx(y.db, y.workers[w].version, now))
    case Raise(w) => y.(workers := y.workers[w := y.workers[w].(stage := Failing)])
    case MarkFailed(w, now) =>
      Service(MarkFailedTx(y.db, y.workers[w].version, now).state, Except(y.workers, w), y.collectors)
    case Crash(w) => y.(workers := Except(y.workers, w))
    case Snapshot(c, limit, olderThan) =>
      var listed := Candidates(y.db, limit, olderThan);
      y.(collectors := y.collectors[c := Collector(
        set v | v in listed && y.db.versions[v].status == Superseded,
        set v | v in listed && y.db.versions[v].status == Failed, false)])
    case DropPoints(c) =>
      var it := y.collectors[c];
      y.(db := DropPointsTx(y.db, it.superseded + it.failed), collectors := y.collectors[c := it.(pointsGone := true)])
    case DropFile(c, v) => y.(db := DropFilesTx(y.db, {v}))
    case DropRows(c) =>
      var it := y.collectors[c];
      Service(DropRowsTx(y.db, it.superseded + it.failed), y.workers, Except(y.collectors, c))
    case AbandonCollection(c) => y.(collectors := Except(y.collectors, c))
  }

  const FIRST := Service(EmptyState(), map[], map[])

  /** A run: an initial state, and one event between each state and the next. */
  ghost predicate Run(ys: seq<Service>, es: seq<Event>) {
    && |ys| == |es| + 1 && ys[0] == FIRST
    && forall i :: 0 <= i < |es| ==> Enabled(ys[i], es[i]) && ys[i + 1] == Apply(ys[i], es[i])
  }

  /** A worker writes only to generations prepared for its own version. */
  predicate WorkerOk(y: Service, w: WorkerId) {
    w in y.workers ==>
      && y.workers[w].version in y.db.versions
      && (y.workers[w].generation.Some? ==>
            var g := y.workers[w].generation.value;
            g in y.db.generations && y.db.generations[g].changed == Some(y.workers[w].version))
  }

  /** What a collector listed as superseded stays hidden, whatever happens meanwhile. */
  predicate CollectorOk(y: Service, c: CollectorId) {
    c in y.collectors ==>
      forall v :: v in y.collectors[c].superseded ==> Done(y.db, v) && !Current(y.db, v)
  }

  ghost predicate ServiceOk(y: Service) {
    && Consistent(y.db)
    && (forall w {:trigger WorkerOk(y, w)} :: WorkerOk(y, w))
    && (forall c {:trigger CollectorOk(y, c)} :: CollectorOk(y, c))
  }

  predicate IsRoute(e: Event) {
    e.Upload? || e.Reindex? || e.Enqueue? || e.Delete? || IsCollectionRoute(e)
  }

  predicate IsCollectionRoute(e: Event) {
    e.CreateCollection? || e.UpdateCollection? || e.DeleteCollection? || e.AddMember? || e.RemoveMember?
  }

  lemma RouteKeepsCorpus(y: Service, e: Event)
    requires IsRoute(e)
    requires ServiceOk(y) && Enabled(y, e)
    ensures Consistent(Apply(y, e).db) && Progress(y.db, Apply(y, e).db)
  {
    var s := y.db;
    match e
    case Upload(target, d, v, title, filename, mime, collections, now) =>
      UploadKeepsConsistent(s, target, d, v, title, filename, mime, collections, now);
      UploadProgress(s, target, d, v, title, filename, mime, collections, now);
    case Reindex(d, v, now) =>
      ReindexKeepsConsistent(s, d, v, now);
      ReindexProgress(s, d, v, now);
    case Enqueue(v, now) =>
      EnqueueKeepsConsistent(s, v, now);
      EnqueueProgress(s, v, now);
    case Delete(d, g, now) =>
      TombstoneKeepsConsistent(s, d, g, now);
      TombstoneProgress(s, d, g, now);
    case CreateCollection(_, _) => CollectionChangeProgress(s, Apply(y, e).db);
    case UpdateCollection(_, _) => CollectionChangeProgress(s, Apply(y, e).db);
    case DeleteCollection(_) => CollectionChangeProgress(s, Apply(y, e).db);
    case AddMember(_, _) => CollectionChangeProgress(s, Apply(y, e).db);
    case RemoveMember(_, _) => CollectionChangeProgress(s, Apply(y, e).db);
  }

  lemma StagingKeepsCorpus(y: Service, e: Event)
    requires ServiceOk(y) && Enabled(y, e) && e.Persist?
    ensures Consistent(Apply(y, e).db) && Progress(y.db, Apply(y, e).db)
  {
    PersistKeepsConsistent(y.db, y.workers[e.worker].version, e.newGeneration, e.sections, e.chunks, e.now);
    PersistProgress(y.db, y.workers[e.worker].version, e.newGeneration, e.sections, e.chunks, e.now);
  }

  lemma FirstTransactionsKeepCorpus(y: Service, e: Event)
    requires e.Start? || e.Persist? || e.MarkReady?
    requires ServiceOk(y) && Enabled(y, e)
    ensures Consistent(Apply(y, e).db) && Progress(y.db, Apply(y, e).db)
  {
    var s := y.db;
    match e
    case Start(w, now, timeout) =>
      StartKeepsConsistent(s, y.workers[w].version, now, timeout);
      StartProgress(s, y.workers[w].version, now, timeout);
    case Persist(_, _, _, _, _) =>
      StagingKeepsCorpus(y, e);
    case MarkReady(w, now) =>
      MarkReadyKeepsConsistent(s, y.workers[w].version, now);
      MarkReadyProgress(s, y.workers[w].version, now);
  }

  lemma LastTransactionsKeepCorpus(y: Service, e: Event)
    requires e.Activate? || e.Heartbeat? || e.MarkFailed?
    requires ServiceOk(y) && Enabled(y, e)
    ensures Consistent(Apply(y, e).db) && Progress(y.db, Apply(y, e).db)
  {
    var s := y.db;
    match e
    case Activate(w, now) =>
      assert WorkerOk(y, w);
      ActivateKeepsConsistent(s, y.workers[w].version, y.workers[w].generation.value, now);
      ActivateProgress(s, y.workers[w].version, y.workers[w].generation.value, now);
    case Heartbeat(w, now) =>
      HeartbeatKeepsConsistent(s, y.workers[w].version, now);
      HeartbeatProgress(s, y.workers[w].version, now);
    case MarkFailed(w, now) =>
      MarkFailedKeepsConsistent(s, y.workers[w].version, now);
      MarkFailedProgress(s, y.workers[w].version, now);
  }

  /** The database side of every event: the corpus stays consistent and nothing done is undone. */
  lemma EventKeepsCorpus(y: Service, e: Event)
    requires ServiceOk(y) && Enabled(y, e)
    ensures Consistent(Apply(y, e).db) && Progress(y.db, Apply(y, e).db)
  {
    var s := y.db;
    if IsRoute(e) {
      RouteKeepsCorpus(y, e);
    } else if e.Start? || e.Persist? || e.MarkReady? {
      FirstTransactionsKeepCorpus(y, e);
    } else if e.Activate? || e.Heartbeat? || e.MarkFailed? {
      LastTransactionsKeepCorpus(y, e);
    } else {
      match e
      case DropPoints(c) =>
        DropKeepsConsistent(s, y.collectors[c].superseded + y.collectors[c].failed);
        DropProgress(s, y.collectors[c].superseded + y.collectors[c].failed);
      case DropFile(_, v) =>
        DropKeepsConsistent(s, {v});
        DropProgress(s, {v});
      case DropRows(c) =>
        DropKeepsConsistent(s, y.collectors[c].superseded + y.collectors[c].failed);
        DropProgress(s, y.collectors[c].superseded + y.collectors[c].failed);
      case ClearPoints(_) => PayloadChange(s, Apply(y, e).db);
      case IndexPoints(_) => PayloadChange(s, Apply(y, e).db);
      case Begin(_, _) => PayloadChange(s, Apply(y, e).db);
      case Parse(_) => PayloadChange(s, Apply(y, e).db);
      case Validate(_) => PayloadChange(s, Apply(y, e).db);
      case Raise(_) => PayloadChange(s, Apply(y, e).db);
      case Crash(_) => PayloadChange(s, Apply(y, e).db);
      case Snapshot(_, _, _) => PayloadChange(s, Apply(y, e).db);
      case AbandonCollection(_) => PayloadChange(s, Apply(y, e).db);
    }
  }

  lemma PayloadChange(s: State, t: State)
    requires Consistent(s) && t == s.(points := t.points)
    ensures Consistent(t) && Progress(s, t)
  {
    StatusChangeKeepsConsistent(s, t);
    StatusChangeProgress(s, t);
  }

  /** The generation a worker wrote its manifest to is a row of its own version. */
  lemma PersistTargets(s: State, v: VersionId, newId: GenerationId, sections: set<Section>, chunks: nat, now: int)
    requires Consistent(s) && newId !in s.generations && PersistTx(s, v, newId, sections, chunks, now).outcome == Committed
    ensures var g := Target(s, v, newId); var t := PersistTx(s, v, newId, sections, chunks, now).state;
            g in t.generations && t.generations[g].changed == Some(v)
  {
  }

  predicate IsCollectorStep(e: Event) {
    e.Snapshot? || e.DropPoints? || e.DropFile? || e.DropRows? || e.AbandonCollection?
  }

  lemma RouteLeavesProcesses(y: Service, e: Event)
    requires Enabled(y, e) && IsRoute(e)
    ensures Apply(y, e).workers == y.workers && Apply(y, e).collectors == y.collectors
  {
  }

  lemma CollectorStepLeavesWorkers(y: Service, e: Event)
    requires Enabled(y, e) && IsCollectorStep(e)
    ensures Apply(y, e).workers == y.workers
  {
  }

  lemma WorkerStepRecord(y: Service, e: Event, w: WorkerId)
    requires Enabled(y, e) && !IsRoute(e) && !IsCollectorStep(e) && w in Apply(y, e).workers
    ensures var it := Apply(y, e).workers[w];
            if w in y.workers then
              && it.version == y.workers[w].version
              && (it.generation.None? || it.generation == y.workers[w].generation || (e.Persist? && e.worker == w))
            else it.version in y.db.jobs && it.generation.None?
  {
  }

  /** A worker keeps its version, and gets a generation only from its own staging transaction. */
  lemma WorkerRecord(y: Service, e: Event, w: WorkerId)
    requires Enabled(y, e) && w in Apply(y, e).workers
    ensures var it := Apply(y, e).workers[w];
            if w in y.workers then
              && it.version == y.workers[w].version
              && (it.generation.None? || it.generation == y.workers[w].generation || (e.Persist? && e.worker == w))
            else it.version in y.db.jobs && it.generation.None?
  {
    if IsRoute(e) {
      RouteLeavesProcesses(y, e);
    } else if IsCollectorStep(e) {
      CollectorStepLeavesWorkers(y, e);
    } else {
      WorkerStepRecord(y, e, w);
    }
  }

  lemma PersistKeepsWorker(y: Service, e: Event)
    requires ServiceOk(y) && Enabled(y, e) && e.Persist?
    requires Progress(y.db, Apply(y, e).db)
    ensures WorkerOk(Apply(y, e), e.worker)
  {
    var v := y.workers[e.worker].version;
    assert WorkerOk(y, e.worker);
    assert VersionProgress(y.db, Apply(y, e).db, v);
    if PersistTx(y.db, v, e.newGeneration, e.sections, e.chunks, e.now).outcome == Committed {
      PersistTargets(y.db, v, e.newGeneration, e.sections, e.chunks, e.now);
    }
  }

  lemma EventKeepsWorker(y: Service, e: Event, w: WorkerId)
    requires ServiceOk(y) && Enabled(y, e)
    requires Progress(y.db, Apply(y, e).db)
    ensures WorkerOk(Apply(y, e), w)
  {
    var z := Apply(y, e);
    if e.Persist? && e.worker == w {
      PersistKeepsWorker(y, e);
    } else if w in z.workers {
      WorkerRecord(y, e, w);
      assert WorkerOk(y, w);
      assert VersionProgress(y.db, z.db, z.workers[w].version);
      if z.workers[w].generation.Some? {
        assert GenerationProgress(y.db, z.db, z.workers[w].generation.value);
      }
    }
  }

  lemma EventKeepsCollector(y: Service, e: Event, c: CollectorId)
    requires ServiceOk(y) && Enabled(y, e)
    requires Progress(y.db, Apply(y, e).db)
    ensures CollectorOk(Apply(y, e), c)
  {
    if c in Apply(y, e).collectors {
      forall v | v in Apply(y, e).collectors[c].superseded
        ensures Done(Apply(y, e).db, v) && !Current(Apply(y, e).db, v)
      {
        assert CollectorOk(y, c) && VersionOk(y.db, v);
        ListedVersion(y, e, c, v);
        assert VersionProgress(y.db, Apply(y, e).db, v);
      }
    }
  }

  /** A version on a collector's list was there before, or is superseded when the snapshot is taken. */
  lemma ListedVersion(y: Service, e: Event, c: CollectorId, v: VersionId)
    requires Enabled(y, e) && c in Apply(y, e).collectors && v in Apply(y, e).collectors[c].superseded
    ensures (c in y.collectors && v in y.collectors[c].superseded) || (v in y.db.versions && y.db.versions[v].status == Superseded)
  {
  }

  lemma EventKeepsServiceOk(y: Service, e: Event)
    requires ServiceOk(y) && Enabled(y, e)
    ensures ServiceOk(Apply(y, e)) && Progress(y.db, Apply(y, e).db)
  {
    EventKeepsCorpus(y, e);
    forall w ensures WorkerOk(Apply(y, e), w) {
      EventKeepsWorker(y, e, w);
    }
    forall c ensures CollectorOk(Apply(y, e), c) {
      EventKeepsCollector(y, e, c);
    }
  }

  /** Every reachable state is consistent. */
  lemma {:induction false} RunIsOk(ys: seq<Service>, es: seq<Event>, i: nat)
    requires Run(ys, es) && i < |ys|
    ensures ServiceOk(ys[i])
  {
    if i > 0 {
      RunIsOk(ys, es, i - 1);
      EventKeepsServiceOk(ys[i - 1], es[i - 1]);
    }
  }

  lemma {:induction false} RunProgresses(ys: seq<Service>, es: seq<Event>, i: nat, j: nat)
    requires Run(ys, es) && i <= j < |ys|
    ensures Progress(ys[i].db, ys[j].db)
    decreases j - i
  {
    RunIsOk(ys, es, i);
    if i < j {
      EventKeepsServiceOk(ys[i], es[i]);
      RunIsOk(ys, es, i + 1);
      RunIsOk(ys, es, j);
      RunProgresses(ys, es, i + 1, j);
      ProgressTransitive(ys[i].db, ys[i + 1].db, ys[j].db);
    } else {
      StatusChangeProgress(ys[i].db, ys[i].db);
    }
  }
}
