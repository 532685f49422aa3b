/** Runs that show why the assumptions of DisciplinedRuns and of RetrievalCache are there.

    They follow the code as it is, and every staging writes what the file is parsed into. In the first a failed version
    is garbage collected while its job runs again, in the second two workers hold one job, and in the last both. */
module CounterexampleRuns {
  import opened Wrappers
  import opened Corpus
  import opened IngestionJobs
  import opened Documents
  import opened Reconcile
  import opened Scope
  import opened Service
  import opened ExposureRuns
  import opened RetrievalCache
  import opened ParsedRuns
  import opened Reachability

  const DOCUMENT: DocumentId := 0
  const VERSION: VersionId := 0
  const GENERATION: GenerationId := 0
  const FIRST_WORKER: WorkerId := 0
  const SECOND_WORKER: WorkerId := 1
  const COLLECTOR: CollectorId := 0
  const THIRD_WORKER: WorkerId := 2
  const SECTION := Section(0, "", "")
  /** Every file is parsed into one and the same section. */
  const PARSE: Parser := v => {SECTION}
  const TIMEOUT: nat := 10
  const RETAINED: nat := 2

  /** The tenant of both runs: one document with one version, whose job is in the given state. */
  function Tenant(status: VersionStatus, job: Job): State {
    EmptyState().(
      documents := map[DOCUMENT := Document("", "", "", None, false)],
      versions := map[VERSION := Version(DOCUMENT, 1, status, 0, None, None, false)],
      jobs := map[VERSION := job],
      files := {VERSION})
  }

  lemma UploadReached()
    ensures Reached(Service(Tenant(Staged, Job(JobStaged, 0, None)), map[], map[]), PARSE)
  {
    var e := Upload(None, DOCUMENT, VERSION, "", "", "", {}, 0);
    FirstReached(PARSE);
    NextReached(FIRST, e, PARSE);
    assert Numbers(FIRST.db, DOCUMENT) == {};
    var y := Apply(FIRST, e);
    assert y.db.memberships == {};
    assert y == Service(Tenant(Staged, Job(JobStaged, 0, None)), map[], map[]);
  }

  /** The same tenant once worker w has staged, indexed and validated the version. */
  function Staging(status: VersionStatus, attempt: nat, points: set<VersionId>): State {
    Tenant(status, Job(JobProcessing, attempt, Some(0))).(
      versions := map[VERSION := Version(DOCUMENT, 1, status, 0, None, Some(GENERATION), false)],
      generations := map[GENERATION := Generation(Some(VERSION), None, Preparing, 2, None)],
      manifests := map[GENERATION := map[DOCUMENT := VERSION]],
      sections := map[VERSION := {SECTION}],
      chunks := map[VERSION := 1],
      points := points)
  }

  /** And once the version is activated. */
  function Exposing(attempt: nat): State {
    Staging(Active, attempt, {VERSION}).(
      documents := map[DOCUMENT := Document("", "", "", Some(VERSION), false)],
      versions := map[VERSION := Version(DOCUMENT, 1, Active, 0, Some(0), Some(GENERATION), false)],
      jobs := map[VERSION := Job(JobSucceeded, attempt, Some(0))],
      generations := map[GENERATION := Generation(Some(VERSION), None, Activated, 2, Some(0))],
      activeGeneration := Some(GENERATION),
      revision := 2)
  }

  /** One step of worker w: from a database and worker record to the next, the other processes unmoved. */
  ghost predicate Moved(y: Service, z: Service, w: WorkerId, db: State, next: Worker) {
    && Reached(z, PARSE) && z.db == db && w in z.workers && z.workers[w] == next && z.collectors == y.collectors
    && z.workers.Keys == y.workers.Keys + {w}
    && forall x :: x in y.workers && x != w ==> x in z.workers && z.workers[x] == y.workers[x]
  }

  lemma WorkerBegins(y: Service, w: WorkerId, status: VersionStatus, job: Job) returns (z: Service)
    requires Reached(y, PARSE) && y.db == Tenant(status, job) && w !in y.workers
    ensures Moved(y, z, w, y.db, Worker(Starting, VERSION, None))
  {
    NextReached(y, Begin(w, VERSION), PARSE);
    z := Apply(y, Begin(w, VERSION));
  }

  lemma TenantStarts(status: VersionStatus, job: Job, now: int)
    requires job.status != JobSucceeded && (job.heartbeat.Some? ==> job.heartbeat.value < now - TIMEOUT || job.status != JobProcessing)
    ensures StartTx(Tenant(status, job), VERSION, now, TIMEOUT)
            == Tx(Committed, Tenant(Processing, Job(JobProcessing, job.attempt + 1, Some(now))))
  {
  }

  lemma WorkerStarts(y: Service, w: WorkerId, status: VersionStatus, job: Job, now: int) returns (z: Service)
    requires Reached(y, PARSE) && y.db == Tenant(status, job) && w in y.workers && y.workers[w] == Worker(Starting, VERSION, None)
    requires job.status != JobSucceeded && (job.heartbeat.Some? ==> job.heartbeat.value < now - TIMEOUT || job.status != JobProcessing)
    ensures Moved(y, z, w, Tenant(Processing, Job(JobProcessing, job.attempt + 1, Some(now))), Worker(Started, VERSION, None))
  {
    TenantStarts(status, job, now);
    NextReached(y, Start(w, now, TIMEOUT), PARSE);
    z := Apply(y, Start(w, now, TIMEOUT));
  }

  lemma WorkerParses(y: Service, w: WorkerId) returns (z: Service)
    requires Reached(y, PARSE) && w in y.workers && y.workers[w] == Worker(Started, VERSION, None) && VERSION in y.db.files
    ensures Moved(y, z, w, y.db, Worker(Parsed, VERSION, None))
  {
    NextReached(y, Parse(w), PARSE);
    z := Apply(y, Parse(w));
  }

  lemma WorkerStages(y: Service, w: WorkerId, attempt: nat, heartbeat: int) returns (z: Service)
    requires Reached(y, PARSE) && y.db == Tenant(Processing, Job(JobProcessing, attempt, Some(heartbeat)))
    requires w in y.workers && y.workers[w] == Worker(Parsed, VERSION, None)
    ensures Moved(y, z, w, Staging(Processing, attempt, {}), Worker(Persisted, VERSION, Some(GENERATION)))
  {
    var e := Persist(w, GENERATION, {SECTION}, 1, 0);
    NextReached(y, e, PARSE);
    z := Apply(y, e);
    assert Preparations(y.db, VERSION) == {};
    assert EarlyCopy(y.db, VERSION) == map[DOCUMENT := VERSION];
    assert PersistTx(y.db, VERSION, GENERATION, {SECTION}, 1, 0).state == Staging(Processing, attempt, {});
  }

  lemma WorkerClears(y: Service, w: WorkerId, attempt: nat) returns (z: Service)
    requires Reached(y, PARSE) && y.db == Staging(Processing, attempt, {})
    requires w in y.workers && y.workers[w] == Worker(Persisted, VERSION, Some(GENERATION))
    ensures Moved(y, z, w, y.db, Worker(Cleared, VERSION, Some(GENERATION)))
  {
    NextReached(y, ClearPoints(w), PARSE);
    z := Apply(y, ClearPoints(w));
    assert z.db.points == {};
  }

  lemma WorkerIndexes(y: Service, w: WorkerId, attempt: nat) returns (z: Service)
    requires Reached(y, PARSE) && y.db == Staging(Processing, attempt, {})
    requires w in y.workers && y.workers[w] == Worker(Cleared, VERSION, Some(GENERATION))
    ensures Moved(y, z, w, Staging(Processing, attempt, {VERSION}), Worker(Indexed, VERSION, Some(GENERATION)))
  {
    NextReached(y, IndexPoints(w), PARSE);
    z := Apply(y, IndexPoints(w));
    assert z.db.points == {VERSION};
  }

  lemma WorkerValidates(y: Service, w: WorkerId) returns (z: Service)
    requires Reached(y, PARSE) && w in y.workers && y.workers[w] == Worker(Indexed, VERSION, Some(GENERATION)) && VERSION in y.db.points
    ensures Moved(y, z, w, y.db, Worker(Validated, VERSION, Some(GENERATION)))
  {
    NextReached(y, Validate(w), PARSE);
    z := Apply(y, Validate(w));
  }

  lemma StagingIsMarked(attempt: nat)
    ensures MarkReadyTx(Staging(Processing, attempt, {VERSION}), VERSION, 0) == Tx(Committed, Staging(Ready, attempt, {VERSION}))
  {
  }

  lemma WorkerMarks(y: Service, w: WorkerId, attempt: nat) returns (z: Service)
    requires Reached(y, PARSE) && y.db == Staging(Processing, attempt, {VERSION})
    requires w in y.workers && y.workers[w] == Worker(Validated, VERSION, Some(GENERATION))
    ensures Moved(y, z, w, Staging(Ready, attempt, {VERSION}), Worker(Marked, VERSION, Some(GENERATION)))
  {
    StagingIsMarked(attempt);
    z := ReachedByMarking(y, PARSE, w);
  }

  lemma ActivationExposes(attempt: nat)
    ensures ActivateTx(Staging(Ready, attempt, {VERSION}), VERSION, GENERATION, 0) == Tx(Committed, Exposing(attempt))
  {
    var s := Staging(Ready, attempt, {VERSION});
    assert MayActivate(s, VERSION, GENERATION);
    assert Retired(Rebased(s, VERSION, GENERATION), VERSION) == s;
  }

  lemma WorkerActivates(y: Service, w: WorkerId, attempt: nat) returns (z: Service)
    requires Reached(y, PARSE) && y.db == Staging(Ready, attempt, {VERSION})
    requires w in y.workers && y.workers[w] == Worker(Marked, VERSION, Some(GENERATION))
    ensures Reached(z, PARSE) && z.db == Exposing(attempt) && z.collectors == y.collectors
    ensures forall x :: x in y.workers && x != w ==> x in z.workers && z.workers[x] == y.workers[x]
  {
    ActivationExposes(attempt);
    NextReached(y, Activate(w, 0), PARSE);
    z := Apply(y, Activate(w, 0));
  }

  /** A worker that staged nothing yet makes its version ready, and may go on to activate it. */
  lemma WorkerReadies(y: Service, w: WorkerId, attempt: nat, heartbeat: int) returns (z: Service)
    requires Reached(y, PARSE) && y.db == Tenant(Processing, Job(JobProcessing, attempt, Some(heartbeat)))
    requires w in y.workers && y.workers[w] == Worker(Started, VERSION, None)
    ensures Moved(y, z, w, Staging(Ready, attempt, {VERSION}), Worker(Marked, VERSION, Some(GENERATION)))
  {
    z := WorkerParses(y, w);
    z := WorkerStages(z, w, attempt, heartbeat);
    z := WorkerClears(z, w, attempt);
    z := WorkerIndexes(z, w, attempt);
    z := WorkerValidates(z, w);
    z := WorkerMarks(z, w, attempt);
  }

  lemma WorkerFinishes(y: Service, w: WorkerId, attempt: nat, heartbeat: int) returns (z: Service)
    requires Reached(y, PARSE) && y.db == Tenant(Processing, Job(JobProcessing, attempt, Some(heartbeat)))
    requires w in y.workers && y.workers[w] == Worker(Started, VERSION, None)
    ensures Reached(z, PARSE) && z.db == Exposing(attempt) && z.collectors == y.collectors
    ensures forall x :: x in y.workers && x != w ==> x in z.workers && z.workers[x] == y.workers[x]
  {
    z := WorkerReadies(y, w, attempt, heartbeat);
    z := WorkerActivates(z, w, attempt);
  }

  lemma FailureOfFirstAttempt()
    ensures MarkFailedTx(Tenant(Processing, Job(JobProcessing, 1, Some(0))), VERSION, 0).state
            == Tenant(Failed, Job(JobFailed, 1, Some(0)))
  {
  }

  lemma WorkerFails(y: Service, w: WorkerId) returns (z: Service)
    requires Reached(y, PARSE) && y.db == Tenant(Processing, Job(JobProcessing, 1, Some(0)))
    requires w in y.workers && y.workers[w] == Worker(Failing, VERSION, None)
    ensures Reached(z, PARSE) && z.db == Tenant(Failed, Job(JobFailed, 1, Some(0))) && z.collectors == y.collectors
    ensures z.workers.Keys == y.workers.Keys - {w}
  {
    FailureOfFirstAttempt();
    NextReached(y, MarkFailed(w, 0), PARSE);
    z := Apply(y, MarkFailed(w, 0));
  }

  lemma WorkerRaises(y: Service, w: WorkerId) returns (z: Service)
    requires Reached(y, PARSE) && w in y.workers && y.workers[w] == Worker(Started, VERSION, None)
    ensures Moved(y, z, w, y.db, Worker(Failing, VERSION, None))
  {
    NextReached(y, Raise(w), PARSE);
    z := Apply(y, Raise(w));
  }

  lemma FirstAttemptFails() returns (z: Service)
    ensures Reached(z, PARSE) && z.db == Tenant(Failed, Job(JobFailed, 1, Some(0))) && z.workers.Keys == {} && z.collectors == map[]
  {
    UploadReached();
    z := Service(Tenant(Staged, Job(JobStaged, 0, None)), map[], map[]);
    z := WorkerBegins(z, FIRST_WORKER, Staged, Job(JobStaged, 0, None));
    z := WorkerStarts(z, FIRST_WORKER, Staged, Job(JobStaged, 0, None), 0);
    z := WorkerRaises(z, FIRST_WORKER);
    z := WorkerFails(z, FIRST_WORKER);
  }

  lemma FailureIsCandidate()
    ensures Candidates(Tenant(Failed, Job(JobFailed, 1, Some(0))), RETAINED, Some(1)) == {VERSION}
  {
  }

  lemma FailureIsListed(y: Service) returns (z: Service)
    requires Reached(y, PARSE) && y.db == Tenant(Failed, Job(JobFailed, 1, Some(0))) && COLLECTOR !in y.collectors
    ensures Reached(z, PARSE) && z.db == y.db && z.workers == y.workers
    ensures COLLECTOR in z.collectors && z.collectors[COLLECTOR] == Collector({}, {VERSION}, false)
  {
    var e := Snapshot(COLLECTOR, RETAINED, Some(1));
    FailureIsCandidate();
    NextReached(y, e, PARSE);
    z := Apply(y, e);
    assert z.collectors[COLLECTOR].failed == {VERSION} && z.collectors[COLLECTOR].superseded == {};
  }

  lemma PointsDropped(y: Service) returns (z: Service)
    requires Reached(y, PARSE) && y.db == Tenant(Failed, Job(JobFailed, 1, Some(0)))
    requires COLLECTOR in y.collectors && y.collectors[COLLECTOR] == Collector({}, {VERSION}, false)
    ensures Reached(z, PARSE) && z.db == y.db && z.workers == y.workers
    ensures COLLECTOR in z.collectors && z.collectors[COLLECTOR] == Collector({}, {VERSION}, true)
  {
    NextReached(y, DropPoints(COLLECTOR), PARSE);
    z := Apply(y, DropPoints(COLLECTOR));
    assert z.db.points == {};
  }

  /** Once the restarted job is over, the collector still lists the version it exposed. */
  lemma RestartedCandidateExposed() returns (z: Service)
    ensures Reached(z, PARSE) && z.db == Exposing(2)
    ensures COLLECTOR in z.collectors && z.collectors[COLLECTOR] == Collector({}, {VERSION}, true)
  {
    z := FirstAttemptFails();
    z := FailureIsListed(z);
    z := PointsDropped(z);
    z := WorkerBegins(z, SECOND_WORKER, Failed, Job(JobFailed, 1, Some(0)));
    z := WorkerStarts(z, SECOND_WORKER, Failed, Job(JobFailed, 1, Some(0)), 0);
    z := WorkerFinishes(z, SECOND_WORKER, 2, 0);
  }

  lemma RowsOfExposedDropped()
    ensures var t := DropRowsTx(Exposing(2), {VERSION});
            && ActiveManifest(t) == map[DOCUMENT := VERSION] && VERSION !in t.chunks
            && SectionRow(VERSION, SECTION) !in View(t).sections && t.revision == Exposing(2).revision
  {
    assert VERSION !in DropRowsTx(Exposing(2), {VERSION}).sections;
  }

  lemma CollectorDropsRows(y: Service) returns (z: Service)
    requires Reached(y, PARSE) && COLLECTOR in y.collectors && y.collectors[COLLECTOR] == Collector({}, {VERSION}, true)
    ensures Enabled(y, DropRows(COLLECTOR)) && z == Apply(y, DropRows(COLLECTOR)) && Reached(z, PARSE)
    ensures z.db == DropRowsTx(y.db, {VERSION}) && z.workers == y.workers
  {
    NextReached(y, DropRows(COLLECTOR), PARSE);
    z := Apply(y, DropRows(COLLECTOR));
    assert {} + {VERSION} == {VERSION};
  }

  /** A job restarted between the snapshot and the row deletion: the corpus goes on exposing a version without rows. */
  lemma RestartedCandidateLosesRows() returns (z: Service)
    ensures Reached(z, PARSE) && ActiveManifest(z.db) == map[DOCUMENT := VERSION] && VERSION !in z.db.chunks
  {
    var y := RestartedCandidateExposed();
    z := CollectorDropsRows(y);
    RowsOfExposedDropped();
  }

  lemma ExposingShowsSection()
    ensures SectionRow(VERSION, SECTION) in View(Exposing(2)).sections
  {
    var s := Exposing(2);
    assert DOCUMENT in ShownDocuments(s) && SECTION in SectionsOf(s, VERSION);
  }

  /** The same deletion changes what the resolver sees, at one and the same revision. */
  lemma RestartedCandidateBreaksCache() returns (y: Service, e: Event)
    ensures Reached(y, PARSE) && e.DropRows? && Enabled(y, e)
    ensures Apply(y, e).db.revision == y.db.revision && View(Apply(y, e).db) != View(y.db)
  {
    y := RestartedCandidateExposed();
    e := DropRows(COLLECTOR);
    ExposingShowsSection();
    RowsOfExposedDropped();
    var z := CollectorDropsRows(y);
  }

  lemma SecondWorkerStages(y: Service) returns (z: Service)
    requires Reached(y, PARSE) && y.db == Exposing(2)
    requires SECOND_WORKER in y.workers && y.workers[SECOND_WORKER] == Worker(Parsed, VERSION, None)
    ensures Reached(z, PARSE) && ActiveManifest(z.db) == map[DOCUMENT := VERSION] && VERSION in z.db.versions
    ensures z.db.versions[VERSION].status == Processing
    ensures SECOND_WORKER in z.workers && z.workers[SECOND_WORKER].stage == Persisted && z.workers[SECOND_WORKER].version == VERSION
  {
    var e := Persist(SECOND_WORKER, 1, {SECTION}, 1, 0);
    NextReached(y, e, PARSE);
    StagingExposedVersion();
    z := Apply(y, e);
  }

  lemma StagingExposedVersion()
    ensures var tx := PersistTx(Exposing(2), VERSION, 1, {SECTION}, 1, 0);
            tx.outcome == Committed && ActiveManifest(tx.state) == map[DOCUMENT := VERSION]
            && VERSION in tx.state.versions && tx.state.versions[VERSION].status == Processing
  {
    var s := Exposing(2);
    assert Preparations(s, VERSION) == {};
    assert Target(s, VERSION, 1) == 1;
    var prepared := Prepared(s, VERSION, 1);
    assert ActiveManifest(prepared) == map[DOCUMENT := VERSION];
  }

  lemma SecondWorkerClears(y: Service) returns (z: Service)
    requires Reached(y, PARSE) && ActiveManifest(y.db) == map[DOCUMENT := VERSION] && VERSION in y.db.versions
    requires y.db.versions[VERSION].status == Processing
    requires SECOND_WORKER in y.workers && y.workers[SECOND_WORKER].stage == Persisted && y.workers[SECOND_WORKER].version == VERSION
    ensures Reached(z, PARSE) && ActiveManifest(z.db) == map[DOCUMENT := VERSION] && VERSION in z.db.versions
    ensures z.db.versions[VERSION].status == Processing && VERSION !in z.db.points
  {
    NextReached(y, ClearPoints(SECOND_WORKER), PARSE);
    z := Apply(y, ClearPoints(SECOND_WORKER));
  }

  /** Two workers on one job, one of which has exposed the version while the other has only read it. */
  lemma SharedJobExposed() returns (z: Service)
    ensures Reached(z, PARSE) && z.db == Exposing(2)
    ensures SECOND_WORKER in z.workers && z.workers[SECOND_WORKER] == Worker(Parsed, VERSION, None)
  {
    UploadReached();
    z := Service(Tenant(Staged, Job(JobStaged, 0, None)), map[], map[]);
    z := WorkerBegins(z, FIRST_WORKER, Staged, Job(JobStaged, 0, None));
    z := WorkerStarts(z, FIRST_WORKER, Staged, Job(JobStaged, 0, None), 0);
    z := WorkerBegins(z, SECOND_WORKER, Processing, Job(JobProcessing, 1, Some(0)));
    z := WorkerStarts(z, SECOND_WORKER, Processing, Job(JobProcessing, 1, Some(0)), TIMEOUT + 1);
    z := WorkerFinishes(z, FIRST_WORKER, 2, TIMEOUT + 1);
    z := WorkerParses(z, SECOND_WORKER);
  }

  /** What the corpus exposes is set back to processing, and its points are gone. */
  lemma SharedJobClearsExposed() returns (z: Service)
    ensures Reached(z, PARSE) && ActiveManifest(z.db) == map[DOCUMENT := VERSION] && VERSION in z.db.versions
    ensures z.db.versions[VERSION].status == Processing && VERSION !in z.db.points
  {
    z := SharedJobExposed();
    z := SecondWorkerStages(z);
    z := SecondWorkerClears(z);
  }

  /** The failed job is taken up again, and taken over once more, while the collector lists its version. */
  lemma RestartedJobShared() returns (z: Service)
    ensures Reached(z, PARSE) && z.db == Tenant(Processing, Job(JobProcessing, 3, Some(TIMEOUT + 1)))
    ensures COLLECTOR in z.collectors && z.collectors[COLLECTOR] == Collector({}, {VERSION}, true)
    ensures forall w :: w in {SECOND_WORKER, THIRD_WORKER} ==> w in z.workers && z.workers[w] == Worker(Started, VERSION, None)
  {
    z := FirstAttemptFails();
    z := FailureIsListed(z);
    z := PointsDropped(z);
    z := WorkerBegins(z, SECOND_WORKER, Failed, Job(JobFailed, 1, Some(0)));
    z := WorkerStarts(z, SECOND_WORKER, Failed, Job(JobFailed, 1, Some(0)), 0);
    z := WorkerBegins(z, THIRD_WORKER, Processing, Job(JobProcessing, 2, Some(0)));
    z := WorkerStarts(z, THIRD_WORKER, Processing, Job(JobProcessing, 2, Some(0)), TIMEOUT + 1);
  }

  /** A version that is ready but has lost its rows. */
  function Bare(): State {
    DropRowsTx(Staging(Ready, 3, {VERSION}), {VERSION})
  }

  lemma BareMarked() returns (z: Service)
    ensures Reached(z, PARSE) && z.db == Bare()
    ensures SECOND_WORKER in z.workers && z.workers[SECOND_WORKER] == Worker(Marked, VERSION, Some(GENERATION))
    ensures THIRD_WORKER in z.workers && z.workers[THIRD_WORKER] == Worker(Parsed, VERSION, None)
  {
    z := RestartedJobShared();
    z := WorkerReadies(z, SECOND_WORKER, 3, TIMEOUT + 1);
    z := WorkerParses(z, THIRD_WORKER);
    z := CollectorDropsRows(z);
  }

  lemma BareActivates()
    ensures var tx := ActivateTx(Bare(), VERSION, GENERATION, 0);
            tx.outcome == Committed && Current(tx.state, VERSION) && VERSION !in tx.state.sections && tx.state.generations.Keys == {GENERATION}
  {
    assert MayActivate(Bare(), VERSION, GENERATION);
  }

  lemma BareExposed() returns (z: Service)
    ensures Reached(z, PARSE) && Current(z.db, VERSION) && VERSION !in z.db.sections && z.db.generations.Keys == {GENERATION}
    ensures THIRD_WORKER in z.workers && z.workers[THIRD_WORKER] == Worker(Parsed, VERSION, None)
  {
    z := BareMarked();
    BareActivates();
    NextReached(z, Activate(SECOND_WORKER, 0), PARSE);
    z := Apply(z, Activate(SECOND_WORKER, 0));
  }

  /** When the collector deletes the rows before the version is exposed, a second worker on the job brings them back later,
      and that changes what the resolver sees at one and the same revision. */
  lemma RefillBreaksCache() returns (y: Service, e: Event)
    ensures Reached(y, PARSE) && Enabled(y, e) && StagesParsed(y, e, PARSE) && Refills(y, e)
    ensures Apply(y, e).db.revision == y.db.revision && View(Apply(y, e).db) != View(y.db)
  {
    y := BareExposed();
    e := Persist(THIRD_WORKER, 1, {SECTION}, 1, 0);
    ReachedIsOk(y, PARSE);
    PersistKeepsView(y, e);
  }
}
