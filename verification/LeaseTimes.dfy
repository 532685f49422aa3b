/** Who gets the job of a version, by the times of the events, on every run. */
module LeaseTimes {
  import opened Wrappers
  import opened Corpus
  import opened IngestionJobs
  import opened Documents
  import opened Reconcile
  import opened CorpusProgress
  import opened Service
  import opened DisciplinedRuns

  /** The event may write the job row of version v: a transaction of a worker on it, its queueing, or the deletion of its document. */
  predicate Disturbs(y: Service, e: Event, v: VersionId) {
    match e
    case Start(w, _, _) => w in y.workers && y.workers[w].version == v
    case Persist(w, _, _, _, _) => w in y.workers && y.workers[w].version == v
    case MarkReady(w, _) => w in y.workers && y.workers[w].version == v
    case Activate(w, _) => w in y.workers && y.workers[w].version == v
    case Heartbeat(w, _) => w in y.workers && y.workers[w].version == v
    case MarkFailed(w, _) => w in y.workers && y.workers[w].version == v
    case Enqueue(u, _) => u == v
    case Delete(d, _, _) => v in y.db.versions && y.db.versions[v].document == d
    case _ => false
  }

  ghost predicate Quiet(ys: seq<Service>, es: seq<Event>, i: nat, j: nat, v: VersionId)
    requires |ys| == |es| + 1 && j <= |es|
  {
    forall k :: i <= k < j ==> !Disturbs(ys[k], es[k], v)
  }

  predicate HasJob(s: State, v: VersionId, job: Job) {
    v in s.versions && v in s.jobs && s.jobs[v] == job
  }

  lemma UploadKeepsJob(s: State, target: Option<DocumentId>, newDocument: DocumentId, u: VersionId,
                       title: string, filename: string, mime: string, collections: set<CollectionId>, now: int, v: VersionId, job: Job)
    requires HasJob(s, v, job) && u != v
    ensures HasJob(UploadTx(s, target, newDocument, u, title, filename, mime, collections, now).state, v, job)
  {
  }

  lemma TombstoneKeepsJob(s: State, d: DocumentId, newId: GenerationId, now: int, v: VersionId, job: Job)
    requires HasJob(s, v, job) && s.versions[v].document != d
    ensures HasJob(TombstoneTx(s, d, newId, now).state, v, job)
  {
  }

  lemma FailureKeepsJob(s: State, u: VersionId, now: int, v: VersionId, job: Job)
    requires HasJob(s, v, job) && u != v
    ensures HasJob(MarkFailedTx(s, u, now).state, v, job)
  {
  }

  lemma ActivationKeepsJob(s: State, u: VersionId, g: GenerationId, now: int, v: VersionId, job: Job)
    requires HasJob(s, v, job) && u != v
    ensures HasJob(ActivateTx(s, u, g, now).state, v, job)
  {
  }

  lemma RouteKeepsJob(y: Service, e: Event, v: VersionId, job: Job)
    requires Enabled(y, e) && IsRoute(e) && HasJob(y.db, v, job) && !Disturbs(y, e, v)
    ensures HasJob(Apply(y, e).db, v, job)
  {
    if e.Upload? {
      UploadKeepsJob(y.db, e.target, e.newDocument, e.newVersion, e.title, e.filename, e.mime, e.collections, e.now, v, job);
    } else if e.Delete? {
      TombstoneKeepsJob(y.db, e.document, e.newGeneration, e.now, v, job);
    } else if IsCollectionRoute(e) {
      assert Apply(y, e).db.jobs == y.db.jobs && Apply(y, e).db.versions == y.db.versions;
    } else {
      assert e.Reindex? || e.Enqueue?;
    }
  }

  lemma WorkerKeepsJob(y: Service, e: Event, v: VersionId, job: Job)
    requires Enabled(y, e) && (e.Start? || e.Persist? || e.MarkReady? || e.Activate? || e.Heartbeat? || e.MarkFailed?)
    requires HasJob(y.db, v, job) && !Disturbs(y, e, v)
    ensures HasJob(Apply(y, e).db, v, job)
  {
    if e.MarkFailed? {
      FailureKeepsJob(y.db, y.workers[e.worker].version, e.now, v, job);
    } else if e.Activate? {
      ActivationKeepsJob(y.db, y.workers[e.worker].version, y.workers[e.worker].generation.value, e.now, v, job);
    }
  }

  lemma EventKeepsJob(y: Service, e: Event, v: VersionId, job: Job)
    requires Enabled(y, e) && HasJob(y.db, v, job) && !Disturbs(y, e, v)
    ensures HasJob(Apply(y, e).db, v, job)
  {
    if IsRoute(e) {
      RouteKeepsJob(y, e, v, job);
    } else if e.Start? || e.Persist? || e.MarkReady? || e.Activate? || e.Heartbeat? || e.MarkFailed? {
      WorkerKeepsJob(y, e, v, job);
    } else {
      assert Apply(y, e).db.jobs == y.db.jobs;
    }
  }

  lemma {:induction false} JobAlong(ys: seq<Service>, es: seq<Event>, i: nat, j: nat, v: VersionId, job: Job)
    requires Run(ys, es) && i <= j <= |es| && HasJob(ys[i].db, v, job) && Quiet(ys, es, i, j, v)
    ensures HasJob(ys[j].db, v, job)
    decreases j
  {
    if i < j {
      JobAlong(ys, es, i, j - 1, v, job);
      EventKeepsJob(ys[j - 1], es[j - 1], v, job);
    }
  }

  lemma StartOf(y: Service, e: Event, v: VersionId, job: Job)
    requires ServiceOk(y) && Enabled(y, e) && e.Start? && y.workers[e.worker].version == v && HasJob(y.db, v, job)
    ensures if job.status != JobSucceeded && (job.status == JobProcessing ==> forall h :: job.heartbeat == Some(h) ==> h + e.timeout < e.now) then
              && HasJob(Apply(y, e).db, v, Job(JobProcessing, job.attempt + 1, Some(e.now)))
              && e.worker in Apply(y, e).workers && Apply(y, e).workers[e.worker] == Worker(Started, v, None)
            else Apply(y, e).db == y.db && e.worker !in Apply(y, e).workers
  {
    assert VersionOk(y.db, v);
  }

  /** The lease on a job: once a worker has stamped it at time h, and nobody has written it since, another worker that comes at
      time `now` takes the job, as one more attempt, exactly when h is more than the timeout ago; before that it goes away and
      changes nothing. */
  lemma LeaseExactly(ys: seq<Service>, es: seq<Event>, i: nat, j: nat, v: VersionId, attempt: nat, h: int)
    requires Run(ys, es) && i <= j < |es| && HasJob(ys[i].db, v, Job(JobProcessing, attempt, Some(h))) && Quiet(ys, es, i, j, v)
    requires es[j].Start? && es[j].worker in ys[j].workers && ys[j].workers[es[j].worker].version == v
    ensures if h + es[j].timeout < es[j].now then
              && HasJob(ys[j + 1].db, v, Job(JobProcessing, attempt + 1, Some(es[j].now)))
              && es[j].worker in ys[j + 1].workers && ys[j + 1].workers[es[j].worker] == Worker(Started, v, None)
            else ys[j + 1].db == ys[j].db && es[j].worker !in ys[j + 1].workers
  {
    JobAlong(ys, es, i, j, v, Job(JobProcessing, attempt, Some(h)));
    RunIsOk(ys, es, j);
    StartOf(ys[j], es[j], v, Job(JobProcessing, attempt, Some(h)));
  }

  /** A job that is staged, queued or failed is taken by whoever comes first, and one that succeeded by nobody. */
  lemma FreeJobExactly(ys: seq<Service>, es: seq<Event>, i: nat, j: nat, v: VersionId, job: Job)
    requires Run(ys, es) && i <= j < |es| && HasJob(ys[i].db, v, job) && job.status != JobProcessing && Quiet(ys, es, i, j, v)
    requires es[j].Start? && es[j].worker in ys[j].workers && ys[j].workers[es[j].worker].version == v
    ensures if job.status != JobSucceeded then
              && HasJob(ys[j + 1].db, v, Job(JobProcessing, job.attempt + 1, Some(es[j].now)))
              && es[j].worker in ys[j + 1].workers && ys[j + 1].workers[es[j].worker] == Worker(Started, v, None)
            else ys[j + 1].db == ys[j].db && es[j].worker !in ys[j + 1].workers
  {
    JobAlong(ys, es, i, j, v, job);
    RunIsOk(ys, es, j);
    StartOf(ys[j], es[j], v, job);
  }
}
