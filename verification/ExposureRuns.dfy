/** What exactly exposes a version, and what exactly takes its status, rows, points or file away while it is exposed.

    The statements are about all runs: any number of workers on a job, and jobs restarted under a collector. */
module ExposureRuns {
  import opened Wrappers
  import opened Corpus
  import opened IngestionJobs
  import opened Reconcile
  import opened Documents
  import opened CorpusProgress
  import opened Service
  import opened DisciplinedRuns

  /** The event commits an activation of version v. */
  predicate Exposes(y: Service, e: Event, v: VersionId) {
    && e.Activate? && e.worker in y.workers && y.workers[e.worker].version == v && y.workers[e.worker].generation.Some?
    && ActivateTx(y.db, v, y.workers[e.worker].generation.value, e.now).outcome == Committed
  }

  /** The event deletes the document of version v, or commits an activation of another version of it. */
  predicate Hides(y: Service, e: Event, v: VersionId) {
    v in y.db.versions
    && ((e.Delete? && e.document == y.db.versions[v].document && LiveDocument(y.db, e.document))
        || (e.Activate? && e.worker in y.workers && y.workers[e.worker].version in y.db.versions && y.workers[e.worker].version != v
            && y.db.versions[y.workers[e.worker].version].document == y.db.versions[v].document
            && Exposes(y, e, y.workers[e.worker].version)))
  }

  lemma ActivationMoves(s: State, u: VersionId, g: GenerationId, now: int, v: VersionId)
    requires Consistent(s) && ActivateTx(s, u, g, now).outcome == Committed && v in s.versions
    ensures Current(ActivateTx(s, u, g, now).state, v) <==>
              v == u || (Current(s, v) && s.versions[u].document != s.versions[v].document)
  {
    assert VersionOk(s, v) && DocumentOk(s, s.versions[u].document);
  }

  lemma TombstoneMoves(s: State, d: DocumentId, newId: GenerationId, now: int, v: VersionId)
    requires Consistent(s) && v in s.versions && LiveDocument(s, d)
    ensures Current(TombstoneTx(s, d, newId, now).state, v) <==> Current(s, v) && s.versions[v].document != d
  {
    assert VersionOk(s, v) && DocumentOk(s, d);
  }

  lemma UploadKeepsRow(s: State, target: Option<DocumentId>, newDocument: DocumentId, u: VersionId,
                       title: string, filename: string, mime: string, collections: set<CollectionId>, now: int, d: DocumentId)
    requires newDocument !in s.documents && d in s.documents
    ensures d in UploadTx(s, target, newDocument, u, title, filename, mime, collections, now).state.documents
    ensures UploadTx(s, target, newDocument, u, title, filename, mime, collections, now).state.documents[d] == s.documents[d]
  {
    if target.None? {
      assert d in AddDocument(s, newDocument, title, filename, mime, collections).documents;
    }
  }

  lemma UploadLeavesDocument(y: Service, e: Event, d: DocumentId)
    requires Enabled(y, e) && e.Upload? && d in y.db.documents
    ensures d in Apply(y, e).db.documents && Apply(y, e).db.documents[d] == y.db.documents[d]
  {
    UploadKeepsRow(y.db, e.target, e.newDocument, e.newVersion, e.title, e.filename, e.mime, e.collections, e.now, d);
  }

  lemma OtherEventMoves(y: Service, e: Event, v: VersionId)
    requires ServiceOk(y) && Enabled(y, e) && !e.Activate? && !e.Delete? && v in y.db.versions
    ensures Current(Apply(y, e).db, v) <==> Current(y.db, v)
  {
    EventKeepsServiceOk(y, e);
    assert VersionProgress(y.db, Apply(y, e).db, v) && VersionOk(y.db, v);
    if e.Upload? {
      UploadLeavesDocument(y, e, y.db.versions[v].document);
    } else {
      DocumentsMove(y, e);
    }
  }

  lemma ActivateMoves(y: Service, e: Event, v: VersionId)
    requires ServiceOk(y) && Enabled(y, e) && e.Activate? && v in y.db.versions
    ensures Current(Apply(y, e).db, v) <==> Exposes(y, e, v) || (Current(y.db, v) && !Hides(y, e, v))
  {
    var me := y.workers[e.worker];
    assert WorkerOk(y, e.worker);
    if ActivateTx(y.db, me.version, me.generation.value, e.now).outcome == Committed {
      ActivationMoves(y.db, me.version, me.generation.value, e.now, v);
    }
  }

  lemma DeleteMoves(y: Service, e: Event, v: VersionId)
    requires ServiceOk(y) && Enabled(y, e) && e.Delete? && v in y.db.versions
    ensures Current(Apply(y, e).db, v) <==> Current(y.db, v) && !Hides(y, e, v)
  {
    if LiveDocument(y.db, e.document) {
      TombstoneMoves(y.db, e.document, e.newGeneration, e.now, v);
    }
  }

  /** A version is exposed after an event exactly when the event exposes it, or it was exposed and the event does not hide it. */
  lemma CurrentMoves(y: Service, e: Event, v: VersionId)
    requires ServiceOk(y) && Enabled(y, e)
    ensures Current(Apply(y, e).db, v) <==> Exposes(y, e, v) || (Current(y.db, v) && !Hides(y, e, v))
  {
    if v !in y.db.versions {
      NewVersionIsHidden(y, e, v);
    } else if e.Activate? {
      ActivateMoves(y, e, v);
    } else if e.Delete? {
      DeleteMoves(y, e, v);
    } else {
      OtherEventMoves(y, e, v);
    }
  }

  lemma CurrentMovesTo(y: Service, e: Event, z: Service, v: VersionId)
    requires ServiceOk(y) && Enabled(y, e) && z == Apply(y, e)
    ensures Current(z.db, v) <==> Exposes(y, e, v) || (Current(y.db, v) && !Hides(y, e, v))
  {
    CurrentMoves(y, e, v);
  }

  /** Event k exposes version v, and nothing hides it from then on before j. */
  predicate ExposedSince(ys: seq<Service>, es: seq<Event>, i: nat, j: nat, k: nat, v: VersionId)
    requires |es| < |ys| && j <= |es|
  {
    i <= k < j && Exposes(ys[k], es[k], v) && forall l :: k < l < j ==> !Hides(ys[l], es[l], v)
  }

  ghost predicate WasExposed(ys: seq<Service>, es: seq<Event>, i: nat, j: nat, v: VersionId)
    requires |es| < |ys| && j <= |es|
  {
    exists k: nat :: ExposedSince(ys, es, i, j, k, v)
  }

  lemma WasExposedStep(ys: seq<Service>, es: seq<Event>, i: nat, n: nat, v: VersionId)
    requires |es| < |ys| && i <= n < |es|
    ensures WasExposed(ys, es, i, n + 1, v) <==>
              Exposes(ys[n], es[n], v) || (WasExposed(ys, es, i, n, v) && !Hides(ys[n], es[n], v))
  {
    var m := n + 1;
    if Exposes(ys[n], es[n], v) {
      assert ExposedSince(ys, es, i, m, n, v);
    }
    if k: nat :| ExposedSince(ys, es, i, n, k, v) {
      assert !Hides(ys[n], es[n], v) ==> ExposedSince(ys, es, i, m, k, v);
    }
    if k: nat :| ExposedSince(ys, es, i, m, k, v) {
      assert k < n ==> ExposedSince(ys, es, i, n, k, v);
    }
  }

  /** Event i is a step of the run from a state with the invariant. */
  ghost predicate Step(ys: seq<Service>, es: seq<Event>, i: nat) {
    i < |es| < |ys| && ServiceOk(ys[i]) && Enabled(ys[i], es[i]) && ys[i + 1] == Apply(ys[i], es[i])
  }

  /** A run, with its states looked at one step at a time. */
  ghost predicate Steps(ys: seq<Service>, es: seq<Event>) {
    |ys| == |es| + 1 && ys[0] == FIRST && forall i: nat {:trigger Step(ys, es, i)} :: i < |es| ==> Step(ys, es, i)
  }

  lemma RunSteps(ys: seq<Service>, es: seq<Event>)
    requires Run(ys, es)
    ensures Steps(ys, es)
  {
    forall i: nat | i < |es|
      ensures Step(ys, es, i)
    {
      RunIsOk(ys, es, i);
    }
  }

  lemma {:induction false} ExposedAlong(ys: seq<Service>, es: seq<Event>, i: nat, j: nat, v: VersionId)
    requires Steps(ys, es) && i <= j < |ys| && !Current(ys[i].db, v)
    ensures Current(ys[j].db, v) <==> WasExposed(ys, es, i, j, v)
    decreases j
  {
    if i < j {
      var n := j - 1;
      ExposedAlong(ys, es, i, n, v);
      assert Step(ys, es, n);
      CurrentMovesTo(ys[n], es[n], ys[j], v);
      WasExposedStep(ys, es, i, n, v);
    }
  }

  /** A hidden version is exposed later exactly when an activation of it has committed since and nothing hid it again. */
  lemma ExposedExactly(ys: seq<Service>, es: seq<Event>, i: nat, j: nat, v: VersionId)
    requires Run(ys, es) && i <= j < |ys| && !Current(ys[i].db, v)
    ensures Current(ys[j].db, v) <==> WasExposed(ys, es, i, j, v)
  {
    RunSteps(ys, es);
    ExposedAlong(ys, es, i, j, v);
  }

  /** The event takes a job of version v up again. */
  predicate Restarts(y: Service, e: Event, v: VersionId) {
    && e.Start? && e.worker in y.workers && y.workers[e.worker].version == v
    && StartTx(y.db, v, e.now, e.timeout).outcome == Committed
  }

  lemma RunnerMoves(y: Service, e: Event, v: VersionId)
    requires Enabled(y, e) && NoRunner(y, v) && !Restarts(y, e, v)
    ensures NoRunner(Apply(y, e), v)
  {
    var z := Apply(y, e);
    forall w | w in z.workers && z.workers[w].version == v
      ensures !Running(z.workers[w].stage)
    {
      WorkerMoves(y, e, w);
    }
  }

  lemma IdleExposesNothing(y: Service, e: Event, v: VersionId)
    requires Enabled(y, e) && NoRunner(y, v)
    ensures !Exposes(y, e, v)
  {
  }

  lemma {:induction false} HiddenAlong(ys: seq<Service>, es: seq<Event>, i: nat, j: nat, v: VersionId)
    requires Steps(ys, es) && i <= j < |ys| && !Current(ys[i].db, v) && NoRunner(ys[i], v)
    requires forall k :: i <= k < j ==> !Restarts(ys[k], es[k], v)
    ensures !Current(ys[j].db, v) && NoRunner(ys[j], v)
    decreases j
  {
    if i < j {
      var n := j - 1;
      HiddenAlong(ys, es, i, n, v);
      assert Step(ys, es, n);
      CurrentMovesTo(ys[n], es[n], ys[j], v);
      IdleExposesNothing(ys[n], es[n], v);
      RunnerMoves(ys[n], es[n], v);
    }
  }

  /** A hidden version that no worker runs on stays hidden until its job is taken up again. */
  lemma HiddenUntilRestart(ys: seq<Service>, es: seq<Event>, i: nat, j: nat, v: VersionId)
    requires Run(ys, es) && i <= j < |ys| && !Current(ys[i].db, v) && NoRunner(ys[i], v)
    requires forall k :: i <= k < j ==> !Restarts(ys[k], es[k], v)
    ensures !Current(ys[j].db, v)
  {
    RunSteps(ys, es);
    HiddenAlong(ys, es, i, j, v);
  }

  /** Collector c takes its snapshot with event i, and its list is that one until j. */
  ghost predicate Holds(ys: seq<Service>, es: seq<Event>, i: nat, j: nat, c: CollectorId)
    requires |es| < |ys|
  {
    && i < j <= |es| && es[i].Snapshot? && es[i].collector == c && c in ys[j].collectors
    && forall k :: i < k < j ==> !(es[k].Snapshot? && es[k].collector == c)
  }

  lemma HeldBefore(ys: seq<Service>, es: seq<Event>, i: nat, j: nat, c: CollectorId)
    requires |es| < |ys| && Holds(ys, es, i, j, c) && i + 1 < j && c in ys[j - 1].collectors
    ensures Holds(ys, es, i, j - 1, c) && !(es[j - 1].Snapshot? && es[j - 1].collector == c)
  {
  }

  lemma ListKept(y: Service, z: Service, e: Event, c: CollectorId)
    requires Enabled(y, e) && z == Apply(y, e) && c in z.collectors && !(e.Snapshot? && e.collector == c)
    ensures c in y.collectors && z.collectors[c].failed == y.collectors[c].failed
  {
    ListIsFixed(y, e, c);
  }

  lemma {:induction false} HeldList(ys: seq<Service>, es: seq<Event>, i: nat, j: nat, c: CollectorId)
    requires Steps(ys, es) && Holds(ys, es, i, j, c)
    ensures c in ys[i + 1].collectors && ys[j].collectors[c].failed == ys[i + 1].collectors[c].failed
    decreases j
  {
    if i + 1 < j {
      var n := j - 1;
      assert Step(ys, es, n);
      ListKept(ys[n], ys[j], es[n], c);
      HeldBefore(ys, es, i, j, c);
      HeldList(ys, es, i, n, c);
    }
  }

  /** A failed candidate is hidden when the snapshot is taken. */
  lemma FailedIsHidden(ys: seq<Service>, es: seq<Event>, i: nat, c: CollectorId, v: VersionId)
    requires Run(ys, es) && i < |es| && es[i].Snapshot? && es[i].collector == c
    requires c in ys[i + 1].collectors && v in ys[i + 1].collectors[c].failed
    ensures !Current(ys[i].db, v) && !Current(ys[i + 1].db, v)
  {
    RunIsOk(ys, es, i);
    assert VersionOk(ys[i].db, v);
  }

  /** From the snapshot on, a failed candidate that no worker ran on stays hidden unless its own job is taken up again. */
  lemma FailedCandidateStaysHidden(ys: seq<Service>, es: seq<Event>, i: nat, j: nat, c: CollectorId, v: VersionId)
    requires Run(ys, es) && i < j < |ys| && es[i].Snapshot? && es[i].collector == c
    requires c in ys[i + 1].collectors && v in ys[i + 1].collectors[c].failed
    requires NoRunner(ys[i], v) && forall k :: i <= k < j ==> !Restarts(ys[k], es[k], v)
    ensures forall d :: d in ActiveManifest(ys[j].db) ==> ActiveManifest(ys[j].db)[d] != v
  {
    FailedIsHidden(ys, es, i, c, v);
    HiddenUntilRestart(ys, es, i, j, v);
    RunIsOk(ys, es, j);
    forall d | d in ActiveManifest(ys[j].db)
      ensures ActiveManifest(ys[j].db)[d] != v
    {
      assert d in Exposed(ys[j].db) && DocumentOk(ys[j].db, d);
    }
  }

  /** What a reader needs of a version. */
  datatype Payload = Rows | Points | File

  predicate Has(s: State, p: Payload, v: VersionId) {
    match p
    case Rows => HasRows(s, v)
    case Points => v in s.points
    case File => v in s.files
  }

  /** The event deletes this payload of version v. */
  predicate Takes(y: Service, e: Event, p: Payload, v: VersionId) {
    match p
    case Rows => e.DropRows? && Listed(y, e.collector, v)
    case Points => (e.DropPoints? && Listed(y, e.collector, v))
                   || (e.ClearPoints? && e.worker in y.workers && y.workers[e.worker].version == v)
    case File => e.DropFile? && e.version == v
  }

  lemma DropMoves(s: State, vs: set<VersionId>, p: Payload, v: VersionId)
    ensures Has(DropPointsTx(s, vs), p, v) <==> Has(s, p, v) && !(p.Points? && v in vs)
    ensures Has(DropFilesTx(s, vs), p, v) <==> Has(s, p, v) && !(p.File? && v in vs)
    ensures Has(DropRowsTx(s, vs), p, v) <==> Has(s, p, v) && !(p.Rows? && v in vs)
  {
  }

  lemma DropEventMoves(y: Service, e: Event, p: Payload, v: VersionId)
    requires Enabled(y, e) && IsDrop(e)
    ensures Has(Apply(y, e).db, p, v) <==> Has(y.db, p, v) && !Takes(y, e, p, v)
  {
    var it := y.collectors[e.collector];
    DropMoves(y.db, if e.DropFile? then {e.version} else it.superseded + it.failed, p, v);
  }

  lemma PointsMove(y: Service, e: Event, p: Payload, v: VersionId)
    requires Enabled(y, e) && (e.ClearPoints? || e.IndexPoints?)
    ensures Takes(y, e, p, v) ==> !Has(Apply(y, e).db, p, v)
    ensures !Takes(y, e, p, v) && Has(y.db, p, v) ==> Has(Apply(y, e).db, p, v)
  {
  }

  /** Nothing of this kind is lost. */
  predicate Keeps(s: State, t: State, p: Payload, v: VersionId) {
    Has(s, p, v) ==> Has(t, p, v)
  }

  lemma SamePayload(s: State, t: State, p: Payload, v: VersionId)
    requires t.sections == s.sections && t.chunks == s.chunks && t.points == s.points && s.files <= t.files
    ensures Keeps(s, t, p, v)
  {
  }

  lemma AbandonKeepsPayload(s: State, u: VersionId, p: Payload, v: VersionId)
    ensures Keeps(s, Abandon(s, u), p, v)
  {
    SamePayload(s, Abandon(s, u), p, v);
  }

  lemma FailureKeepsPayload(s: State, u: VersionId, now: int, p: Payload, v: VersionId)
    ensures Keeps(s, MarkFailedTx(s, u, now).state, p, v)
  {
    if MarkFailedTx(s, u, now).outcome == Committed {
      var job := FailJob(s, u, now);
      SamePayload(s, job, p, v);
      if u in s.versions && s.versions[u].status != Active {
        SamePayload(job, FailVersion(job, u), p, v);
        AbandonKeepsPayload(FailVersion(job, u), u, p, v);
      }
    }
  }

  lemma ActivationKeepsPayload(s: State, u: VersionId, g: GenerationId, now: int, p: Payload, v: VersionId)
    ensures Has(ActivateTx(s, u, g, now).state, p, v) <==> Has(s, p, v)
  {
    if ActivateTx(s, u, g, now).outcome == Committed {
      SamePayload(s, ActivateTx(s, u, g, now).state, p, v);
    }
  }

  lemma PersistKeepsPayload(s: State, u: VersionId, newId: GenerationId, sections: set<Section>, chunks: nat, now: int, p: Payload, v: VersionId)
    ensures Keeps(s, PersistTx(s, u, newId, sections, chunks, now).state, p, v)
  {
  }

  lemma PipelineKeepsPayload(y: Service, e: Event, p: Payload, v: VersionId)
    requires Enabled(y, e) && (e.Start? || e.Persist? || e.MarkReady? || e.Activate? || e.Heartbeat? || e.MarkFailed?)
    ensures Keeps(y.db, Apply(y, e).db, p, v)
  {
    var u := y.workers[e.worker].version;
    if e.MarkFailed? {
      FailureKeepsPayload(y.db, u, e.now, p, v);
    } else if e.Persist? {
      PersistKeepsPayload(y.db, u, e.newGeneration, e.sections, e.chunks, e.now, p, v);
    } else if e.Activate? {
      ActivationKeepsPayload(y.db, u, y.workers[e.worker].generation.value, e.now, p, v);
    } else if e.Start? {
      SamePayload(y.db, StartTx(y.db, u, e.now, e.timeout).state, p, v);
    } else if e.MarkReady? {
      SamePayload(y.db, MarkReadyTx(y.db, u, e.now).state, p, v);
    } else {
      SamePayload(y.db, HeartbeatTx(y.db, u, e.now).state, p, v);
    }
  }

  lemma TombstoneKeepsPayload(s: State, d: DocumentId, newId: GenerationId, now: int, p: Payload, v: VersionId)
    ensures Keeps(s, TombstoneTx(s, d, newId, now).state, p, v)
  {
    if LiveDocument(s, d) {
      SamePayload(s, TombstoneTx(s, d, newId, now).state, p, v);
    }
  }

  lemma UploadKeepsPayload(y: Service, e: Event, p: Payload, v: VersionId)
    requires Enabled(y, e) && e.Upload?
    ensures Keeps(y.db, Apply(y, e).db, p, v)
  {
    var tx := UploadTx(y.db, e.target, e.newDocument, e.newVersion, e.title, e.filename, e.mime, e.collections, e.now);
    if tx.outcome == Committed {
      SamePayload(y.db, tx.state, p, v);
    }
  }

  lemma CollectionRouteKeepsPayload(y: Service, e: Event, p: Payload, v: VersionId)
    requires Enabled(y, e) && IsCollectionRoute(e)
    ensures Keeps(y.db, Apply(y, e).db, p, v)
  {
    SamePayload(y.db, Apply(y, e).db, p, v);
  }

  lemma RouteKeepsPayload(y: Service, e: Event, p: Payload, v: VersionId)
    requires Enabled(y, e) && IsRoute(e)
    ensures Keeps(y.db, Apply(y, e).db, p, v)
  {
    if e.Upload? {
      UploadKeepsPayload(y, e, p, v);
    } else if e.Delete? {
      TombstoneKeepsPayload(y.db, e.document, e.newGeneration, e.now, p, v);
    } else if IsCollectionRoute(e) {
      CollectionRouteKeepsPayload(y, e, p, v);
    } else {
      SamePayload(y.db, Apply(y, e).db, p, v);
    }
  }

  /** Only the deletions take payload away. */
  lemma PayloadMoves(y: Service, e: Event, p: Payload, v: VersionId)
    requires Enabled(y, e)
    ensures Takes(y, e, p, v) ==> !Has(Apply(y, e).db, p, v)
    ensures !Takes(y, e, p, v) ==> Keeps(y.db, Apply(y, e).db, p, v)
  {
    if IsDrop(e) {
      DropEventMoves(y, e, p, v);
    } else if e.ClearPoints? || e.IndexPoints? {
      PointsMove(y, e, p, v);
    } else if IsRoute(e) {
      RouteKeepsPayload(y, e, p, v);
    } else if IsQuiet(e) {
      assert Apply(y, e).db == y.db;
    } else {
      PipelineKeepsPayload(y, e, p, v);
    }
  }

  /** The event takes no payload of this kind from an exposed version. */
  ghost predicate Spares(y: Service, e: Event, p: Payload)
    requires Enabled(y, e)
  {
    forall v {:trigger Current(y.db, v)} :: Current(y.db, v) && Has(y.db, p, v) ==> Has(Apply(y, e).db, p, v)
  }

  /** One deletion spares what is exposed exactly when nothing on the list with payload to lose is exposed: the missing recheck. */
  lemma DropSparesExactly(y: Service, e: Event, p: Payload)
    requires ServiceOk(y) && Enabled(y, e) && IsDrop(e)
    ensures Spares(y, e, p) <==>
              forall v :: v in y.collectors[e.collector].failed && Has(y.db, p, v) && Takes(y, e, p, v) ==> !Current(y.db, v)
  {
    assert CollectorOk(y, e.collector);
    forall v ensures Has(Apply(y, e).db, p, v) <==> Has(y.db, p, v) && !Takes(y, e, p, v) {
      DropEventMoves(y, e, p, v);
    }
  }

  /** Garbage collection takes payload from an exposed version exactly when a failed version on its list, with payload it
      deletes, was activated after the snapshot and not hidden since: the deletions do not look at the versions again. */
  lemma DeletionHarmlessExactly(ys: seq<Service>, es: seq<Event>, i: nat, j: nat, c: CollectorId, p: Payload)
    requires Run(ys, es) && j < |es| && Holds(ys, es, i, j, c) && IsDrop(es[j]) && es[j].collector == c
    ensures Spares(ys[j], es[j], p) <==>
              forall v :: v in ys[j].collectors[c].failed && Has(ys[j].db, p, v) && Takes(ys[j], es[j], p, v) ==>
                !WasExposed(ys, es, i + 1, j, v)
  {
    RunSteps(ys, es);
    assert Step(ys, es, j);
    HeldList(ys, es, i, j, c);
    DropSparesExactly(ys[j], es[j], p);
    forall v | v in ys[j].collectors[c].failed
      ensures Current(ys[j].db, v) <==> WasExposed(ys, es, i + 1, j, v)
    {
      FailedIsHidden(ys, es, i, c, v);
      ExposedAlong(ys, es, i + 1, j, v);
    }
  }

  /** So a collection whose failed candidates are idle at the snapshot and not taken up again harms nothing exposed, from
      its first deletion to its last, whatever other jobs and workers do. */
  lemma CollectionSparesExposed(ys: seq<Service>, es: seq<Event>, i: nat, j: nat, c: CollectorId, p: Payload)
    requires Run(ys, es) && j < |es| && Holds(ys, es, i, j, c) && IsDrop(es[j]) && es[j].collector == c
    requires forall v :: v in ys[j].collectors[c].failed ==>
               NoRunner(ys[i], v) && forall k :: i <= k < j ==> !Restarts(ys[k], es[k], v)
    ensures Spares(ys[j], es[j], p)
  {
    RunSteps(ys, es);
    assert Step(ys, es, j);
    HeldList(ys, es, i, j, c);
    DropSparesExactly(ys[j], es[j], p);
    forall v | v in ys[j].collectors[c].failed
      ensures !Current(ys[j].db, v)
    {
      FailedIsHidden(ys, es, i, c, v);
      HiddenAlong(ys, es, i, j, v);
    }
  }

  /** Every exposed version has its payload. */
  ghost predicate AllHave(s: State, p: Payload) {
    forall v {:trigger Current(s, v)} :: Current(s, v) ==> Has(s, p, v)
  }

  /** The event deletes payload of an exposed version, or exposes a version without it. */
  ghost predicate Harms(y: Service, e: Event, p: Payload) {
    || (exists v {:trigger Takes(y, e, p, v)} :: Current(y.db, v) && Takes(y, e, p, v))
    || (exists v {:trigger Exposes(y, e, v)} :: Exposes(y, e, v) && !Has(y.db, p, v))
  }

  lemma LossShows(y: Service, e: Event, p: Payload, v: VersionId)
    requires ServiceOk(y) && Enabled(y, e) && Current(y.db, v) && Takes(y, e, p, v)
    ensures Current(Apply(y, e).db, v) && !Has(Apply(y, e).db, p, v)
  {
    CurrentMoves(y, e, v);
    PayloadMoves(y, e, p, v);
  }

  lemma LackShows(y: Service, e: Event, p: Payload, v: VersionId)
    requires ServiceOk(y) && Enabled(y, e) && Exposes(y, e, v) && !Has(y.db, p, v)
    ensures Current(Apply(y, e).db, v) && !Has(Apply(y, e).db, p, v)
  {
    CurrentMoves(y, e, v);
    ActivationKeepsPayload(y.db, v, y.workers[e.worker].generation.value, e.now, p, v);
  }

  lemma HarmShows(y: Service, e: Event, p: Payload)
    requires ServiceOk(y) && Enabled(y, e) && Harms(y, e, p)
    ensures !AllHave(Apply(y, e).db, p)
  {
    if v :| Current(y.db, v) && Takes(y, e, p, v) {
      LossShows(y, e, p, v);
    } else {
      var v :| Exposes(y, e, v) && !Has(y.db, p, v);
      LackShows(y, e, p, v);
    }
  }

  /** The exact step condition. */
  lemma EventKeepsPayloadExactly(y: Service, e: Event, p: Payload)
    requires ServiceOk(y) && Enabled(y, e) && AllHave(y.db, p)
    ensures AllHave(Apply(y, e).db, p) <==> !Harms(y, e, p)
  {
    if Harms(y, e, p) {
      HarmShows(y, e, p);
    } else {
      forall v | Current(Apply(y, e).db, v)
        ensures Has(Apply(y, e).db, p, v)
      {
        CurrentMoves(y, e, v);
        PayloadMoves(y, e, p, v);
        if Exposes(y, e, v) {
          ActivationKeepsPayload(y.db, v, y.workers[e.worker].generation.value, e.now, p, v);
        }
      }
    }
  }

  /** On every run: every exposed version has its payload in every state exactly when no event harms it. */
  lemma {:induction false} ExposedHavePayloadExactly(ys: seq<Service>, es: seq<Event>, p: Payload)
    requires Run(ys, es)
    ensures (forall i :: 0 <= i < |ys| ==> AllHave(ys[i].db, p)) <==> forall i :: 0 <= i < |es| ==> !Harms(ys[i], es[i], p)
  {
    RunSteps(ys, es);
    if forall i :: 0 <= i < |ys| ==> AllHave(ys[i].db, p) {
      forall i | 0 <= i < |es|
        ensures !Harms(ys[i], es[i], p)
      {
        assert Step(ys, es, i);
        assert AllHave(ys[i].db, p) && AllHave(ys[i + 1].db, p);
        EventKeepsPayloadExactly(ys[i], es[i], p);
      }
    }
    if forall i :: 0 <= i < |es| ==> !Harms(ys[i], es[i], p) {
      forall i | 0 <= i < |ys|
        ensures AllHave(ys[i].db, p)
      {
        HarmlessPrefix(ys, es, p, i);
      }
    }
  }

  lemma {:induction false} HarmlessPrefix(ys: seq<Service>, es: seq<Event>, p: Payload, i: nat)
    requires Steps(ys, es) && i < |ys| && forall k :: 0 <= k < i ==> !Harms(ys[k], es[k], p)
    ensures AllHave(ys[i].db, p)
  {
    if i > 0 {
      HarmlessPrefix(ys, es, p, i - 1);
      assert Step(ys, es, i - 1);
      EventKeepsPayloadExactly(ys[i - 1], es[i - 1], p);
    }
  }

  /** Every exposed version is active. */
  ghost predicate AllActive(s: State) {
    forall v {:trigger Current(s, v)} :: Current(s, v) ==> s.versions[v].status == Active
  }

  /** The event stages the version that its document exposes: the guard that staging lacks. */
  predicate Unsettles(y: Service, e: Event) {
    e.Persist? && e.worker in y.workers && Current(y.db, y.workers[e.worker].version)
  }

  lemma PersistRow(s: State, u: VersionId, newId: GenerationId, sections: set<Section>, chunks: nat, now: int, v: VersionId)
    requires v in s.versions
    ensures var t := PersistTx(s, u, newId, sections, chunks, now).state;
            && v in t.versions && t.documents == s.documents && t.versions[v].document == s.versions[v].document
            && t.versions[v].status == if v == u && u in s.jobs then Processing else s.versions[v].status
  {
  }

  /** Staging keeps every exposed version active exactly when it does not stage an exposed one. */
  lemma PersistKeepsActiveExactly(s: State, u: VersionId, newId: GenerationId, sections: set<Section>, chunks: nat, now: int)
    requires Consistent(s) && AllActive(s)
    ensures AllActive(PersistTx(s, u, newId, sections, chunks, now).state) <==> !Current(s, u)
  {
    var t := PersistTx(s, u, newId, sections, chunks, now).state;
    assert VersionOk(s, u);
    if Current(s, u) {
      PersistRow(s, u, newId, sections, chunks, now, u);
      assert Current(t, u);
    } else {
      forall v | Current(t, v)
        ensures t.versions[v].status == Active
      {
        assert v in s.versions;
        PersistRow(s, u, newId, sections, chunks, now, v);
        assert Current(s, v);
      }
    }
  }

  lemma ExposedVersionIsActive(y: Service, e: Event, v: VersionId)
    requires Enabled(y, e) && Exposes(y, e, v)
    ensures v in Apply(y, e).db.versions && Apply(y, e).db.versions[v].status == Active
  {
  }

  /** A version that stays exposed keeps its status, unless it is staged again. */
  lemma ExposedKeepsStatus(y: Service, e: Event, v: VersionId)
    requires ServiceOk(y) && Enabled(y, e) && Current(y.db, v) && !Hides(y, e, v) && !Exposes(y, e, v) && !e.Persist?
    ensures v in Apply(y, e).db.versions && Apply(y, e).db.versions[v].status == y.db.versions[v].status
  {
    assert VersionOk(y.db, v) && DocumentOk(y.db, y.db.versions[v].document);
    if v !in Touched(y, e) {
      UntouchedIsCalm(y, e, v);
    } else if e.Start? || e.MarkReady? || e.MarkFailed? {
      FinishedJobIsLeftAlone(y, e);
    } else if e.Activate? {
      assert WorkerOk(y, e.worker);
    }
  }

  lemma EventKeepsActiveExactly(y: Service, e: Event)
    requires ServiceOk(y) && Enabled(y, e) && AllActive(y.db)
    ensures AllActive(Apply(y, e).db) <==> !Unsettles(y, e)
  {
    if e.Persist? {
      PersistKeepsActiveExactly(y.db, y.workers[e.worker].version, e.newGeneration, e.sections, e.chunks, e.now);
    } else {
      forall v | Current(Apply(y, e).db, v)
        ensures Apply(y, e).db.versions[v].status == Active
      {
        CurrentMoves(y, e, v);
        if Exposes(y, e, v) {
          ExposedVersionIsActive(y, e, v);
        } else {
          ExposedKeepsStatus(y, e, v);
        }
      }
    }
  }

  lemma {:induction false} SettledPrefix(ys: seq<Service>, es: seq<Event>, i: nat)
    requires Steps(ys, es) && i < |ys| && forall k :: 0 <= k < i ==> !Unsettles(ys[k], es[k])
    ensures AllActive(ys[i].db)
  {
    if i > 0 {
      SettledPrefix(ys, es, i - 1);
      assert Step(ys, es, i - 1);
      EventKeepsActiveExactly(ys[i - 1], es[i - 1]);
    }
  }

  /** On every run: every exposed version is active in every state exactly when no worker stages a version that its document
      exposes at that moment. */
  lemma {:induction false} ExposedIsActiveExactly(ys: seq<Service>, es: seq<Event>)
    requires Run(ys, es)
    ensures (forall i :: 0 <= i < |ys| ==> AllActive(ys[i].db)) <==> forall i :: 0 <= i < |es| ==> !Unsettles(ys[i], es[i])
  {
    RunSteps(ys, es);
    if forall i :: 0 <= i < |ys| ==> AllActive(ys[i].db) {
      forall i | 0 <= i < |es|
        ensures !Unsettles(ys[i], es[i])
      {
        assert Step(ys, es, i);
        assert AllActive(ys[i].db) && AllActive(ys[i + 1].db);
        EventKeepsActiveExactly(ys[i], es[i]);
      }
    }
    if forall i :: 0 <= i < |es| ==> !Unsettles(ys[i], es[i]) {
      forall i | 0 <= i < |ys|
        ensures AllActive(ys[i].db)
      {
        SettledPrefix(ys, es, i);
      }
    }
  }
}
