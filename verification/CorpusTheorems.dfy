/** What holds in every run of the corpus, for any interleaving and any number of workers on any job. */
module CorpusTheorems {
  import opened Wrappers
  import opened Corpus
  import Collections
  import opened CorpusProgress
  import opened IngestionJobs
  import opened Documents
  import opened Service

  /** The active generation's manifest is exactly what the documents expose; nothing deleted is in it, and every
      version in it was activated by a job that succeeded. */
  lemma ManifestIsExact(ys: seq<Service>, es: seq<Event>, i: nat)
    requires Run(ys, es) && i < |ys|
    ensures ActiveManifest(ys[i].db) == Exposed(ys[i].db)
    ensures forall d {:trigger d in ActiveManifest(ys[i].db)} :: d in ActiveManifest(ys[i].db) ==>
              var s := ys[i].db; var v := ActiveManifest(s)[d];
              && d in s.documents && !s.documents[d].deleted && v in s.versions && s.versions[v].document == d
              && v in s.jobs && s.jobs[v].status == JobSucceeded
              && (s.versions[v].status == Active || s.versions[v].status == Processing)
  {
    RunIsOk(ys, es, i);
    var s := ys[i].db;
    forall d | d in ActiveManifest(s)
      ensures var v := ActiveManifest(s)[d];
              && d in s.documents && !s.documents[d].deleted && v in s.versions && s.versions[v].document == d
              && v in s.jobs && s.jobs[v].status == JobSucceeded
              && (s.versions[v].status == Active || s.versions[v].status == Processing)
    {
      assert d in Exposed(s) && DocumentOk(s, d) && VersionOk(s, ActiveManifest(s)[d]);
    }
  }

  /** The number of the version a document exposes strictly increases at each switch. */
  lemma ExposedNumberIncreases(ys: seq<Service>, es: seq<Event>, i: nat, j: nat, d: DocumentId)
    requires Run(ys, es) && i <= j < |ys|
    requires d in ActiveManifest(ys[i].db) && d in ActiveManifest(ys[j].db)
    ensures var v, w := ActiveManifest(ys[i].db)[d], ActiveManifest(ys[j].db)[d];
            v in ys[j].db.versions && w in ys[j].db.versions
            && (v == w || ys[j].db.versions[v].number < ys[j].db.versions[w].number)
  {
    RunIsOk(ys, es, i);
    RunIsOk(ys, es, j);
    RunProgresses(ys, es, i, j);
    assert DocumentOk(ys[i].db, d) && DocumentOk(ys[j].db, d);
    assert DocumentProgress(ys[i].db, ys[j].db, d) && VersionProgress(ys[i].db, ys[j].db, ActiveManifest(ys[i].db)[d]);
  }

  /** A version that left the active manifest never comes back. */
  lemma HiddenVersionNeverReturns(ys: seq<Service>, es: seq<Event>, i: nat, k: nat, j: nat, d: DocumentId)
    requires Run(ys, es) && i <= k <= j < |ys|
    requires d in ActiveManifest(ys[i].db)
    requires d !in ActiveManifest(ys[k].db) || ActiveManifest(ys[k].db)[d] != ActiveManifest(ys[i].db)[d]
    ensures d !in ActiveManifest(ys[j].db) || ActiveManifest(ys[j].db)[d] != ActiveManifest(ys[i].db)[d]
  {
    var v := ActiveManifest(ys[i].db)[d];
    RunIsOk(ys, es, i);
    RunIsOk(ys, es, k);
    RunIsOk(ys, es, j);
    RunProgresses(ys, es, i, k);
    RunProgresses(ys, es, k, j);
    assert DocumentOk(ys[i].db, d) && VersionOk(ys[i].db, v);
    assert VersionProgress(ys[i].db, ys[k].db, v) && VersionProgress(ys[k].db, ys[j].db, v);
    assert Done(ys[k].db, v) && !Current(ys[k].db, v);
    assert DocumentOk(ys[j].db, d);
  }

  /** A deleted document never reappears. */
  lemma DeletedDocumentNeverReturns(ys: seq<Service>, es: seq<Event>, i: nat, j: nat, d: DocumentId)
    requires Run(ys, es) && i <= j < |ys|
    requires Deleted(ys[i].db, d)
    ensures Deleted(ys[j].db, d) && d !in ActiveManifest(ys[j].db)
  {
    RunIsOk(ys, es, j);
    RunProgresses(ys, es, i, j);
    assert DocumentProgress(ys[i].db, ys[j].db, d) && DocumentOk(ys[j].db, d);
  }

  /** The revision never goes back, and two states with one revision show one manifest. */
  lemma RevisionIdentifiesManifest(ys: seq<Service>, es: seq<Event>, i: nat, j: nat)
    requires Run(ys, es) && i <= j < |ys|
    ensures ys[i].db.revision <= ys[j].db.revision
    ensures ys[i].db.revision == ys[j].db.revision ==>
              ys[i].db.activeGeneration == ys[j].db.activeGeneration && ActiveManifest(ys[i].db) == ActiveManifest(ys[j].db)
  {
    RunProgresses(ys, es, i, j);
  }

  /** Garbage collection and superseded versions: once listed, such a version is in no later active manifest, so its
      points, file and rows can go at any time. */
  lemma SupersededCandidatesStayHidden(ys: seq<Service>, es: seq<Event>, i: nat, j: nat, c: CollectorId, v: VersionId)
    requires Run(ys, es) && i <= j < |ys|
    requires c in ys[i].collectors && v in ys[i].collectors[c].superseded
    ensures forall d :: d in ActiveManifest(ys[j].db) ==> ActiveManifest(ys[j].db)[d] != v
  {
    RunIsOk(ys, es, i);
    RunIsOk(ys, es, j);
    RunProgresses(ys, es, i, j);
    assert CollectorOk(ys[i], c);
    assert VersionProgress(ys[i].db, ys[j].db, v);
    forall d | d in ActiveManifest(ys[j].db)
      ensures ActiveManifest(ys[j].db)[d] != v
    {
      assert d in Exposed(ys[j].db) && DocumentOk(ys[j].db, d);
    }
  }

  lemma FailureLeavesCollections(s: State, v: VersionId, now: int)
    ensures MarkFailedTx(s, v, now).state.collections == s.collections
  {
    if MarkFailedTx(s, v, now).outcome == Committed && v in s.versions && s.versions[v].status != Active {
      assert Abandon(FailVersion(FailJob(s, v, now), v), v).collections == s.collections;
    }
  }

  lemma ActivationLeavesCollections(s: State, v: VersionId, g: GenerationId, now: int)
    ensures ActivateTx(s, v, g, now).state.collections == s.collections
  {
  }

  lemma TransactionLeavesCollections(y: Service, e: Event)
    requires Enabled(y, e) && (e.Start? || e.Persist? || e.MarkReady? || e.Activate? || e.Heartbeat? || e.MarkFailed?)
    ensures Apply(y, e).db.collections == y.db.collections
  {
    if e.MarkFailed? {
      FailureLeavesCollections(y.db, y.workers[e.worker].version, e.now);
    } else if e.Activate? {
      ActivationLeavesCollections(y.db, y.workers[e.worker].version, y.workers[e.worker].generation.value, e.now);
    }
  }

  lemma UploadLeavesCollections(s: State, target: Option<DocumentId>, newDocument: DocumentId, v: VersionId,
                                title: string, filename: string, mime: string, collections: set<CollectionId>, now: int)
    ensures UploadTx(s, target, newDocument, v, title, filename, mime, collections, now).state.collections == s.collections
  {
  }

  lemma VersionRouteLeavesCollections(y: Service, e: Event)
    requires Enabled(y, e) && (e.Upload? || e.Reindex? || e.Enqueue? || e.Delete? || e.AddMember? || e.RemoveMember?)
    ensures Apply(y, e).db.collections == y.db.collections
  {
    if e.Upload? {
      UploadLeavesCollections(y.db, e.target, e.newDocument, e.newVersion, e.title, e.filename, e.mime, e.collections, e.now);
    }
  }

  lemma OtherEventLeavesCollections(y: Service, e: Event)
    requires Enabled(y, e) && !e.CreateCollection? && !e.UpdateCollection? && !e.DeleteCollection?
    ensures Apply(y, e).db.collections == y.db.collections
  {
    if e.Start? || e.Persist? || e.MarkReady? || e.Activate? || e.Heartbeat? || e.MarkFailed? {
      TransactionLeavesCollections(y, e);
    } else if IsRoute(e) {
      VersionRouteLeavesCollections(y, e);
    } else {
      assert Apply(y, e).db.collections == y.db.collections;
    }
  }

  lemma EventKeepsNames(y: Service, e: Event)
    requires Enabled(y, e) && Collections.NamesDiffer(y.db.collections)
    ensures Collections.NamesDiffer(Apply(y, e).db.collections)
  {
    if e.CreateCollection? {
      Collections.CreateKeepsNames(y.db, e.collection, e.name);
    } else if e.UpdateCollection? {
      Collections.UpdateKeepsNames(y.db, e.collection, e.patch);
    } else if e.DeleteCollection? {
      Collections.DeleteKeepsNames(y.db, e.collection);
    } else {
      OtherEventLeavesCollections(y, e);
    }
  }

  /** No two live collections ever have one name. */
  lemma {:induction false} CollectionNamesDiffer(ys: seq<Service>, es: seq<Event>, i: nat)
    requires Run(ys, es) && i < |ys|
    ensures Collections.NamesDiffer(ys[i].db.collections)
  {
    if i > 0 {
      CollectionNamesDiffer(ys, es, i - 1);
      EventKeepsNames(ys[i - 1], es[i - 1]);
    }
  }
}
