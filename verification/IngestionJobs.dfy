/** The transactions of the ingestion pipeline (backend/app/ingest/jobs.py).

    Each `async with self._factory()` block is one atomic step. The functions say what a step does to
    the tenant's rows; the class performs the same step on a Database field by field. */
module IngestionJobs {
  import opened Wrappers
  import opened Corpus

  function StartTx(s: State, v: VersionId, now: int, timeout: nat): Tx {
    if v !in s.jobs || v !in s.versions || s.versions[v].document !in s.documents then Tx(Rejected, s)
    else if s.jobs[v].status == JobSucceeded then Tx(Skipped, s)
    else if s.jobs[v].status == JobProcessing && s.jobs[v].heartbeat.Some? && s.jobs[v].heartbeat.value >= now - timeout then
      Tx(Skipped, s)
    else
      Tx(Committed, s.(
        jobs := s.jobs[v := Job(JobProcessing, s.jobs[v].attempt + 1, Some(now))],
        versions := s.versions[v := s.versions[v].(status := Processing)]))
  }

  /** The generations still being prepared for a version. */
  function Preparations(s: State, v: VersionId): set<GenerationId> {
    set g | g in s.generations && s.generations[g].changed == Some(v) && s.generations[g].status == Preparing
  }

  ghost predicate IsLast(g: GenerationId, gs: set<GenerationId>) {
    g in gs && forall h :: h in gs ==> h <= g
  }

  lemma LastExists(gs: set<GenerationId>)
    requires gs != {}
    ensures exists g :: IsLast(g, gs)
  {
    var x :| x in gs;
    if gs == {x} {
      assert IsLast(x, gs);
    } else {
      var rest := gs - {x};
      assert gs == rest + {x};
      LastExists(rest);
      var y :| IsLast(y, rest);
      assert IsLast(if x < y then y else x, gs);
    }
  }

  /** The generation a staged version is written to: the last one still being prepared for it, or a new row. */
  ghost function Target(s: State, v: VersionId, newId: GenerationId): GenerationId {
    if Preparations(s, v) == {} then newId
    else LastExists(Preparations(s, v)); var g :| IsLast(g, Preparations(s, v)); g
  }

  ghost function PreparedGeneration(s: State, v: VersionId, g: GenerationId): Generation {
    if Preparations(s, v) == {} || g !in s.generations then Generation(Some(v), s.activeGeneration, Preparing, s.revision + 1, None)
    else s.generations[g].(parent := s.activeGeneration, revision := s.revision + 1)
  }

  /** A generation row for version v whose manifest is its early copy. */
  ghost function Prepared(s: State, v: VersionId, g: GenerationId): State
    requires v in s.versions
  {
    s.(generations := s.generations[g := PreparedGeneration(s, v, g)],
       manifests := s.manifests[g := EarlyCopy(s, v)])
  }

  function StageRows(s: State, v: VersionId, g: GenerationId, sections: set<Section>, chunks: nat, now: int): State
    requires v in s.versions && v in s.jobs
  {
    s.(sections := s.sections[v := sections],
       chunks := s.chunks[v := chunks],
       versions := s.versions[v := s.versions[v].(status := Processing, generation := Some(g))],
       jobs := s.jobs[v := s.jobs[v].(heartbeat := Some(now))])
  }

  ghost function PersistTx(s: State, v: VersionId, newId: GenerationId, sections: set<Section>, chunks: nat, now: int): Tx {
    if v !in s.versions || v !in s.jobs then Tx(Rejected, s)
    else
      var g := Target(s, v, newId);
      Tx(Committed, StageRows(Prepared(s, v, g), v, g, sections, chunks, now))
  }

  function HeartbeatTx(s: State, v: VersionId, now: int): Tx {
    if v in s.jobs && s.jobs[v].status == JobProcessing then
      Tx(Committed, s.(jobs := s.jobs[v := s.jobs[v].(heartbeat := Some(now))]))
    else Tx(Skipped, s)
  }

  function MarkReadyTx(s: State, v: VersionId, now: int): Tx {
    if v !in s.versions || v !in s.jobs then Tx(Rejected, s)
    else if s.jobs[v].status == JobSucceeded then Tx(Skipped, s)
    else
      Tx(Committed, s.(
        versions := s.versions[v := s.versions[v].(status := Ready)],
        jobs := s.jobs[v := s.jobs[v].(heartbeat := Some(now))]))
  }

  /** A newer version of the same document is already exposed. */
  predicate Outdated(s: State, v: VersionId)
    requires v in s.versions && s.versions[v].document in s.documents
  {
    var current := s.documents[s.versions[v].document].activeVersion;
    current.Some? && current.value != v && current.value in s.versions && s.versions[current.value].number > s.versions[v].number
  }

  predicate MayActivate(s: State, v: VersionId, g: GenerationId) {
    && v in s.versions && g in s.generations && v in s.jobs
    && s.versions[v].document in s.documents
    && !s.documents[s.versions[v].document].deleted
    && !Outdated(s, v)
  }

  /** The manifest that becomes visible: the early copy when its parent is still active, else a rebased one. */
  function ActivatedManifest(s: State, v: VersionId, g: GenerationId): Manifest
    requires MayActivate(s, v, g)
  {
    if s.generations[g].parent != s.activeGeneration then EarlyCopy(s, v) else ManifestOf(s, Some(g))
  }

  /** The version a document exposed before v takes over is superseded. */
  function Retired(s: State, v: VersionId): State
    requires v in s.versions && s.versions[v].document in s.documents
  {
    var current := s.documents[s.versions[v].document].activeVersion;
    if current.Some? && current.value != v && current.value in s.versions then
      s.(versions := s.versions[current.value := s.versions[current.value].(status := Superseded)])
    else s
  }

  function Rebased(s: State, v: VersionId, g: GenerationId): State
    requires MayActivate(s, v, g)
  {
    s.(manifests := s.manifests[g := ActivatedManifest(s, v, g)])
  }

  /** Points the document and the tenant at version v of generation g. */
  function Expose(s: State, v: VersionId, g: GenerationId, now: int): State
    requires v in s.versions && g in s.generations && v in s.jobs && s.versions[v].document in s.documents
  {
    var d := s.versions[v].document;
    s.(
      versions := s.versions[v := s.versions[v].(status := Active, activatedAt := Some(now))],
      generations := s.generations[g := s.generations[g].(
        parent := s.activeGeneration, status := Activated, revision := s.revision + 1, activatedAt := Some(now))],
      documents := s.documents[d := s.documents[d].(activeVersion := Some(v))],
      activeGeneration := Some(g),
      revision := s.revision + 1,
      jobs := s.jobs[v := s.jobs[v].(status := JobSucceeded, heartbeat := Some(now))])
  }

  function ActivateTx(s: State, v: VersionId, g: GenerationId, now: int): Tx {
    if v !in s.versions || g !in s.generations || v !in s.jobs then Tx(Rejected, s)
    else if s.jobs[v].status == JobSucceeded then Tx(Skipped, s)
    else if !MayActivate(s, v, g) then Tx(Rejected, s)
    else
      Tx(Committed, Expose(Retired(Rebased(s, v, g), v), v, g, now))
  }

  /** The generation a version was prepared in is given up, unless it is past preparation. */
  function Abandon(s: State, v: VersionId): State {
    if v in s.versions && s.versions[v].generation.Some? && s.versions[v].generation.value in s.generations
       && s.generations[s.versions[v].generation.value].status == Preparing then
      var g := s.versions[v].generation.value;
      s.(generations := s.generations[g := s.generations[g].(status := Abandoned)])
    else s
  }

  function FailJob(s: State, v: VersionId, now: int): State
    requires v in s.jobs
  {
    s.(jobs := s.jobs[v := s.jobs[v].(status := JobFailed, heartbeat := Some(now))])
  }

  function FailVersion(s: State, v: VersionId): State
    requires v in s.versions
  {
    s.(versions := s.versions[v := s.versions[v].(status := Failed)])
  }

  function MarkFailedTx(s: State, v: VersionId, now: int): Tx {
    if v !in s.jobs || s.jobs[v].status == JobSucceeded then Tx(Skipped, s)
    else if v in s.versions && s.versions[v].status != Active then
      Tx(Committed, Abandon(FailVersion(FailJob(s, v, now), v), v))
    else Tx(Committed, FailJob(s, v, now))
  }

  lemma StartKeepsConsistent(s: State, v: VersionId, now: int, timeout: nat)
    requires Consistent(s)
    ensures Consistent(StartTx(s, v, now, timeout).state)
  {
    if StartTx(s, v, now, timeout).outcome == Committed {
      StatusChangeKeepsConsistent(s, StartTx(s, v, now, timeout).state);
    }
  }

  lemma HeartbeatKeepsConsistent(s: State, v: VersionId, now: int)
    requires Consistent(s)
    ensures Consistent(HeartbeatTx(s, v, now).state)
  {
    if HeartbeatTx(s, v, now).outcome == Committed {
      StatusChangeKeepsConsistent(s, HeartbeatTx(s, v, now).state);
    }
  }

  lemma MarkReadyKeepsConsistent(s: State, v: VersionId, now: int)
    requires Consistent(s)
    ensures Consistent(MarkReadyTx(s, v, now).state)
  {
    if MarkReadyTx(s, v, now).outcome == Committed {
      assert VersionOk(s, v);
      StatusChangeKeepsConsistent(s, MarkReadyTx(s, v, now).state);
    }
  }

  lemma AbandonKeepsConsistent(s: State, v: VersionId)
    requires Consistent(s)
    ensures Consistent(Abandon(s, v))
  {
    if Abandon(s, v) != s {
      StatusChangeKeepsConsistent(s, Abandon(s, v));
    }
  }

  lemma MarkFailedKeepsConsistent(s: State, v: VersionId, now: int)
    requires Consistent(s)
    ensures Consistent(MarkFailedTx(s, v, now).state)
  {
    if MarkFailedTx(s, v, now).outcome == Committed {
      var job := FailJob(s, v, now);
      assert VersionOk(s, v);
      StatusChangeKeepsConsistent(s, job);
      if v in s.versions && s.versions[v].status != Active {
        assert VersionOk(job, v);
        StatusChangeKeepsConsistent(job, FailVersion(job, v));
        AbandonKeepsConsistent(FailVersion(job, v), v);
      }
    }
  }

  lemma PreparedKeepsConsistent(s: State, v: VersionId, g: GenerationId)
    requires Consistent(s) && v in s.versions
    requires if Preparations(s, v) == {} then g !in s.generations else g in Preparations(s, v)
    ensures Consistent(Prepared(s, v, g))
    ensures ActiveManifest(Prepared(s, v, g)) == ActiveManifest(s)
  {
    var t := Prepared(s, v, g);
    assert GenerationOk(s, g);
    forall d ensures DocumentOk(t, d) {
      assert DocumentOk(s, d);
    }
    forall u ensures VersionOk(t, u) {
      assert VersionOk(s, u);
    }
    forall u, w ensures NumbersDiffer(t, u, w) {
      assert NumbersDiffer(s, u, w);
    }
    assert ActiveManifest(t) == ActiveManifest(s);
    forall h ensures GenerationOk(t, h) {
      assert GenerationOk(s, h);
    }
  }

  lemma PersistKeepsConsistent(s: State, v: VersionId, newId: GenerationId, sections: set<Section>, chunks: nat, now: int)
    requires Consistent(s)
    requires newId !in s.generations
    ensures Consistent(PersistTx(s, v, newId, sections, chunks, now).state)
    ensures ActiveManifest(PersistTx(s, v, newId, sections, chunks, now).state) == ActiveManifest(s)
  {
    if PersistTx(s, v, newId, sections, chunks, now).outcome == Committed {
      var g := Target(s, v, newId);
      var mid := Prepared(s, v, g);
      PreparedKeepsConsistent(s, v, g);
      StatusChangeKeepsConsistent(mid, StageRows(mid, v, g, sections, chunks, now));
    }
  }

  lemma EarlyCopyIsRight(s: State, v: VersionId, g: GenerationId)
    requires Consistent(s) && MayActivate(s, v, g) && s.generations[g].changed == Some(v) && s.jobs[v].status != JobSucceeded
    ensures ActivatedManifest(s, v, g) == EarlyCopy(s, v) == Exposed(s)[s.versions[v].document := v]
  {
    assert GenerationOk(s, g);
  }

  lemma ActivationMovesManifest(s: State, v: VersionId, g: GenerationId, now: int)
    requires ActivateTx(s, v, g, now).outcome == Committed
    ensures Exposed(ActivateTx(s, v, g, now).state) == Exposed(s)[s.versions[v].document := v]
    ensures ActiveManifest(ActivateTx(s, v, g, now).state) == ActivatedManifest(s, v, g)
  {
  }

  /** The step that needs proof: whether the early copy is reused or rebased, the new manifest is the old one with
      the version's document switched to it. */
  lemma ActivationSwitchesOneDocument(s: State, v: VersionId, g: GenerationId, now: int)
    requires Consistent(s)
    requires g in s.generations ==> s.generations[g].changed == Some(v)
    requires ActivateTx(s, v, g, now).outcome == Committed
    ensures var t := ActivateTx(s, v, g, now).state;
            ActiveManifest(t) == Exposed(s)[s.versions[v].document := v] == Exposed(t)
  {
    EarlyCopyIsRight(s, v, g);
    ActivationMovesManifest(s, v, g, now);
  }

  /** When activation commits, on the rows: the document is live, and exposes nothing, the version itself, or one with a
      smaller number. It is skipped exactly when the job is done, and raises otherwise. */
  lemma ActivationCommitsExactly(s: State, v: VersionId, g: GenerationId, now: int, d: DocumentId)
    requires Consistent(s) && v in s.versions && v in s.jobs && g in s.generations
    requires s.versions[v].document == d && d in s.documents
    ensures ActivateTx(s, v, g, now).outcome == Skipped <==> s.jobs[v].status == JobSucceeded
    ensures s.jobs[v].status != JobSucceeded ==>
              (ActivateTx(s, v, g, now).outcome == Committed <==>
                 && !s.documents[d].deleted
                 && (forall u :: s.documents[d].activeVersion == Some(u) ==>
                       u == v || (u in s.versions && s.versions[u].number < s.versions[v].number)))
  {
    assert DocumentOk(s, d);
    if s.documents[d].activeVersion.Some? {
      assert NumbersDiffer(s, v, s.documents[d].activeVersion.value);
    }
  }

  lemma ActivateKeepsVersion(s: State, v: VersionId, g: GenerationId, now: int, u: VersionId)
    requires Consistent(s)
    requires ActivateTx(s, v, g, now).outcome == Committed
    ensures VersionOk(ActivateTx(s, v, g, now).state, u)
  {
    var d := s.versions[v].document;
    assert VersionOk(s, u) && DocumentOk(s, d);
    if u in s.versions && s.versions[u].document != d {
      assert s.documents[d].activeVersion != Some(u);
    }
  }

  /** A generation whose parent is not the new pointer needs no exact manifest any more. */
  lemma NewPointerKeepsGeneration(s: State, t: State, newId: GenerationId, h: GenerationId)
    requires h in s.generations && GenerationOk(s, h) && t.activeGeneration == Some(newId)
    requires s.generations[h].parent != Some(newId)
    requires SameGeneration(s, t, h) && h in t.generations && h in t.manifests
    requires s.generations[h].parent.Some? ==>
               s.generations[h].parent.value in t.generations && t.generations[s.generations[h].parent.value].status == Activated
    requires s.generations[h].changed.Some? ==>
               s.generations[h].changed.value in t.versions && (Done(s, s.generations[h].changed.value) ==> Done(t, s.generations[h].changed.value))
    ensures GenerationOk(t, h)
  {
  }

  /** Activation finishes one job and undoes none. */
  lemma ActivateFinishes(s: State, v: VersionId, g: GenerationId, now: int, u: VersionId)
    requires ActivateTx(s, v, g, now).outcome == Committed
    ensures u in s.versions ==> u in ActivateTx(s, v, g, now).state.versions
    ensures Done(s, u) ==> Done(ActivateTx(s, v, g, now).state, u)
    ensures Done(ActivateTx(s, v, g, now).state, v)
  {
  }

  lemma ActivateRows(s: State, v: VersionId, g: GenerationId, now: int, h: GenerationId)
    requires ActivateTx(s, v, g, now).outcome == Committed && h in s.generations
    ensures h in ActivateTx(s, v, g, now).state.generations
    ensures h != g ==> ActivateTx(s, v, g, now).state.generations[h] == s.generations[h]
    ensures ActivateTx(s, v, g, now).state.generations[g].status == Activated
    ensures ActivateTx(s, v, g, now).state.generations[g].parent == s.activeGeneration
    ensures ActivateTx(s, v, g, now).state.generations[g].changed == s.generations[g].changed
    ensures h in s.manifests ==> h in ActivateTx(s, v, g, now).state.manifests
  {
  }

  lemma ActivateKeepsGeneration(s: State, v: VersionId, g: GenerationId, now: int, h: GenerationId)
    requires Consistent(s)
    requires g in s.generations && s.generations[g].changed == Some(v)
    requires ActivateTx(s, v, g, now).outcome == Committed
    ensures GenerationOk(ActivateTx(s, v, g, now).state, h)
  {
    assert GenerationOk(s, g) && GenerationOk(s, h);
    if h in s.generations {
      ActivateRows(s, v, g, now, h);
      if s.generations[h].changed.Some? {
        ActivateFinishes(s, v, g, now, s.generations[h].changed.value);
      }
      if h != g {
        if s.generations[h].parent.Some? {
          ActivateRows(s, v, g, now, s.generations[h].parent.value);
        }
        NewPointerKeepsGeneration(s, ActivateTx(s, v, g, now).state, g, h);
      } else if s.activeGeneration.Some? {
        ActivateRows(s, v, g, now, s.activeGeneration.value);
      }
    }
  }

  lemma ActivateKeepsNumbers(s: State, v: VersionId, g: GenerationId, now: int, u: VersionId, w: VersionId)
    requires Consistent(s)
    requires ActivateTx(s, v, g, now).outcome == Committed
    ensures NumbersDiffer(ActivateTx(s, v, g, now).state, u, w)
  {
    assert NumbersDiffer(s, u, w);
  }

  lemma ActivateKeepsConsistent(s: State, v: VersionId, g: GenerationId, now: int)
    requires Consistent(s)
    requires g in s.generations ==> s.generations[g].changed == Some(v)
    ensures Consistent(ActivateTx(s, v, g, now).state)
  {
    if ActivateTx(s, v, g, now).outcome == Committed {
      var t := ActivateTx(s, v, g, now).state;
      ActivationSwitchesOneDocument(s, v, g, now);
      assert VersionOk(s, v) && GenerationOk(s, g) && DocumentOk(s, s.versions[v].document);
      forall e ensures DocumentOk(t, e) {
        assert DocumentOk(s, e);
      }
      forall u ensures VersionOk(t, u) {
        ActivateKeepsVersion(s, v, g, now, u);
      }
      forall h ensures GenerationOk(t, h) {
        ActivateKeepsGeneration(s, v, g, now, h);
      }
      forall u, w ensures NumbersDiffer(t, u, w) {
        ActivateKeepsNumbers(s, v, g, now, u, w);
      }
    }
  }

  /** `_copy_manifest`: adds the rows of one generation to another, leaving one document out. */
  method CopyManifest(db: Database, source: Option<GenerationId>, target: GenerationId, exclude: DocumentId)
    requires target in db.manifests
    requires source.Some? ==> source.value in db.manifests && source.value != target
    requires db.manifests[target] == map[]
    modifies db`manifests
    ensures db.manifests == old(db.manifests)[target := Without(ManifestOf(old(db.View()), source), exclude)]
  {
    if source.None? {
      return;
    }
    var rows := db.manifests[source.value];
    var pending := rows.Keys - {exclude};
    var copied: Manifest := map[];
    while pending != {}
      invariant pending <= rows.Keys - {exclude}
      invariant copied == map d | d in rows && d != exclude && d !in pending :: rows[d]
      invariant db.manifests == old(db.manifests)[target := copied]
    {
      var d :| d in pending;
      copied := copied[d := rows[d]];
      db.manifests := db.manifests[target := copied];
      pending := pending - {d};
    }
    assert copied == Without(rows, exclude);
  }

  /** Replaces the rows of one generation by those of the active one, with one document at a given version. */
  method RebuildManifest(db: Database, target: GenerationId, d: DocumentId, v: VersionId)
    requires db.activeGeneration.Some? ==> db.activeGeneration.value in db.manifests && db.activeGeneration.value != target
    modifies db`manifests
    ensures db.manifests == old(db.manifests)[target := Without(ActiveManifest(old(db.View())), d)[d := v]]
  {
    db.manifests := db.manifests[target := map[]];
    CopyManifest(db, db.activeGeneration, target, d);
    db.manifests := db.manifests[target := db.manifests[target][d := v]];
  }

  class IngestionPipeline {
    const db: Database
    const heartbeatTimeout: nat

    constructor (db: Database, heartbeatTimeout: nat)
      ensures this.db == db && this.heartbeatTimeout == heartbeatTimeout
    {
      this.db := db;
      this.heartbeatTimeout := heartbeatTimeout;
    }

    method Start(v: VersionId, now: int) returns (outcome: Outcome)
      requires Consistent(db.View())
      modifies db
      ensures Tx(outcome, db.View()) == StartTx(old(db.View()), v, now, heartbeatTimeout)
      ensures Consistent(db.View())
    {
      StartKeepsConsistent(db.View(), v, now, heartbeatTimeout);
      if v !in db.jobs || v !in db.versions || db.versions[v].document !in db.documents {
        return Rejected;
      }
      var job := db.jobs[v];
      if job.status == JobSucceeded {
        return Skipped;
      }
      if job.status == JobProcessing && job.heartbeat.Some? && job.heartbeat.value >= now - heartbeatTimeout {
        return Skipped;
      }
      job := job.(status := JobProcessing);
      job := job.(attempt := job.attempt + 1);
      job := job.(heartbeat := Some(now));
      db.jobs := db.jobs[v := job];
      db.versions := db.versions[v := db.versions[v].(status := Processing)];
      return Committed;
    }

    /** Stages the rows of a version and its full manifest copy, long before activation. */
    method PersistStagedContent(v: VersionId, newId: GenerationId, sections: set<Section>, chunks: nat, now: int)
      returns (outcome: Outcome, g: GenerationId)
      requires Consistent(db.View()) && newId !in db.generations
      modifies db
      ensures Tx(outcome, db.View()) == PersistTx(old(db.View()), v, newId, sections, chunks, now)
      ensures Consistent(db.View())
      ensures outcome == Committed ==> g == Target(old(db.View()), v, newId)
    {
      g := newId;
      if v !in db.versions || v !in db.jobs {
        return Rejected, g;
      }
      PersistKeepsConsistent(db.View(), v, newId, sections, chunks, now);
      g := PrepareGeneration(v, newId);
      RebuildManifest(db, g, db.versions[v].document, v);
      StageRowsOf(v, g, sections, chunks, now);
      return Committed, g;
    }

    method StageRowsOf(v: VersionId, g: GenerationId, sections: set<Section>, chunks: nat, now: int)
      requires v in db.versions && v in db.jobs
      modifies db
      ensures db.View() == StageRows(old(db.View()), v, g, sections, chunks, now)
      ensures v in db.sections && db.sections[v] == sections && v in db.chunks && db.chunks[v] == chunks
      ensures forall u :: u != v && u in old(db.versions) && u in old(db.jobs) ==>
                u in db.versions && u in db.jobs && db.versions[u] == old(db.versions)[u] && db.jobs[u] == old(db.jobs)[u]
      ensures forall u :: u != v && u in old(db.sections) ==> u in db.sections && db.sections[u] == old(db.sections)[u]
    {
      // The old rows of the version are deleted and the new ones inserted.
      db.sections := db.sections[v := sections];
      db.chunks := db.chunks[v := chunks];
      db.versions := db.versions[v := db.versions[v].(status := Processing, generation := Some(g))];
      db.jobs := db.jobs[v := db.jobs[v].(heartbeat := Some(now))];
    }

    /** Reuses the generation already being prepared for a version, or adds one. */
    method PrepareGeneration(v: VersionId, newId: GenerationId) returns (g: GenerationId)
      requires newId !in db.generations
      modifies db`generations
      ensures g == Target(old(db.View()), v, newId)
      ensures db.generations == old(db.generations)[g := PreparedGeneration(old(db.View()), v, g)]
    {
      var prior := set h | h in db.generations && db.generations[h].changed == Some(v) && db.generations[h].status == Preparing;
      assert prior == Preparations(db.View(), v);
      if prior == {} {
        g := newId;
        db.generations := db.generations[g := Generation(Some(v), db.activeGeneration, Preparing, db.revision + 1, None)];
      } else {
        LastExists(prior);
        g :| g in prior && forall h :: h in prior ==> h <= g;
        LastIsTarget(db.View(), v, newId, g);
        db.generations := db.generations[g := db.generations[g].(parent := db.activeGeneration, revision := db.revision + 1)];
      }
    }

    method Heartbeat(v: VersionId, now: int) returns (outcome: Outcome)
      requires Consistent(db.View())
      modifies db
      ensures Tx(outcome, db.View()) == HeartbeatTx(old(db.View()), v, now)
      ensures Consistent(db.View())
    {
      HeartbeatKeepsConsistent(db.View(), v, now);
      if v in db.jobs && db.jobs[v].status == JobProcessing {
        db.jobs := db.jobs[v := db.jobs[v].(heartbeat := Some(now))];
        return Committed;
      }
      return Skipped;
    }

    method MarkReady(v: VersionId, now: int) returns (outcome: Outcome)
      requires Consistent(db.View())
      modifies db
      ensures Tx(outcome, db.View()) == MarkReadyTx(old(db.View()), v, now)
      ensures Consistent(db.View())
    {
      MarkReadyKeepsConsistent(db.View(), v, now);
      if v !in db.versions || v !in db.jobs {
        return Rejected;
      }
      if db.jobs[v].status == JobSucceeded {
        return Skipped;
      }
      db.versions := db.versions[v := db.versions[v].(status := Ready)];
      db.jobs := db.jobs[v := db.jobs[v].(heartbeat := Some(now))];
      return Committed;
    }

    /** Makes a prepared generation the visible one, rebasing its manifest if another was activated since. */
    method Activate(v: VersionId, g: GenerationId, now: int) returns (outcome: Outcome)
      requires Consistent(db.View())
      requires g in db.generations ==> db.generations[g].changed == Some(v)
      modifies db
      ensures Tx(outcome, db.View()) == ActivateTx(old(db.View()), v, g, now)
      ensures Consistent(db.View())
    {
      if v !in db.versions || g !in db.generations || v !in db.jobs {
        return Rejected;
      }
      if db.jobs[v].status == JobSucceeded {
        return Skipped;
      }
      var d := db.versions[v].document;
      if d !in db.documents || db.documents[d].deleted {
        return Rejected;
      }
      var current := db.documents[d].activeVersion;
      if current.Some? && current.value != v {
        if current.value in db.versions && db.versions[current.value].number > db.versions[v].number {
          return Rejected;
        }
      }
      ActivateKeepsConsistent(db.View(), v, g, now);
      assert GenerationOk(db.View(), g);
      Switch(v, g, now);
      return Committed;
    }

    /** The writes of activation, made under the tenant lock once every guard has passed. */
    method Switch(v: VersionId, g: GenerationId, now: int)
      requires MayActivate(db.View(), v, g)
      requires db.manifests.Keys == db.generations.Keys
      requires db.activeGeneration.Some? ==> db.activeGeneration.value in db.generations && db.activeGeneration.value != g
      modifies db
      ensures db.View() == Expose(Retired(Rebased(old(db.View()), v, g), v), v, g, now)
    {
      if db.generations[g].parent != db.activeGeneration {
        RebuildManifest(db, g, db.versions[v].document, v);
      }
      assert db.View() == Rebased(old(db.View()), v, g);
      RetireCurrent(v);
      PointAt(v, g, now);
    }

    method RetireCurrent(v: VersionId)
      requires v in db.versions && db.versions[v].document in db.documents
      modifies db`versions
      ensures db.View() == Retired(old(db.View()), v)
    {
      var previous := db.documents[db.versions[v].document].activeVersion;
      if previous.Some? && previous.value != v {
        if previous.value in db.versions {
          db.versions := db.versions[previous.value := db.versions[previous.value].(status := Superseded)];
        }
      }
    }

    method PointAt(v: VersionId, g: GenerationId, now: int)
      requires v in db.versions && g in db.generations && v in db.jobs && db.versions[v].document in db.documents
      modifies db
      ensures db.View() == Expose(old(db.View()), v, g, now)
      ensures Current(db.View(), v) && Done(db.View(), v) && PointerOk(db.View()) && db.revision == old(db.revision) + 1
      ensures forall u :: u != v && u in old(db.versions) ==> u in db.versions && db.versions[u] == old(db.versions)[u]
      ensures forall d :: d in old(db.documents) && d != old(db.versions)[v].document ==> d in db.documents && db.documents[d] == old(db.documents)[d]
      ensures forall h :: h != g && h in old(db.generations) ==> h in db.generations && db.generations[h] == old(db.generations)[h]
    {
      var version, generation, job := db.versions[v], db.generations[g], db.jobs[v];
      var d, next := version.document, db.revision + 1;
      db.versions := db.versions[v := version.(status := Active, activatedAt := Some(now))];
      db.generations := db.generations[g := generation.(
        parent := db.activeGeneration, status := Activated, revision := next, activatedAt := Some(now))];
      db.documents := db.documents[d := db.documents[d].(activeVersion := Some(v))];
      db.activeGeneration := Some(g);
      db.revision := next;
      db.jobs := db.jobs[v := job.(status := JobSucceeded, heartbeat := Some(now))];
    }

    method MarkFailed(v: VersionId, now: int) returns (outcome: Outcome)
      requires Consistent(db.View())
      modifies db
      ensures Tx(outcome, db.View()) == MarkFailedTx(old(db.View()), v, now)
      ensures Consistent(db.View())
    {
      MarkFailedKeepsConsistent(db.View(), v, now);
      if v !in db.jobs || db.jobs[v].status == JobSucceeded {
        return Skipped;
      }
      db.jobs := db.jobs[v := db.jobs[v].(status := JobFailed, heartbeat := Some(now))];
      if v in db.versions && db.versions[v].status != Active {
        db.versions := db.versions[v := db.versions[v].(status := Failed)];
        var g := db.versions[v].generation;
        if g.Some? && g.value in db.generations && db.generations[g.value].status == Preparing {
          db.generations := db.generations[g.value := db.generations[g.value].(status := Abandoned)];
        }
      }
      return Committed;
    }
  }

  lemma LastIsTarget(s: State, v: VersionId, newId: GenerationId, g: GenerationId)
    requires IsLast(g, Preparations(s, v))
    ensures Target(s, v, newId) == g
  {
    var h := Target(s, v, newId);
    assert IsLast(h, Preparations(s, v));
    assert g <= h && h <= g;
  }
}
