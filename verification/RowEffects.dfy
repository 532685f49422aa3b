/** What each transaction of the corpus does to every row, and when it does anything, stated on the rows. */
module RowEffects {
  import opened Wrappers
  import opened Corpus
  import opened IngestionJobs
  import opened Documents
  import opened Reconcile
  import Collections

  /** The lease: a job is taken unless it succeeded, or is in processing with a heartbeat that is not older than the timeout. */
  lemma StartExactly(s: State, v: VersionId, now: int, timeout: nat, u: VersionId)
    requires Consistent(s) && v in s.versions && v in s.jobs && s.versions[v].document in s.documents && u in s.versions && u in s.jobs
    ensures var tx, job := StartTx(s, v, now, timeout), s.jobs[v];
            && (tx.outcome == Committed <==>
                  job.status == JobStaged || job.status == JobQueued || job.status == JobFailed
                  || (job.status == JobProcessing && forall h :: job.heartbeat == Some(h) ==> h + timeout < now))
            && (tx.outcome != Committed ==> tx == Tx(Skipped, s))
            && (tx.outcome == Committed ==>
                  && tx.state.jobs.Keys == s.jobs.Keys && tx.state.versions.Keys == s.versions.Keys
                  && tx.state.jobs[u] == (if u == v then Job(JobProcessing, job.attempt + 1, Some(now)) else s.jobs[u])
                  && tx.state.versions[u] == (if u == v then s.versions[u].(status := Processing) else s.versions[u]))
  {
  }

  /** Staging prepares the newest generation that is still being prepared for the version, or else a new one, as a copy of the
      active manifest with one document switched; the version belongs to it and is in processing. */
  lemma PersistExactly(s: State, v: VersionId, newId: GenerationId, sections: set<Section>, chunks: nat, now: int, g: GenerationId)
    requires Consistent(s) && v in s.versions && v in s.jobs && newId !in s.generations
    requires PersistTx(s, v, newId, sections, chunks, now).state.versions[v].generation == Some(g)
    ensures var t := PersistTx(s, v, newId, sections, chunks, now).state;
            && (if exists h :: h in s.generations && s.generations[h].changed == Some(v) && s.generations[h].status == Preparing then
                  && g in s.generations && s.generations[g].changed == Some(v) && s.generations[g].status == Preparing
                  && (forall h :: h in s.generations && s.generations[h].changed == Some(v) && s.generations[h].status == Preparing ==> h <= g)
                else g == newId)
            && g in t.generations && t.generations[g] == Generation(Some(v), s.activeGeneration, Preparing, s.revision + 1,
                                                                   if g in s.generations then s.generations[g].activatedAt else None)
            && g in t.manifests && s.versions[v].document in t.manifests[g] && t.manifests[g][s.versions[v].document] == v
            && (forall d :: d != s.versions[v].document ==>
                  (d in t.manifests[g] <==> d in ActiveManifest(s)) && (d in ActiveManifest(s) ==> t.manifests[g][d] == ActiveManifest(s)[d]))
            && v in t.sections && t.sections[v] == sections && v in t.chunks && t.chunks[v] == chunks
            && t.versions[v].status == Processing && t.jobs[v] == s.jobs[v].(heartbeat := Some(now))
  {
    var gs := Preparations(s, v);
    if gs != {} {
      assert IsLast(g, gs);
    }
    assert forall h :: h in s.generations && s.generations[h].changed == Some(v) && s.generations[h].status == Preparing ==> h in gs;
  }

  lemma PersistLeavesOthers(s: State, v: VersionId, newId: GenerationId, sections: set<Section>, chunks: nat, now: int, u: VersionId, h: GenerationId)
    requires v in s.versions && v in s.jobs && u != v
    requires PersistTx(s, v, newId, sections, chunks, now).state.versions[v].generation != Some(h)
    ensures var t := PersistTx(s, v, newId, sections, chunks, now).state;
            && (u in t.versions <==> u in s.versions) && (u in s.versions ==> t.versions[u] == s.versions[u])
            && (u in t.jobs <==> u in s.jobs) && (u in s.jobs ==> t.jobs[u] == s.jobs[u])
            && (u in t.sections <==> u in s.sections) && (u in s.sections ==> t.sections[u] == s.sections[u])
            && (u in t.chunks <==> u in s.chunks) && (u in s.chunks ==> t.chunks[u] == s.chunks[u])
            && (h in t.generations <==> h in s.generations) && (h in s.generations ==> t.generations[h] == s.generations[h])
            && (h in t.manifests <==> h in s.manifests) && (h in s.manifests ==> t.manifests[h] == s.manifests[h])
  {
  }

  /** Only a heartbeat of a job in processing counts, and it changes nothing else. */
  lemma HeartbeatExactly(s: State, v: VersionId, now: int, u: VersionId)
    requires u in s.jobs
    ensures var t := HeartbeatTx(s, v, now).state;
            && t.jobs.Keys == s.jobs.Keys && t == s.(jobs := t.jobs)
            && t.jobs[u] == (if u == v && s.jobs[v].status == JobProcessing then s.jobs[v].(heartbeat := Some(now)) else s.jobs[u])
  {
    assert u != v ==> HeartbeatTx(s, v, now).state.jobs[u] == s.jobs[u];
    assert HeartbeatTx(s, v, now).state.jobs.Keys == s.jobs.Keys;
  }

  /** A version whose job has not succeeded is ready; one whose job has is left alone. Queueing is for staged jobs. */
  lemma MarkReadyExactly(s: State, v: VersionId, now: int, u: VersionId)
    requires v in s.versions && v in s.jobs && u in s.versions && u in s.jobs
    ensures var t, ready := MarkReadyTx(s, v, now).state, s.jobs[v].status != JobSucceeded;
            && t == s.(versions := t.versions, jobs := t.jobs) && u in t.versions && u in t.jobs
            && t.versions[u] == (if u == v && ready then s.versions[v].(status := Ready) else s.versions[u])
            && t.jobs[u] == (if u == v && ready then s.jobs[v].(heartbeat := Some(now)) else s.jobs[u])
  {
  }

  lemma EnqueueExactly(s: State, v: VersionId, now: int, u: VersionId)
    requires u in s.jobs
    ensures var t := EnqueueTx(s, v, now).state;
            && t == s.(jobs := t.jobs) && u in t.jobs
            && t.jobs[u] == (if u == v && s.jobs[v].status == JobStaged then s.jobs[v].(status := JobQueued, heartbeat := Some(now)) else s.jobs[u])
  {
    assert u != v ==> EnqueueTx(s, v, now).state.jobs[u] == s.jobs[u];
  }

  /** Activation: the version is active, the version exposed before is superseded, and no other version changes; the job has
      succeeded; the generation is the active one, under the next revision. */
  lemma ActivateExactly(s: State, v: VersionId, g: GenerationId, now: int, u: VersionId, h: GenerationId, d: DocumentId)
    requires Consistent(s) && ActivateTx(s, v, g, now).outcome == Committed && s.versions[v].document == d && d in s.documents
    requires u in s.versions && u in s.jobs && h in s.generations
    ensures var t := ActivateTx(s, v, g, now).state;
            && u in t.versions && u in t.jobs && h in t.generations && d in t.documents
            && t.versions[u] == (if u == v then s.versions[v].(status := Active, activatedAt := Some(now))
                                 else if s.documents[d].activeVersion == Some(u) then s.versions[u].(status := Superseded)
                                 else s.versions[u])
            && t.jobs[u] == (if u == v then s.jobs[v].(status := JobSucceeded, heartbeat := Some(now)) else s.jobs[u])
            && t.generations[h] == (if h == g then Generation(s.generations[g].changed, s.activeGeneration, Activated, s.revision + 1, Some(now))
                                    else s.generations[h])
            && t.activeGeneration == Some(g) && t.revision == s.revision + 1
            && t.documents[d] == s.documents[d].(activeVersion := Some(v))
            && (forall e :: e != d ==> (e in t.documents <==> e in s.documents) && (e in s.documents ==> t.documents[e] == s.documents[e]))
  {
    assert DocumentOk(s, d);
  }

  /** A failing job takes its version along, unless that is active, and the generation in preparation; a job that succeeded
      cannot fail. */
  lemma FailureExactly(s: State, v: VersionId, now: int, u: VersionId)
    requires v in s.versions && v in s.jobs && u in s.versions && u in s.jobs
    ensures var t, failed := MarkFailedTx(s, v, now).state, s.jobs[v].status != JobSucceeded;
            && u in t.versions && u in t.jobs
            && t.jobs[u] == (if u == v && failed then s.jobs[v].(status := JobFailed, heartbeat := Some(now)) else s.jobs[u])
            && t.versions[u] == if u == v && failed && s.versions[v].status != Active then s.versions[v].(status := Failed) else s.versions[u]
  {
    var job := FailJob(s, v, now);
    var failed := FailVersion(job, v);
    assert Abandon(failed, v).versions == failed.versions && Abandon(failed, v).jobs == job.jobs;
  }

  lemma FailureGenerations(s: State, v: VersionId, now: int, h: GenerationId)
    requires v in s.versions && v in s.jobs && h in s.generations
    ensures var t, failed := MarkFailedTx(s, v, now).state, s.jobs[v].status != JobSucceeded;
            && h in t.generations
            && t.generations[h] ==
                 if failed && s.versions[v].status != Active && s.versions[v].generation == Some(h) && s.generations[h].status == Preparing
                 then s.generations[h].(status := Abandoned) else s.generations[h]
  {
    var failed := FailVersion(FailJob(s, v, now), v);
    assert failed.generations == s.generations && failed.versions[v].generation == s.versions[v].generation;
  }

  /** Deletion fails what is on its way, supersedes what is exposed, and hides the document under the next revision. */
  lemma TombstoneExactly(s: State, d: DocumentId, newId: GenerationId, now: int, u: VersionId, h: GenerationId)
    requires Consistent(s) && newId !in s.generations && u in s.versions && u in s.jobs && h in s.generations
    ensures TombstoneTx(s, d, newId, now).outcome == Committed <==> d in s.documents && !s.documents[d].deleted
    ensures d in s.documents && !s.documents[d].deleted ==>
              var t := TombstoneTx(s, d, newId, now).state;
              var pending := s.versions[u].document == d && s.versions[u].status in {Staged, Processing, Ready};
              && u in t.versions && u in t.jobs && h in t.generations && newId in t.generations && d in t.documents
              && t.versions[u].status == (if s.documents[d].activeVersion == Some(u) then Superseded else if pending then Failed else s.versions[u].status)
              && t.jobs[u] == (if pending then s.jobs[u].(status := JobFailed) else s.jobs[u])
              && t.documents[d] == s.documents[d].(deleted := true, activeVersion := None)
              && t.generations[newId] == Generation(None, s.activeGeneration, Activated, s.revision + 1, Some(now))
              && t.activeGeneration == Some(newId) && t.revision == s.revision + 1
  {
    assert d in s.documents ==> DocumentOk(s, d);
    if d in s.documents && !s.documents[d].deleted {
      TombstoneVersionRow(s, d, newId, now, u);
    }
  }

  lemma TombstoneVersionRow(s: State, d: DocumentId, newId: GenerationId, now: int, u: VersionId)
    requires d in s.documents && !s.documents[d].deleted && u in s.versions && u in s.jobs && DocumentOk(s, d)
    ensures var t := TombstoneTx(s, d, newId, now).state;
            var pending := s.versions[u].document == d && s.versions[u].status in {Staged, Processing, Ready};
            && u in t.versions && u in t.jobs
            && t.versions[u].status == (if s.documents[d].activeVersion == Some(u) then Superseded else if pending then Failed else s.versions[u].status)
            && t.jobs[u] == (if pending then s.jobs[u].(status := JobFailed) else s.jobs[u])
  {
    assert u in Pending(s, d) <==>
           s.versions[u].document == d && (s.versions[u].status == Staged || s.versions[u].status == Processing || s.versions[u].status == Ready);
  }

  /** Exactly the generations still being prepared for those versions are given up. */
  lemma TombstoneGenerations(s: State, d: DocumentId, newId: GenerationId, now: int, h: GenerationId)
    requires d in s.documents && !s.documents[d].deleted && h in s.generations && h != newId
    ensures var t := TombstoneTx(s, d, newId, now).state;
            && h in t.generations
            && t.generations[h] ==
                 if s.generations[h].status == Preparing
                    && exists v :: s.generations[h].changed == Some(v) && v in s.versions && s.versions[v].document == d
                                   && (s.versions[v].status == Staged || s.versions[v].status == Processing || s.versions[v].status == Ready)
                 then s.generations[h].(status := Abandoned) else s.generations[h]
  {
  }

  /** An upload is refused exactly when a collection named is not live, or the document is not live, is of another type or title, or
      is in other collections than those named. */
  lemma UploadExactly(s: State, target: Option<DocumentId>, newDocument: DocumentId, v: VersionId,
                      title: string, filename: string, mime: string, collections: set<CollectionId>, now: int)
    requires v !in s.versions
    ensures var tx := UploadTx(s, target, newDocument, v, title, filename, mime, collections, now);
            && (tx.outcome == Rejected <==>
                  match target
                  case None => exists k :: k in collections && !(k in s.collections && !s.collections[k].deleted)
                  case Some(d) =>
                    || d !in s.documents || s.documents[d].deleted || s.documents[d].mime != mime || s.documents[d].title != title
                    || (collections != {} && exists k :: k in collections <==> (d, k) !in s.memberships))
            && (tx.outcome != Rejected ==>
                  var d := if target.Some? then target.value else newDocument;
                  && v in tx.state.versions && v in tx.state.jobs && v in tx.state.files
                  && tx.state.versions[v].document == d && tx.state.versions[v].status == Staged && tx.state.versions[v].createdAt == now
                  && tx.state.jobs[v] == Job(JobStaged, 0, None) && tx.state.revision == s.revision
                  && (forall u :: u in s.versions && s.versions[u].document == d ==> s.versions[u].number < tx.state.versions[v].number))
            && (tx.outcome == Rejected ==> tx.state == s)
  {
    match target
    case None =>
      assert forall u :: u in s.versions && s.versions[u].document == newDocument ==> s.versions[u].number in Numbers(s, newDocument);
    case Some(d) =>
      SameCollections(s, d, collections);
      assert forall u :: u in s.versions && s.versions[u].document == d ==> s.versions[u].number in Numbers(s, d);
  }

  lemma SameCollections(s: State, d: DocumentId, collections: set<CollectionId>)
    ensures collections != CollectionsOf(s, d) <==> exists k :: k in collections <==> (d, k) !in s.memberships
  {
    if k :| k in collections <==> (d, k) !in s.memberships {
      assert (d, k) in s.memberships ==> (d, k).1 in CollectionsOf(s, d);
    } else {
      forall k ensures k in collections <==> k in CollectionsOf(s, d) {
        assert (d, k) in s.memberships ==> (d, k).1 in CollectionsOf(s, d);
      }
    }
  }

  /** Reindexing needs a live document that exposes a version with a file. */
  lemma ReindexExactly(s: State, d: DocumentId, v: VersionId, now: int)
    requires Consistent(s) && v !in s.versions
    ensures var tx := ReindexTx(s, d, v, now);
            && (tx.outcome == Rejected <==>
                  !(d in s.documents && !s.documents[d].deleted && exists u :: s.documents[d].activeVersion == Some(u) && u in s.files))
            && (tx.outcome == Rejected ==> tx.state == s)
            && (tx.outcome != Rejected ==>
                  && tx.outcome == Committed && v in tx.state.versions && v in tx.state.jobs && v in tx.state.files
                  && tx.state.versions[v].document == d && tx.state.versions[v].status == Staged
                  && tx.state.jobs[v] == Job(JobStaged, 0, None)
                  && (forall u :: u in s.versions && s.versions[u].document == d ==> s.versions[u].number < tx.state.versions[v].number))
  {
    assert d in s.documents ==> DocumentOk(s, d);
    assert forall u :: u in s.versions && s.versions[u].document == d ==> s.versions[u].number in Numbers(s, d);
  }

  /** The collection routes: when they refuse, and what they do to the names and memberships. */
  lemma CollectionRoutesExactly(s: State, k: CollectionId, name: CollectionName, l: CollectionId)
    ensures var live := k in s.collections && !s.collections[k].deleted;
            var created, deleted := Collections.CreateTx(s, k, name), Collections.DeleteTx(s, k);
            && (created.outcome == Committed <==>
                  forall x :: x in s.collections && x != k && !s.collections[x].deleted ==> s.collections[x].name.folded != name.folded)
            && (created.outcome == Committed ==>
                  created.state == s.(collections := s.collections[k := Collection(name, false)], revision := s.revision + 1))
            && (deleted.outcome == Committed <==> live)
            && (deleted.outcome == Committed ==>
                  && k in deleted.state.collections && deleted.state.collections[k].deleted && deleted.state.revision == s.revision + 1
                  && (forall d :: (d, l) in deleted.state.memberships <==> (d, l) in s.memberships && l != k)
                  && (l != k ==> (l in deleted.state.collections <==> l in s.collections))
                  && (l != k && l in s.collections ==> deleted.state.collections[l] == s.collections[l]))
  {
  }

  lemma RenameExactly(s: State, k: CollectionId, patch: Collections.Patch)
    requires Collections.NamesDiffer(s.collections)
    ensures var live := k in s.collections && !s.collections[k].deleted;
            var tx := Collections.UpdateTx(s, k, patch);
            && (tx.outcome == Committed <==>
                  && live && (patch.name.Some? || patch.description) && patch.name != Some(None)
                  && forall name: CollectionName :: patch.name == Some(Some(name)) ==>
                       forall x :: x in s.collections && x != k && !s.collections[x].deleted ==> s.collections[x].name.folded != name.folded)
            && (tx.outcome == Committed ==>
                  && k in tx.state.collections && tx.state.revision == s.revision + 1
                  && (forall name: CollectionName :: patch.name == Some(Some(name)) ==> tx.state.collections[k].name == name)
                  && (patch.name == None ==> tx.state.collections[k] == s.collections[k]))
  {
    forall x | x in s.collections && k in s.collections && x != k && !s.collections[x].deleted && !s.collections[k].deleted
      ensures s.collections[x].name.folded != s.collections[k].name.folded
    {
      assert Collections.NamesApart(s.collections, x, k);
    }
  }

  lemma MembersExactly(s: State, k: CollectionId, d: DocumentId, e: DocumentId, l: CollectionId)
    ensures var live := k in s.collections && !s.collections[k].deleted && d in s.documents && !s.documents[d].deleted;
            var added, removed := Collections.AddDocumentTx(s, k, d), Collections.RemoveDocumentTx(s, k, d);
            && (added.outcome == Rejected <==> !live) && (removed.outcome == Rejected <==> !live)
            && (live ==> (added.outcome == Committed <==> (d, k) !in s.memberships) && (removed.outcome == Committed <==> (d, k) in s.memberships))
            && (live ==> ((e, l) in added.state.memberships <==> (e, l) in s.memberships || (e == d && l == k)))
            && (live ==> ((e, l) in removed.state.memberships <==> (e, l) in s.memberships && !(e == d && l == k)))
            && added.state.revision == s.revision + (if added.outcome == Committed then 1 else 0)
            && removed.state.revision == s.revision + (if removed.outcome == Committed then 1 else 0)
  {
  }

  /** Deleting rows takes the sections and chunks of the listed versions and stamps them; nothing else changes. */
  lemma DropRowsExactly(s: State, vs: set<VersionId>, u: VersionId)
    ensures var t := DropRowsTx(s, vs);
            && t == s.(sections := t.sections, chunks := t.chunks, versions := t.versions)
            && (u in t.sections <==> u in s.sections && u !in vs) && (u in t.sections ==> t.sections[u] == s.sections[u])
            && (u in t.chunks <==> u in s.chunks && u !in vs) && (u in t.chunks ==> t.chunks[u] == s.chunks[u])
            && (u in t.versions <==> u in s.versions)
            && (u in s.versions ==> t.versions[u] == if u in vs then s.versions[u].(collected := true) else s.versions[u])
  {
  }

  /** Generation h is activated, later than g; of two activated at one time, the one with the larger identifier is later. */
  predicate Later(s: State, h: GenerationId, g: GenerationId) {
    && h in s.generations && g in s.generations && s.generations[h].status == Activated
    && var a, b := s.generations[h].activatedAt.GetOr(0), s.generations[g].activatedAt.GetOr(0);
       a > b || (a == b && h > g)
  }

  function LaterThan(s: State, g: GenerationId): set<GenerationId> {
    set h | h in s.generations && Later(s, h, g)
  }

  /** Candidates of garbage collection are the failed and superseded versions, not collected yet, old enough, that are in the
      manifest of no generation among the latest activated ones. */
  lemma CandidatesExactly(s: State, limit: nat, olderThan: Option<int>, v: VersionId)
    ensures v in Candidates(s, limit, olderThan) <==>
              && v in s.versions && (s.versions[v].status == Failed || s.versions[v].status == Superseded) && !s.versions[v].collected
              && (forall time :: olderThan == Some(time) ==> s.versions[v].createdAt < time)
              && forall g, d :: (g in s.generations && s.generations[g].status == Activated && |LaterThan(s, g)| < limit
                                 && g in s.manifests && d in s.manifests[g]) ==> s.manifests[g][d] != v
  {
    forall g | g in s.generations
      ensures AheadOf(s.generations, g) == LaterThan(s, g)
    {
    }
    if v in RowsOf(s, Window(s.generations, limit)) {
      var g, d :| g in Window(s.generations, limit) && g in s.manifests && d in s.manifests[g] && s.manifests[g][d] == v;
      assert AheadOf(s.generations, g) == LaterThan(s, g);
    }
  }
}
