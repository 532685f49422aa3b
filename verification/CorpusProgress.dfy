/** What a transaction may never undo, stated between the state before and the state after. */
module CorpusProgress {
  import opened Wrappers
  import opened Corpus
  import opened IngestionJobs
  import opened Reconcile
  import opened Documents

  /** A document stays deleted; what it exposes changes only to a version with a larger number, or to nothing
      when it is deleted. */
  predicate DocumentProgress(s: State, t: State, d: DocumentId) {
    d in s.documents ==>
      && d in t.documents
      && (s.documents[d].deleted ==> t.documents[d].deleted)
      && (s.documents[d].activeVersion.Some? && !t.documents[d].deleted ==>
            && t.documents[d].activeVersion.Some?
            && (var v, w := s.documents[d].activeVersion.value, t.documents[d].activeVersion.value;
                v == w || (v in t.versions && w in t.versions && t.versions[v].number < t.versions[w].number)))
  }

  /** A version keeps its document and number; one that is hidden for good stays hidden. */
  predicate VersionProgress(s: State, t: State, v: VersionId) {
    v in s.versions ==>
      && v in t.versions
      && s.versions[v].document == t.versions[v].document && s.versions[v].number == t.versions[v].number
      && (Done(s, v) ==> Done(t, v))
      && (Done(s, v) && !Current(s, v) ==> !Current(t, v))
  }

  predicate GenerationProgress(s: State, t: State, g: GenerationId) {
    g in s.generations ==> g in t.generations && s.generations[g].changed == t.generations[g].changed
  }

  /** The revision never goes back, and a change of the visible manifest moves it. */
  predicate RevisionProgress(s: State, t: State) {
    && s.revision <= t.revision
    && (s.activeGeneration != t.activeGeneration || ActiveManifest(s) != ActiveManifest(t) ==> s.revision < t.revision)
  }

  ghost predicate Progress(s: State, t: State) {
    && (forall d {:trigger DocumentProgress(s, t, d)} :: DocumentProgress(s, t, d))
    && (forall v {:trigger VersionProgress(s, t, v)} :: VersionProgress(s, t, v))
    && (forall g {:trigger GenerationProgress(s, t, g)} :: GenerationProgress(s, t, g))
    && RevisionProgress(s, t)
  }

  lemma ProgressTransitive(s: State, t: State, u: State)
    requires Consistent(s) && Consistent(t) && Consistent(u)
    requires Progress(s, t) && Progress(t, u)
    ensures Progress(s, u)
  {
    forall v ensures VersionProgress(s, u, v) {
      assert VersionProgress(s, t, v) && VersionProgress(t, u, v);
    }
    forall g ensures GenerationProgress(s, u, g) {
      assert GenerationProgress(s, t, g) && GenerationProgress(t, u, g);
    }
    forall d ensures DocumentProgress(s, u, d) {
      assert DocumentProgress(s, t, d) && DocumentProgress(t, u, d) && DocumentOk(s, d);
      if d in s.documents && s.documents[d].activeVersion.Some? {
        assert VersionProgress(s, t, s.documents[d].activeVersion.value) && VersionProgress(t, u, s.documents[d].activeVersion.value);
        if t.documents[d].activeVersion.Some? {
          assert VersionProgress(t, u, t.documents[d].activeVersion.value);
        }
      }
    }
  }

  /** The frame rule for steps that leave documents, manifests and pointers alone. */
  lemma StatusChangeProgress(s: State, t: State)
    requires SameShape(s, t) && s.revision == t.revision
    requires forall v {:trigger SameVersion(s, t, v)} :: SameVersion(s, t, v)
    requires forall g {:trigger SameGeneration(s, t, g)} :: SameGeneration(s, t, g)
    requires forall v {:trigger HarmlessStatus(s, t, v)} :: HarmlessStatus(s, t, v)
    ensures Progress(s, t)
  {
    forall v ensures VersionProgress(s, t, v) {
      assert SameVersion(s, t, v) && HarmlessStatus(s, t, v);
    }
    forall g ensures GenerationProgress(s, t, g) {
      assert SameGeneration(s, t, g);
    }
  }

  lemma StartProgress(s: State, v: VersionId, now: int, timeout: nat)
    requires Consistent(s)
    ensures Progress(s, StartTx(s, v, now, timeout).state)
  {
    if StartTx(s, v, now, timeout).outcome == Committed {
      StatusChangeProgress(s, StartTx(s, v, now, timeout).state);
    } else {
      StatusChangeProgress(s, s);
    }
  }

  lemma HeartbeatProgress(s: State, v: VersionId, now: int)
    requires Consistent(s)
    ensures Progress(s, HeartbeatTx(s, v, now).state)
  {
    StatusChangeProgress(s, HeartbeatTx(s, v, now).state);
  }

  lemma MarkReadyProgress(s: State, v: VersionId, now: int)
    requires Consistent(s)
    ensures Progress(s, MarkReadyTx(s, v, now).state)
  {
    assert VersionOk(s, v);
    StatusChangeProgress(s, MarkReadyTx(s, v, now).state);
  }

  lemma FailProgress(s: State, v: VersionId, now: int)
    requires Consistent(s) && v in s.jobs && s.jobs[v].status != JobSucceeded && v in s.versions
    ensures Consistent(FailVersion(FailJob(s, v, now), v)) && Progress(s, FailVersion(FailJob(s, v, now), v))
  {
    assert VersionOk(s, v);
    StatusChangeKeepsConsistent(s, FailVersion(FailJob(s, v, now), v));
    StatusChangeProgress(s, FailVersion(FailJob(s, v, now), v));
  }

  lemma AbandonProgress(s: State, v: VersionId)
    requires Consistent(s)
    ensures Progress(s, Abandon(s, v))
  {
    StatusChangeProgress(s, Abandon(s, v));
  }

  lemma MarkFailedProgress(s: State, v: VersionId, now: int)
    requires Consistent(s)
    ensures Progress(s, MarkFailedTx(s, v, now).state)
  {
    if MarkFailedTx(s, v, now).outcome == Committed && v in s.versions && s.versions[v].status != Active {
      var failed := FailVersion(FailJob(s, v, now), v);
      FailProgress(s, v, now);
      AbandonProgress(failed, v);
      AbandonKeepsConsistent(failed, v);
      ProgressTransitive(s, failed, Abandon(failed, v));
    } else {
      StatusChangeProgress(s, MarkFailedTx(s, v, now).state);
    }
  }

  lemma EnqueueProgress(s: State, v: VersionId, now: int)
    requires Consistent(s)
    ensures Progress(s, EnqueueTx(s, v, now).state)
  {
    StatusChangeProgress(s, EnqueueTx(s, v, now).state);
  }

  lemma DropProgress(s: State, vs: set<VersionId>)
    requires Consistent(s)
    ensures Progress(s, DropPointsTx(s, vs)) && Progress(s, DropFilesTx(s, vs)) && Progress(s, DropRowsTx(s, vs))
  {
    StatusChangeProgress(s, DropPointsTx(s, vs));
    StatusChangeProgress(s, DropFilesTx(s, vs));
    StatusChangeProgress(s, DropRowsTx(s, vs));
  }

  lemma PreparedProgress(s: State, v: VersionId, g: GenerationId)
    requires Consistent(s) && v in s.versions
    requires if Preparations(s, v) == {} then g !in s.generations else g in Preparations(s, v)
    ensures Progress(s, Prepared(s, v, g))
  {
    PreparedKeepsConsistent(s, v, g);
  }

  lemma PersistProgress(s: State, v: VersionId, newId: GenerationId, sections: set<Section>, chunks: nat, now: int)
    requires Consistent(s) && newId !in s.generations
    ensures Progress(s, PersistTx(s, v, newId, sections, chunks, now).state)
  {
    var t := PersistTx(s, v, newId, sections, chunks, now).state;
    if PersistTx(s, v, newId, sections, chunks, now).outcome == Committed {
      var g := Target(s, v, newId);
      var mid := Prepared(s, v, g);
      PreparedKeepsConsistent(s, v, g);
      PreparedProgress(s, v, g);
      StatusChangeProgress(mid, t);
      StatusChangeKeepsConsistent(mid, t);
      ProgressTransitive(s, mid, t);
    } else {
      StatusChangeProgress(s, t);
    }
  }

  lemma AddDocumentProgress(s: State, d: DocumentId, title: string, filename: string, mime: string, collections: set<CollectionId>)
    requires Consistent(s) && d !in s.documents
    ensures Progress(s, AddDocument(s, d, title, filename, mime, collections))
  {
  }

  lemma AddVersionProgress(s: State, d: DocumentId, v: VersionId, number: nat, now: int)
    requires Consistent(s) && v !in s.versions
    ensures Progress(s, AddVersion(s, d, v, number, now))
  {
  }

  lemma UploadProgress(s: State, target: Option<DocumentId>, newDocument: DocumentId, v: VersionId,
                       title: string, filename: string, mime: string, collections: set<CollectionId>, now: int)
    requires Consistent(s) && newDocument !in s.documents && v !in s.versions
    ensures Progress(s, UploadTx(s, target, newDocument, v, title, filename, mime, collections, now).state)
  {
    var tx := UploadTx(s, target, newDocument, v, title, filename, mime, collections, now);
    if tx.outcome != Committed {
      StatusChangeProgress(s, tx.state);
    } else if target.None? {
      var mid := AddDocument(s, newDocument, title, filename, mime, collections);
      AddDocumentKeepsConsistent(s, newDocument, title, filename, mime, collections);
      AddDocumentProgress(s, newDocument, title, filename, mime, collections);
      AddVersionProgress(mid, newDocument, v, NextNumber(s, newDocument), now);
      UploadKeepsConsistent(s, target, newDocument, v, title, filename, mime, collections, now);
      ProgressTransitive(s, mid, tx.state);
    } else {
      AddVersionProgress(s, target.value, v, NextNumber(s, target.value), now);
    }
  }

  lemma ReindexProgress(s: State, d: DocumentId, v: VersionId, now: int)
    requires Consistent(s) && v !in s.versions
    ensures Progress(s, ReindexTx(s, d, v, now).state)
  {
    if ReindexTx(s, d, v, now).outcome == Committed {
      AddVersionProgress(s, d, v, NextNumber(s, d), now);
    } else {
      StatusChangeProgress(s, ReindexTx(s, d, v, now).state);
    }
  }

  lemma ActivateKeepsHidden(s: State, v: VersionId, g: GenerationId, now: int, u: VersionId)
    requires Consistent(s)
    requires ActivateTx(s, v, g, now).outcome == Committed
    ensures VersionProgress(s, ActivateTx(s, v, g, now).state, u)
  {
    assert VersionOk(s, u);
  }

  /** A document's exposed version changes only to one with a larger number. */
  lemma ActivateRaisesNumber(s: State, v: VersionId, g: GenerationId, now: int, d: DocumentId)
    requires Consistent(s)
    requires ActivateTx(s, v, g, now).outcome == Committed
    ensures DocumentProgress(s, ActivateTx(s, v, g, now).state, d)
  {
    assert DocumentOk(s, d);
    if d == s.versions[v].document && s.documents[d].activeVersion.Some? {
      assert NumbersDiffer(s, v, s.documents[d].activeVersion.value);
    }
  }

  lemma ActivateProgress(s: State, v: VersionId, g: GenerationId, now: int)
    requires Consistent(s)
    requires g in s.generations ==> s.generations[g].changed == Some(v)
    ensures Progress(s, ActivateTx(s, v, g, now).state)
  {
    var tx := ActivateTx(s, v, g, now);
    if tx.outcome == Committed {
      forall d ensures DocumentProgress(s, tx.state, d) {
        ActivateRaisesNumber(s, v, g, now, d);
      }
      forall u ensures VersionProgress(s, tx.state, u) {
        ActivateKeepsHidden(s, v, g, now, u);
      }
    } else {
      StatusChangeProgress(s, tx.state);
    }
  }

  lemma TombstoneProgress(s: State, d: DocumentId, newId: GenerationId, now: int)
    requires Consistent(s) && newId !in s.generations
    ensures Progress(s, TombstoneTx(s, d, newId, now).state)
  {
    var tx := TombstoneTx(s, d, newId, now);
    if tx.outcome == Committed {
      var t := tx.state;
      forall e ensures DocumentProgress(s, t, e) {
        assert DocumentOk(s, e);
      }
      forall u ensures VersionProgress(s, t, u) {
        TombstoneKeepsVersion(s, d, newId, now, u);
        TombstoneKeepsShape(s, d, newId, now, u);
      }
      forall g ensures GenerationProgress(s, t, g) {
        TombstoneKeepsRow(s, d, newId, now, g);
      }
    } else {
      StatusChangeProgress(s, tx.state);
    }
  }

  lemma TombstoneKeepsShape(s: State, d: DocumentId, newId: GenerationId, now: int, u: VersionId)
    requires TombstoneTx(s, d, newId, now).outcome == Committed
    ensures var t := TombstoneTx(s, d, newId, now).state;
            SameVersion(s, t, u) && (u in s.versions ==> u in t.versions) && (Current(t, u) ==> Current(s, u))
  {
  }

  /** A step that leaves versions, generations, documents and manifests alone. */
  lemma CollectionChangeProgress(s: State, t: State)
    requires Consistent(s)
    requires t == s.(collections := t.collections, memberships := t.memberships, revision := t.revision) && s.revision <= t.revision
    ensures Progress(s, t) && Consistent(t)
  {
    var mid := t.(revision := s.revision);
    StatusChangeProgress(s, mid);
    StatusChangeKeepsConsistent(s, t);
    forall d ensures DocumentProgress(s, t, d) {
      assert DocumentProgress(s, mid, d);
    }
    forall v ensures VersionProgress(s, t, v) {
      assert VersionProgress(s, mid, v);
    }
  }
}
