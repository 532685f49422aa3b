/** Deletion, the active manifest and garbage collection (backend/app/ingest/reconcile.py). */
module Reconcile {
  import opened Basics
  import opened Wrappers
  import opened Corpus
  import opened IngestionJobs

  /** The versions of a document that are still on their way. */
  function Pending(s: State, d: DocumentId): set<VersionId> {
    set v | v in s.versions && s.versions[v].document == d && s.versions[v].status in {Staged, Processing, Ready}
  }

  /** A new generation without the document becomes active, and the document is marked deleted. */
  function Hide(s: State, d: DocumentId, newId: GenerationId, now: int): State
    requires d in s.documents
  {
    s.(generations := s.generations[newId := Generation(None, s.activeGeneration, Activated, s.revision + 1, Some(now))],
       manifests := s.manifests[newId := Without(ActiveManifest(s), d)],
       documents := s.documents[d := s.documents[d].(deleted := true, activeVersion := None)],
       activeGeneration := Some(newId),
       revision := s.revision + 1)
  }

  function SupersedeCurrent(s: State, current: Option<VersionId>): State {
    if current.Some? && current.value in s.versions then
      s.(versions := s.versions[current.value := s.versions[current.value].(status := Superseded)])
    else s
  }

  /** Pending versions and their jobs fail, and so do the generations prepared for them. */
  function FailPending(s: State, pending: set<VersionId>): State {
    s.(versions := map v | v in s.versions :: if v in pending then s.versions[v].(status := Failed) else s.versions[v],
       jobs := map v | v in s.jobs :: if v in pending then s.jobs[v].(status := JobFailed) else s.jobs[v],
       generations := map g | g in s.generations ::
         if s.generations[g].changed.Some? && s.generations[g].changed.value in pending && s.generations[g].status == Preparing
         then s.generations[g].(status := Abandoned) else s.generations[g])
  }

  function TombstoneTx(s: State, d: DocumentId, newId: GenerationId, now: int): Tx {
    if d !in s.documents || s.documents[d].deleted then Tx(Rejected, s)
    else Tx(Committed, SupersedeCurrent(Hide(FailPending(s, Pending(s, d)), d, newId, now), s.documents[d].activeVersion))
  }

  /** What deletion does to one version row and its job. */
  lemma TombstoneRowOf(s: State, d: DocumentId, newId: GenerationId, now: int, u: VersionId)
    requires TombstoneTx(s, d, newId, now).outcome == Committed && DocumentOk(s, d) && u in s.versions && u in s.jobs
    ensures var t := TombstoneTx(s, d, newId, now).state;
            && u in t.versions && u in t.jobs && t.versions[u].document == s.versions[u].document
            && (s.versions[u].document != d ==> t.versions[u] == s.versions[u] && t.jobs[u] == s.jobs[u])
  {
  }

  lemma TombstoneKeepsVersion(s: State, d: DocumentId, newId: GenerationId, now: int, u: VersionId)
    requires Consistent(s)
    requires TombstoneTx(s, d, newId, now).outcome == Committed
    ensures VersionOk(TombstoneTx(s, d, newId, now).state, u)
    ensures Done(s, u) ==> Done(TombstoneTx(s, d, newId, now).state, u)
  {
    assert VersionOk(s, u) && DocumentOk(s, d);
    if u in s.versions {
      TombstoneRowOf(s, d, newId, now, u);
    }
  }

  lemma TombstoneKeepsRow(s: State, d: DocumentId, newId: GenerationId, now: int, h: GenerationId)
    requires TombstoneTx(s, d, newId, now).outcome == Committed && newId !in s.generations
    ensures SameGeneration(s, TombstoneTx(s, d, newId, now).state, h)
    ensures h in s.generations ==> h in TombstoneTx(s, d, newId, now).state.generations
  {
  }

  lemma TombstoneKeepsGeneration(s: State, d: DocumentId, newId: GenerationId, now: int, h: GenerationId)
    requires Consistent(s) && newId !in s.generations && h in s.generations
    requires TombstoneTx(s, d, newId, now).outcome == Committed
    ensures GenerationOk(TombstoneTx(s, d, newId, now).state, h)
  {
    var t := TombstoneTx(s, d, newId, now).state;
    var row := s.generations[h];
    assert GenerationOk(s, h);
    TombstoneKeepsRow(s, d, newId, now, h);
    if row.parent.Some? {
      TombstoneKeepsRow(s, d, newId, now, row.parent.value);
    }
    if row.changed.Some? {
      TombstoneKeepsVersion(s, d, newId, now, row.changed.value);
    }
    NewPointerKeepsGeneration(s, t, newId, h);
  }

  lemma TombstoneKeepsKeys(s: State, d: DocumentId, newId: GenerationId, now: int)
    requires s.jobs.Keys == s.versions.Keys && s.manifests.Keys == s.generations.Keys && PointerOk(s)
    requires newId !in s.generations
    requires TombstoneTx(s, d, newId, now).outcome == Committed
    ensures var t := TombstoneTx(s, d, newId, now).state;
            && t.jobs.Keys == t.versions.Keys && t.manifests.Keys == t.generations.Keys
            && GenerationOk(t, newId) && PointerOk(t)
  {
    if s.activeGeneration.Some? {
      TombstoneKeepsRow(s, d, newId, now, s.activeGeneration.value);
    }
    assert s.documents[d].activeVersion.Some? && s.documents[d].activeVersion.value in s.versions ==>
           SupersedeCurrent(s, s.documents[d].activeVersion).versions.Keys == s.versions.Keys;
  }

  lemma TombstoneKeepsDocument(s: State, d: DocumentId, newId: GenerationId, now: int, e: DocumentId)
    requires DocumentOk(s, e)
    requires TombstoneTx(s, d, newId, now).outcome == Committed
    ensures DocumentOk(TombstoneTx(s, d, newId, now).state, e)
  {
  }

  lemma TombstoneKeepsNumbers(s: State, d: DocumentId, newId: GenerationId, now: int, u: VersionId, w: VersionId)
    requires NumbersDiffer(s, u, w)
    requires TombstoneTx(s, d, newId, now).outcome == Committed
    ensures NumbersDiffer(TombstoneTx(s, d, newId, now).state, u, w)
  {
  }

  lemma TombstoneRemovesOneDocument(s: State, d: DocumentId, newId: GenerationId, now: int)
    requires Consistent(s)
    requires TombstoneTx(s, d, newId, now).outcome == Committed
    ensures ActiveManifest(TombstoneTx(s, d, newId, now).state) == Without(Exposed(s), d)
    ensures Exposed(TombstoneTx(s, d, newId, now).state) == Without(Exposed(s), d)
  {
    var failed := FailPending(s, Pending(s, d));
    FailPendingLeavesManifests(s, Pending(s, d));
    HideRemoves(failed, d, newId, now);
    SupersedeLeavesManifests(Hide(failed, d, newId, now), s.documents[d].activeVersion);
  }

  lemma FailPendingLeavesManifests(s: State, pending: set<VersionId>)
    ensures ActiveManifest(FailPending(s, pending)) == ActiveManifest(s) && Exposed(FailPending(s, pending)) == Exposed(s)
  {
  }

  lemma HideRemoves(s: State, d: DocumentId, newId: GenerationId, now: int)
    requires d in s.documents
    ensures ActiveManifest(Hide(s, d, newId, now)) == Without(ActiveManifest(s), d)
    ensures Exposed(Hide(s, d, newId, now)) == Without(Exposed(s), d)
  {
  }

  lemma SupersedeLeavesManifests(s: State, current: Option<VersionId>)
    ensures ActiveManifest(SupersedeCurrent(s, current)) == ActiveManifest(s)
    ensures Exposed(SupersedeCurrent(s, current)) == Exposed(s)
  {
  }

  lemma TombstoneKeepsConsistent(s: State, d: DocumentId, newId: GenerationId, now: int)
    requires Consistent(s) && newId !in s.generations
    ensures Consistent(TombstoneTx(s, d, newId, now).state)
  {
    if TombstoneTx(s, d, newId, now).outcome == Committed {
      var t := TombstoneTx(s, d, newId, now).state;
      TombstoneRemovesOneDocument(s, d, newId, now);
      TombstoneKeepsKeys(s, d, newId, now);
      forall e ensures DocumentOk(t, e) {
        assert DocumentOk(s, e);
        TombstoneKeepsDocument(s, d, newId, now, e);
      }
      forall u, w ensures NumbersDiffer(t, u, w) {
        assert NumbersDiffer(s, u, w);
        TombstoneKeepsNumbers(s, d, newId, now, u, w);
      }
      forall u ensures VersionOk(t, u) {
        TombstoneKeepsVersion(s, d, newId, now, u);
      }
      forall h ensures GenerationOk(t, h) {
        if h in s.generations {
          TombstoneKeepsGeneration(s, d, newId, now, h);
        }
      }
    }
  }

  /** Newest first: by activation time, then by id. */
  predicate Ahead(rows: map<GenerationId, Generation>, h: GenerationId, g: GenerationId) {
    h in rows && g in rows &&
      var a, b := rows[h].activatedAt.GetOr(0), rows[g].activatedAt.GetOr(0);
      a > b || (a == b && h > g)
  }

  function ActivatedIn(rows: map<GenerationId, Generation>): set<GenerationId> {
    set g | g in rows && rows[g].status == Activated
  }

  function AheadOf(rows: map<GenerationId, Generation>, g: GenerationId): set<GenerationId> {
    set h | h in ActivatedIn(rows) && Ahead(rows, h, g)
  }

  /** The first `limit` activated generations in that order. */
  function Window(rows: map<GenerationId, Generation>, limit: nat): set<GenerationId> {
    set g | g in ActivatedIn(rows) && |AheadOf(rows, g)| < limit
  }

  function RowsOf(s: State, gs: set<GenerationId>): set<VersionId> {
    set g, d | g in gs && g in s.manifests && d in s.manifests[g] :: s.manifests[g][d]
  }

  /** A version garbage collection may take. */
  predicate Collectable(s: State, v: VersionId, limit: nat, olderThan: Option<int>) {
    && v in s.versions && s.versions[v].status in {Failed, Superseded} && !s.versions[v].collected
    && (olderThan.Some? ==> s.versions[v].createdAt < olderThan.value)
    && v !in RowsOf(s, Window(s.generations, limit))
  }

  function Candidates(s: State, limit: nat, olderThan: Option<int>): set<VersionId> {
    set v | v in s.versions && Collectable(s, v, limit, olderThan)
  }

  function DropPointsTx(s: State, vs: set<VersionId>): State {
    s.(points := s.points - vs)
  }

  function DropFilesTx(s: State, vs: set<VersionId>): State {
    s.(files := s.files - vs)
  }

  function DropRowsTx(s: State, vs: set<VersionId>): State {
    s.(chunks := map v | v in s.chunks && v !in vs :: s.chunks[v],
       sections := map v | v in s.sections && v !in vs :: s.sections[v],
       versions := map v | v in s.versions :: if v in vs then s.versions[v].(collected := true) else s.versions[v])
  }

  lemma DropKeepsConsistent(s: State, vs: set<VersionId>)
    requires Consistent(s)
    ensures Consistent(DropPointsTx(s, vs)) && Consistent(DropFilesTx(s, vs)) && Consistent(DropRowsTx(s, vs))
  {
    StatusChangeKeepsConsistent(s, DropPointsTx(s, vs));
    StatusChangeKeepsConsistent(s, DropFilesTx(s, vs));
    StatusChangeKeepsConsistent(s, DropRowsTx(s, vs));
  }

  method TombstoneDocument(db: Database, d: DocumentId, newId: GenerationId, now: int) returns (outcome: Outcome)
    requires Consistent(db.View()) && newId !in db.generations
    modifies db
    ensures Tx(outcome, db.View()) == TombstoneTx(old(db.View()), d, newId, now)
    ensures Consistent(db.View())
  {
    TombstoneKeepsConsistent(db.View(), d, newId, now);
    if d !in db.documents || db.documents[d].deleted {
      return Rejected;
    }
    var current := db.documents[d].activeVersion;
    FailPendingOf(db, d);
    HideDocument(db, d, newId, now);
    if current.Some? && current.value in db.versions {
      db.versions := db.versions[current.value := db.versions[current.value].(status := Superseded)];
    }
    return Committed;
  }

  method FailPendingOf(db: Database, d: DocumentId)
    modifies db
    ensures db.View() == FailPending(old(db.View()), Pending(old(db.View()), d))
  {
    var pending := set v | v in db.versions && db.versions[v].document == d && db.versions[v].status in {Staged, Processing, Ready};
    assert pending == Pending(db.View(), d);
    db.versions := map v | v in db.versions :: if v in pending then db.versions[v].(status := Failed) else db.versions[v];
    db.jobs := map v | v in db.jobs :: if v in pending then db.jobs[v].(status := JobFailed) else db.jobs[v];
    db.generations := map g | g in db.generations ::
      if db.generations[g].changed.Some? && db.generations[g].changed.value in pending && db.generations[g].status == Preparing
      then db.generations[g].(status := Abandoned) else db.generations[g];
  }

  method HideDocument(db: Database, d: DocumentId, newId: GenerationId, now: int)
    requires d in db.documents
    requires db.manifests.Keys == db.generations.Keys && newId !in db.generations
    requires db.activeGeneration.Some? ==> db.activeGeneration.value in db.generations
    modifies db
    ensures db.View() == Hide(old(db.View()), d, newId, now)
  {
    db.manifests := db.manifests[newId := map[]];
    CopyManifest(db, db.activeGeneration, newId, d);
    PointPastDocument(db, d, newId, now);
  }

  method PointPastDocument(db: Database, d: DocumentId, newId: GenerationId, now: int)
    requires d in db.documents
    modifies db
    ensures db.View() == Hide(old(db.View()), d, newId, now).(manifests := old(db.manifests))
  {
    db.generations := db.generations[newId := Generation(None, db.activeGeneration, Activated, db.revision + 1, Some(now))];
    db.documents := db.documents[d := db.documents[d].(deleted := true, activeVersion := None)];
    db.activeGeneration := Some(newId);
    db.revision := db.revision + 1;
  }

  /** The versions the active manifest shows, read the way the retriever reads them. */
  method ActiveManifestVersionIds(db: Database) returns (ids: set<VersionId>)
    requires Consistent(db.View())
    ensures forall v :: v in ids <==> Current(db.View(), v)
  {
    ghost var s := db.View();
    assert forall v :: Current(s, v) ==> s.versions[v].document in Exposed(s);
    assert forall d :: d in s.documents ==> DocumentOk(s, d);
    if db.activeGeneration.None? {
      return {};
    }
    assert PointerOk(s);
    var rows := db.manifests[db.activeGeneration.value];
    ids := set d | d in rows && d in db.documents && !db.documents[d].deleted :: rows[d];
  }

  predicate First(rows: map<GenerationId, Generation>, g: GenerationId, gs: set<GenerationId>) {
    g in gs && forall h :: h in gs ==> !Ahead(rows, h, g)
  }

  lemma FirstExists(rows: map<GenerationId, Generation>, gs: set<GenerationId>)
    requires gs != {} && gs <= rows.Keys
    ensures exists g :: First(rows, g, gs)
  {
    var x :| x in gs;
    if gs == {x} {
      assert First(rows, x, gs);
    } else {
      assert gs == (gs - {x}) + {x};
      FirstExists(rows, gs - {x});
      var y :| First(rows, y, gs - {x});
      assert First(rows, if Ahead(rows, x, y) then x else y, gs);
    }
  }

  /** The first rows of the ordered query, and the others. */
  ghost predicate Cut(rows: map<GenerationId, Generation>, first: set<GenerationId>, rest: set<GenerationId>) {
    && first !! rest && first + rest == ActivatedIn(rows)
    && (forall g, h {:trigger Ahead(rows, g, h)} :: g in first && h in rest ==> Ahead(rows, g, h))
    && (forall g :: g in first ==> |AheadOf(rows, g)| < |first|)
  }

  lemma NextInLine(rows: map<GenerationId, Generation>, first: set<GenerationId>, rest: set<GenerationId>, g: GenerationId)
    requires Cut(rows, first, rest) && First(rows, g, rest)
    ensures AheadOf(rows, g) == first
  {
  }

  lemma NextAheadOfRest(rows: map<GenerationId, Generation>, first: set<GenerationId>, rest: set<GenerationId>, g: GenerationId,
                        x: GenerationId, h: GenerationId)
    requires Cut(rows, first, rest) && First(rows, g, rest)
    requires x in first + {g} && h in rest - {g}
    ensures Ahead(rows, x, h)
  {
    assert h in ActivatedIn(rows) && g in ActivatedIn(rows);
    assert !Ahead(rows, h, g);
  }

  lemma CutGrows(rows: map<GenerationId, Generation>, first: set<GenerationId>, rest: set<GenerationId>, g: GenerationId)
    requires Cut(rows, first, rest) && First(rows, g, rest)
    ensures Cut(rows, first + {g}, rest - {g})
  {
    var more, fewer := first + {g}, rest - {g};
    assert more + fewer == first + rest;
    forall x, h | x in more && h in fewer
      ensures Ahead(rows, x, h)
    {
      NextAheadOfRest(rows, first, rest, g, x, h);
    }
    forall x | x in more
      ensures |AheadOf(rows, x)| < |more|
    {
      NextInLine(rows, first, rest, g);
    }
  }

  lemma CutIsWindow(rows: map<GenerationId, Generation>, first: set<GenerationId>, rest: set<GenerationId>, limit: nat)
    requires Cut(rows, first, rest) && |first| <= limit && (rest == {} || |first| == limit)
    ensures first == Window(rows, limit)
  {
    forall g | g in rest
      ensures |first| <= |AheadOf(rows, g)|
    {
      SubsetSize(first, AheadOf(rows, g));
    }
  }

  /** The ordered, limited query for the generations whose content is retained. */
  method RetainedGenerations(rows: map<GenerationId, Generation>, limit: nat) returns (retained: set<GenerationId>)
    ensures retained == Window(rows, limit)
  {
    var rest := set g | g in rows && rows[g].status == Activated;
    retained := {};
    while rest != {} && |retained| < limit
      invariant Cut(rows, retained, rest) && |retained| <= limit
      decreases rest
    {
      FirstExists(rows, rest);
      var g :| First(rows, g, rest);
      CutGrows(rows, retained, rest, g);
      retained, rest := retained + {g}, rest - {g};
    }
    CutIsWindow(rows, retained, rest, limit);
  }

  /** The first phase of garbage collection: a snapshot of what may go. */
  method SnapshotCandidates(db: Database, limit: nat, olderThan: Option<int>) returns (candidates: set<VersionId>)
    ensures candidates == Candidates(db.View(), limit, olderThan)
  {
    var window := RetainedGenerations(db.generations, limit);
    var kept := set g, d | g in window && g in db.manifests && d in db.manifests[g] :: db.manifests[g][d];
    var busy := set v | v in db.versions && db.versions[v].status in {Staged, Processing, Ready, Active};
    kept := kept + busy;
    candidates := set v |
      v in db.versions && db.versions[v].status in {Failed, Superseded} && !db.versions[v].collected
      && (olderThan.Some? ==> db.versions[v].createdAt < olderThan.value) && v !in kept;
    assert candidates == Candidates(db.View(), limit, olderThan);
  }

  /** The second phase: index points at once, then the raw files one by one. */
  method DeletePayload(db: Database, candidates: set<VersionId>) returns (deletedFiles: nat)
    modifies db`points, db`files
    ensures db.View() == DropFilesTx(DropPointsTx(old(db.View()), candidates), candidates)
    ensures deletedFiles == |old(db.files) * candidates|
  {
    db.points := db.points - candidates;
    deletedFiles := 0;
    ghost var had := db.files;
    var done: set<VersionId> := {};
    while done != candidates
      invariant done <= candidates
      invariant db.points == old(db.points) - candidates
      invariant db.files == had - done
      invariant deletedFiles == |had * done|
      decreases candidates - done
    {
      NotDone(done, candidates);
      var v :| v in candidates && v !in done;
      CountOne(had, done, v);
      if v in db.files {
        db.files := db.files - {v};
        deletedFiles := deletedFiles + 1;
      }
      done := done + {v};
    }
  }

  lemma NotDone(done: set<VersionId>, all: set<VersionId>)
    requires done <= all && done != all
    ensures exists v :: v in all && v !in done
  {
  }

  lemma CountOne(had: set<VersionId>, done: set<VersionId>, v: VersionId)
    requires v !in done
    ensures had - (done + {v}) == had - done - {v}
    ensures v !in had ==> had - done - {v} == had - done
    ensures |had * (done + {v})| == |had * done| + if v in had then 1 else 0
  {
    assert had * (done + {v}) == had * done + (if v in had then {v} else {});
  }

  /** The third phase: the rows go and the versions are stamped. */
  method DeleteRows(db: Database, candidates: set<VersionId>)
    modifies db
    ensures db.View() == DropRowsTx(old(db.View()), candidates)
    ensures forall v :: v in candidates ==> v !in db.chunks && v !in db.sections && (v in db.versions ==> db.versions[v].collected)
    ensures forall v :: v !in candidates && v in old(db.versions) ==> v in db.versions && db.versions[v] == old(db.versions)[v]
    ensures forall v :: v !in candidates && v in old(db.chunks) ==> v in db.chunks && db.chunks[v] == old(db.chunks)[v]
    ensures forall v :: v !in candidates && v in old(db.sections) ==> v in db.sections && db.sections[v] == old(db.sections)[v]
  {
    db.chunks := map v | v in db.chunks && v !in candidates :: db.chunks[v];
    db.sections := map v | v in db.sections && v !in candidates :: db.sections[v];
    db.versions := map v | v in db.versions ::
      if v in candidates then db.versions[v].(collected := true) else db.versions[v];
  }
}
