/** The routes that add versions to documents (backend/app/documents/routes.py). */
module Documents {
  import opened Wrappers
  import opened Corpus

  ghost predicate IsMaximum(n: int, ns: set<nat>) {
    n in ns && forall k :: k in ns ==> k <= n
  }

  lemma MaximumExists(ns: set<nat>)
    requires ns != {}
    ensures exists n :: IsMaximum(n, ns)
  {
    var x :| x in ns;
    if ns == {x} {
      assert IsMaximum(x, ns);
    } else {
      assert ns == (ns - {x}) + {x};
      MaximumExists(ns - {x});
      var y :| IsMaximum(y, ns - {x});
      assert IsMaximum(if x < y then y else x, ns);
    }
  }

  /** One more than the largest number given to a version of the document so far. */
  ghost function NextNumber(s: State, d: DocumentId): (n: nat)
    ensures forall k :: k in Numbers(s, d) ==> k < n
    ensures n == 1 || n - 1 in Numbers(s, d)
  {
    if Numbers(s, d) == {} then 1
    else MaximumExists(Numbers(s, d)); var m: nat :| IsMaximum(m, Numbers(s, d)); m + 1
  }

  lemma NextNumberUnique(s: State, d: DocumentId, n: nat)
    requires forall k :: k in Numbers(s, d) ==> k < n
    requires n == 1 || n - 1 in Numbers(s, d)
    ensures n == NextNumber(s, d)
  {
  }

  function LiveCollections(s: State): set<CollectionId> {
    set k | k in s.collections && !s.collections[k].deleted
  }

  function CollectionsOf(s: State, d: DocumentId): set<CollectionId> {
    set p | p in s.memberships && p.0 == d :: p.1
  }

  /** A staged version with its job and its raw file. */
  function AddVersion(s: State, d: DocumentId, v: VersionId, number: nat, now: int): State {
    s.(versions := s.versions[v := Version(d, number, Staged, now, None, None, false)],
       jobs := s.jobs[v := Job(JobStaged, 0, None)],
       files := s.files + {v})
  }

  function AddDocument(s: State, d: DocumentId, title: string, filename: string, mime: string, collections: set<CollectionId>): State {
    s.(documents := s.documents[d := Document(title, filename, mime, None, false)],
       memberships := s.memberships + set k | k in collections :: (d, k))
  }

  ghost function UploadTx(s: State, target: Option<DocumentId>, newDocument: DocumentId, v: VersionId,
                          title: string, filename: string, mime: string, collections: set<CollectionId>, now: int): Tx {
    if target.None? then
      if !(collections <= LiveCollections(s)) then Tx(Rejected, s)
      else Tx(Committed, AddVersion(AddDocument(s, newDocument, title, filename, mime, collections), newDocument, v,
                                    NextNumber(s, newDocument), now))
    else
      var d := target.value;
      if !LiveDocument(s, d) || s.documents[d].mime != mime || s.documents[d].title != title then Tx(Rejected, s)
      else if collections != {} && collections != CollectionsOf(s, d) then Tx(Rejected, s)
      else Tx(Committed, AddVersion(s, d, v, NextNumber(s, d), now))
  }

  ghost function ReindexTx(s: State, d: DocumentId, v: VersionId, now: int): Tx {
    if !LiveDocument(s, d) || s.documents[d].activeVersion.None? then Tx(Rejected, s)
    else if s.documents[d].activeVersion.value !in s.versions || s.documents[d].activeVersion.value !in s.files then Tx(Rejected, s)
    else Tx(Committed, AddVersion(s, d, v, NextNumber(s, d), now))
  }

  function EnqueueTx(s: State, v: VersionId, now: int): Tx {
    if v in s.jobs && s.jobs[v].status == JobStaged then
      Tx(Committed, s.(jobs := s.jobs[v := s.jobs[v].(status := JobQueued, heartbeat := Some(now))]))
    else Tx(Skipped, s)
  }

  lemma AddDocumentKeepsConsistent(s: State, d: DocumentId, title: string, filename: string, mime: string, collections: set<CollectionId>)
    requires Consistent(s) && d !in s.documents
    ensures Consistent(AddDocument(s, d, title, filename, mime, collections))
  {
    var t := AddDocument(s, d, title, filename, mime, collections);
    assert Exposed(t) == Exposed(s);
    forall e ensures DocumentOk(t, e) {
      assert DocumentOk(s, e);
    }
    forall u ensures VersionOk(t, u) {
      assert VersionOk(s, u);
    }
    forall g ensures GenerationOk(t, g) {
      assert GenerationOk(s, g);
      if g in s.generations && s.generations[g].changed.Some? {
        assert VersionOk(s, s.generations[g].changed.value);
      }
    }
    forall u, w ensures NumbersDiffer(t, u, w) {
      assert NumbersDiffer(s, u, w);
    }
  }

  lemma AddVersionKeepsConsistent(s: State, d: DocumentId, v: VersionId, now: int)
    requires Consistent(s) && d in s.documents && v !in s.versions
    ensures Consistent(AddVersion(s, d, v, NextNumber(s, d), now))
  {
    var t := AddVersion(s, d, v, NextNumber(s, d), now);
    assert DocumentOk(s, d);
    forall e ensures DocumentOk(t, e) {
      assert DocumentOk(s, e);
    }
    forall u ensures VersionOk(t, u) {
      assert VersionOk(s, u);
    }
    forall g ensures GenerationOk(t, g) {
      assert GenerationOk(s, g);
    }
    forall u, w ensures NumbersDiffer(t, u, w) {
      assert NumbersDiffer(s, u, w);
      assert forall x :: x in s.versions && s.versions[x].document == d ==> s.versions[x].number in Numbers(s, d);
    }
  }

  lemma UploadKeepsConsistent(s: State, target: Option<DocumentId>, newDocument: DocumentId, v: VersionId,
                              title: string, filename: string, mime: string, collections: set<CollectionId>, now: int)
    requires Consistent(s) && newDocument !in s.documents && v !in s.versions
    ensures Consistent(UploadTx(s, target, newDocument, v, title, filename, mime, collections, now).state)
  {
    if UploadTx(s, target, newDocument, v, title, filename, mime, collections, now).outcome == Committed {
      if target.None? {
        var mid := AddDocument(s, newDocument, title, filename, mime, collections);
        AddDocumentKeepsConsistent(s, newDocument, title, filename, mime, collections);
        assert Numbers(mid, newDocument) == Numbers(s, newDocument);
        NextNumberUnique(mid, newDocument, NextNumber(s, newDocument));
        AddVersionKeepsConsistent(mid, newDocument, v, now);
      } else {
        AddVersionKeepsConsistent(s, target.value, v, now);
      }
    }
  }

  lemma ReindexKeepsConsistent(s: State, d: DocumentId, v: VersionId, now: int)
    requires Consistent(s) && v !in s.versions
    ensures Consistent(ReindexTx(s, d, v, now).state)
  {
    if ReindexTx(s, d, v, now).outcome == Committed {
      AddVersionKeepsConsistent(s, d, v, now);
    }
  }

  lemma EnqueueKeepsConsistent(s: State, v: VersionId, now: int)
    requires Consistent(s)
    ensures Consistent(EnqueueTx(s, v, now).state)
  {
    StatusChangeKeepsConsistent(s, EnqueueTx(s, v, now).state);
  }

  /** The next free number of a document; the tenant row is locked while it is read. */
  method AllocateNumber(db: Database, d: DocumentId) returns (n: nat)
    ensures n == NextNumber(db.View(), d)
  {
    var pending := set v | v in db.versions && db.versions[v].document == d;
    ghost var all := pending;
    n := 0;
    while pending != {}
      invariant pending <= all
      invariant forall v :: v in all - pending ==> db.versions[v].number <= n
      invariant n == 0 || exists v :: v in all && db.versions[v].number == n
    {
      var v :| v in pending;
      if db.versions[v].number > n {
        n := db.versions[v].number;
      }
      pending := pending - {v};
    }
    n := n + 1;
    NextNumberUnique(db.View(), d, n);
  }

  method StageVersion(db: Database, d: DocumentId, v: VersionId, number: nat, now: int)
    modifies db
    ensures db.View() == AddVersion(old(db.View()), d, v, number, now)
  {
    db.files := db.files + {v};
    db.versions := db.versions[v := Version(d, number, Staged, now, None, None, false)];
    db.jobs := db.jobs[v := Job(JobStaged, 0, None)];
  }

  method UploadDocument(db: Database, target: Option<DocumentId>, newDocument: DocumentId, v: VersionId,
                        title: string, filename: string, mime: string, collections: set<CollectionId>, now: int)
    returns (outcome: Outcome)
    requires Consistent(db.View()) && newDocument !in db.documents && v !in db.versions
    modifies db
    ensures Tx(outcome, db.View()) == UploadTx(old(db.View()), target, newDocument, v, title, filename, mime, collections, now)
    ensures Consistent(db.View())
  {
    UploadKeepsConsistent(db.View(), target, newDocument, v, title, filename, mime, collections, now);
    var live := set k | k in db.collections && !db.collections[k].deleted;
    if target.None? {
      if !(collections <= live) {
        return Rejected;
      }
      var number := AllocateNumber(db, newDocument);
      db.documents := db.documents[newDocument := Document(title, filename, mime, None, false)];
      db.memberships := db.memberships + set k | k in collections :: (newDocument, k);
      StageVersion(db, newDocument, v, number, now);
      return Committed;
    }
    var d := target.value;
    if d !in db.documents || db.documents[d].deleted || db.documents[d].mime != mime || db.documents[d].title != title {
      return Rejected;
    }
    var current := set p | p in db.memberships && p.0 == d :: p.1;
    if collections != {} && collections != current {
      return Rejected;
    }
    var number := AllocateNumber(db, d);
    StageVersion(db, d, v, number, now);
    return Committed;
  }

  method ReindexDocument(db: Database, d: DocumentId, v: VersionId, now: int) returns (outcome: Outcome)
    requires Consistent(db.View()) && v !in db.versions
    modifies db
    ensures Tx(outcome, db.View()) == ReindexTx(old(db.View()), d, v, now)
    ensures Consistent(db.View())
  {
    ReindexKeepsConsistent(db.View(), d, v, now);
    if d !in db.documents || db.documents[d].deleted || db.documents[d].activeVersion.None? {
      return Rejected;
    }
    var source := db.documents[d].activeVersion.value;
    if source !in db.versions || source !in db.files {
      return Rejected;
    }
    var number := AllocateNumber(db, d);
    StageVersion(db, d, v, number, now);
    return Committed;
  }
}
