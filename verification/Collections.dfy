/** The routes that change collections and memberships (backend/app/collections/routes.py). */
module Collections {
  import opened Wrappers
  import opened Corpus

  predicate LiveCollection(s: State, k: CollectionId) {
    k in s.collections && !s.collections[k].deleted
  }

  /** Another live collection has the name: the unique index refuses the row. */
  predicate NameTaken(collections: map<CollectionId, Collection>, k: CollectionId, name: CollectionName) {
    exists l :: l in collections && l != k && !collections[l].deleted && collections[l].name.folded == name.folded
  }

  function CreateTx(s: State, k: CollectionId, name: CollectionName): Tx {
    if NameTaken(s.collections, k, name) then Tx(Rejected, s)
    else Tx(Committed, s.(collections := s.collections[k := Collection(name, false)], revision := s.revision + 1))
  }

  /** The fields given: a name, which may be null, and whether there is a description, which no resolver reads. */
  datatype Patch = Patch(name: Option<Option<CollectionName>>, description: bool)

  /** At least one field, and no null name. */
  predicate ValidPatch(patch: Patch) {
    (patch.name.Some? || patch.description) && (patch.name.Some? ==> patch.name.value.Some?)
  }

  function PatchedName(patch: Patch, current: CollectionName): CollectionName {
    if patch.name.Some? && patch.name.value.Some? then patch.name.value.value else current
  }

  function UpdateTx(s: State, k: CollectionId, patch: Patch): Tx {
    if !LiveCollection(s, k) || !ValidPatch(patch) then Tx(Rejected, s)
    else if NameTaken(s.collections, k, PatchedName(patch, s.collections[k].name)) then Tx(Rejected, s)
    else Tx(Committed, s.(
      collections := s.collections[k := s.collections[k].(name := PatchedName(patch, s.collections[k].name))],
      revision := s.revision + 1))
  }

  function DeleteTx(s: State, k: CollectionId): Tx {
    if !LiveCollection(s, k) then Tx(Rejected, s)
    else Tx(Committed, s.(
      collections := s.collections[k := s.collections[k].(deleted := true)],
      memberships := (set p | p in s.memberships && p.1 != k),
      revision := s.revision + 1))
  }

  function AddDocumentTx(s: State, k: CollectionId, d: DocumentId): Tx {
    if !LiveCollection(s, k) || !LiveDocument(s, d) then Tx(Rejected, s)
    else if (d, k) in s.memberships then Tx(Skipped, s)
    else Tx(Committed, s.(memberships := s.memberships + {(d, k)}, revision := s.revision + 1))
  }

  function RemoveDocumentTx(s: State, k: CollectionId, d: DocumentId): Tx {
    if !LiveCollection(s, k) || !LiveDocument(s, d) then Tx(Rejected, s)
    else if (d, k) !in s.memberships then Tx(Skipped, s)
    else Tx(Committed, s.(memberships := s.memberships - {(d, k)}, revision := s.revision + 1))
  }

  predicate NamesApart(collections: map<CollectionId, Collection>, k: CollectionId, l: CollectionId) {
    k in collections && l in collections && k != l && !collections[k].deleted && !collections[l].deleted ==>
      collections[k].name.folded != collections[l].name.folded
  }

  /** No two live collections have one name. */
  ghost predicate NamesDiffer(collections: map<CollectionId, Collection>) {
    forall k, l {:trigger NamesApart(collections, k, l)} :: NamesApart(collections, k, l)
  }

  lemma RowKeepsNames(collections: map<CollectionId, Collection>, k: CollectionId, row: Collection)
    requires NamesDiffer(collections) && (row.deleted || !NameTaken(collections, k, row.name))
    ensures NamesDiffer(collections[k := row])
  {
    var more := collections[k := row];
    forall i, j ensures NamesApart(more, i, j) {
      assert NamesApart(collections, i, j);
    }
  }

  /** The routes that write collections keep the names of live ones apart. */
  lemma CreateKeepsNames(s: State, k: CollectionId, name: CollectionName)
    requires NamesDiffer(s.collections)
    ensures NamesDiffer(CreateTx(s, k, name).state.collections)
  {
    if !NameTaken(s.collections, k, name) {
      RowKeepsNames(s.collections, k, Collection(name, false));
    }
  }

  lemma UpdateKeepsNames(s: State, k: CollectionId, patch: Patch)
    requires NamesDiffer(s.collections)
    ensures NamesDiffer(UpdateTx(s, k, patch).state.collections)
  {
    if UpdateTx(s, k, patch).outcome == Committed {
      RowKeepsNames(s.collections, k, s.collections[k].(name := PatchedName(patch, s.collections[k].name)));
    }
  }

  lemma DeleteKeepsNames(s: State, k: CollectionId)
    requires NamesDiffer(s.collections)
    ensures NamesDiffer(DeleteTx(s, k).state.collections)
  {
    if DeleteTx(s, k).outcome == Committed {
      RowKeepsNames(s.collections, k, s.collections[k].(deleted := true));
    }
  }

  class CollectionRoutes {
    const db: Database

    constructor (db: Database)
      ensures this.db == db
    {
      this.db := db;
    }

    method BumpRevision()
      modifies db`revision
      ensures db.revision == old(db.revision) + 1
    {
      db.revision := db.revision + 1;
    }

    method Create(k: CollectionId, name: CollectionName) returns (outcome: Outcome)
      requires k !in db.collections
      modifies db
      ensures Tx(outcome, db.View()) == CreateTx(old(db.View()), k, name)
    {
      if NameTaken(db.collections, k, name) {
        return Rejected;
      }
      db.collections := db.collections[k := Collection(name, false)];
      BumpRevision();
      return Committed;
    }

    method Update(k: CollectionId, patch: Patch) returns (outcome: Outcome)
      modifies db
      ensures Tx(outcome, db.View()) == UpdateTx(old(db.View()), k, patch)
    {
      if k !in db.collections || db.collections[k].deleted {
        return Rejected;
      }
      if patch.name.None? && !patch.description {
        return Rejected;
      }
      var row := db.collections[k];
      if patch.name.Some? {
        if patch.name.value.None? {
          return Rejected;
        }
        row := row.(name := patch.name.value.value);
      }
      if NameTaken(db.collections, k, row.name) {
        return Rejected;
      }
      db.collections := db.collections[k := row];
      BumpRevision();
      return Committed;
    }

    method Delete(k: CollectionId) returns (outcome: Outcome)
      modifies db
      ensures Tx(outcome, db.View()) == DeleteTx(old(db.View()), k)
    {
      if k !in db.collections || db.collections[k].deleted {
        return Rejected;
      }
      db.collections := db.collections[k := db.collections[k].(deleted := true)];
      db.memberships := set p | p in db.memberships && p.1 != k;
      BumpRevision();
      return Committed;
    }

    /** The insert does nothing on a conflict; only a new row bumps the revision. */
    method AddDocument(k: CollectionId, d: DocumentId) returns (outcome: Outcome)
      modifies db
      ensures Tx(outcome, db.View()) == AddDocumentTx(old(db.View()), k, d)
    {
      if k !in db.collections || db.collections[k].deleted || d !in db.documents || db.documents[d].deleted {
        return Rejected;
      }
      if (d, k) in db.memberships {
        return Skipped;
      }
      db.memberships := db.memberships + {(d, k)};
      BumpRevision();
      return Committed;
    }

    method RemoveDocument(k: CollectionId, d: DocumentId) returns (outcome: Outcome)
      modifies db
      ensures Tx(outcome, db.View()) == RemoveDocumentTx(old(db.View()), k, d)
    {
      if k !in db.collections || db.collections[k].deleted || d !in db.documents || db.documents[d].deleted {
        return Rejected;
      }
      if (d, k) !in db.memberships {
        return Skipped;
      }
      db.memberships := db.memberships - {(d, k)};
      BumpRevision();
      return Committed;
    }
  }
}
