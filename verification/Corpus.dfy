/** The rows of one tenant's corpus, and the state the database transactions work on.

    Every query of the program is restricted to one tenant, so the model is the slice of the
    tables that belongs to one tenant. A job is keyed by its version: the table has a unique
    constraint on document_version_id. */
module Corpus {
  import opened Wrappers

  newtype DocumentId = n: int | 0 <= n
  newtype VersionId = n: int | 0 <= n
  newtype GenerationId = n: int | 0 <= n
  newtype CollectionId = n: int | 0 <= n
  newtype SectionId = n: int | 0 <= n

  datatype VersionStatus = Staged | Processing | Ready | Active | Failed | Superseded

  datatype JobStatus = JobStaged | JobQueued | JobProcessing | JobSucceeded | JobFailed

  datatype GenerationStatus = Preparing | Activated | Abandoned

  datatype Document = Document(
    title: string,
    sourceFilename: string,
    mime: string,
    activeVersion: Option<VersionId>,
    deleted: bool)

  datatype Version = Version(
    document: DocumentId,
    number: nat,
    status: VersionStatus,
    createdAt: int,
    activatedAt: Option<int>,
    generation: Option<GenerationId>,
    collected: bool)

  datatype Job = Job(status: JobStatus, attempt: nat, heartbeat: Option<int>)

  datatype Generation = Generation(
    changed: Option<VersionId>,
    parent: Option<GenerationId>,
    status: GenerationStatus,
    revision: nat,
    activatedAt: Option<int>)

  /** A name and its case-folded form, which the database compares. */
  datatype CollectionName = CollectionName(text: string, folded: string)

  datatype Collection = Collection(name: CollectionName, deleted: bool)

  datatype Section = Section(id: SectionId, headingLexical: string, pathLexical: string)

  /** The rows of index_generation_documents of one generation; (generation, document) is the
      primary key. */
  type Manifest = map<DocumentId, VersionId>

  datatype State = State(
    documents: map<DocumentId, Document>,
    versions: map<VersionId, Version>,
    jobs: map<VersionId, Job>,
    generations: map<GenerationId, Generation>,
    manifests: map<GenerationId, Manifest>,
    collections: map<CollectionId, Collection>,
    memberships: set<(DocumentId, CollectionId)>,
    sections: map<VersionId, set<Section>>,
    chunks: map<VersionId, nat>,
    points: set<VersionId>,
    files: set<VersionId>,
    activeGeneration: Option<GenerationId>,
    revision: nat)

  /** How a transaction ended: committed, left without a change, or raised and rolled back. */
  datatype Outcome = Committed | Skipped | Rejected

  datatype Tx = Tx(outcome: Outcome, state: State)

  /** The manifest of a generation pointer; no generation means no rows. */
  function ManifestOf(s: State, g: Option<GenerationId>): Manifest {
    if g.Some? && g.value in s.manifests then s.manifests[g.value] else map[]
  }

  function ActiveManifest(s: State): Manifest {
    ManifestOf(s, s.activeGeneration)
  }

  /** What the documents table itself says is exposed. */
  function Exposed(s: State): Manifest {
    map d | d in s.documents && s.documents[d].activeVersion.Some? :: s.documents[d].activeVersion.value
  }

  function Without(m: Manifest, d: DocumentId): Manifest {
    map e | e in m && e != d :: m[e]
  }

  predicate Deleted(s: State, d: DocumentId) {
    d in s.documents && s.documents[d].deleted
  }

  predicate LiveDocument(s: State, d: DocumentId) {
    d in s.documents && !s.documents[d].deleted
  }

  /** The numbers already given to versions of a document. */
  function Numbers(s: State, d: DocumentId): set<nat> {
    set v | v in s.versions && s.versions[v].document == d :: s.versions[v].number
  }

  /** The manifest a version is prepared with: everything active except its document, plus itself. */
  function EarlyCopy(s: State, v: VersionId): Manifest
    requires v in s.versions
  {
    Without(ActiveManifest(s), s.versions[v].document)[s.versions[v].document := v]
  }

  /** Version v is the one its document exposes. */
  predicate Current(s: State, v: VersionId) {
    && v in s.versions && s.versions[v].document in s.documents
    && s.documents[s.versions[v].document].activeVersion == Some(v)
  }

  /** No job will expose version v any more: its job succeeded, or its document is deleted. */
  predicate Done(s: State, v: VersionId) {
    v in s.versions && (Deleted(s, s.versions[v].document) || (v in s.jobs && s.jobs[v].status == JobSucceeded))
  }

  /** A document exposes only a version of its own, and a deleted one exposes nothing. */
  predicate DocumentOk(s: State, d: DocumentId) {
    d in s.documents && s.documents[d].activeVersion.Some? ==>
      var v := s.documents[d].activeVersion.value;
      v in s.versions && s.versions[v].document == d && !s.documents[d].deleted
  }

  /** An exposed version has a finished job and is active (or, with two workers on one job, set back to processing);
      a superseded one is hidden for good. */
  predicate VersionOk(s: State, v: VersionId) {
    v in s.versions ==>
      && v in s.jobs && s.versions[v].document in s.documents
      && (Current(s, v) ==>
            s.jobs[v].status == JobSucceeded && (s.versions[v].status == Active || s.versions[v].status == Processing))
      && (s.versions[v].status == Superseded ==> Done(s, v) && !Current(s, v))
  }

  /** A generation is activated only by a job that is over, its parent was activated before it, and a manifest
      prepared early is still right as long as its parent is the active generation. */
  predicate GenerationOk(s: State, g: GenerationId) {
    g in s.generations ==>
      var row := s.generations[g];
      && g in s.manifests
      && (row.parent.Some? ==> row.parent.value in s.generations && s.generations[row.parent.value].status == Activated)
      && (row.changed.Some? ==>
            && row.changed.value in s.versions
            && (row.status == Activated ==> Done(s, row.changed.value))
            && (row.status != Activated && row.parent == s.activeGeneration ==>
                  s.manifests[g] == EarlyCopy(s, row.changed.value)))
  }

  predicate NumbersDiffer(s: State, v: VersionId, w: VersionId) {
    v in s.versions && w in s.versions && v != w && s.versions[v].document == s.versions[w].document ==>
      s.versions[v].number != s.versions[w].number
  }

  /** The active generation's manifest is what the documents table says. */
  predicate ManifestExact(s: State) {
    ActiveManifest(s) == Exposed(s)
  }

  predicate PointerOk(s: State) {
    s.activeGeneration.Some? ==>
      s.activeGeneration.value in s.generations && s.generations[s.activeGeneration.value].status == Activated
  }

  /** What every transaction keeps, whoever runs it and in whatever order. */
  ghost predicate Consistent(s: State) {
    && PointerOk(s) && ManifestExact(s)
    && s.jobs.Keys == s.versions.Keys && s.manifests.Keys == s.generations.Keys
    && (forall d {:trigger DocumentOk(s, d)} :: DocumentOk(s, d))
    && (forall v {:trigger VersionOk(s, v)} :: VersionOk(s, v))
    && (forall g {:trigger GenerationOk(s, g)} :: GenerationOk(s, g))
    && (forall v, w {:trigger NumbersDiffer(s, v, w)} :: NumbersDiffer(s, v, w))
  }

  /** Two states that agree on everything but job rows, version statuses and payload. */
  predicate SameShape(s: State, t: State) {
    && s.documents == t.documents && s.manifests == t.manifests && s.activeGeneration == t.activeGeneration
    && s.versions.Keys == t.versions.Keys && s.jobs.Keys == t.jobs.Keys && s.generations.Keys == t.generations.Keys
  }

  predicate SameVersion(s: State, t: State, v: VersionId) {
    v in s.versions && v in t.versions ==>
      s.versions[v].document == t.versions[v].document && s.versions[v].number == t.versions[v].number
  }

  predicate SameGeneration(s: State, t: State, g: GenerationId) {
    g in s.generations && g in t.generations ==>
      && s.generations[g].changed == t.generations[g].changed && s.generations[g].parent == t.generations[g].parent
      && (s.generations[g].status == Activated <==> t.generations[g].status == Activated)
  }

  /** What may happen to the status of a version and its job: no success is lost while the document lives, nothing
      becomes superseded, and an exposed version stays visible. */
  predicate HarmlessStatus(s: State, t: State, v: VersionId) {
    v in s.versions && v in t.versions && v in s.jobs && v in t.jobs ==>
      && (s.jobs[v].status == JobSucceeded ==> t.jobs[v].status == JobSucceeded || Deleted(s, s.versions[v].document))
      && (t.versions[v].status == Superseded ==> s.versions[v].status == Superseded)
      && (Current(s, v) ==>
            t.versions[v].status == s.versions[v].status || t.versions[v].status == Processing || t.versions[v].status == Active)
  }

  /** The frame rule for every step that only moves statuses. */
  lemma StatusChangeKeepsConsistent(s: State, t: State)
    requires Consistent(s) && SameShape(s, t)
    requires forall v {:trigger SameVersion(s, t, v)} :: SameVersion(s, t, v)
    requires forall g {:trigger SameGeneration(s, t, g)} :: SameGeneration(s, t, g)
    requires forall v {:trigger HarmlessStatus(s, t, v)} :: HarmlessStatus(s, t, v)
    ensures Consistent(t)
  {
    forall d ensures DocumentOk(t, d) {
      assert DocumentOk(s, d);
      if d in s.documents && s.documents[d].activeVersion.Some? {
        assert SameVersion(s, t, s.documents[d].activeVersion.value);
      }
    }
    forall v ensures VersionOk(t, v) {
      assert VersionOk(s, v) && SameVersion(s, t, v) && HarmlessStatus(s, t, v);
      if Current(s, v) {
        assert DocumentOk(s, s.versions[v].document);
      }
    }
    forall g ensures GenerationOk(t, g) {
      assert GenerationOk(s, g) && SameGeneration(s, t, g);
      if g in s.generations {
        var row := s.generations[g];
        if row.parent.Some? {
          assert SameGeneration(s, t, row.parent.value);
        }
        if row.changed.Some? {
          var v := row.changed.value;
          assert SameVersion(s, t, v) && HarmlessStatus(s, t, v);
        }
      }
    }
    forall v, w ensures NumbersDiffer(t, v, w) {
      assert NumbersDiffer(s, v, w) && SameVersion(s, t, v) && SameVersion(s, t, w);
    }
    if t.activeGeneration.Some? {
      assert SameGeneration(s, t, t.activeGeneration.value);
    }
  }

  /** The database: one field per table, assigned in place by the transactions. */
  class Database {
    var documents: map<DocumentId, Document>
    var versions: map<VersionId, Version>
    var jobs: map<VersionId, Job>
    var generations: map<GenerationId, Generation>
    var manifests: map<GenerationId, Manifest>
    var collections: map<CollectionId, Collection>
    var memberships: set<(DocumentId, CollectionId)>
    var sections: map<VersionId, set<Section>>
    var chunks: map<VersionId, nat>
    var points: set<VersionId>
    var files: set<VersionId>
    var activeGeneration: Option<GenerationId>
    var revision: nat

    /** A tenant before its first upload. */
    constructor ()
      ensures View() == EmptyState()
    {
      documents, versions, jobs, generations, manifests := map[], map[], map[], map[], map[];
      collections, memberships, sections, chunks := map[], {}, map[], map[];
      points, files, activeGeneration, revision := {}, {}, None, 1;
    }

    ghost function View(): State
      reads this
    {
      State(documents, versions, jobs, generations, manifests, collections, memberships, sections, chunks,
            points, files, activeGeneration, revision)
    }
  }

  function EmptyState(): State {
    State(map[], map[], map[], map[], map[], map[], {}, map[], map[], {}, {}, None, 1)
  }
}
