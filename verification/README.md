# Verified model of the RAG assistant's core protocols

This project models the multi-tenant RAG assistant (FastAPI backend, SvelteKit client) in Dafny and proves what its
protocols keep. `dafny verify dfyconfig.toml` checks everything.

## What is modelled

- **Index generations** (`Corpus`, `IngestionJobs`, `Documents`, `Collections`, `Reconcile`,
  `RowEffects`). The tables of one tenant,
  and every transaction on them: uploads, the ingestion worker's transactions, collection routes, deletion, and the three
  phases of garbage collection. Each transaction is a function on the state, and a method that performs it field by field
  on a `Database` and is proved equal to that function.
- **Runs** (`CorpusProgress`, `Service`, `CorpusTheorems`, `ExposureRuns`, `DisciplinedRuns`, `LeaseTimes`, `ParsedRuns`,
  `Reachability`, `CounterexampleRuns`). All processes interleaved, each worker with a program counter, crashes possible between any two
  steps, and arbitrary clocks. The theorems are about every state of every run; failing runs are runs of the same model.
- **Retrieval scope and its cache** (`Scope`, `ScopeMatches`, `ScopeTheorems`, `ScopeExamples`, `RetrievalCache`). The resolver as a function of what it
  reads, and the cache that is keyed by the revision and never invalidated.
- **The chat stream** (`Citations`, `Markers`, `CitationTheorems`, `Sse`, `SseLines`, `ChatStream`, `AnswerRoutes`,
  `Idempotency`, `ClaimTimes`, `SecondAnswers`). The citation sanitizer, the
  event-stream printer and parser, the client's accumulator, and the claims that make requests idempotent.
- **Evidence after retrieval** (`Evidence`, `Reranker`, `Dedup`, `DedupReasons`, `Context`, `PackingExactly`, `Gate`,
  `RankingExactly`, `PostRetrieval`). Reranking,
  deduplication, the confidence cut, packing and the answer gate, and their composition.
- **Evaluation** (`Calibration`, `CalibrationCounts`, `SweepOptimality`, `Ndcg`, `NdcgExactly`). The threshold sweep and nDCG.
- **Two smaller machines** (`RefreshFamilies`, `TokenTimes`, `Chunker`, `ChunksExactly`). Refresh-token families and chunk windows.

`Wrappers` and `Basics` hold the option and result types and a few shared facts.

A source file that works step by step is modelled by methods and classes that assign fields and run loops; each is proved
against a specification function, and the theorems are about those functions. What a function decides is stated a second
time apart from its text: on rows, sets, strings, or the times of the events of a run (`RowEffects`, the modules whose
names end in "Exactly" or "Times", `ScopeMatches`, `Markers`, `AnswerRoutes`, `DedupReasons` and `CalibrationCounts`).

## Assumptions

- A transaction is one atomic step; rows read under a lock are current. One call of the scope resolver reads one state.
- New identifiers and secrets are fresh, and hashes are injective, so texts and requests stand for their hashes.
- The slice of the tables that belongs to one tenant (for chats: to one user) is the whole state. A job is keyed by its
  version, which the database's unique constraint allows.
- Scores are real numbers; the tokenizer, text similarity, lexical normalisation, JSON and the repair of a complete answer
  are arbitrary functions. JSON must print on one line and read back what it printed. Where the order of equal keys could
  matter, candidate and section identifiers are assumed distinct, and the lemma says so.
- `DisciplinedRuns` assumes at most one live worker per job and no restart of a job while a collector holds its failed
  version. The lease is a timeout, so the code alone guarantees neither. `CorpusTheorems`, `ExposureRuns`, `ParsedRuns` and the
  exact statements of `RetrievalCache` do without both.
- In `ParsedRuns` every staging of a version writes the same sections: its file and its document's type never change, and
  section identifiers are computed from version and path (backend/app/ingest/sections.py:48). `RetrievalCache` leaves
  the sections of a staging arbitrary.

## Where the code falls short of the plain statement

Each statement below holds under a condition that is proved exact, and a lemma gives an input or a run that fails it. The
last entry is about a standard, and has an input for each deviation.

- Exposed versions are active exactly as long as no worker stages a version that is exposed: staging does not look at it
  (`ExposureRuns.PersistKeepsActiveExactly`, `ExposureRuns.ExposedIsActiveExactly`; failing run
  `CounterexampleRuns.SharedJobClearsExposed`). The manifest theorems hold regardless.
- Exposed versions keep their rows, points and files exactly as long as nothing deletes payload of an exposed version or
  activates a version without it (`ExposureRuns.ExposedHavePayloadExactly`). Garbage collection spares them exactly as long
  as no failed candidate is activated between snapshot and deletion (`ExposureRuns.DeletionHarmlessExactly`), and certainly
  when the candidates' own jobs are not taken up meanwhile (`ExposureRuns.CollectionSparesExposed`; failing run
  `CounterexampleRuns.RestartedCandidateLosesRows`).
- The retrieval cache is coherent exactly as long as neither of two events happens: staging other sections for an exposed
  version, and deleting the rows of a failed candidate that is exposed (`RetrievalCache.CacheCoherentExactly`). Since a
  version is always parsed alike, the first can only bring back rows that are gone
  (`ParsedRuns.ParsedCacheCoherentExactly`): workers that share a job do the cache no harm unless a collector deletes rows under them,
  and the cache is coherent when no failed candidate is taken up between snapshot and row deletion
  (`ParsedRuns.UndisturbedCacheIsCoherent`; failing runs `CounterexampleRuns.RestartedCandidateBreaksCache` and
  `CounterexampleRuns.RefillBreaksCache`).
- A final "[" is counted as streamed but no delta carries it, so the client can miss one character of the stored answer
  (condition in `ChatStream.ClientShowsStoredAnswer`, run in `ChatStream.LastBracketIsMissed`).
- Dropping a marker can join its surroundings into a new marker (condition in `CitationTheorems.FaithfulExactly`, text in
  `CitationTheorems.SpliceExample`).
- A completed claim is not compared with the request it was made for. Replays are truthful exactly as long as completions
  match their rows (`Idempotency.ReplaysTruthfulExactly`). A request has two answers exactly when its row is pruned after the
  first, the key is claimed for another request, and a stream of its own completes that claim
  (`SecondAnswers.AtMostOneAnswerExactly`). Pruning a row under a live stream can break both
  (`Idempotency.PruningUnderStreamMisleads`, `Idempotency.PruningUnderStreamAnswersTwice`).
- Boosts are made before the restrictions of later hints apply, so document hints alone, collection hints with an explicit
  restriction, and heading hints can boost outside the scope (conditions in `ScopeTheorems.BoostsStayInScopeExactly` and
  `ScopeTheorems.SectionBoostsStayInScopeExactly`; reached states in `ScopeExamples.DocumentBoostOutsideScope`,
  `ScopeExamples.CollectionBoostOutsideScope` and `ScopeExamples.SectionBoostOutsideScope`).
- The sweep's grid has six decimals, so a tried value stands for every real one exactly when the tried values separate the
  scores (`Calibration.TriedSufficesExactly`), and the sweep is optimal for all labels exactly when its combinations give
  every non-empty set of answers that real thresholds give (`SweepOptimality.OptimalExactly`; failing input
  `Calibration.FinerScoresBeatTheSweep`).
- The client's parser differs from section 9.2.6 of the WHATWG HTML Living Standard: a bare carriage return does not end a
  line, a blank line without data keeps the event name, and an id does not persist beyond its event
  (`Sse.BareReturnEndsNoLine`, `Sse.NameOutlivesBlankLine`, `Sse.IdIsForgotten`). The model follows the code.

## Model

| member | source | states |
|---|---|---|
| `IngestionJobs.IngestionPipeline.Start` | backend/app/ingest/jobs.py:157-216 | the lease: a finished job and one with a fresh heartbeat are left alone, any other is taken and counted as an attempt; the new rows are exactly those of the transaction, and the corpus stays consistent |
| `IngestionJobs.IngestionPipeline.PersistStagedContent` | backend/app/ingest/jobs.py:218-346 | staging a version replaces its sections and chunks and gives it a generation with a full manifest copy, in a consistent corpus, even when its job is already over |
| `IngestionJobs.IngestionPipeline.PrepareGeneration` | backend/app/ingest/jobs.py:245-271 | the last generation still being prepared for the version is reused with a new parent and revision; otherwise a row is added |
| `IngestionJobs.RebuildManifest` | backend/app/ingest/jobs.py:264-286 | whatever a generation held, it then holds the active manifest with one document switched to the given version |
| `IngestionJobs.CopyManifest` | backend/app/ingest/jobs.py:502-534 | the row-by-row copy equals the source manifest without the excluded document |
| `IngestionJobs.IngestionPipeline.StageRowsOf` | backend/app/ingest/jobs.py:239-244 | old sections and chunks of the version are replaced and nothing else is |
| `IngestionJobs.IngestionPipeline.Heartbeat` | backend/app/ingest/jobs.py:348-353 | only a job in processing gets a new heartbeat |
| `IngestionJobs.IngestionPipeline.MarkReady` | backend/app/ingest/jobs.py:361-375 | a finished job is left alone; otherwise the version is ready |
| `IngestionJobs.IngestionPipeline.Activate` | backend/app/ingest/jobs.py:377-460 | activation: which guard refuses or skips, and the whole state afterwards; a consistent corpus stays consistent |
| `IngestionJobs.IngestionPipeline.Switch` | backend/app/ingest/jobs.py:419-459 | the writes under the tenant lock: rebase only if the parent is no longer active, then retire and expose |
| `IngestionJobs.IngestionPipeline.RetireCurrent` | backend/app/ingest/jobs.py:441-447 | the version exposed before is superseded, unless it is the same one |
| `IngestionJobs.IngestionPipeline.PointAt` | backend/app/ingest/jobs.py:448-459 | document, tenant, version, generation and job all move to the new version |
| `IngestionJobs.IngestionPipeline.MarkFailed` | backend/app/ingest/jobs.py:462-495 | a finished job cannot fail; an active version is not failed with its job; only a generation in preparation is given up |
| `IngestionJobs.ActivationSwitchesOneDocument` | backend/app/ingest/jobs.py:419-456 | the hard step: whether the early copy is reused or rebased, the new active manifest is the old one with exactly one document switched, and is what the documents expose |
| `IngestionJobs.ActivateKeepsConsistent` | backend/app/ingest/jobs.py:377-460 | activation keeps the invariant of the corpus |
| `IngestionJobs.PersistKeepsConsistent` | backend/app/ingest/jobs.py:218-346 | staging keeps the invariant and leaves the active manifest alone |
| `IngestionJobs.MarkFailedKeepsConsistent` | backend/app/ingest/jobs.py:462-495 | failing a job keeps the invariant |
| `IngestionJobs.MarkReadyKeepsConsistent` | backend/app/ingest/jobs.py:361-375 | marking a version ready keeps the invariant |
| `IngestionJobs.ActivationCommitsExactly` | backend/app/ingest/jobs.py:407-418 | on the rows: activation of a job that has not succeeded commits if and only if the document is live and exposes nothing, the version itself, or a version with a smaller number; it is skipped exactly for a succeeded job |
| `RowEffects.StartExactly` | backend/app/ingest/jobs.py:197-216 | which jobs are taken, by status, heartbeat and timeout, and what taking one does to every row |
| `RowEffects.PersistExactly` | backend/app/ingest/jobs.py:245-333 | which generation staging writes to, that its manifest is the active one with one document switched, and the rows of the version |
| `RowEffects.PersistLeavesOthers` | backend/app/ingest/jobs.py:239-333 | staging leaves every other version and generation alone |
| `RowEffects.HeartbeatExactly` | backend/app/ingest/jobs.py:348-353 | a heartbeat stamps a job in processing and changes nothing else |
| `RowEffects.MarkReadyExactly` | backend/app/ingest/jobs.py:361-375 | what readiness does to every version and job |
| `RowEffects.ActivateExactly` | backend/app/ingest/jobs.py:419-459 | what activation does to every version, job, generation and document: one version is active, at most one superseded |
| `RowEffects.FailureExactly` | backend/app/ingest/jobs.py:462-495 | what a failure does to every version and job |
| `RowEffects.FailureGenerations` | backend/app/ingest/jobs.py:462-495 | and to every generation |
| `LeaseTimes.LeaseExactly` | backend/app/ingest/jobs.py:197-216 | on every run: a job stamped at time h and not written since is taken, as one more attempt, by a worker that comes at a time if and only if h is more than the timeout before it; before that the worker leaves and changes nothing |
| `LeaseTimes.FreeJobExactly` | backend/app/ingest/jobs.py:197-216 | on every run: a staged, queued or failed job not written since is taken by the first to come, a succeeded one by nobody |
| `Reconcile.TombstoneDocument` | backend/app/ingest/reconcile.py:71-149 | deleting a document: the whole new state, and a consistent corpus |
| `Reconcile.FailPendingOf` | backend/app/ingest/reconcile.py:87-118 | exactly the versions on their way, their jobs and the generations prepared for them fail |
| `Reconcile.HideDocument` | backend/app/ingest/reconcile.py:119-147 | a new generation without the document becomes active and the revision moves |
| `Reconcile.TombstoneRemovesOneDocument` | backend/app/ingest/reconcile.py:119-147 | the new active manifest is the old one without the document, and is what the documents expose |
| `Reconcile.TombstoneKeepsConsistent` | backend/app/ingest/reconcile.py:71-149 | deletion keeps the invariant |
| `Reconcile.ActiveManifestVersionIds` | backend/app/ingest/reconcile.py:152-175 | what the query returns is exactly the versions that documents expose |
| `Reconcile.RetainedGenerations` | backend/app/ingest/reconcile.py:196-206 | the ordered, limited query picks the activated generations with fewer than the limit ahead of them by activation time, then id |
| `Reconcile.SnapshotCandidates` | backend/app/ingest/reconcile.py:195-232 | the candidates are exactly the failed and superseded versions, not collected yet, old enough, in no retained manifest |
| `Reconcile.DeletePayload` | backend/app/ingest/reconcile.py:245-250 | points and files of the candidates go, nothing else does, and the files that existed are counted |
| `Reconcile.DeleteRows` | backend/app/ingest/reconcile.py:251-259 | chunks and sections of the candidates go and their versions are stamped |
| `Reconcile.DropKeepsConsistent` | backend/app/ingest/reconcile.py:245-259 | none of the three deletions breaks the invariant |
| `RowEffects.TombstoneExactly` | backend/app/ingest/reconcile.py:71-149 | when deletion commits, and what it does to every version, every job and the document |
| `RowEffects.TombstoneGenerations` | backend/app/ingest/reconcile.py:111-118 | exactly the generations still being prepared for pending versions of the document are given up |
| `RowEffects.CandidatesExactly` | backend/app/ingest/reconcile.py:195-232 | a version is a candidate if and only if it is failed or superseded, not collected, old enough, and in no manifest of an activated generation that fewer than the limit are later than |
| `RowEffects.DropRowsExactly` | backend/app/ingest/reconcile.py:251-259 | deleting rows takes the sections and chunks of the listed versions, stamps them, and changes nothing else |
| `Documents.AllocateNumber` | backend/app/documents/routes.py:171-178 | one more than the largest number of the document, found by a scan |
| `Documents.NextNumber` | backend/app/documents/routes.py:171-178 | the number is above every number given before, with no gap |
| `Documents.UploadDocument` | backend/app/documents/routes.py:140-234 | a new document or a new version: the refusals, the whole new state, a consistent corpus |
| `Documents.ReindexDocument` | backend/app/documents/routes.py:291-425 | a new version of an exposed document, or a refusal that changes nothing |
| `Documents.UploadKeepsConsistent` | backend/app/documents/routes.py:140-234 | uploads keep the invariant; version numbers of a document stay different |
| `Documents.ReindexKeepsConsistent` | backend/app/documents/routes.py:291-425 | reindexing keeps the invariant |
| `Documents.EnqueueKeepsConsistent` | backend/app/documents/routes.py:536-548 | queueing a staged job keeps the invariant |
| `RowEffects.UploadExactly` | backend/app/documents/routes.py:140-234 | when an upload is refused, and the version and job rows it adds otherwise, with a number above all others of the document |
| `RowEffects.EnqueueExactly` | backend/app/documents/routes.py:536-548 | queueing is for staged jobs and changes nothing else |
| `RowEffects.ReindexExactly` | backend/app/documents/routes.py:325-394 | when reindexing is refused, and the rows it adds otherwise |
| `RowEffects.CollectionRoutesExactly` | backend/app/collections/routes.py:52-132 | when a collection is created or deleted, and what that does to every name and membership |
| `RowEffects.RenameExactly` | backend/app/collections/routes.py:79-112 | when a collection is changed, and its name afterwards |
| `RowEffects.MembersExactly` | backend/app/collections/routes.py:136-197 | when a membership is added or removed, and what that does to every membership and the revision |
| `Collections.CollectionRoutes.Create` | backend/app/collections/routes.py:52-75 | a taken name is refused and changes nothing; otherwise the row is added and the revision moves |
| `Collections.CollectionRoutes.Update` | backend/app/collections/routes.py:79-112 | an empty change and a null name are refused; only a live collection is changed, to a name no other live one has, and the revision moves |
| `Collections.CollectionRoutes.Delete` | backend/app/collections/routes.py:116-132 | the collection and all its memberships go and the revision moves |
| `Collections.CollectionRoutes.AddDocument` | backend/app/collections/routes.py:136-171 | a new membership moves the revision; an existing one does not |
| `Collections.CollectionRoutes.RemoveDocument` | backend/app/collections/routes.py:175-197 | a removed membership moves the revision; a missing one does not |
| `Collections.CreateKeepsNames` | backend/app/models/content.py:55-62 | creating keeps the names of live collections different |
| `Collections.UpdateKeepsNames` | backend/app/models/content.py:55-62 | renaming keeps the names of live collections different |
| `CorpusProgress.ActivateRaisesNumber` | backend/app/ingest/jobs.py:409-418 | an activation changes what a document exposes only to a version with a larger number |
| `CorpusProgress.ActivateProgress` | backend/app/ingest/jobs.py:377-460 | activation undoes nothing: no finished job, no deletion, no hidden version, no revision |
| `CorpusProgress.TombstoneProgress` | backend/app/ingest/reconcile.py:71-149 | nor does deletion |
| `CorpusProgress.PersistProgress` | backend/app/ingest/jobs.py:218-346 | nor does staging |
| `CorpusProgress.ProgressTransitive` | backend/app/ingest/jobs.py:67-155 | so nothing done is undone over several steps |
| `Service.EventKeepsServiceOk` | backend/app/ingest/jobs.py:67-155 | every event of every process keeps the invariant of the corpus, of the workers and of the collectors |
| `Service.RunIsOk` | backend/app/ingest/jobs.py:67-155 | so every reachable state has it, for any interleaving and any number of workers on one job, with crashes anywhere |
| `Service.RunProgresses` | backend/app/ingest/jobs.py:67-155 | between any two states of a run nothing done is undone |
| `CorpusTheorems.ManifestIsExact` | backend/app/ingest/reconcile.py:152-175 | in every run the active manifest is exactly what documents expose; no deleted document is in it, and each version in it was activated by a job that succeeded |
| `CorpusTheorems.ExposedNumberIncreases` | backend/app/ingest/jobs.py:409-418 | the number a document exposes strictly increases at each switch |
| `CorpusTheorems.HiddenVersionNeverReturns` | backend/app/ingest/jobs.py:440-447 | a version that left the active manifest never comes back |
| `CorpusTheorems.DeletedDocumentNeverReturns` | backend/app/ingest/reconcile.py:141-147 | a deleted document stays deleted and never reappears |
| `CorpusTheorems.RevisionIdentifiesManifest` | backend/app/ingest/jobs.py:448-456 | the revision never goes back, and one revision means one generation and one manifest |
| `CorpusTheorems.SupersededCandidatesStayHidden` | backend/app/ingest/reconcile.py:207-232 | a superseded candidate of garbage collection is in no active manifest from its snapshot on, with no assumption on the run |
| `CorpusTheorems.CollectionNamesDiffer` | backend/app/models/content.py:55-62 | no two live collections of a run have one name |
| `DisciplinedRuns.UntouchedIsCalm` | backend/app/ingest/jobs.py:67-155 | an event leaves every version alone that it does not touch: statuses, rows, points, file and exposure |
| `DisciplinedRuns.EventKeepsSafe` | backend/app/ingest/jobs.py:67-155 | with one live worker per job and no job restarted while a collector holds its failed version, every event keeps the stronger invariant |
| `DisciplinedRuns.ExposedIsActiveAndComplete` | backend/app/ingest/jobs.py:139-147 | then every exposed version is active and has its rows, its points and its file |
| `DisciplinedRuns.CollectorsHoldNothingExposed` | backend/app/ingest/reconcile.py:195-259 | a corollary on disciplined runs; CollectionSparesExposed below is the general statement |
| `ExposureRuns.CurrentMoves` | backend/app/ingest/jobs.py:419-456 | on every run an event leaves a version exposed if and only if it commits its activation, or it was exposed and the event neither deletes its document nor activates another version of it |
| `ExposureRuns.ExposedExactly` | backend/app/ingest/jobs.py:419-456 | a hidden version is exposed later if and only if an activation of it has committed since and nothing hid it again |
| `ExposureRuns.PersistKeepsActiveExactly` | backend/app/ingest/jobs.py:331-333 | from a consistent state with every exposed version active, staging keeps it so if and only if the staged version is not exposed |
| `ExposureRuns.ExposedIsActiveExactly` | backend/app/ingest/jobs.py:218-346 | on every run: every exposed version is active in every state if and only if no worker stages a version that its document exposes at that moment |
| `ExposureRuns.EventKeepsPayloadExactly` | backend/app/ingest/reconcile.py:243-259 | the exact step condition for rows, points and files alike: no deletion of payload of an exposed version (a collector's, or a worker clearing points), and no activation of a version without it |
| `ExposureRuns.ExposedHavePayloadExactly` | backend/app/ingest/reconcile.py:243-259 | on every run: every exposed version has its rows (points, file) in every state if and only if no event harms it in one of these two ways |
| `ExposureRuns.HiddenUntilRestart` | backend/app/ingest/jobs.py:157-216 | a hidden version that no worker runs on stays hidden until its own job is taken up again |
| `ExposureRuns.FailedCandidateStaysHidden` | backend/app/ingest/reconcile.py:223-232 | on every run a failed candidate without a running worker is in no active manifest from the snapshot on, unless its own job is taken up again |
| `ExposureRuns.CollectionSparesExposed` | backend/app/ingest/reconcile.py:195-259 | then each deletion of points, files and rows, first to last, takes nothing from an exposed version, whatever other jobs and workers do |
| `ExposureRuns.DropSparesExactly` | backend/app/ingest/reconcile.py:251-259 | one deletion takes nothing from an exposed version if and only if the missing recheck of the list would have passed |
| `ExposureRuns.DeletionHarmlessExactly` | backend/app/ingest/reconcile.py:195-259 | over a whole collection: points, files and rows of exposed versions are spared if and only if no failed version on the list with payload to lose was activated since the snapshot and not hidden again |
| `CounterexampleRuns.RestartedCandidateLosesRows` | backend/app/ingest/reconcile.py:230-259 | a run in which a failed job is restarted between snapshot and deletion, and the corpus goes on exposing a version without chunks |
| `CounterexampleRuns.SharedJobClearsExposed` | backend/app/ingest/jobs.py:331-333 | a run with two workers on one job, in which the exposed version is back to processing and its points are gone |
| `CounterexampleRuns.RestartedCandidateBreaksCache` | backend/app/ingest/reconcile.py:251-253 | a run in which the row deletion changes what the resolver sees at one and the same revision |
| `CounterexampleRuns.RefillBreaksCache` | backend/app/ingest/jobs.py:239-244 | a run, with every staging parsed alike, in which a second worker on the job brings back rows deleted before exposure, and so does |
| `Reachability.Publish` | backend/app/ingest/jobs.py:67-155 | from every reached state of the whole service a run goes on to expose any new document, changing nothing else the resolver reads |
| `Reachability.Finish` | backend/app/ingest/jobs.py:67-155 | nothing is ever stuck: from every reached state, any version with its file whose job has not succeeded, of a live document that exposes nothing newer, can be brought to exposure, whatever happened to its job before |
| `Reachability.PublishVersion` | backend/app/documents/routes.py:140-234 | from every reached state a run goes on to expose a new version of any live document, in place of the one it exposes |
| `Reachability.Reindexed` | backend/app/documents/routes.py:291-425 | and so it does by reindexing |
| `Scope.ResolveScope` | backend/app/rag/scope.py:71-268 | the staged loops compute the declarative scope |
| `Scope.ResolveDocumentHints` | backend/app/rag/scope.py:173-195 | the loop over document hints collects decisions, boosts and exact matches |
| `Scope.ResolveCollectionHints` | backend/app/rag/scope.py:197-220 | the same for collection hints, counted in documents through the memberships |
| `Scope.ResolveHeadingHints` | backend/app/rag/scope.py:235-257 | the same for heading hints, with subtrees |
| `Scope.ApplyExplicitScope` | backend/app/rag/scope.py:146-171 | explicit documents and collections narrow the manifest |
| `ScopeTheorems.ExactDocumentIsOne` | backend/app/rag/scope.py:271-303 | an exact document match is one allowed document |
| `ScopeTheorems.InScopeExactly` | backend/app/rag/scope.py:146-222 | a document is in scope if and only if the manifest shows it and every explicit and hinted restriction that applies allows it |
| `ScopeTheorems.RejectsUnknownExactly` | backend/app/rag/scope.py:112-127 | resolution fails if and only if an explicit identifier is unknown |
| `ScopeTheorems.ScopeIsConfined` | backend/app/rag/scope.py:222-267 | versions in scope are those of the documents in scope; a section restriction stays within them and takes whole subtrees |
| `ScopeTheorems.BoostsStayInManifest` | backend/app/rag/scope.py:186-257 | no boost points outside the active manifest |
| `ScopeTheorems.BoostedExactly` | backend/app/rag/scope.py:186-218 | the boosted documents are those that a document hint, or a collection hint through a membership, matches inexactly |
| `ScopeTheorems.BoostsStayInScopeExactly` | backend/app/rag/scope.py:186-220 | document boosts stay in scope if and only if every document that a hint matches inexactly passes all the restrictions |
| `ScopeTheorems.SectionBoostsStayInScopeExactly` | backend/app/rag/scope.py:235-265 | section boosts stay in a restricted scope if and only if every section that a heading hint matches inexactly is also named exactly |
| `ScopeTheorems.SectionInScopeExactly` | backend/app/rag/scope.py:235-265 | headings restrict the sections if and only if one is matched exactly, and then to the subtrees of what is matched exactly |
| `ScopeMatches.DocumentMatchExactly` | backend/app/rag/scope.py:271-303 | what a document hint matches in all cases: an allowed document by identifier, the only one of that name, all of several, or the most similar ones from 0.82 on |
| `ScopeMatches.CollectionMatchExactly` | backend/app/rag/scope.py:306-322 | the same for collection hints |
| `ScopeMatches.HeadingMatchExactly` | backend/app/rag/scope.py:325-344 | the same for heading hints, where a path goes before a heading |
| `ScopeMatches.SectionScopeOnPaths` | backend/app/rag/scope.py:347-358 | a section is in the restricted scope if and only if a heading hint exactly matches a section of its version whose path is its own or begins it, up to a separator |
| `ScopeMatches.ParentAndChild` | backend/app/rag/scope.py:347-358 | a parent takes its child, and a child does not take its parent |
| `ScopeMatches.DecisionsInOrder` | backend/app/rag/scope.py:146-257 | the decisions reported: explicit documents, explicit collections, then one for each hint in order |
| `ScopeMatches.DocumentDecisionLast` | backend/app/rag/scope.py:174-184 | each document hint adds its own decision after those before it |
| `ScopeMatches.CollectionDecisionLast` | backend/app/rag/scope.py:198-207 | each collection hint does |
| `ScopeMatches.HeadingDecisionLast` | backend/app/rag/scope.py:236-246 | each heading hint does, with the size of its subtrees |
| `ScopeMatches.DocumentBoostExactly` | backend/app/rag/scope.py:186-194 | a document boost carries a hint's words and everything it matches inexactly, and there are no others |
| `ScopeMatches.CollectionBoostExactly` | backend/app/rag/scope.py:210-218 | the same through the memberships |
| `ScopeMatches.SectionBoostExactly` | backend/app/rag/scope.py:249-257 | the same with subtrees |
| `ScopeMatches.ViewExactly` | backend/app/rag/scope.py:80-144 | what the resolver sees of a consistent corpus: live documents with what they expose, live collections, memberships of both, and the sections of exposed versions |
| `ScopeExamples.PublishedIsShown` | backend/app/rag/scope.py:85-111 | a published document adds its row and its sections to the view and changes no other |
| `ScopeExamples.DocumentBoostOutsideScope` | backend/app/rag/scope.py:186-195 | in a reached state, two document hints alone: one boosts two documents of one title, the next restricts the scope to a third |
| `ScopeExamples.CollectionBoostOutsideScope` | backend/app/rag/scope.py:208-218 | in a reached state with one collection, a hint that matches its name inexactly boosts a document that an explicit restriction left out |
| `ScopeExamples.SectionBoostOutsideScope` | backend/app/rag/scope.py:235-257 | in a reached state, one heading hint names a section and another, inexact, boosts a section that this leaves out |
| `RetrievalCache.EventKeepsView` | backend/app/rag/scope.py:80-233 | in every state with the invariant: an event leaves what the resolver reads alone or moves the revision, if and only if it neither stages other sections for an exposed version nor deletes rows of a failed candidate that is exposed with sections |
| `RetrievalCache.DropKeepsView` | backend/app/ingest/reconcile.py:251-253 | deleting the rows of some versions keeps the view if and only if none of them is exposed with sections |
| `RetrievalCache.RevisionFixesView` | backend/app/rag/scope.py:80-268 | on every run, over events none of which is one of these two, one revision shows the resolver one corpus |
| `RetrievalCache.CacheCoherentExactly` | backend/app/rag/service.py:75-94 | on every run: no two views the cache can have been filled from clash if and only if no event is one of these two |
| `RetrievalCache.SafeBreaksNothing` | backend/app/rag/scope.py:80-233 | one live worker per job, and no restart under a collector, exclude both |
| `RetrievalCache.CacheNeedsNoInvalidation` | backend/app/rag/service.py:75-94 | so on disciplined runs the cache needs no invalidation |
| `ParsedRuns.ParsedCacheCoherentExactly` | backend/app/ingest/jobs.py:75-86 | on every run whose stagings write what the file is parsed into, with any number of workers on a job: cached views clash if and only if an event deletes section rows of an exposed version or brings back rows that are gone |
| `ParsedRuns.KeptRowsKeepCache` | backend/app/ingest/jobs.py:75-86 | so the cache is coherent on each such run in which no event takes rows from an exposed version or exposes one without rows |
| `ParsedRuns.UndisturbedKeepsRows` | backend/app/ingest/reconcile.py:195-259 | with any number of workers on a job: if the failed candidates of each row deletion are idle at the snapshot and not taken up before the deletion, every exposed version has its rows in every state |
| `ParsedRuns.UndisturbedCacheIsCoherent` | backend/app/rag/service.py:75-94 | and then the cache needs no invalidation |
| `RetrievalCache.HitIsFresh` | backend/app/rag/service.py:88-94 | an entry under a key carries the scope a fresh resolution builds |
| `RetrievalCache.RetrievalService.Retrieve` | backend/app/rag/service.py:56-118 | a readable entry is returned, anything else is searched and stored; the cache changes in no other way, stays coherent, and the scope of every result is the fresh one |
| `RetrievalCache.RetrievalService.Expire` | backend/app/rag/service.py:139-153 | an expired entry is gone and the cache stays coherent |
| `Citations.CitationStreamSanitizer.Feed` | backend/app/chat/citations.py:32-41 | after any fragments the state is a function of the text so far, and each call returns what the new fragment decides |
| `Citations.CitationStreamSanitizer.Finish` | backend/app/chat/citations.py:43-55 | the streamed text is one left-to-right scan of the whole text; the repair flag is set exactly when text changed |
| `Citations.CitationStreamSanitizer.Drain` | backend/app/chat/citations.py:60-97 | the cursor loop lets through exactly the kept tokens and holds exactly an open marker prefix |
| `Citations.CitationStreamSanitizer.DrainBracket` | backend/app/chat/citations.py:71-92 | what happens at one bracket: a marker kept or dropped, a prefix held or cut, or plain text |
| `Citations.LexExtends` | backend/app/chat/citations.py:36-37 | reading on from what is held gives the tokens of the whole text |
| `Citations.PassedExtends` | backend/app/chat/citations.py:32-41 | what is let through does not depend on fragmentation |
| `Citations.HeldIsOpen` | backend/app/chat/citations.py:82-86 | held text is empty or a proper prefix of a marker |
| `Citations.LexIsLossless` | backend/app/chat/citations.py:60-97 | tokens and held text are the raw text, in order |
| `Citations.ScanChangesExactly` | backend/app/chat/citations.py:78-90 | the text changes if and only if a marker is dropped or an incomplete one is cut off |
| `Citations.OrderedSourceIds` | backend/app/chat/citations.py:142-150 | cited ids, each once, by first appearance |
| `Markers.WholeExactly` | backend/app/chat/citations.py:10-11 | a text begins with a whole marker if and only if its first characters are "[S", digits and "]" |
| `Markers.OpenExactly` | backend/app/chat/citations.py:82-92 | it may still become one if and only if more text makes it one |
| `Markers.CitedExactly` | backend/app/chat/citations.py:142-150 | an id is cited if and only if its marker stands in the text and its number does not begin with 0 |
| `Markers.FirstsInOrder` | backend/app/chat/citations.py:142-150 | ids are listed once each, in the order in which they first appear |
| `CitationTheorems.FaithfulExactly` | backend/app/chat/citations.py:60-97 | for every text: the output cites exactly the allow-listed markers of the input, in order, if and only if no marker is dropped where what is held and the rest of the output form a marker |
| `CitationTheorems.NoSpliceIsFaithful` | backend/app/chat/citations.py:60-97 | it is enough that no marker is dropped while the output ends in a marker prefix |
| `CitationTheorems.FaithfulUnderCutsExactly` | backend/app/chat/citations.py:60-97 | and that is exact for all texts that begin like this one, cut between tokens and continued without brackets |
| `CitationTheorems.SpliceExample` | backend/app/chat/citations.py:72-81 | without it "[S[S9]7]" becomes "[S7]" |
| `Sse.EncodeStream` | backend/app/chat/routes.py:79-83 | the generator numbers events from 1 |
| `Sse.SSEParser.Feed` | frontend/src/lib/sse.ts:16-36 | the buffer loop computes the line-by-line step function, including the end of the stream and malformed payloads |
| `Sse.SSEParser.Line` | frontend/src/lib/sse.ts:38-49 | one line: dispatch, comment or field |
| `Sse.SSEParser.Dispatch` | frontend/src/lib/sse.ts:51-68 | an event is built from the fields and the fields are reset, or the payload is refused |
| `Sse.FragmentsDoNotMatter` | frontend/src/lib/sse.ts:16-36 | however a text is cut, the parser finds the same events |
| `Sse.RoundTrip` | backend/app/chat/routes.py:97-99 | parsing what was printed gives exactly the events, numbered |
| `Sse.StreamArrives` | frontend/src/lib/sse.ts:16-69 | for any split of the response the client gets exactly the events sent, with ids 1, 2, 3 and so on, and closing adds none |
| `Sse.BareReturnEndsNoLine` | frontend/src/lib/sse.ts:19-26 | a carriage return without a line feed decides nothing |
| `Sse.NameOutlivesBlankLine` | frontend/src/lib/sse.ts:38-39 | a blank line before any data keeps the event name |
| `Sse.IdIsForgotten` | frontend/src/lib/sse.ts:64-66 | an id is not kept for the next event |
| `SseLines.FieldLineExactly` | frontend/src/lib/sse.ts:41-48 | field and value are parted by the first colon, one space is dropped, an unknown field and an id with a null character are ignored |
| `SseLines.BareFieldLine` | frontend/src/lib/sse.ts:41-43 | a line without a colon is a field with an empty value |
| `SseLines.CommentLine` | frontend/src/lib/sse.ts:38-40 | a line that begins with a colon is ignored |
| `SseLines.BlankLineExactly` | frontend/src/lib/sse.ts:51-68 | a blank line completes an event that has data and starts afresh |
| `SseLines.DataLineExactly` | frontend/src/lib/sse.ts:47-54 | lines of data are joined by line feeds |
| `SseLines.ReturnBeforeLineFeed` | frontend/src/lib/sse.ts:20-26 | a carriage return before the line feed belongs to the line's end |
| `SseLines.EndOfStream` | frontend/src/lib/sse.ts:27-34 | the end of the stream ends the last line and the last event |
| `ChatStream.Events` | backend/app/chat/orchestrator.py:206-348 | transcript and stored answer of a completed run |
| `ChatStream.Generate` | backend/app/chat/orchestrator.py:269-318 | the generation branch: deltas, the fallbacks to no answer, and the replacement |
| `ChatStream.StreamDeltas` | backend/app/chat/orchestrator.py:282-291 | the loop over chunks sends the sanitizer's pieces, empty ones left out |
| `ChatStream.PiecesAddUp` | backend/app/chat/orchestrator.py:282-291 | the pieces add up to what the sanitizer lets through of the whole text |
| `ChatStream.ChatAccumulator.Apply` | frontend/src/lib/sse.ts:82-115 | one event on the client: every field |
| `ChatStream.ClientShowsStoredAnswer` | backend/app/chat/orchestrator.py:206-348 | end to end, for all chunkings and all fragmentations: the client is done with the stored route, message and citations, and shows the stored text unless the raw text ends in "[" and is stored as streamed (if and only if) |
| `ChatStream.LastBracketIsMissed` | backend/app/chat/orchestrator.py:315-318 | a run that stores "[" and shows nothing |
| `ChatStream.ReplayShowsTheSame` | backend/app/chat/orchestrator.py:207-210 | replaying the stored transcript leaves the client in the same state |
| `ChatStream.FailureIsShown` | backend/app/chat/orchestrator.py:349-363 | a failed run never looks finished and says whether to retry |
| `AnswerRoutes.StoredExactly` | backend/app/chat/orchestrator.py:257-316 | the no-answer text is stored, without citations, if and only if the gate refuses, nothing is left of the text, or a grounded text has no marker; route "answer" is a grounded run that passed the gate with a marker in the stored text, "conversation" an ungrounded one |
| `AnswerRoutes.CitationsExactly` | backend/app/chat/orchestrator.py:300-314 | the citations stored are those of the sources whose markers stand in the stored text |
| `AnswerRoutes.StagesShown` | backend/app/chat/orchestrator.py:215-345 | the stages, the message and the end a client has seen when a run is over |
| `AnswerRoutes.ScanEnd` | backend/app/chat/citations.py:80-98 | of an unfinished end of the text only a lone bracket stays |
| `AnswerRoutes.CitationsShown` | frontend/src/lib/sse.ts:105-106 | the client shows the citations it accepts, one by one |
| `AnswerRoutes.ClientIgnores` | frontend/src/lib/sse.ts:82-115 | the client leaves alone what it does not know |
| `Idempotency.ChatTables.Claim` | backend/app/core/idempotency.py:49-115 | the five outcomes of a claim and the row afterwards |
| `Idempotency.ChatTables.AcceptChat` | backend/app/chat/orchestrator.py:103-204 | claim and user message together, or nothing |
| `Idempotency.ChatTables.Persist` | backend/app/chat/orchestrator.py:423-484 | answer and completed claim are committed together, or neither |
| `Idempotency.ChatTables.CompleteClaim` | backend/app/core/idempotency.py:118-135 | only a claim in progress is completed; the request is not compared |
| `Idempotency.ChatTables.FailClaim` | backend/app/core/idempotency.py:138-151 | a completed claim stays completed |
| `Idempotency.ChatTables.PruneExpired` | backend/app/operations/maintenance.py:53-62 | exactly the rows that expired before the limit go, and are counted |
| `Idempotency.EventKeepsTablesExactly` | backend/app/core/idempotency.py:129-135 | a step keeps the tables in order if and only if it is not a completion for one request on the row of another: the comparison that is missing |
| `Idempotency.ReplaysTruthfulExactly` | backend/app/core/idempotency.py:129-135 | on every run: no client can be replayed what is no answer to its request, if and only if every committed completion is for the request its row holds |
| `SecondAnswers.AtMostOneAnswerExactly` | backend/app/chat/orchestrator.py:457-484 | on every run: a request has two answers if and only if, after an answer to it, its row is pruned, the key is claimed for another request, and a live stream of its own completes that claim |
| `SecondAnswers.SparedRunAnswersOnce` | backend/app/operations/maintenance.py:53-61 | so requests have one answer on every run that prunes no row under a live stream of an answered request |
| `SecondAnswers.EventKeepsSettled` | backend/app/chat/orchestrator.py:164-178 | once a request is answered no new stream for it is accepted, and its streams keep their key |
| `Idempotency.CarefulRunIsMatched` | backend/app/operations/maintenance.py:53-61 | pruning no row under a live stream is enough for completions to match |
| `Idempotency.RecoveryNeverConflicts` | backend/app/chat/orchestrator.py:164-178 | an expired or failed claim is always recovered with its own user message |
| `Idempotency.AtMostOneAnswer` | backend/app/chat/orchestrator.py:423-484 | at most one answer per client request id, over any interleaving of any number of workers in which completions match |
| `Idempotency.ReplayIsCommitted` | backend/app/chat/orchestrator.py:146-162 | a replay is the transcript committed with the one answer to the request |
| `Idempotency.ReplaysAgree` | backend/app/chat/orchestrator.py:146-162 | all replays of a request agree for good |
| `Idempotency.ReplayIsWhole` | backend/app/chat/orchestrator.py:147-151 | a stored replay is never missing |
| `Idempotency.PruningUnderStreamMisleads` | backend/app/core/idempotency.py:129-135 | a run in which pruning a row under a live stream makes one request's answer the replay of another |
| `Idempotency.PruningUnderStreamAnswersTwice` | backend/app/core/idempotency.py:129-135 | and a run in which a request recovered, answered and pruned is answered again by its first worker |
| `ClaimTimes.RepeatWhileStreaming` | backend/app/core/idempotency.py:60-115 | on every run: repeating a request accepted at a time for a while is answered "in progress" before the claim expires and streams from then on; another request under its key conflicts |
| `ClaimTimes.RepeatAfterFailure` | backend/app/core/idempotency.py:103-115 | after a failure the request streams again at once |
| `ClaimTimes.RepeatAfterAnswer` | backend/app/chat/orchestrator.py:146-162 | after a completion it is answered with the committed transcript as long as its row is there |
| `ClaimTimes.FirstRequest` | backend/app/chat/orchestrator.py:164-178 | under a free key a request streams unless its user message is already stored |
| `ClaimTimes.NotOwned` | backend/app/chat/orchestrator.py:111-120 | without the session nothing is accepted and nothing changes |
| `Evidence.SortInvariant` | backend/app/rag/candidates.py:108-113 | with distinct keys the order of the input does not matter |
| `Evidence.SortedAlready` | backend/app/rag/candidates.py:112-113 | evidence in reranked order is left as it is |
| `Reranker.ScoreBatch` | backend/app/rag/reranker.py:134-158 | the answer is accepted if and only if it names every index once with a score in range, and then each score is in its place |
| `Reranker.RerankOrders` | backend/app/rag/reranker.py:86-97 | scores fall and ranks rise from 1 |
| `Reranker.RerankedFrom` | backend/app/rag/reranker.py:86-97 | each item is a bounded candidate with its own score |
| `Reranker.RerankedAt` | backend/app/rag/reranker.py:86-97 | no bounded candidate is lost |
| `Reranker.BoundedInvariant` | backend/app/rag/reranker.py:68-70 | which candidates are reranked does not depend on their order |
| `Reranker.BoundedKeepsBest` | backend/app/rag/reranker.py:68-70 | nothing left out was retrieved ahead of anything kept |
| `RankingExactly.BoundedCount` | backend/app/rag/reranker.py:66-69 | as many candidates are reranked as the limit allows |
| `RankingExactly.BoundedExactly` | backend/app/rag/reranker.py:66-69 | none left out has a smaller retrieval rank, or an equal one and a smaller identifier |
| `RankingExactly.TiesExactly` | backend/app/rag/reranker.py:86-97 | equal scores are ordered by retrieval rank, then by identifier |
| `RankingExactly.RankOrderExactly` | backend/app/rag/candidates.py:112-113 | evidence is put in order by rank, then by identifier |
| `Dedup.Deduplicate` | backend/app/rag/dedup.py:26-73 | thresholds out of range are refused; otherwise the in-place loop computes the collapse |
| `Dedup.FindDuplicate` | backend/app/rag/dedup.py:49-58 | the scan finds the first survivor that the item repeats |
| `Dedup.CollapseIsSound` | backend/app/rag/dedup.py:38-73 | every step of the loop conserves evidence |
| `Dedup.EvidenceIsConserved` | backend/app/rag/dedup.py:26-73 | survivors and dropped items partition the input; each dropped item is collapsed into exactly one survivor that has all its exact terms; no term is lost or added; survivors differ in both hashes |
| `Dedup.CollapseKeepsOrder` | backend/app/rag/dedup.py:59-64 | survivors stay in reranked order |
| `DedupReasons.OverlapExactly` | backend/app/rag/dedup.py:105-121 | the overlap of two spans is the part of the shorter one that they share, and 0 in different places |
| `DedupReasons.DecisionsAreTrue` | backend/app/rag/dedup.py:76-121 | whatever is dropped repeats an item ranked before it, for the reason and with the similarity given |
| `DedupReasons.SurvivorsAreApart` | backend/app/rag/dedup.py:88-102 | no two survivors share a hash, and a later one without a new exact term differs from an earlier one in place and text by the thresholds |
| `DedupReasons.MergeExactly` | backend/app/rag/dedup.py:139-158 | merging keeps the exact terms and hints of both and records what was merged |
| `Context.EvidenceOrder` | backend/app/rag/context.py:213-243 | the loops compute the declarative order |
| `Context.RepresentativesSuffice` | backend/app/rag/context.py:218-237 | representatives cover every exact term, each adding one, and each source type present |
| `Context.OrderIsPermutation` | backend/app/rag/context.py:213-243 | the order is a permutation of the evidence |
| `Context.Pack` | backend/app/rag/context.py:140-210 | the packing loop with its counters computes the greedy packing |
| `Context.CheckCaps` | backend/app/rag/context.py:152-183 | the counters decide the first cap reached by the selection itself |
| `Context.PackedWithinLimits` | backend/app/rag/context.py:140-210 | every cap and the token budget hold; the text is the numbered formatting of the selection |
| `Context.PackedPartition` | backend/app/rag/context.py:150-203 | selected and skipped items partition the input |
| `Context.SkipsAreJustified` | backend/app/rag/context.py:152-183 | every cap that a skip names is still full in the final selection, and an item skipped for its tokens does not fit after what was selected before it |
| `PackingExactly.PackedExactly` | backend/app/rag/context.py:150-199 | each item is decided by what was selected before it: selected if and only if no cap is reached and the formatting with it fits, else skipped for the first reason that applies |
| `PackingExactly.TermRepresentativeExactly` | backend/app/rag/context.py:217-224 | an item represents exact terms if and only if it has one that no item before it has |
| `PackingExactly.FirstOfTypeIsFirst` | backend/app/rag/context.py:225-237 | the item that stands in for a source type is the first of it without terms of its own |
| `PackingExactly.PartsInOrder` | backend/app/rag/context.py:213-243 | term representatives and the rest keep the order of their ranks |
| `PackingExactly.OrderParts` | backend/app/rag/context.py:225-243 | the order is the term representatives, at most one more document and one more web source, and the rest |
| `PackingExactly.BlockAt` | backend/app/rag/context.py:246-269 | the context has the block of every item, numbered from 1, with its marker, its metadata and its text, fenced if it comes from the web |
| `PackingExactly.DecimalExactly` | backend/app/rag/context.py:246-269 | numbers are printed in decimal |
| `Gate.FilterByConfidence` | backend/app/rag/confidence.py:41-73 | the loop keeps what reaches the cutoff and gives each dropped item its reason |
| `Gate.FilterKeepsPrefix` | backend/app/rag/confidence.py:44-53 | in reranked order the filter keeps a prefix |
| `Gate.FilterDropsRest` | backend/app/rag/confidence.py:51-65 | and drops the rest one by one |
| `Gate.Evaluate` | backend/app/rag/gate.py:145-186 | it answers if and only if there is evidence, the artifact is calibrated for the models in use, and an exact match or the other thresholds pass; a reason is given if and only if it applies, in the order of the checks |
| `Gate.ScoresMakeSense` | backend/app/rag/gate.py:146-161 | margin within [0, 1], no exact match above the top |
| `RankingExactly.FilterExactly` | backend/app/rag/confidence.py:44-65 | an item is kept if and only if it reaches the minimum and is within the delta of every score; else the reason says which it missed |
| `RankingExactly.AnswersExactly` | backend/app/rag/gate.py:146-186 | the gate answers if and only if it is calibrated for the models in use and an exact match scores enough, or there is enough evidence and the top score is enough and leads the next by enough |
| `RankingExactly.UncalibratedNeverAnswers` | backend/app/rag/gate.py:162-171 | without calibration for the models in use it never answers |
| `RankingExactly.RefusalExactly` | backend/app/rag/gate.py:177-185 | a refusal names each threshold that is missed and no other |
| `RankingExactly.ReasonsInOrder` | backend/app/rag/gate.py:177-185 | reasons are named once each, in the order of the checks |
| `PostRetrieval.ProcessEvidence` | backend/app/rag/postprocess.py:45-63 | the stages as composed |
| `PostRetrieval.SurvivorsInOrder` | backend/app/rag/postprocess.py:51-52 | reranked and deduplicated evidence is in order, in range and distinct |
| `PostRetrieval.RetainedIsPrefix` | backend/app/rag/postprocess.py:52-53 | the filter keeps a prefix of the survivors |
| `PostRetrieval.PackedInOrder` | backend/app/rag/postprocess.py:54-56 | what the gate judges is the packed evidence in falling score order |
| `PostRetrieval.GateScoresMakeSense` | backend/app/rag/postprocess.py:55-56 | for every pool: margin within [0, 1] and within the filter's delta, best exact score at most the top score |
| `PostRetrieval.PackedContextIsSound` | backend/app/rag/postprocess.py:54-55 | the packed context obeys every limit and accounts for all retained evidence |
| `PostRetrieval.ProcessIgnoresOrder` | backend/app/rag/postprocess.py:45-63 | the result does not depend on the order in which candidates arrive |
| `Calibration.RawClassification` | backend/app/evaluation/calibration.py:150-194 | the loop counts what the gate's rule decides |
| `Calibration.ClassificationMetrics` | backend/app/evaluation/calibration.py:99-129 | the other loop counts the same |
| `Calibration.TallyCounts` | backend/app/evaluation/calibration.py:158-178 | every observation is counted once |
| `Calibration.MetricsInRange` | backend/app/evaluation/calibration.py:179-185 | precision, recall and F1 lie in [0, 1] |
| `Calibration.GateAgrees` | backend/app/evaluation/calibration.py:132-147 | a calibrated gate for the right models decides as the calibration did |
| `Calibration.ScoreCandidates` | backend/app/evaluation/calibration.py:197-204 | the tried values, in order and each once |
| `Calibration.SweepThresholds` | backend/app/evaluation/calibration.py:13-97 | the four nested loops return a tried combination preferred to every other one, and count them |
| `Calibration.TriedSufficesExactly` | backend/app/evaluation/calibration.py:197-204 | the tried values stand for all real thresholds if and only if they separate the scores |
| `Calibration.MicroIsSeparated` | backend/app/evaluation/calibration.py:200-203 | scores that are multiples of one millionth are separated |
| `Calibration.NoRealThresholdsBeatTheWinner` | backend/app/evaluation/calibration.py:42-69 | then no real thresholds beat the sweep's result on targets met, F1, precision, recall |
| `SweepOptimality.OptimalExactly` | backend/app/evaluation/calibration.py:13-97 | for fixed scores: no real thresholds beat the sweep's result for any labels with a positive, if and only if each non-empty set of queries that real thresholds answer is answered by a tried combination |
| `SweepOptimality.WinnerExists` | backend/app/evaluation/calibration.py:42-69 | a tried combination preferred to every other always exists |
| `Calibration.FinerScoresBeatTheSweep` | backend/app/evaluation/calibration.py:197-204 | on finer scores real thresholds can beat it |
| `CalibrationCounts.CountsAreSizes` | backend/app/evaluation/calibration.py:158-178 | the four counts are the sizes of the sets of queries answered and not, with an answer and without |
| `CalibrationCounts.MetricsExactly` | backend/app/evaluation/calibration.py:179-185 | precision is the part of the answered queries that have an answer, recall the part of those with an answer that are answered, F1 their harmonic mean |
| `CalibrationCounts.WinnerIsBest` | backend/app/evaluation/calibration.py:54-69 | the result meets the targets if any tried combination does; of those alike in this it has the best F1, precision, recall, thresholds and evidence, in that order, and is the first of equals |
| `CalibrationCounts.RoundsToNearest` | backend/app/evaluation/calibration.py:199-204 | tried values are rounded to the nearest millionth |
| `CalibrationCounts.EvidenceLimitExactly` | backend/app/evaluation/calibration.py:30-32 | which minimums of evidence are tried |
| `Ndcg.PrefixesDecide` | backend/app/evaluation/metrics.py:91-94 | if every prefix of one list gains at least as much, so does its discounted sum (Abel's summation) |
| `Ndcg.LargestGainMost` | backend/app/evaluation/metrics.py:84-88 | no choice of grades gains more than the largest ones |
| `Ndcg.ObservedWithin` | backend/app/evaluation/metrics.py:85-86 | grades observed for distinct ids are among those given |
| `Ndcg.IdealScoresMost` | backend/app/evaluation/metrics.py:84-94 | for any positive non-increasing discount no ranking of distinct ids scores more than the ideal |
| `Ndcg.NdcgInRange` | backend/app/evaluation/metrics.py:84-88 | nDCG lies in [0, 1], and is 1 for an ideal ranking |
| `NdcgExactly.GainExactly` | backend/app/evaluation/metrics.py:91-94 | each grade more doubles the gain and adds one |
| `NdcgExactly.DcgTakesOut` | backend/app/evaluation/metrics.py:91-94 | every position counts once, with its own discount |
| `NdcgExactly.ObservedExactly` | backend/app/evaluation/metrics.py:84-86 | the observed grades are those of the ranked documents up to the limit |
| `NdcgExactly.IdealExactly` | backend/app/evaluation/metrics.py:84-88 | the ideal grades fall and are those given, up to the limit |
| `NdcgExactly.NdcgIsPart` | backend/app/evaluation/metrics.py:84-88 | the metric is the part of the ideal sum that the ranking reaches |
| `RefreshFamilies.RefreshTokens.LogIn` | backend/app/auth/service.py:71-78 | a login starts a new family |
| `RefreshFamilies.RefreshTokens.Exchange` | backend/app/auth/service.py:80-145 | every branch of a refresh: unknown, reused, expired, inactive account, exchanged |
| `RefreshFamilies.RefreshTokens.LogOut` | backend/app/auth/service.py:147-154 | logging out revokes the one token |
| `RefreshFamilies.RefreshTokens.Revoke` | backend/app/auth/service.py:217-227 | revoking a family |
| `RefreshFamilies.RefreshTokens.PruneTokens` | backend/app/operations/maintenance.py:43-61 | old rows go, and references to them |
| `RefreshFamilies.EventKeepsOk` | backend/app/auth/service.py:80-154 | every step keeps the invariant of the token table |
| `RefreshFamilies.AtMostOneLive` | backend/app/auth/service.py:119-130 | a family has at most one live token in every run |
| `RefreshFamilies.ExchangedAtMostOnce` | backend/app/auth/service.py:83-130 | a token is exchanged at most once in every run |
| `RefreshFamilies.ReuseEndsFamily` | backend/app/auth/service.py:89-92 | after reuse is detected no token of the family is ever exchanged again (compare section 5.2.2.3 of RFC 6819) |
| `TokenTimes.PresentedExactly` | backend/app/auth/service.py:89-130 | on every run: a token issued to expire at a time and left alone since is exchanged before that time for an active account, within its family, and refused otherwise |
| `TokenTimes.SpentIsReuse` | backend/app/auth/service.py:89-92 | on every run: a spent token presented again is detected as reuse until its row is pruned, and its family ends |
| `TokenTimes.UnknownIsDenied` | backend/app/auth/service.py:83-87 | a token that is not in the table is refused and changes nothing |
| `Chunker.ChunkBlocks` | backend/app/ingest/chunker.py:44-105 | when chunking succeeds, which error it raises otherwise, and the chunks it builds |
| `Chunker.ChunkBlock` | backend/app/ingest/chunker.py:65-102 | the window loop of one block |
| `Chunker.WindowsReach` | backend/app/ingest/chunker.py:65-66 | windows begin at the first token and reach the last |
| `Chunker.WindowsFit` | backend/app/ingest/chunker.py:65-67 | no window is empty or too long |
| `Chunker.WindowsOverlap` | backend/app/ingest/chunker.py:56-66 | neighbours share exactly the overlap and none lies inside its predecessor |
| `Chunker.WindowsCover` | backend/app/ingest/chunker.py:65-102 | no token is left out |
| `Chunker.PiecesCover` | backend/app/ingest/chunker.py:67-70 | with ordered offsets every token's characters lie in one of the block's pieces |
| `Chunker.IdentitiesDiffer` | backend/app/ingest/hashing.py:25-38 | chunks of a version have different identities |
| `ChunksExactly.WindowExactly` | backend/app/ingest/chunker.py:56-102 | window i starts i steps on, every window but the last is full, and the last ends the block |
| `ChunksExactly.ChunkAt` | backend/app/ingest/chunker.py:74-100 | chunks are numbered through, and counted among those with the same lexical text |
| `ChunksExactly.IdentityExactly` | backend/app/ingest/hashing.py:25-38 | a chunk is identified by its place, its text and its occurrence, whatever its number |
| `ChunksExactly.PieceExactly` | backend/app/ingest/chunker.py:66-99 | a piece has the text from its first token to its last |
| `ChunksExactly.UsableExactly` | backend/app/ingest/chunker.py:61-64 | the tokens used are those with characters inside the text |

## Left out

- Interleaving inside one transaction, stale session caches and database isolation: transactions are atomic, so a token
  rotation racing with the revocation of its family is not covered.
- Which jobs `reconcile_ingestion_jobs` picks (backend/app/ingest/reconcile.py:28-68): a worker may begin any job at any time,
  which includes every choice it makes.
- Service.Apply: index points of a version appear in one step; a batch that stops half-way counts as no points.
- Documents.UploadDocument: the refusals of the rate limit, the idempotency claim and the storage quota
  (backend/app/documents/routes.py:54-147), which depend on other tables.
- Documents.ReindexDocument: the same three refusals (backend/app/documents/routes.py:299-357).
- The contents of retrieved candidates: search results are arbitrary, and only their presence or absence is stated for cache hits.
- The planner's own cache and the reranker's score cache.
- Splitting candidates into scoring batches (backend/app/rag/reranker.py:99-109): one batch is modelled, and one score per candidate.
- Similarity of survivors that differ in exact terms: a later item is compared with what earlier ones had when its turn came
  (backend/app/rag/dedup.py:93), and merging can add terms afterwards; `DedupReasons.SurvivorsAreApart` states the rest.
- Citations.CitationStreamSanitizer.Finish: says nothing about what the repair of a complete answer does to spacing and
  repeated markers, because the repair is an arbitrary function.
- ChatStream.Events: request metadata and token usage in event data, which the client's accumulator does not look at.
- DisciplinedRuns.ExposedIsActiveAndComplete: needs the two assumptions; `ExposureRuns` gives the exact conditions without
  them.
- Chat history and the trimming of prompts (backend/app/chat/orchestrator.py:369-421).
- DisciplinedRuns.CollectorsHoldNothingExposed: needs one live worker on every job; `ExposureRuns.CollectionSparesExposed`
  states it for the listed versions alone.
- Idempotency.AtMostOneAnswer: needs completions that match their rows; nothing in the code checks it, and the exact
  conditions and failing runs are given.
- Calibration.NoRealThresholdsBeatTheWinner: needs scores that the tried values separate; both the exact condition and a
  pair of scores without it are given.
- Recall, reciprocal rank, latency and diversity metrics, which are direct sums.
- Failed-login counters, access tokens, password hashing and membership choice.
- Token offsets from the serving tokenizer (backend/app/ingest/embedder.py): given as spans, in the order the tokenizer
  returns them.
- Document parsing, web evidence, backup and restore, administration, configuration, and the web pages.
