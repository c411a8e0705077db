# A verified model of a conversation-memory store

This project models, in Dafny, the engine behind a durable conversation memory: an append-only
message history with an incremental summary tree over it, full-text tables derived from it, retrieval
that hands bounded original excerpts to a model, and the budgets and caches around the model calls.
It proves what those parts promise each other over whole runs and all interleavings, not only call by call.

`dafny verify dfyconfig.toml` checks the whole project.

## How it is laid out

- **Summary tree.** `Hierarchy` is the planner as a function; `HierarchyPlanner` is the planner as nested
  loops over dictionaries and proves that they agree. `HierarchyForest` shows that every plan is an ordered
  forest, `HierarchyMade` what it makes anew, `HierarchyReuse` and `HierarchyReplan` what one published tree shares
  with the next.  `Indexing` has chunking, the count loop and the titling loops; `IndexCalls` is the local part of an
  index call, `IndexRuns` consecutive calls, `IndexAnswers` what a call writes into the tree about the stored texts, and
  `IndexReports` a whole call with the report it returns.
- **Store.** `Records` and `Transactions` give every locked section as a function from state to state, and
  `HistoryStore` gives the same sections as methods that update an object in place.  `StoreInvariants` and
  `PublishInvariants` show what each section keeps, `IngestDecisions` when a batch is committed, `IngestContents` what it
  then stores, and `Projections` the text kept for search.  `Protocol` lets ingests, whole imports, imports of other
  processes batch by batch, clears, index reads, plans, publications and retrievals interleave freely; `ProtocolSafety`
  proves safety of every run, `ProtocolOutcomes` and `RetrievalOutcomes` when each caller is served and with what, and
  `UnsortedImport` is a run in which a stronger promise fails.
- **Derived search tables.** `SearchIndex` proves the counting check exact; `SearchMaintenance` covers
  insertion, migration and rebuild.
- **Text and selection.** `Relevance` (words, the sliding window), `Excerpts` (where an excerpt lies in its text),
  `Stemming` (keys and literal forms), `Search` (ranking and linked later mentions), `Rendering` (delimiter-safe
  evidence), `Packing` (linked greedy packing), `PackingChoices` (what is picked, candidate by candidate),
  `PackingLimits` (for which links it keeps its promises), `Navigation` (the bounded walk down the tree), `ChunkTexts`
  (the texts a selected chunk brings), `Retrieval` (assembling evidence) and `EvidenceOrder` (which evidence, in which
  order, with which links).
- **Around the model.** `Accounting` (reserve-before-dispatch ledger, allocations), `Admission` (slot-transfer
  semaphore, retry loop) and `Memo` (cache, fallback, circuit breaker).
- **Transfer.** `JsonTexts` is how JSON values are written, `JsonLines` when a concatenation of lines determines them,
  `Transfer` export, validation and import.

## How the source is represented

- A message identifier is a number supplied with the batch; node and chunk identifiers come from a counter.
  A leaf and its chunk share one identifier, since each leaf owns exactly one chunk.  A message range is a pair of numbers.
- Digests are injective: a request digest is the tuple it covers, a cache key is the scope and request it was made
  from, a manifest checksum is the text it was computed over (the record lines run together), a payload hash is the
  payload and a content hash the projected text.
- An export file is a sequence of lines of text.  Of the JSON library it is assumed only that what it writes is an object
  text and reads back as itself, that only object texts read as records, and that white space around one is ignored.
  That JSON objects are written as object texts and that such lines cannot be cut in two ways is proved.
- A payload is compared as its canonical encoding would be.  SQLite assigns any unused row identifier.
- Each locked transaction is one atomic step that commits or leaves the state unchanged.
- The model behind the provider is a function of what it is shown (titles, memo) or an arbitrary reply (navigation).
- Money and cache times are exact reals.
- Word characters, folding, the token counter and the clocks are parameters; full-text tokens are the folded words.

## What the code does not promise

- **Unsorted imports in another process.** Publication checks the index revision and the import checks only the
  history revision, so a publication can fall between two import batches.  A later batch of an unsorted file can then
  land behind the index mark: `UnsortedImport.UnsortedImportBreaksPartition` is such a run, in six steps from a fresh
  store.  `ProtocolSafety.PartitionExactly` says when the spans partition the messages, in every run, and
  `ProtocolSafety.TreeAlwaysPartitions` that ascending files, as every export is, always keep them so.
- **Short and y-ending keys.** `payyed` has the key `pay` and `ebbed` the key `eb`, but neither is among the forms
  searched for.  `Stemming.FormsAreExact` gives the exact condition on the key, and `Stemming.FormsExactly` says which
  words are the forms of any key.
- **Imported rows and later batches.** An import leaves no receipts, so a message it brought without an external
  identifier keeps its key and place from a later, different batch under that key, which the constraints then refuse
  (`IngestDecisions.ImportedKeyBlocks`).  `IngestDecisions.UnusedStampsDecide` and `ProtocolOutcomes.OnlyImportsBlock`
  show that this is the only reason for such a refusal.
- **The request digest omits tool-call fields.** A retry that differs only there is replayed
  (`ProtocolSafety.OtherToolCallsPass`); `ProtocolSafety.SameRequestExactly` says which batches count as one request.
- **Repeated identifiers in one batch.** Content is compared with what was stored before the batch, not within it, so a
  second, different message under one external identifier is dropped (`IngestContents.SecondIsDropped`).
  `IngestContents.KeptExactly` says when nothing is lost.
- **Links.** The packer protects one level of links: in a chain of corrections a correction can be shown without its own
  (`PackingLimits.ChainWitness`), and `PackingLimits.ProtectedExactly` shows that chains are the only reason.  A link list
  that repeats a statement gets it shown twice (`PackingLimits.RepeatIsShownTwice`, `PackingLimits.KeysOnceExactly`).
- **Token limits.** They are checked only on admission: with nothing selected, a counter that charges for the empty
  text may still exceed the limit, and only then (`PackingLimits.TokensExactly`).
- **After a clear**, an index call before the next ingest still finds the high-water mark above the committed mark and
  reports a partial index although nothing is pending (`IndexReports.ClearLeavesPartial`).  `IndexReports.IdleReport`
  says when an idle call reports a complete one.

## Model

| member | source | states |
|---|---|---|
| `HierarchyPlanner.PlanHierarchy` | packages/python/src/cci/tree.py:14-55 | the nested loops over dictionaries, for any fan-out of two or more, compute the planner function over the families of the published table; a smaller fan-out is refused |
| `HierarchyPlanner.BuildFamilies` | packages/python/src/cci/tree.py:19-27 | the reuse table maps each published child list, in sibling order, to its parent, and holds nothing else |
| `HierarchyPlanner.RaiseLayer` | packages/python/src/cci/tree.py:32-52 | one pass over a layer, group by group, is one layer step of the planner |
| `HierarchyPlanner.JoinGroup` | packages/python/src/cci/tree.py:38-51 | a group gets its published parent back without a request, or a new parent and a request; its children are renumbered |
| `HierarchyForest.PlanIsForest` | packages/python/src/cci/tree.py:28-55 | any plan is an ordered forest: at most m roots, two to m numbered children per parent, ranges that are hulls, parents plus roots at most the leaves |
| `HierarchyForest.PlanKeepsLeafOrder` | packages/python/src/cci/tree.py:29-53 | read top-down, the plan yields exactly the given leaves in chronological order |
| `HierarchyForest.PlanKeepsContent` | packages/python/src/cci/tree.py:28-50 | leaves and reused parents keep title, summary, range and revision |
| `HierarchyForest.PlanRequestsChildrenFirst` | packages/python/src/cci/tree.py:39-47 | summary requests name exactly the new parents, each after every new child it lists |
| `HierarchyReuse.PlanIsLayered` | packages/python/src/cci/tree.py:31-52 | a plan is its leaves grouped m at a time, layer on layer, and contains nothing else |
| `HierarchyReplan.AppendCostsHeight` | packages/python/src/cci/tree.py:33-47 | with the fan-out unchanged, one later leaf costs at most one new parent in each layer of the new plan, and the layers together ask for exactly the requests of the plan |
| `Hierarchy.HeightIsLogarithm` | packages/python/src/cci/tree.py:30-52 | the number of those layers is the h with m^h < leaves <= m^(h+1), none for up to m leaves |
| `HierarchyReplan.ReplanIsIdentity` | packages/python/src/cci/tree.py:24-50 | planning the same leaves again creates nothing and gives back the published table: every parent, order and summary |
| `HierarchyReplan.PlanIgnoresLeafOrder` | packages/python/src/cci/tree.py:28-29 | the plan does not depend on the order in which the database lists the leaves |
| `HierarchyReplan.PlanSettles` | packages/python/src/cci/tree.py:53-55 | a titled plan is again a sound input for the next one, with the same leaves |
| `HierarchyMade.PlanMakes` | packages/python/src/cci/tree.py:33-50 | nodes a plan makes anew are blank and carry the coming revision, and every group that was the child list of a published parent has that parent again |
| `Indexing.ChunkMessages` | packages/python/src/cci/index.py:52-68 | the accumulating loop computes the greedy chunks |
| `Indexing.ChunksAreGreedy` | packages/python/src/cci/index.py:52-68 | chunks concatenate back to the rows; each fits the target or is one row; none could have taken one row more |
| `Indexing.GreedyIsUnique` | packages/python/src/cci/index.py:58-65 | only one division of the rows has those properties |
| `Indexing.ChunksFillTheTarget` | packages/python/src/cci/index.py:58-65 | measured by the lengths of the texts alone: a chunk of several rows stays within the target, and the next row would take it past |
| `Indexing.ChooseCount` | packages/python/src/cci/index.py:235-245 | the decreasing loop stops at the largest number of new leaves whose leaf and parent summaries fit the attempt limit, or at zero |
| `Indexing.TitleNodes` | packages/python/src/cci/index.py:255-274 | each new leaf ends with the answer of the model for its rows, each new parent with the answer for the final titles and summaries of its children, every other node with what it had, and every node with a title |
| `Indexing.ChildrenReady` | packages/python/src/cci/index.py:264-267 | when a parent is summarised, all of its children already have a title and a summary |
| `IndexCalls.Propose` | packages/python/src/cci/index.py:195-276 | the local part of an index call over a backlog is one committing call with the answers of the model, asking once per new leaf and parent and never more than the limit, or no change with nothing asked; it is complete exactly when it committed and no row is left |
| `IndexCalls.PlanTitlesDue` | packages/python/src/cci/index.py:239-275 | every node of the plan is titled already, a new leaf, or a requested parent |
| `IndexRuns.CommitKeepsReady` | packages/python/src/cci/index.py:254-275 | a committing call leaves a sound backlog with that many leaves more and at least as many rows fewer, a suffix of the old rows |
| `IndexRuns.CallCommitsSome` | packages/python/src/cci/index.py:237-246 | a limit above the height of the new plan always admits at least one chunk |
| `IndexRuns.BacklogDrains` | packages/python/src/cci/index.py:235-276 | conflict-free calls, at most one per pending row, index everything |
| `IndexRuns.CommitKeepsContent` | packages/python/src/cci/index.py:254-275 | a committing call alters no title, summary, range or revision of a published node that stays; every other node has an identifier never used before |
| `IndexRuns.SummariesSurvive` | packages/python/src/cci/index.py:204-275 | over any number of calls a node found in two of the trees says the same in both |
| `IndexRuns.CallExists` | packages/python/src/cci/index.py:235-276 | for every sound backlog there is a call the code may make, and it commits something when the limit exceeds the height |
| `IndexRuns.CountIsLargest` | packages/python/src/cci/index.py:235-245 | no larger number of leaves would keep its leaf and parent summaries within the limit |
| `IndexAnswers.CallSays` | packages/python/src/cci/index.py:253-275 | every leaf a committing call adds says what the model answers for exactly the stored texts of its span, every parent it adds what the model answers for the titles and summaries of its children, and both carry the new revision |
| `IndexReports.IndexOnce` | packages/python/src/cci/index.py:140-345 | one conflict-free call from read to report: invariants kept, nothing asked when nothing is pending, never more than the limit; whatever it publishes says what the model answers for the stored texts of the new spans and for the children of the new parents; the report names what is committed and what is left, complete at once when the mark is at the high-water mark |
| `IndexReports.IdleReport` | packages/python/src/cci/index.py:171-190 | with no stored message waiting, a call changes nothing and reports complete if and only if the mark has reached the high-water mark |
| `IndexReports.ClearLeavesPartial` | packages/python/src/cci/index.py:171-190 | after a clear of any store that ever gave a number that condition fails: no message waits and none of the pending numbers is stored |
| `SearchIndex.ValidationIsExact` | packages/python/src/cci/search_metadata.py:59-106 | counting rows and checking each one accepts exactly the states where text rows and compact rows mirror the messages one to one |
| `SearchIndex.FtsCheckExact` | packages/python/src/cci/search_metadata.py:72-88 | equal counts, distinct names and no wrong row leave only a bijection of text rows with projected messages |
| `SearchMaintenance.AddKeepsInStep` | packages/python/src/cci/search_metadata.py:157-168 | inserting one message and its two derived rows keeps the tables in step |
| `SearchMaintenance.UsableIsComplete` | packages/python/src/cci/search_metadata.py:127-148 | a table that passes the three counts and the row check names each projected message exactly once, under the row identifiers it had |
| `SearchMaintenance.UsableExactly` | packages/python/src/cci/search_metadata.py:117-148 | it passes if and only if its rows describe the projected messages, each once, under distinct row identifiers |
| `SearchMaintenance.RebuildRestores` | packages/python/src/cci/store.py:436-456 | from any damaged derived tables a rebuild puts them in step without touching messages, exactly when the messages themselves are well formed |
| `SearchMaintenance.RebuildKeepsRowIds` | packages/python/src/cci/search_metadata.py:117-154 | row identifiers survive a rebuild whenever the text table, or else the compact table, still describes each projected message once |
| `SearchMaintenance.RebuildNumbersAnew` | packages/python/src/cci/search_metadata.py:149-154 | when neither does, the rows are numbered from one in sequence order |
| `SearchMaintenance.MigrateIsExact` | packages/python/src/cci/store.py:429-458 | migration succeeds exactly when the text table is right, and then the tables are in step |
| `HistoryStore.HistoryStore.IngestBatch` | packages/python/src/cci/ingest.py:106-300 | one ingest call on the object commits exactly the rows of the messages that repeat nothing or changes nothing; under a new key it is refused for a conflict exactly when some stored row has the source and external identifier of a message and another payload, and committed otherwise unless a constraint is in the way; a valid store stays valid |
| `HistoryStore.HistoryStore.InsertMessages` | packages/python/src/cci/ingest.py:201-260 | the insertion loop, skipping stored external identifiers and rolling back on a violated constraint |
| `HistoryStore.HistoryStore.ImportHistory` | packages/python/src/cci/import_history.py:109-181 | the batched loop on the object is the whole import, committed batches staying when a later one fails; a valid store stays valid |
| `HistoryStore.HistoryStore.ClearHistory` | packages/python/src/cci/clear.py:93-112 | after a wipe nothing of the history remains, a valid store is valid and its spans partition again, used sequence numbers are not given again, and every proposal captured before is refused |
| `HistoryStore.HistoryStore.PublishIndex` | packages/python/src/cci/index.py:278-345 | what an index call made of the present state is accepted and keeps the store valid, partitioned if it was a rebuild or was partitioned before; messages, receipts and search tables stay, and no proposal is accepted twice |
| `HistoryStore.HistoryStore.RebuildSearchIndex` | packages/python/src/cci/store.py:436-456 | dropping and refilling both tables in place is the rebuild; a failed check restores them |
| `IngestDecisions.IngestDecides` | packages/python/src/cci/ingest.py:178-260 | a batch of legal size under a new key is refused for a conflict if and only if it contradicts a stored row, refused by the constraints if and only if a message that repeats nothing is blocked, and committed otherwise |
| `IngestDecisions.UnusedStampsDecide` | packages/python/src/cci/ingest.py:178-260 | with unused, distinct identifiers only a row under the same key and place can block a message |
| `IngestDecisions.ImportedKeyBlocks` | packages/python/src/cci/ingest.py:201-260 | a new batch that contradicts nothing, with unused identifiers, is refused because an imported row occupies its key and place |
| `IngestDecisions.ImportDecides` | packages/python/src/cci/import_history.py:116-181 | one import transaction is refused exactly when the first finds a message, a later one finds the history moved on, or its records cannot be held beside what is stored; committed, it adds exactly the records |
| `IngestDecisions.ImportStops` | packages/python/src/cci/import_history.py:106-181 | a whole import into an empty store adds its file up to the first batch of 500 with a record that cannot be held, and reports the full count exactly if that was all |
| `Projections.ProjectionShows` | packages/python/src/cci/models.py:55-70 | the projection is exactly the texts of the text blocks, in order, a line break between two, and there is none exactly when there is no text block |
| `Projections.PointerForOffset` | packages/python/src/cci/models.py:73-85 | what is found is the block whose text stands at that offset of the projection, or the whole content when no text does |
| `StoreInvariants.IngestEffect` | packages/python/src/cci/ingest.py:193-300 | a committed batch appends consecutive numbers above the high-water mark; inserted plus skipped is the batch size; the receipt names exactly the numbers given; anything else changes nothing |
| `IngestContents.IngestStores` | packages/python/src/cci/ingest.py:193-260 | a committed batch adds, in batch order, exactly one row for each message whose external identifier neither the store nor an earlier message of the batch has, with its payload, projection and stamp, and no other row |
| `IngestContents.KeptExactly` | packages/python/src/cci/ingest.py:178-215 | every message of a committed batch is stored with its own content if and only if no two of them have one external identifier and different content |
| `IngestContents.SecondIsDropped` | packages/python/src/cci/ingest.py:203-215 | two different messages under one identifier: the batch is committed and the second is gone |
| `StoreInvariants.IngestKeepsOk` | packages/python/src/cci/ingest.py:125-300 | ingest keeps every store invariant, and the spans partition the messages after it exactly if they did before |
| `StoreInvariants.ReceiptsGrow` | packages/python/src/cci/ingest.py:262-284 | receipt ranges stay stored and pairwise disjoint |
| `StoreInvariants.ClearKeepsOk` | packages/python/src/cci/clear.py:96-112 | clear keeps every store invariant and the high-water mark, and restores the partition |
| `StoreInvariants.ImportBatchPartition` | packages/python/src/cci/import_history.py:116-181 | after one import transaction the spans partition the messages if and only if they did before and every record is past the index mark or inside a published span |
| `UnsortedImport.UnsortedImportBreaksPartition` | packages/python/src/cci/import_history.py:116-181 | a run of six steps from a fresh store, importing a 501-record file with an index published between its two batches, after which the spans do not partition the messages |
| `StoreInvariants.ImportKeepsOk` | packages/python/src/cci/import_history.py:106-181 | a whole import, wherever it stops, keeps every store invariant whatever the order of its records |
| `PublishInvariants.PendingRowsExact` | packages/python/src/cci/index.py:93-103 | an index read hands over exactly the stored messages of its range, each once, in order, with their texts |
| `PublishInvariants.CaptureIsReady` | packages/python/src/cci/index.py:140-170 | what an index call captures, incremental or rebuild, is a sound input |
| `PublishInvariants.PublishKeepsOk` | packages/python/src/cci/index.py:278-345 | publishing what was computed from this very state succeeds and keeps every invariant; the new spans partition the messages up to the new mark exactly if it was a rebuild or the old spans did |
| `ProtocolSafety.StepKeepsInv` | packages/python/src/cci/index.py:140-345 | every step of every kind keeps the whole invariant, with any proposals, retrievals and imports in flight |
| `ProtocolSafety.PartitionExactly` | packages/python/src/cci/index.py:278-345 | in every reachable state spans are disjoint, in order and bounded by stored messages, and the mark never exceeds the high-water mark; they partition exactly the stored messages up to the mark if and only if every import batch that strayed behind it was followed by a clear or a published rebuild |
| `ProtocolSafety.TreeAlwaysPartitions` | packages/python/src/cci/index.py:278-345 | in every run whose batched imports are of ascending files, every reachable state has that partition |
| `ProtocolSafety.AcceptedMeansCurrent` | packages/python/src/cci/index.py:282-293 | in every run a publication is accepted exactly when its captured revisions are current; then it was computed from exactly the messages and tree it replaces and, unless a rebuild, keeps what every remaining node says; otherwise nothing changes |
| `ProtocolSafety.NextBatchHarmless` | packages/python/src/cci/import_history.py:116-181 | in every run the next batch of an ascending file is never behind the index mark, even when another process publishes between batches |
| `ProtocolSafety.EvidenceIsStored` | packages/python/src/cci/retrieve.py:236-277 | in every run, whatever happened since the snapshot, each emitted item names a message stored at emission, quotes a contiguous piece of its text, lies within the snapshot bound, and comes from the tree only under the captured index revision |
| `ProtocolSafety.ClearedRetrievalEmitsNothing` | packages/python/src/cci/retrieve.py:237-240 | a retrieval overtaken by a clear is refused in every later state |
| `ProtocolSafety.RetryIsReplayed` | packages/python/src/cci/ingest.py:148-176 | between clears, amid any other steps, a batch under the key of a committed one changes nothing: the same request gets the same receipt, any other is refused |
| `ProtocolSafety.SameRequestExactly` | packages/python/src/cci/ingest.py:148-176 | two batches count as the same request if and only if they agree in all the caller supplies except tool-call fields |
| `ProtocolSafety.OtherToolCallsPass` | packages/python/src/cci/ingest.py:148-176 | for every batch another with different tool calls passes for its retry |
| `ProtocolSafety.NewNumbersExceedAll` | packages/python/src/cci/ingest.py:201-207 | each newly assigned number exceeds every number stored in any earlier state, even across clears |
| `ProtocolSafety.ReceiptsPartitionIngested` | packages/python/src/cci/ingest.py:262-284 | in every reachable state each stored message was imported or lies in a receipt range, never both, and ranges do not overlap |
| `ProtocolSafety.RunAdvances` | packages/python/src/cci/clear.py:106-111 | along any run revisions, generation and high-water mark never fall, every change raises a revision, and messages only grow within a generation |
| `ProtocolOutcomes.StepRevisions` | packages/python/src/cci/clear.py:106-111 | a clear alone begins a generation, a clear or an accepted publication alone raises the index revision, and the history revision rises exactly with the steps that wipe or change messages or receipts |
| `ProtocolOutcomes.PublicationAccepted` | packages/python/src/cci/index.py:282-293 | in every run a publication is accepted if and only if, since its call read the store, no step wiped or changed the history and none replaced the tree |
| `ProtocolOutcomes.ImportedExactly` | packages/python/src/cci/import_history.py:116-181 | in every run an import whose last batch is committed leaves exactly the records of its file, whatever other callers did between its batches |
| `ProtocolOutcomes.NextBatchRefused` | packages/python/src/cci/import_history.py:116-135 | in every run the next batch is refused because the history moved on if and only if some step wiped or changed it since the batch before |
| `ProtocolOutcomes.OnlyImportsBlock` | packages/python/src/cci/ingest.py:178-260 | in every reachable state a batch of legal size under a new key, with unused identifiers, that contradicts no stored row is committed unless an imported row occupies its key and place |
| `RetrievalOutcomes.RetrievalServed` | packages/python/src/cci/retrieve.py:195-277 | in every run a retrieval is refused if and only if the history was cleared since it was opened; otherwise its evidence is assembled from the citations of what search nominated, as stored when it was opened, and of exactly what its visits gathered, or nothing from the tree once a publication replaced it |
| `RetrievalOutcomes.VisitAppends` | packages/python/src/cci/tree_retrieval.py:98-132 | a visit to a leaf adds the citations of its nominated parts within the span of the leaf and the snapshot bound, in their order, and drops everything once the tree has changed |
| `Retrieval.Assemble` | packages/python/src/cci/retrieve.py:209-277 | the loops assemble the specified evidence, count omissions exactly, and return exactly the links whose two ends were returned |
| `Retrieval.RankedOrder` | packages/python/src/cci/retrieve.py:214-253 | each item once; the lexical items up to the limit come first, in order; what follows are tree candidates, each with its lexical excerpt if search found it; every tree candidate is there, and every hit and every linked mention of its text is among the lexical items |
| `EvidenceOrder.LexicalIsNominated` | packages/python/src/cci/retrieve.py:209-218 | the lexical items are each hit followed by the later mentions of the pairs whose source has its text, in the order of hits and pairs, each piece of a message by its first nomination |
| `EvidenceOrder.RankedIs` | packages/python/src/cci/retrieve.py:248-253 | the ranking is the lexical items up to the limit, then the tree candidates with their lexical excerpts where there are any, each piece of a message by its first |
| `EvidenceOrder.EvidenceIs` | packages/python/src/cci/retrieve.py:254-277 | each ranked item is taken in its turn exactly if the text rendered with it fits, and what was taken is shown in conversation order |
| `EvidenceOrder.LinksExactly` | packages/python/src/cci/retrieve.py:272-276 | a returned source lists a mention if and only if the mention was returned and a pair whose source has the text of that hit names it; the mentions are in order |
| `Retrieval.PointerRoundTrip` | packages/python/src/cci/models.py:73-85 | a text block is pointed at as /content/, its position in decimal and /text, and reads back as that position |
| `Retrieval.OmittedDoNotFit` | packages/python/src/cci/retrieve.py:265-271 | an item left out would overflow the budget beside what was kept |
| `Retrieval.AssembledFits` | packages/python/src/cci/retrieve.py:265-277 | the evidence shown in conversation order fits the budget it was chosen under |
| `Retrieval.RankRoundTrip` | packages/python/src/cci/retrieve.py:85-91 | reading an evidence identifier back gives its rank |
| `Retrieval.GroupCopies` | packages/python/src/cci/memory.py:190-204 | each distinct text gets its earliest item as representative before any copy; representatives come in the order of the texts, copies text after text in priority order; nothing is lost or duplicated |
| `Retrieval.TextsByPriority` | packages/python/src/cci/memory.py:190-204 | texts are ordered by their best item, whatever the priority |
| `Search.ScoreIsRelevance` | packages/python/src/cci/search.py:99-112 | the count search ranks by never exceeds relevance, and equals it when every term has complete forms |
| `Search.TopIsBest` | packages/python/src/cci/search.py:106-112 | the rows taken are matching rows, best first, and outrank every matching row left out |
| `Search.CandidateFromRow` | packages/python/src/cci/search.py:58-75 | a row yields a candidate exactly when some text of its payload is relevant; it quotes the first of the most relevant texts, as a window cut from it |
| `Search.TextPartsExact` | packages/python/src/cci/search.py:50-55 | the parts searched are exactly the texts there are in the payload, in order, each under its pointer |
| `Search.LinkCorrections` | packages/python/src/cci/search.py:163-176 | anchors in order until two links are made or none is left; each is linked to the first row that is newer, unlinked and of another text, and passed over only when there is none |
| `Search.LinksAreNewest` | packages/python/src/cci/search.py:163-176 | over rows listed newest first, links come in the order of their anchors, one to an anchor, each to a strictly later message with another text, the newest not linked already, none linked twice |
| `Relevance.ScanWords` | packages/python/src/cci/relevance.py:15-26 | the scanning loop yields the word spans |
| `Relevance.WordsAreRuns` | packages/python/src/cci/relevance.py:15-26 | the spans are exactly the maximal runs of word characters, in order |
| `Relevance.SlideWindow` | packages/python/src/cci/relevance.py:139-151 | the two-pointer loop with its counter computes the best group |
| `Relevance.BestIsOptimal` | packages/python/src/cci/relevance.py:142-151 | no match range that fits has more distinct keys, none that ends later has as many, none that ends there starts earlier |
| `Relevance.ExcerptForQuery` | packages/python/src/cci/relevance.py:129-154 | matching, sliding and cutting compute the specified excerpt |
| `Relevance.ExcerptIsPiece` | packages/python/src/cci/relevance.py:135-154 | the excerpt is a contiguous piece of the text, as long as the window allows |
| `Relevance.WindowHoldsGroup` | packages/python/src/cci/relevance.py:152-154 | the window holds the whole group, beginning a quarter window before it where the text and the group allow |
| `Relevance.ExcerptIsMostRelevant` | packages/python/src/cci/relevance.py:129-154 | the excerpt contains at least as many distinct terms as any match range that fits the window |
| `Excerpts.ExcerptIsPlaced` | packages/python/src/cci/relevance.py:135-154 | over the text and its hits alone: the excerpt of a long text begins a quarter window before the best range of hits, as far as the text and the range allow, or at the beginning if no hit fits |
| `Excerpts.NoWindowHoldsMore` | packages/python/src/cci/relevance.py:129-154 | no window of that size, wherever it is put, holds more distinct terms than the excerpt |
| `Excerpts.RelevanceIs` | packages/python/src/cci/relevance.py:124-126 | the relevance of a text is the number of query terms that occur in it as whole words |
| `Stemming.FormsAreExact` | packages/python/src/cci/relevance.py:29-88 | the forms of a key are exactly the words with that key, if and only if the key neither ends in y (three letters or more) nor is two letters ending in a consonant |
| `Stemming.FormsExactly` | packages/python/src/cci/relevance.py:35-88 | for every key: its forms are the words with that key, save those that double a last y or the last letter of a two-letter key |
| `Stemming.PlainInflections` | packages/python/src/cci/relevance.py:35-65 | the plain inflections of a word share its key |
| `Stemming.DoubledInflections` | packages/python/src/cci/relevance.py:48-65 | so do those that double its last consonant |
| `Stemming.YInflections` | packages/python/src/cci/relevance.py:44-47 | and those that turn its last y into i |
| `Stemming.FormsAreSound` | packages/python/src/cci/relevance.py:86-88 | no form of a key belongs to another key |
| `Stemming.HitsAreRelevance` | packages/python/src/cci/relevance.py:124-126 | per-term hits never exceed the query keys present, and equal them when every term is complete |
| `Rendering.RenderEvidence` | packages/python/src/cci/context_assembly.py:45-58 | the renderer loop |
| `Rendering.EscapeIsSafe` | packages/python/src/cci/context_assembly.py:37-42 | after the two replacements neither delimiter occurs, not even one put together by the first replacement |
| `Rendering.EscapeIsIdempotent` | packages/python/src/cci/context_assembly.py:37-42 | escaping changes exactly the texts that contain a delimiter, and nothing twice |
| `Rendering.RenderRoundTrip` | packages/python/src/cci/context_assembly.py:45-58 | with labels free of spaces and line breaks, rendered evidence reads back as exactly its blocks |
| `Packing.PackContext` | packages/python/src/cci/memory.py:64-141 | for any links the context holds exactly what the priority rule picks, cut and in conversation order; limits hold on the final text; with one level of links no source is shown without its newer statements; with no repeated link keys are shown once and, unless a token counter charges less for more, every omission is forced |
| `Packing.PriorityIsKept` | packages/python/src/cci/memory.py:117-132 | candidates of lower priority never displace what earlier ones were given |
| `PackingChoices.PicksAreDecided` | packages/python/src/cci/memory.py:89-132 | candidates are decided in the order of their first appearance: one not shown yet comes in with all its pending newer statements if the group fits, and otherwise without itself, newer statements being tried from the greatest sequence number down, each taken exactly if it fits beside the earlier ones |
| `PackingChoices.OneRoomForNewest` | packages/python/src/cci/memory.py:128-132 | with room for exactly one of the pending newer statements, it is the one with the greatest sequence number |
| `PackingChoices.ContextTells` | packages/python/src/cci/memory.py:133-141 | what is shown are the picks, cut, in conversation order, and with plain identifiers the text reads back as exactly them |
| `Packing.Admit` | packages/python/src/cci/memory.py:98-115 | a group is admitted whole or not at all, and only within the limits |
| `Packing.OverGrows` | packages/python/src/cci/memory.py:107-111 | what does not fit still does not fit beside more, unless a token counter charges less for more |
| `PackingLimits.ProtectedExactly` | packages/python/src/cci/memory.py:79-81 | sources are always shown with their newer statements, under every order and budget, if and only if links have one level |
| `PackingLimits.ChainWitness` | packages/python/src/cci/memory.py:117-132 | a message, its correction and a correction of that, with room for two: the first correction is shown without the second |
| `PackingLimits.KeysOnceExactly` | packages/python/src/cci/memory.py:117-132 | every key is shown at most once, under every order and budget, if and only if no list of links repeats an available statement |
| `PackingLimits.TokensExactly` | packages/python/src/cci/memory.py:98-141 | the final text is within the token limit for every candidate list if and only if the empty text is |
| `Navigation.Navigate` | packages/python/src/cci/tree_retrieval.py:34-135 | every walk is a sequence of rounds, each about the branch that has waited longest, each taking what the model nominated; it ends with only the code of the failing round, or with the chunks selected and exactly the texts of their stored messages, limited exactly when a branch still waits or something was cut |
| `Navigation.UnlimitedIsThorough` | packages/python/src/cci/tree_retrieval.py:38-135 | a result that is not limited is thorough: in every round all children were offered and all nominations taken, every nominated leaf selected, every nominated branch asked about, every stored text of every selected chunk returned whole |
| `Navigation.WalkIsFifo` | packages/python/src/cci/tree_retrieval.py:38-97 | branches are asked about in the order they were accepted, each round nominating exactly what the reply names among the children offered, where it names them first, and none saw a changed revision |
| `Navigation.ResultIsBounded` | packages/python/src/cci/tree_retrieval.py:34-135 | calls and chunks keep to their limits, chunks are distinct leaves, a branch is left waiting only when chunks, calls or time are used up, and a rebuild is asked for only on a tree no publication makes |
| `Navigation.AllOffered` | packages/python/src/cci/tree_retrieval.py:58-66 | every child is offered exactly when their summaries fit the prompt together |
| `Navigation.Round` | packages/python/src/cci/tree_retrieval.py:38-133 | one round asks about the oldest waiting branch and accepts what is nominated, or stops with the code of what it met |
| `Navigation.Ask` | packages/python/src/cci/tree_retrieval.py:56-90 | a reply counts exactly when it came, names only offered children and no revision changed; any other outcome has its own code |
| `Navigation.Offer` | packages/python/src/cci/tree_retrieval.py:55-66 | the children shown to the model are shown by identifier, title and summary, in order, each exactly if the prompt with those before it still has room for it |
| `Navigation.Accept` | packages/python/src/cci/tree_retrieval.py:98-133 | accepted leaves not selected before join the selection and accepted branches the line, both at the end and in order; the candidates quote exactly the texts of the selected chunks, and it is limited exactly if it was or a text was cut |
| `ChunkTexts.CandidatesAreQuotes` | packages/python/src/cci/tree_retrieval.py:98-132 | for every selected leaf, every message fetched for its span within the snapshot and every text of it that is not empty there is exactly one candidate, with that message, number and pointer and an excerpt of that text, in order, and no other |
| `ChunkTexts.WholePart` | packages/python/src/cci/tree_retrieval.py:120-130 | a text part that fits its window is returned whole |
| `Navigation.SettledIsTidy` | packages/python/src/cci/tree_retrieval.py:46-55 | a published tree never exceeds the children the navigator accepts |
| `Accounting.Ledger.TryDispatch` | evaluations/held_out/comparison.py:138-176 | a call goes out if and only if the ledger runs, time is left, its size is allowed and its whole reservation fits beside what every call is charged; a stopped ledger is unchanged and a refusal adds nothing |
| `Accounting.DispatchExactly` | evaluations/held_out/comparison.py:138-176 | dispatched, too large and refused each exactly under its condition on the sums over the calls, the caps, the time and the size; a dispatched call is reserved with its bytes and 512 more and all its output |
| `Accounting.Ledger.Record` | evaluations/held_out/comparison.py:182-209 | settling changes one call: it succeeds if and only if the answer is complete and both counts are positive and within the reservation, keeps the counts reported, and stops the ledger with the reason that applies exactly otherwise or for one of five refusals |
| `Accounting.CostIsSumOfCalls` | evaluations/held_out/comparison.py:118-136 | pricing the summed tokens charges exactly what the calls are charged one by one |
| `Accounting.RunStaysSolvent` | evaluations/held_out/comparison.py:122-212 | in every interleaving calls stay within the maximum, the charge of a running ledger within the caps, and the final charge too unless a reservation was overrun |
| `Accounting.NothingAfterStop` | evaluations/held_out/comparison.py:141-158 | a stopped ledger stays stopped and dispatches nothing more, and only a response changes the reason |
| `Accounting.ForgetKeepsSolvent` | evaluations/held_out/release_validation.py:154-160 | forgetting an impossible count, and no other, restores its reservation within the caps |
| `Accounting.ClaimExactly` | evaluations/held_out/release_validation.py:327-374 | a run is claimed if and only if its name is unclaimed, every entry of the book is positive, the entries together fit the remaining balance and its plan is covered by its own entry; it begins with an empty ledger and no other claim changes |
| `Accounting.CampaignWithinBalance` | evaluations/held_out/release_validation.py:327-374 | with verified, once-claimed allocations, all runs no provider overran stay together within the remaining balance in calls, tokens and cost |
| `Admission.BoundedProvider.TryAcquire` | packages/typescript/src/provider.ts:92-107 | a caller is granted a slot if and only if it is in time and one is free, rejected if and only if it is late, and queued otherwise; everyone else stays where they were and the object stays valid |
| `Admission.BoundedProvider.TimeOut` | packages/typescript/src/provider.ts:100-104 | the timer takes exactly its caller out of the line and no slot with it |
| `Admission.BoundedProvider.GiveBack` | packages/typescript/src/provider.ts:109-113 | the slot goes straight to the caller that waited longest, or is given back when nobody waits; the object stays valid |
| `Admission.RunKeepsInv` | packages/typescript/src/provider.ts:92-113 | in every interleaving slots in use are exactly the holders, at most the cap; callers wait only when it is full |
| `Admission.GrantsAreFifo` | packages/typescript/src/provider.ts:105-112 | no caller is granted a slot while one ahead of it still waits |
| `Admission.TimedOutIsNeverGranted` | packages/typescript/src/provider.ts:99-104 | a caller that timed out never holds or waits again |
| `Admission.NoSlotLost` | packages/typescript/src/provider.ts:109-113 | when nobody holds a slot, none is counted and nobody waits |
| `Admission.CompleteWithRetries` | packages/typescript/src/provider.ts:115-143 | only timeouts are retried, within the attempt limit and the call budget |
| `Memo.RedisMemoCache.Lookup` | packages/python/src/cci/cache.py:245-277 | a lookup returns only stored, unexpired records, stores nothing new, touches neither the local store nor, while the circuit is open, Redis, and keeps the object valid |
| `Memo.ServedExactly` | packages/python/src/cci/cache.py:245-277 | a fresh, readable record under the key of the request is served, from the shared cache if it can be read there and else from the local one, and nothing else is |
| `Memo.AnswerIsServedAgain` | packages/python/src/cci/provider.py:185-307 | an answer written without a fault, to Redis or beside it as the circuit had it, is served from the cache to the same request while it is fresh and where it went is what is read |
| `Memo.RefillLasts` | packages/python/src/cci/cache.py:269-277 | a lookup changes Redis at most by putting the record it returns under its key, for the whole seconds it has left and at least one |
| `Memo.RedisMemoCache.Write` | packages/python/src/cci/cache.py:279-288 | a write stores this record under this key and nothing else, spares Redis while the circuit is open, and keeps the object valid when the record is honest |
| `Memo.RedisMemoCache.Answer` | packages/python/src/cci/provider.py:178-307 | whatever fails, a completion on the object answers as the model would, fails only when the model does, and keeps the object valid |
| `Memo.CompleteIsTransparent` | packages/python/src/cci/provider.py:185-307 | under any faults one completion returns the answer of the model and serves only an unexpired record of the same scope and generation |
| `Memo.MemoIsTransparent` | packages/python/src/cci/provider.py:185-307 | in every run, with faults, corruption, expiry, refills and failed purges, each completion returns the uncached answer and fails only when the model does |
| `Memo.RefillKeepsExpiry` | packages/python/src/cci/cache.py:269-277 | a lookup creates no record, so a refill never extends an expiry |
| `Memo.OpenCircuitSparesRedis` | packages/python/src/cci/cache.py:230-239 | in every run, from the opening of the circuit to its probe time, Redis is neither read nor written |
| `Memo.BreakerCountsFailures` | packages/python/src/cci/cache.py:235-243 | in every run the breaker counts the operations that failed in a row, and the circuit is open exactly when they have reached the threshold, until the probe time after the last |
| `Transfer.ExportHistory` | packages/python/src/cci/export.py:75-101 | the writing loop produces the records in order and their manifest |
| `Transfer.ReadRecords` | packages/python/src/cci/import_history.py:42-92 | the reading loop accepts exactly the specified files |
| `Transfer.ReadExactly` | packages/python/src/cci/import_history.py:42-92 | a file reads as these records if and only if its lines that are not blank are their complete records in order and then a manifest of version 1 with their count and the digest of exactly those lines; any other file is invalid input |
| `JsonTexts.ObjectsAreObjectTexts` | packages/python/src/cci/export.py:75-101 | every JSON object, however deep and whatever its strings hold, is written as a text that closes its first brace with its last character |
| `JsonLines.ConcatIsInjective` | packages/python/src/cci/import_history.py:71-90 | a concatenation of JSON objects determines the objects, so a digest of it covers where each line ends |
| `Transfer.AcceptedFileIsIntact` | packages/python/src/cci/import_history.py:85-90 | an accepted file holds exactly the records its manifest was made for: none dropped, altered, added or moved |
| `Transfer.TamperedFileImportsAllOrNothing` | packages/python/src/cci/import_history.py:106-181 | whatever was done to an exported file that still carries its checksum, importing it commits nothing or reproduces the history exactly |
| `Transfer.ExportImportRoundTrip` | packages/python/src/cci/import_history.py:95-181 | exporting any history into an empty store reproduces every message in order under the new identity, search tables in step; one commit per 500 records begun, the k-th leaving exactly the first 500 k |
| `Transfer.EmptyRoundTrip` | packages/python/src/cci/import_history.py:116-131 | an empty history is imported as an empty history, with no revision spent |
| `Transfer.ReexportIsIdentical` | packages/python/src/cci/export.py:33-101 | exporting the import again writes the same records; only the manifest names another history |
| `Transfer.BatchMovesOn` | packages/python/src/cci/import_history.py:116-181 | no batch of such an import meets a conflict or a constraint |

## Left out

- SQLite, FTS5 posting lists, write-ahead logging and file backup: tables are maps and a transaction is one step.
- Redis and network wire behaviour: the primary cache is a map whose operations may fail, with or without having landed.
- SHA-256, the JSON library and identifier generation: digests are injective, lines are read back as written, identifiers
  are unused.
- Byte limits and role checks of an ingest batch, and configuration checks: single-branch facts.
- The write gate and its drain deadline: the write lock alone carries the safety properties proved here.
- Prompts, answer validation and report fields that only echo inputs.
- Anchor scoring for linked mentions (`best_anchor`): the linking loop is proved for any anchors.
- Timing of the ledger's pacing and of the provider's deadlines: only whether a deadline has passed is a parameter.
- The TypeScript twins of the Python modules, command-line tools, benchmarks and report rendering.
- Navigation.Navigate: the messages up to the snapshot's bound are taken as fixed during one navigation, and a change of
  either revision is seen through the two checks of a round.
- Packing.PackContext: that every omission is forced is stated for links that repeat nothing and for token counters that
  never charge less for more items.
- PackingLimits.ProtectedExactly: identifiers and pointers are taken to hold no spaces or line breaks, as the store makes
  them; that one level of links suffices needs no such assumption.
- IndexReports.IndexOnce: the store does not change during this call; calls that lose a race are part of Protocol.
- Protocol.Next: the fan-out stays the same along a run, as the configuration of one deployment.
- ProtocolSafety.EvidenceIsStored: search and navigation nominate arbitrary stored parts there; which ones they choose is
  the subject of Search, Navigation and Retrieval.
- RetrievalOutcomes.RetrievalServed: the same holds of the parts a run nominates.
- Memo.MemoIsTransparent: corruption may misplace, truncate or scramble records, but not forge a well-formed record with
  another answer under a request's own digest.
- Accounting.RunStaysSolvent: rounding of floating-point prices.
