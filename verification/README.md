# Verified model of CortexWeave's derived structures

CortexWeave keeps several structures in step with something simpler: a symbol graph with the facts
that analyzers report, an index with the files on disk, embedding requests with the limits of a
model, chunks with the text they were cut from, an experience with the events of an episode. This
project models the code that keeps them in step and proves that it does. SQLite, the file system,
tree-sitter, the tokeniser and the embedding server appear as maps, functions or steps of a state
machine.

| part | files | main results |
|---|---|---|
| incremental symbol graph | `graph_*.dfy` | an update publishes exactly what resolving every fact again would, if and only if no candidate hidden from the search for affected facts changed; so it does whenever no term changes that a fact looks up, over runs, races and histories; and the order in which two new documents are reconciled matters whenever one answers a fact of the other without bearing the fact's own term |
| watcher and re-index | `watcher.dfy` | whenever the worker idles on an empty queue, index and disk agree up to what is still being delivered; it always comes to rest |
| embedding pipeline | `segmenter*.dfy`, `batcher.dfy`, `embedding.dfy`, `capacity.dfy` | lossless segmentation within the budget, shortest packing, exact bisecting retry, and a planner that never rejects what the segmenter cut |
| generic chunker | `generic_chunker.dfy`, `utf8.dfy` | coverage, progress and a linear bound on the number of chunks for any text |
| failure-to-verification extractor | `consolidation_*.dfy` | every event accounted for once, a verdict that depends on the last results alone, and exactly when there is a proposal |
| encodings and accounting | `failure_encoding.dfy`, `canonical_json*.dfy`, `interval_accounting.dfy` | injective encodings by way of readers; merged intervals that agree with sets of points |

`prelude.dfy`, `strings.dfy` and `decimal.dfy` hold what the parts share. A method that follows a loop
of the source is proved against a function or predicate over its inputs; lemmas about that function
or predicate carry the results.

## Where a property holds and where it does not

* **Incremental updates.** The search for affected relationships looks at the raw target of a fact
  only, while resolution also uses aliases, enclosing containers and normalised module paths. An
  update is exact if and only if what these rules select among the nodes that do not bear the target's
  own term has not changed (`GraphExactness.UpdateExact`, condition `NothingHidden`). It is exact
  whenever, for each fact left alone, either no term it looks up changes its surface (`LookupTerms`:
  the target, its alias expansions, their normalised paths, the sibling name) or the fact looks up
  nothing but its own term (`GraphLookups.NoticedUpdateExact`). Runs, races and histories rest on that
  condition alone. It fails for ordinary input. Take any valid graph and two documents new to it, with
  whatever symbols and relationships, such that no node of the second bears the own term of a fact of
  the first. Reconciled second, the fact's document gets the right row; reconciled first, it does if and
  only if the other document's nodes make no difference to the fact (`GraphOrder.BothOrders`). So the
  order matters for every import that looks for the path of the other file, by its candidate paths or by
  the target normalised, when both files have one language and no node of the other file bears the
  target as written (`GraphMissed.ImportIsMissed`); and for every call without aliases whose container
  has the other file's path as the sibling name of the target, under the same two conditions
  (`GraphMissed.CallIsMissed`). `import b` in a.py before b.py, `import "/b.js"` in a.js before b.js, and
  a test "s.t" in a.js that calls `js` before s.js are proved instances.
* **Adaptive ceiling.** A reduced limit stays above the reserve except when there was no limit before
  and the reserve is the largest machine integer (`Capacity.ReductionHalves`).
* **Segment overlap.** With bytes as tokens nine usable bytes are enough for every step to gain ground;
  with eight they are not (`SegmenterProgress.EightIsTooFew`).
* **Failure encoding.** An absent optional part and an empty one are encoded alike
  (`FailureEncoding.EmptyPartsCollide`), so injectivity rests on the checks that refuse empty parts.

## Hypotheses

* Graph: stable keys and identifiers of the stored nodes are unique; analyzer ids contain no `:`, and
  languages and type names no `|`; a document that keeps a stable key keeps the names behind it
  (`KeepsNames`); a fact's source node lies in the fact's own document. The first and the last are kept
  by every step and proved to be. A lookup counts as unchanged only if it is not blank, since no node
  bears a blank term.
* Publication: every storage call is one atomic step that compares the token it is passed.
* Watcher: sending a signal and setting the overflow flag when the queue is full are one step; a file
  fails to reconcile only because its source changed, and every change is notified.
* Segmentation: tokens are monotone, that is, part of a text never has more than a longer part around
  it. Nothing else is assumed of the tokeniser.

## Model

| member | source | states |
|---|---|---|
| `GraphDomain.SymbolStableKeyInjective` | src/graph/registry.rs:50-52 | symbol keys of analyzers without a colon never collide |
| `GraphRegistry.NodesForDocument` | src/graph/registry.rs:83-169 | registration succeeds exactly for a usable path, size and symbols, and yields the file node and one node per symbol in order |
| `GraphRegistry.DocumentNodes` | src/graph/registry.rs:83-169 | every node built takes the identifier given for its place and belongs to the document |
| `GraphRegistry.RegisteredNodesWellFormed` | src/graph/registry.rs:46-52 | registered nodes have keys in the two reserved name spaces and plain type names |
| `GraphRegistry.KeysDoNotMix` | src/graph/registry.rs:46-52 | a symbol key is never a file key |
| `GraphResolver.Deduplicate` | src/graph/resolver.rs:348-357 | candidates come out ordered by key with distinct ids, the same ids as went in; for unique nodes the one listing of their set |
| `GraphResolver.FinishList` | src/graph/resolver.rs:335-346 | none, one or several candidates become unresolved, resolved or ambiguous, whatever the order of the list |
| `GraphResolver.ExpandAliases` | src/graph/resolver.rs:359-384 | the sorted alias expansions of a target, or the target itself, and whether an alias applied |
| `GraphResolver.ResolveLocalKey` | src/graph/resolver.rs:73-127 | exact key, then the source analyzer's symbol key, then logical keys with those of the document first |
| `GraphResolver.ResolveLogicalKey` | src/graph/resolver.rs:105-127 | logical-key candidates of the source document win over all others |
| `GraphResolver.ResolveQualified` | src/graph/resolver.rs:129-182 | aliases, then the enclosing container, then the target's own names, as set-valued rules |
| `GraphResolver.ResolvePlain` | src/graph/resolver.rs:160-182 | qualified name, then simple name in the document, then in the workspace |
| `GraphResolver.ResolveModule` | src/graph/resolver.rs:184-254 | module candidates, else modules by name, combined with external roots |
| `GraphResolver.ChooseModule` | src/graph/resolver.rs:214-254 | several external targets are ambiguous, as are candidates beside an external target when an alias was used; otherwise candidates win over one external target |
| `GraphResolver.ResolveAgainstNodes` | src/graph/resolver.rs:29-71 | the list-based resolver returns the set-based meaning of the request, and fails exactly when the source node is unknown |
| `GraphResolver.ResolutionSound` | src/graph/resolver.rs:29-254 | a resolved node is in the list and of the language; ambiguous candidates are sorted, distinct and at least two unless external targets add to them |
| `GraphResolver.OrderNeverMatters` | src/graph/resolver.rs:29-71 | resolving against the same nodes in another order gives the same resolution |
| `GraphIndexer.PreserveNodeIdentity` | src/graph/indexer.rs:462-473 | in place, each node takes the identifier its stable key had before |
| `GraphIndexer.RelationshipsToFacts` | src/graph/indexer.rs:488-540 | facts in order, or an error exactly for an empty or repeated key, an invalid confidence, an unknown source or a bad range |
| `GraphIndexer.NextAssertable` | src/graph/indexer.rs:497-517 | the first relationship that cannot be asserted rules out the whole list |
| `GraphIndexer.ResolutionSurface` | src/graph/indexer.rs:613-630 | each term is listed with the sorted entries of exactly the nodes that bear it |
| `GraphIndexer.ChangedResolutionTerms` | src/graph/indexer.rs:602-611 | the terms whose surfaces differ between old and new nodes |
| `GraphIndexer.AffectedRelationships` | src/graph/indexer.rs:698-741 | the document's own facts, facts whose raw target changed, and edges into removed nodes |
| `GraphIndexer.ProjectRelationships` | src/graph/indexer.rs:743-865 | a fully resolved row for each affected fact; an error exactly when some source node is missing |
| `GraphIndexer.GraphStorage.ApplyReconciliation` | src/storage/repositories.rs:3316-3696 | one transaction: a well-made batch that takes no other document's stable key or edge key replaces the document's nodes, facts and affected rows with the cascades of the schema, anything else changes nothing |
| `GraphReconciliation.PrepareDocumentBatch` | src/graph/indexer.rs:267-369 | succeeds exactly on usable analyzer output, with rows resolved against the nodes to be |
| `GraphReconciliation.PrepareDeletionBatch` | src/graph/indexer.rs:371-438 | a batch without nodes and facts, with rows resolved against what stays |
| `GraphReconciliation.ReconcileDocument` | src/graph/indexer.rs:91-217 | the store becomes the incremental update of what it held, or nothing changes; exactly when it fails: unusable output, a stable key or an edge key of another document |
| `GraphReconciliation.DeleteDocument` | src/graph/indexer.rs:219-265 | the store becomes the incremental update with nothing left of the document, unless a row that resolves anew takes an edge key of another document |
| `GraphReconciliation.ReconciliationPublishable` | src/graph/indexer.rs:267-369 | nodes and facts of a document whose keys meet no other document's can be published: unique, owned, sourced and with their old identifiers |
| `GraphReconciliation.ReconciliationExact` | src/graph/indexer.rs:267-369 | for a plain document that meets no key conflict the published rows are those of full resolution if and only if nothing hidden changed, and so whenever every change of a lookup is noticed |
| `GraphReconciliation.NewNodesPublishable` | src/graph/indexer.rs:462-473 | preserved identities keep nodes unique, owned by the document and true to their keys |
| `GraphIncremental.UpdateCoherent` | src/graph/indexer.rs:267-438 | an update keeps nodes, facts and rows coherent: unique ids and keys, sourced facts, rows of existing facts |
| `GraphIncremental.UpdateValid` | src/graph/indexer.rs:267-438 | an update of well-formed nodes keeps the graph well formed |
| `GraphExactness.UnchangedTermKeepsBearers` | src/graph/indexer.rs:602-676 | a term whose surface did not change is borne by the same nodes before and after |
| `GraphExactness.UnchangedTermRow` | src/graph/indexer.rs:698-741 | a fact whose own term did not change keeps the right row exactly when the same rule selects the same nodes among those that do not bear that term, or loses deleted ones and stays ambiguous |
| `GraphExactness.UpdateExact` | src/graph/indexer.rs:267-438 | after an update every row is what full resolution gives, if and only if no candidate hidden from the search changed |
| `GraphLookups.SameLookupsSameReach` | src/graph/resolver.rs:129-254 | a fact whose lookups find the same nodes reaches the same nodes by aliases, container and module paths |
| `GraphLookups.UnchangedLookupsHold` | src/graph/indexer.rs:602-741 | no change of the surface of a lookup, no change of what the fact finds |
| `GraphLookups.OwnTermReach` | src/graph/resolver.rs:129-254 | a fact to which no alias applies, whose path is normalised and whose siblings bear its target finds bearers of its own term only |
| `GraphLookups.NoticedUpdateExact` | src/graph/indexer.rs:267-438 | if for every untouched fact no lookup changes, or it looks up nothing but its own term, the update is exact |
| `GraphRuns.RunStaysRight` | src/graph/indexer.rs:91-265 | along any run in which every change of a lookup is noticed all stored rows are those of full resolution |
| `GraphRuns.OwnTermRunStaysRight` | src/graph/indexer.rs:91-265 | the same for every run whose facts look up nothing but their own term among all nodes that occur in it |
| `GraphHistory.KeyedRowIs` | src/graph/indexer.rs:743-865 | naming nodes by key commutes with resolving a fact |
| `GraphHistory.ReconciliationHappens` | src/graph/indexer.rs:267-369 | a successful reconciliation publishes nodes and facts that are those of the content up to identifiers |
| `GraphHistory.HistoryHolds` | src/graph/indexer.rs:91-265 | after any history the graph holds exactly the nodes and facts of the current contents |
| `GraphHistory.HistoryStaysRight` | src/graph/indexer.rs:91-265 | along every history from the empty graph in which every change of a lookup is noticed the rows are those of full resolution |
| `GraphHistory.OwnTermHistoryIsSteady` | src/graph/indexer.rs:698-741 | every change is noticed in a history whose facts look up nothing but their own term |
| `GraphHistory.SameContentsSameGraph` | src/graph/indexer.rs:91-265 | two such histories that end with the same contents hold the same nodes, facts and rows up to identifiers |
| `GraphOrder.NewDocumentMisses` | src/graph/indexer.rs:698-741 | a new document leaves the row of a fact alone whose own term none of its nodes bears |
| `GraphOrder.OwnRowsAreRight` | src/graph/indexer.rs:707-716 | the facts of the document that is reconciled always get the rows of full resolution |
| `GraphOrder.SameContents` | src/graph/indexer.rs:91-265 | after any events the contents are the same whichever of two documents is reconciled first |
| `GraphOrder.BothOrders` | src/graph/indexer.rs:698-741 | two new documents in either order end with the same nodes and facts; a fact of the one reconciled second has the right row, and of the one reconciled first exactly when the other makes no difference to it |
| `GraphOrder.HiddenTargetMatters` | src/graph/indexer.rs:707-712 | if nodes of another new document change what a fact resolves to and none bears its term, the two orders leave different rows by key, one right and one wrong |
| `GraphOrder.NothingElseIsRight` | src/graph/indexer.rs:91-265 | from a graph without facts, a document without facts and then the other leave every row right |
| `GraphMissed.ImportMatters` | src/graph/resolver.rs:184-212 | a module target that a node of the other document answers while none there bears it is such a fact, whatever else answers it |
| `GraphMissed.ImportIsMissed` | src/parsing/language_relationships.rs:212-251 | for every two new files of one language and every import in one that looks for the path of the other, if no node of the other bears the target as written, the order decides whether its row is right |
| `GraphMissed.CallMatters` | src/graph/resolver.rs:146-159 | so does a symbol target without aliases that the container answers with a node of the other document while none there bears it |
| `GraphMissed.CallIsMissed` | src/graph/resolver.rs:146-159 | for every two new files of one language and every call whose container has the path of the other as the sibling name of its target |
| `GraphMissed.PythonImport` | src/parsing/language_relationships.rs:324-347 | the order matters for a.py, which says `import b` with its candidate paths, and b.py |
| `GraphMissed.RootedImport` | src/graph/resolver.rs:184-212 | the order matters for a.js, which imports "/b.js", and b.js |
| `GraphMissed.JavaScriptCall` | src/parsing/language_relationships.rs:448-496 | the order matters for a.js with a test "s.t" that calls `js`, all five relationships included, and s.js |
| `GraphPublication.NextUpdateTime` | src/graph/indexer.rs:441-448 | the next update time is later than the one before, whatever the clock says |
| `GraphPublication.PublishedFromCurrent` | src/graph/indexer.rs:91-217 | a batch replaces exactly the nodes, facts and rows it was prepared from |
| `GraphPublication.RunPublishesFromCurrent` | src/graph/indexer.rs:91-265 | the same for every publication of every interleaving |
| `GraphPublication.StepKeepsInv` | src/storage/repositories.rs:2420-2457 | what a reconciler has read is current as long as its token is |
| `GraphPublication.TokensNeverRepeat` | src/graph/indexer.rs:441-448 | no token ever comes back, so an equal token means an unchanged graph |
| `GraphPublication.OnlyPublicationsChange` | src/storage/repositories.rs:2420-2457 | claiming, failing and clearing an update leave the stored graph alone |
| `GraphPublication.RaceKeeps` | src/graph/indexer.rs:91-265 | what every publication keeps on its own holds throughout every race |
| `GraphRaces.RacesStayRight` | src/graph/indexer.rs:91-265 | in every interleaving of reconcilers whose publications change no lookup unnoticed the store holds the fully resolved rows |
| `Watcher.StepKeepsInv` | src/indexing/watcher.rs:78-254 | every step keeps each stale path queued, in the batch, or covered by the flag or a rescan |
| `Watcher.DeliverKeeps` | src/indexing/watcher.rs:78-107 | a notification is queued or sets the overflow flag, and nothing is lost |
| `Watcher.TimeoutKeeps` | src/indexing/watcher.rs:126-176 | swapping the flag and turning to a rescan keeps every path covered |
| `Watcher.TakeSignalKeeps` | src/indexing/watcher.rs:178-254 | handling a signal keeps its path covered until the file is looked at |
| `Watcher.HandledKeeps` | src/indexing/reconciler.rs:532-544 | a file that changed between reading and storing stays covered |
| `Watcher.ScansKeep` | src/indexing/reconciler.rs:582-647 | a rescan covers what is new and what is gone |
| `Watcher.QuiescentConvergence` | src/indexing/watcher.rs:126-176 | idle on an empty queue the flag is clear, and with nothing left to deliver the index equals the disk |
| `Watcher.StepsMakeProgress` | src/indexing/watcher.rs:126-254 | every step other than a change on disk leaves less to do |
| `Watcher.NeverStuck` | src/indexing/watcher.rs:126-254 | as long as something is left to do some step can happen |
| `Watcher.ComesToRest` | src/indexing/watcher.rs:126-254 | from every reachable state the worker comes to rest with index and disk in step |
| `Utf8.FloorIsNear` | src/parsing/generic.rs:150-155 | rounding down to a scalar boundary loses at most three bytes |
| `GenericChunker.FloorCharBoundary` | src/parsing/generic.rs:150-155 | the last boundary at or before an index |
| `GenericChunker.NextCharBoundaryAtOrAfter` | src/parsing/generic.rs:164-170 | the first boundary at or behind an index |
| `GenericChunker.NextCharBoundary` | src/parsing/generic.rs:157-162 | the boundary behind a boundary |
| `GenericChunker.CutChunk` | src/parsing/generic.rs:102-125 | a chunk ends at the window, its last heading or its last blank line, but always behind the previous chunk |
| `GenericChunker.ChunkBoundaries` | src/parsing/generic.rs:97-141 | the chunks follow the cutting rules from the front of the text to its end |
| `GenericChunker.ChunksAdvance` | src/parsing/generic.rs:97-141 | starts and ends strictly increase, neighbours leave no gap and overlap by at most the overlap |
| `GenericChunker.ChunksCover` | src/parsing/generic.rs:97-141 | every byte lies in a chunk that starts and ends at scalar boundaries |
| `GenericChunker.ThreeAfterReachesWindow` | src/parsing/generic.rs:97-141 | the chunk three after any chunk reaches that chunk's window, whatever headings and blank lines there are |
| `GenericChunker.ChunkCountBound` | src/parsing/generic.rs:97-141 | the number of chunks is linear in the length of the text |
| `Segmenter.FurthestFittingEnd` | src/indexing/segmenter.rs:158-189 | the binary search ends where the text fits and one more scalar does not, or finds that no scalar fits |
| `Segmenter.PreferredIsBest` | src/indexing/segmenter.rs:191-226 | a cut is at the last paragraph end of the further half, else its last line end, else its last whitespace, else where the text stops fitting |
| `Segmenter.PreferredBoundary` | src/indexing/segmenter.rs:191-226 | a cut is at a boundary, leaves no empty segment and reaches half-way |
| `Segmenter.OverlapStart` | src/indexing/segmenter.rs:228-247 | the walk back stops at the last boundary whose overlap is within the limit |
| `Segmenter.NextRange` | src/indexing/segmenter.rs:99-124 | one turn of the loop moves the start forward, or reports a scalar that does not fit |
| `Segmenter.SplitChunk` | src/indexing/segmenter.rs:75-126 | the ranges of the whole text, or exactly why it cannot be split |
| `Segmenter.SegmentsFit` | src/indexing/segmenter.rs:96-124 | every segment is within the budget once prepared |
| `Segmenter.OverlapBounded` | src/indexing/segmenter.rs:96-124 | neighbouring segments share no more than the effective overlap |
| `Segmenter.NoGaps` | src/indexing/segmenter.rs:96-124 | segments are whole scalars, not empty, in order and without a gap |
| `Segmenter.SegmentsRebuildText` | src/indexing/segmenter.rs:96-124 | dropping the overlaps and joining the segments gives back the text |
| `Segmenter.EveryScalarFits` | src/indexing/segmenter.rs:99-106 | a text that was split has no scalar that does not fit |
| `SegmenterProgress.EndsNeverFall` | src/indexing/segmenter.rs:99-124 | under any monotone counter no segment ends before the one in front of it |
| `SegmenterProgress.ByteSegmentsBounded` | src/indexing/segmenter.rs:75-126 | with bytes as tokens and any budget segments fill no more than the prefix leaves, ends never decrease and neighbours share no more than the overlap |
| `SegmenterProgress.OverlapLeavesProgress` | src/indexing/segmenter.rs:112-124 | with bytes as tokens and nine usable bytes the one-scalar fallback is never taken |
| `SegmenterProgress.ByteStep` | src/indexing/segmenter.rs:96-124 | each step then gains a fixed number of bytes and ends strictly increase |
| `SegmenterProgress.ByteSegmentsLinear` | src/indexing/segmenter.rs:96-124 | so the number of segments is linear in the length of the text |
| `SegmenterProgress.FourBytesHoldAScalar` | src/indexing/segmenter.rs:101-106 | four usable bytes rule out the scalar error |
| `SegmenterProgress.EightIsTooFew` | src/indexing/segmenter.rs:112-124 | texts for which eight usable bytes make the fallback necessary |
| `SegmenterProgress.NineByteExample` | src/indexing/segmenter.rs:112-124 | one such text of nine bytes |
| `SegmenterChunks.SegmentChunk` | src/indexing/segmenter.rs:57-66 | a chunk that fits stays as it is, any other becomes the parts of its segmentation |
| `SegmenterChunks.SegmentChunks` | src/indexing/segmenter.rs:30-73 | all chunks in order, the number of splits, and each configuration error |
| `SegmenterChunks.PartsHoldContent` | src/indexing/segmenter.rs:126-156 | the parts of a chunk, joined by their own positions, are its content |
| `SegmenterChunks.PartsFit` | src/indexing/segmenter.rs:57-66 | every part is within the budget |
| `SegmenterChunks.PartsArePlaced` | src/indexing/segmenter.rs:131-137 | bytes and lines of the parts are those of the file, and the first and last meet the chunk's ends |
| `SegmenterChunks.RejectedOnlyWhenUnsplittable` | src/indexing/segmenter.rs:75-106 | under a monotone counter a chunk that was split could not have been refused |
| `Batcher.PlanBatches` | src/indexing/batcher.rs:24-76 | asks for less exactly when a text is too long, naming the first; otherwise packs all indices in order within the limits, in no more batches than any other such partition |
| `Batcher.Pack` | src/indexing/batcher.rs:50-75 | batches are in order, measured, within the limits and never have room for the next text |
| `Batcher.PackedIsShortest` | src/indexing/batcher.rs:50-75 | no in-order partition within the limits has fewer batches |
| `Batcher.RoomIsFit` | src/indexing/batcher.rs:56-60 | the running saturating count decides exactly whether the next text fits |
| `Embedding.DrainQueue` | src/indexing/batcher.rs:93-139 | works the queue off from the front, halving refused batches, within the bound on calls |
| `Embedding.AnswerKeepsProgress` | src/indexing/batcher.rs:99-110 | filled slots are a prefix and the queue is the rest in order |
| `Embedding.SplitStep` | src/indexing/batcher.rs:131-135 | halving keeps the texts in the queue, their order and the bound on calls |
| `Embedding.SplitHalved` | src/indexing/batcher.rs:117-135 | a batch halved eight times came from more than 128 texts |
| `Embedding.NothingMissing` | src/indexing/batcher.rs:141-151 | at the end no slot lacks its vector |
| `Embedding.EmbedDocuments` | src/indexing/batcher.rs:78-152 | vector i is the one returned for text i; calls are at most twice the texts less the planned batches; smaller input is asked for only for one refused text; the missing-vector error cannot occur |
| `Capacity.InitialLimitIsExact` | src/indexing/reconciler.rs:1183-1193 | the initial limit is the largest under which no text is too long for the planner |
| `Capacity.ReductionHalves` | src/indexing/reconciler.rs:1157-1181 | a reduction at least halves the usable budget, stays above the reserve, and fails only at the smallest input |
| `Capacity.SegmentsPassThePlanner` | src/indexing/batcher.rs:39-47 | what was cut under such a limit is never too long for the planner |
| `Capacity.EmbedUnder` | src/indexing/reconciler.rs:368-475 | one round keeps the document whole and asks for less only after the provider refused a single text |
| `Capacity.AdaptiveEmbed` | src/indexing/reconciler.rs:355-498 | at most eight reductions; the document is embedded whole or the error is named; the ceiling can always be reduced |
| `Capacity.BudgetHalvesEachRound` | src/indexing/reconciler.rs:476-489 | after n refusals the usable budget is at most the first divided by two to the n, and not used up |
| `Capacity.SmallBudgetsNeverRunOut` | src/indexing/reconciler.rs:490-495 | a usable budget below 256 never exhausts the attempts |
| `ConsolidationEvents.ClassesAreDecisive` | src/service/consolidation.rs:761-946 | every decoded observation is an action, a result with a signature if it failed, or a refusal |
| `ConsolidationEvents.InitialIsFirstFailure` | src/service/consolidation.rs:429-452 | the initial failure is the first failed result and has a signature |
| `ConsolidationEvents.InitialAlwaysSupported` | src/service/consolidation.rs:433-441 | the refusal of an initial failure without a signature cannot be reached |
| `ConsolidationEvents.SuffixInPhase` | src/service/consolidation.rs:454-516 | the first result behind the last action covers the initial scope and the others are of its family |
| `ConsolidationExtractor.Observe` | src/service/consolidation.rs:360-518 | one event keeps the account of all events, or stops with the refusal the course of the episode demands |
| `ConsolidationExtractor.ObserveResult` | src/service/consolidation.rs:429-516 | a verifier result becomes the initial failure, a repeat, the end of an attempt, a further result, a diagnostic or a refusal |
| `ConsolidationExtractor.FoldEvents` | src/service/consolidation.rs:353-518 | the fold stands for the phase, the last results and an exact account of the events |
| `ConsolidationExtractor.AttemptFaithful` | src/service/consolidation.rs:477-500 | closing an attempt keeps the account: its changes, then its verification |
| `ConsolidationExtractor.AdditionalFaithful` | src/service/consolidation.rs:502-516 | a further result goes behind the last attempt's results |
| `ConsolidationVerdict.TerminalOutcome` | src/service/consolidation.rs:991-1063 | the verdict on the last results; it fails exactly on opposing results for one subject |
| `ConsolidationVerdict.TallyShowsConflict` | src/service/consolidation.rs:1015-1032 | the map by subject shows a conflict exactly when two results oppose each other |
| `ConsolidationVerdict.StrongMeansRepeated` | src/service/consolidation.rs:601-634 | evidence is strong exactly when only verifiers spoke and each result was seen again |
| `ConsolidationVerdict.SameResultsSameVerdict` | src/service/consolidation.rs:561-634 | verdict, conflict and strength look at status and scope of the results only |
| `ConsolidationProposal.Relate` | src/service/consolidation.rs:636-664 | every used event gets its relation in event order and none is overwritten |
| `ConsolidationProposal.InsertAll` | src/service/consolidation.rs:645-663 | inserting relations for later events appends them |
| `ConsolidationProposal.RecordAttempts` | src/service/consolidation.rs:703-722 | each attempt's ordinals are a block of consecutive links |
| `ConsolidationProposal.RecordsInSequence` | src/service/consolidation.rs:703-722 | an attempt's changes precede its verification, which precedes the next attempt's changes |
| `ConsolidationPreview.ExtractProposal` | src/service/consolidation.rs:345-759 | there is a proposal exactly when the phase and the last results allow one, and otherwise which refusal; the proposal is judged, accounted for and reviewed as stated |
| `ConsolidationPreview.EveryEventOnce` | src/service/consolidation.rs:636-722 | links and diagnostics together number the events, and attempts are in sequence |
| `ConsolidationPreview.SuccessIsEarned` | src/service/consolidation.rs:561-586 | a closed episode succeeds exactly when every result behind its last action is positive, and the first covers the initial scope |
| `ConsolidationPreview.VerdictIsLocal` | src/service/consolidation.rs:561-634 | episodes with the same last results get the same outcome, status, strength and bases |
| `ConsolidationPreview.DeadRefusals` | src/service/consolidation.rs:991-1061 | the refusals for a missing, uncovered or inconclusive frontier cannot be reached |
| `FailureEncoding.New` | src/domain/failure.rs:85-133 | a signature is made exactly from valid parts, and otherwise which check failed |
| `FailureEncoding.CanonicalEncoding` | src/domain/failure.rs:255-283 | the buffer ends as the header and all fields in order |
| `FailureEncoding.ReadFieldBack` | src/domain/failure.rs:285-292 | a reader recovers a field whatever follows it |
| `FailureEncoding.DecodeEncoding` | src/domain/failure.rs:255-299 | a reader recovers everything that identifies a failure |
| `FailureEncoding.EncodingIdentifies` | src/domain/failure.rs:85-133 | accepted signatures have equal encodings exactly when they are equal |
| `FailureEncoding.KeyIdentifies` | src/domain/failure.rs:115-133 | with an injective hash equal keys mean equal failures |
| `FailureEncoding.EmptyPartsCollide` | src/domain/failure.rs:294-299 | without the checks an absent part and an empty one are encoded alike |
| `FailureEncoding.SameMapSameEntries` | src/domain/failure.rs:279-281 | equal component maps are equal lists in key order |
| `CanonicalJsonWriter.Write` | src/domain/consolidation.rs:45-82 | the buffer grows by the text of the value with sorted keys |
| `CanonicalJsonWriter.CanonicalText` | src/domain/consolidation.rs:44-87 | the canonical text of a value |
| `CanonicalJsonReader.ReadBack` | src/domain/consolidation.rs:45-82 | a reader recovers any value from its text, whatever follows |
| `CanonicalJsonWriter.CanonicalReadsBack` | src/domain/consolidation.rs:44-87 | from the canonical text a reader recovers the value with sorted keys |
| `CanonicalJsonWriter.SameNormal` | src/domain/consolidation.rs:66-77 | values have the same normal form exactly when they are the same up to the order of keys |
| `CanonicalJsonWriter.CanonicalIdentifies` | src/domain/consolidation.rs:44-87 | values share a canonical text exactly when they are the same up to the order of keys |
| `IntervalAccounting.InsertInterval` | src/evaluation.rs:343-360 | the list stays separated and covers exactly the union |
| `IntervalAccounting.MergeAllRight` | src/evaluation.rs:349-359 | merging sorted intervals keeps their points and separates them |
| `IntervalAccounting.OverlapCountsPoints` | src/evaluation.rs:333-341 | the overlap of a range is the number of covered points in it |
| `IntervalAccounting.MeasureItem` | src/evaluation.rs:299-315 | total and duplicate bytes of an item, as sets of covered bytes define them |
| `IntervalAccounting.DuplicateItemTokens` | src/evaluation.rs:286-331 | the duplicate tokens of a packet, as the covered bytes define them |
| `IntervalAccounting.DuplicateWithinTotal` | src/evaluation.rs:299-315 | an item's duplicate bytes never exceed its bytes |
| `IntervalAccounting.DuplicatesWithinEstimates` | src/evaluation.rs:286-331 | a packet never repeats more tokens than its items are estimated to hold |
| `IntervalAccounting.FreshBytesMakeTheUnion` | src/evaluation.rs:286-331 | when no item overlaps itself, the bytes that were not duplicates add up to the size of the union |

## Left out

- SQL, migrations, full-text search and transactions: the store is a class over lists and maps, and each storage call is one step.
- Row ids, timestamps, content revisions and metadata of graph rows: rows are compared by target, basis, state and candidates.
- Graph repair leases and generations, and deleting a document from the source index only: the graph results cover the indexer's own steps.
- GraphIndexer.GraphStorage.ApplyReconciliation: the comparison of tokens is in the publication state machine; repair leases and the analysis state of documents are not checked.
- GraphIndexer.RelationshipsToFacts: confidence is checked and then dropped, as are segments and metadata.
- GraphIndexer.ProjectRelationships: returns the rows of the affected facts as one map; edges and unresolved rows are one type here.
- GraphReconciliation.DeleteDocument: one attempt on a known document; an unknown path, which does nothing, is not modelled.
- GraphReconciliation.ReconcileDocument: runs one attempt; retries after a lost race are in the publication state machine.
- Watcher.Step: the worker's loop is a state machine rather than a method, because its subject is interleaving; debounce times and shutdown are not modelled, and a path is a file, a directory or a control file throughout.
- IntervalAccounting.InsertInterval: returns the merged list where the source rewrites it in place; nothing else holds the list.
- IntervalAccounting.DuplicateItemTokens: the share of tokens is rounded over real numbers, not 64-bit floats, and sums of byte counts do not overflow.
- GenericChunker.ChunkBoundaries: line numbers, stable keys and the analyzer around the boundaries are not modelled.
- SegmenterChunks.SegmentChunks: keys of parts are values that hold parent, index and count instead of formatted strings; the policy's name and other metadata is copied unchanged and not modelled.
- Embedding.EmbedDocuments: metrics are not recorded; the provider is a function of the call number and the texts, so it may answer the same texts differently.
- Capacity.AdaptiveEmbed: which chunks changed is a parameter; storing them and the hash check before storing are in the watcher's steps.
- ConsolidationPreview.ExtractProposal: the checks before the fold (episode found, version, closed, not yet consolidated, event limit), ids, hashes and messages are not modelled; normalisation, test eligibility and verifier rules are parameters.
- FailureEncoding.New: the hash of the encoding is a parameter of the lemma that uses it, and error texts are not modelled.
- CanonicalJsonWriter.Write: numbers are identified with their rendering, which is taken to be self-delimiting and injective.
- Tree-sitter walks, language-specific relationship extraction, Hugging Face tokenisers, HTTP, hashing: foreign code.
- Ranking, cosine similarity, metrics, configuration, CLI and MCP plumbing, enum tables: they would add easy members only.
- Acceptance of proposals: its deciding transaction is in storage.
