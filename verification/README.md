# iris-mind: a verified model

This project models the parts of the iris-mind runtime that keep state or compute an order-sensitive result, and
proves what they promise over every input and every run. `dafny verify dfyconfig.toml` checks all of it.

| files | what they model |
|---|---|
| `DeliveryTransitions`, `DeliveryLedger`, `DeliveryProjection`, `DeliveryOutbox`, `DeliveryDraining` | the delivery lease protocol: one envelope, runs of one envelope, the protocol over many envelopes, one delivery within such a run, the in-memory outbox as an object, and repeated polling |
| `MemoryContracts`, `MemoryStore`, `VectorIndex`, `VectorRebuilder`, `MemoryWrite`, `HybridRetrieval`, `MemorySystem` | the canonical memory store, the vector index derived from it, the rebuilder, the write step, hybrid retrieval, and runs of all of them together |
| `Consolidation`, `InteractionPolicy` | deduplicating, grouping and deciding over memory candidates and interaction signals |
| `ConversationWindow` | the conversation window, its summary and the history store |
| `ModelCallBudget` | the model-call gate with nested request scopes |
| `DeliveryGates`, `RelationshipPolicy`, `RelationshipState`, `AffectBaseline`, `CognitiveCycle` | the delivery safety gates, bounded relationship updates, affect over many turns, and the cognitive pipeline |
| `Prelude`, `Ordering`, `Counting`, `KeyedSeq`, `Grouping`, `Dedupe`, `Ranking`, `PyText`, `Reals` | Python's stable sort, counting, insertion-ordered dicts, grouping, ranking, `strip` and clamping |

Conventions. Floats and timestamps are reals. Hashes, text normalisation, embeddings, cosine similarity and model or
policy calls are function parameters; a lemma that needs more (injective digests, vectors of the declared dimension)
says so in its `requires`, of the records in play only, and such functions are shown to exist. Exceptions are `Outcome`
values. Code that updates objects or loops is modelled by classes and methods, each proved equal to a function on
values; the laws are proved about those functions.

## What the code does that its documentation does not say

- A memory candidate whose id is blank but not empty passes its own contract and then breaks the contract of the
  consolidation result (`Consolidation.ValidatorIff`, `Consolidation.BlankIdRaises`).
- A rebuild settles exactly when equal ids in the store name equal records; `put` can break that
  (`VectorRebuilder.RebuildFixpointIff`, `VectorRebuilder.PutNeverSettles`).
- Actor and space ids are joined with colons before hashing, so with colons in them candidates of different actors can
  share a memory id (`MemoryWrite.SameIdIff`, `MemoryWrite.ColonsCollide`).
- When every vector score is negative, the normalisation of the reranker divides by a negative maximum and prefers the
  worse match (`HybridRetrieval.DominanceIff`, `HybridRetrieval.NegativeMaximumInverts`).
- The outbox deduplicates on the idempotency key only: a reused delivery id with a new key overwrites a finished
  delivery and puts it back to work (`DeliveryLedger.TerminalKeptIff`, `DeliveryLedger.ReusedIdRevives`).
- A window that takes in all that is loaded of a longer history silently loses its summary
  (`ConversationWindow.SummaryLostIff`, `ConversationWindow.SummaryLost`), and a history
  store with `max_records=0` keeps everything, because `xs[-0:]` is `xs` (`ConversationWindow.WindowExactIff`).
- The relationship configuration check compares the review threshold with bounds that no delta can reach, since trust
  moves by at most a third of its bound (`RelationshipPolicy.MagnitudeReviewIff`,
  `RelationshipPolicy.UnreachableThreshold`).
- The first affect of all is stored unclamped, so one out of range raises; later ones never do
  (`AffectBaseline.BaselineRaisesIff`, `AffectBaseline.FirstAffectRaises`). A neutral affect is skipped, so a baseline
  never decays towards neutral (`AffectBaseline.ConstantAffectIff`, `AffectBaseline.NeutralDoesNotDecay`).
- A context to be blocked does not suppress the safety response of another context (`CognitiveCycle.SafetyPlanIff`,
  `CognitiveCycle.BlockDoesNotSilence`).

## Model

| member | source | states |
|---|---|---|
| `DeliveryTransitions.ReportEffect` | iris/contracts/delivery_transitions.py:23-82 | a completion or release is accepted iff the item is leased under the reported id, and refused for the reason its status gives; the lease is given up, each action has its own final status or a release without attempts left is a permanent failure, the attempt is not refunded, identity fields are kept, and a released item is due exactly from `retry_after` while attempts remain |
| `DeliveryTransitions.PollEffect` | iris/contracts/delivery_transitions.py:85-129 | a due item is leased under the given id, to be due again exactly when that lease expires, or fails for good iff no attempt is left; an item that is not due is left alone |
| `DeliveryTransitions.BrokerReportStatus` | iris/runtime/delivery/broker.py:90-120 | through the broker only a FAILED action is retried, only while attempts remain and exactly from the back-off on; every other delivery ends in the status of its action |
| `DeliveryTransitions.EventuallyDue` | iris/contracts/delivery_transitions.py:132-148 | every live item is due from one computable instant on and never before |
| `DeliveryRuns.NextKeeps` | iris/contracts/delivery_transitions.py:85-129 | every step keeps LEASED iff lease id and expiry present, PENDING implies attempts left, attempts within the maximum; only leasing counts an attempt |
| `DeliveryRuns.IdleStep` | iris/contracts/delivery_transitions.py:107-148 | a step is a lease, an accepted report or giving up, each lowering a rank, or it changes nothing |
| `DeliveryRuns.BoundedRuns` | iris/contracts/delivery_transitions.py:48-148 | every run from PENDING with no attempts has at most twice `max_attempts` effective steps, stays well formed, and `attempts` is its number of leases |
| `DeliveryRuns.TerminalAbsorbing` | iris/contracts/delivery_transitions.py:132-148 | no run ever changes a terminal item |
| `DeliveryRuns.RefusedForever` | iris/contracts/delivery_transitions.py:196-208 | an id the item does not hold, and that is not issued again, is refused at every later step |
| `DeliveryRuns.LeaseFencing` | iris/contracts/delivery_transitions.py:196-208 | once a lease has been reported, replaced, or its item finished, every later report under it is refused |
| `DeliveryRuns.AcceptedIffUntouched` | iris/contracts/delivery_transitions.py:196-208 | a report is accepted, however late, iff nothing effective happened to the item since its lease was issued |
| `DeliveryRuns.AtMostOneAcceptedReport` | iris/contracts/delivery_transitions.py:23-82 | over a whole run no lease id has two accepted reports |
| `DeliveryRuns.IssuedBy` | iris/contracts/delivery_transitions.py:107-129 | a held lease id was issued by an earlier leasing poll of the run |
| `DeliveryRuns.DisjointWindows` | iris/contracts/delivery_transitions.py:107-148 | with a non-decreasing clock, two leases with no accepted report between them have disjoint validity windows |
| `DeliveryLedger.LeaseNamesDiffer` | iris/runtime/delivery/in_memory.py:189-217 | the generated lease names are different for different counter values |
| `DeliveryLedger.InvariantIff` | iris/runtime/delivery/in_memory.py:42-217 | over every run of enqueueing, polling and reporting, the invariant (items well formed, held leases issued and exclusive, reported leases spent) holds after every step iff each stored envelope is well formed and claims no lease but an issued, unreported one of its own |
| `DeliveryLedger.StoreKeepsInvIff` | iris/runtime/delivery/in_memory.py:42-65 | storing keeps the invariant iff the envelope is admissible, also under a used id |
| `DeliveryLedger.ReportsExactlyOnce` | iris/runtime/delivery/in_memory.py:112-187 | from any outbox: after a report has moved a delivery, whatever happens next, be it that the delivery is stored again claiming the spent lease, a report for the same lease changes nothing: an equal result is answered with the current item, a result that differs in any field is a conflict |
| `DeliveryLedger.MovesIffHolds` | iris/runtime/delivery/in_memory.py:263-301 | in every reachable state a report moves an item iff the item holds the reported lease; the fingerprint check never hides a live lease |
| `DeliveryLedger.ReplyExact` | iris/runtime/delivery/in_memory.py:112-187 | in every reachable state a report is not found, accepted, repeated, conflicting or refused exactly under its condition on the stored item and the reports recorded field by field, and only an accepted one changes anything |
| `DeliveryLedger.GrantsDiffer` | iris/runtime/delivery/in_memory.py:189-217 | leases granted at different moments carry different ids, whichever items they are for |
| `DeliveryLedger.TerminalKeptIff` | iris/runtime/delivery/in_memory.py:79-187 | a finished delivery stays as it is through a run iff the run stores nothing else under its id; polls, reports and other deliveries do not matter |
| `DeliveryLedger.ReusedIdRevives` | iris/runtime/delivery/in_memory.py:42-65 | from the empty outbox: enqueue, lease, report success, enqueue again under the same id and a new key, and the finished delivery is due again |
| `DeliveryProjection.Projection` | iris/runtime/delivery/in_memory.py:79-187 | seen from one delivery, a run of the outbox that does not store it anew is a run of that item alone: after every prefix of the acts the item is where the steps of that prefix lead |
| `DeliveryProjection.EveryDeliveryBounded` | iris/runtime/delivery/in_memory.py:79-187 | at most twice `max_attempts` acts of a run alter a fresh delivery that is not stored anew, and its attempts are exactly the leases granted on it, whatever the outbox does or holds otherwise |
| `DeliveryProjection.StepsFresh` | iris/runtime/delivery/in_memory.py:189-217 | all leases a run grants on a delivery carry different ids, none of them issued before the run |
| `DeliveryProjection.HeldIffUntouched` | iris/runtime/delivery/in_memory.py:79-187 | a delivery holds an issued lease at the end of a run iff no act of the run altered the delivery |
| `DeliveryProjection.LateReportIff` | iris/runtime/delivery/in_memory.py:112-187 | a report that would move a delivery now moves it after a run iff no act of the run altered the delivery |
| `DeliveryProjection.LeaseWindowsDisjoint` | iris/runtime/delivery/in_memory.py:79-104 | with a non-decreasing poll clock, two leases granted on a delivery with no accepted report between them have disjoint validity windows |
| `DeliveryOutbox.PollAllPointwise` | iris/runtime/delivery/in_memory.py:79-104 | one poll treats every queued delivery as if polled alone: one of the provider that is due under a lease id never issued before, any other not at all |
| `DeliveryOutbox.PollServesInOrder` | iris/runtime/delivery/in_memory.py:79-104 | the poll loop works through a prefix of the due queue in order and returns exactly the leases it granted there, in that order |
| `DeliveryOutbox.CutFills` | iris/runtime/delivery/in_memory.py:79-104 | a poll grants at most `max_items` leases and stops early only when it has granted that many |
| `DeliveryOutbox.PollAllIsRun` | iris/runtime/delivery/in_memory.py:79-104 | a poll is a run of the protocol, so every law about runs applies to it |
| `DeliveryOutbox.QueueInOrder` | iris/runtime/delivery/in_memory.py:235-241 | the queue a poll works through holds every delivery once, by creation time and then id |
| `DeliveryOutbox.InMemoryDeliveryOutbox.Enqueue` | iris/runtime/delivery/in_memory.py:42-65 | a repeated idempotency key returns what was stored and changes nothing; each of the three refusals happens iff its condition holds and leaves the outbox alone; a new key stores, and the invariant survives iff the envelope is admissible |
| `DeliveryOutbox.InMemoryDeliveryOutbox.IsDepthExceeded` | iris/runtime/delivery/in_memory.py:67-76 | the counting loop says full iff the number of places holding a pending or leased delivery of the provider reaches the configured depth |
| `DeliveryOutbox.InMemoryDeliveryOutbox.Get` | iris/runtime/delivery/in_memory.py:219-232 | returns the delivery of that id or raises when there is none |
| `DeliveryOutbox.InMemoryDeliveryOutbox.LeaseDue` | iris/runtime/delivery/in_memory.py:79-104 | the object refines the poll of the protocol, whatever it holds, keeps the invariant and never raises a live count |
| `DeliveryOutbox.InMemoryDeliveryOutbox.LeaseItem` | iris/runtime/delivery/in_memory.py:189-217 | leases while attempts remain and otherwise fails the delivery, as one protocol step |
| `DeliveryOutbox.InMemoryDeliveryOutbox.ReportTo` | iris/runtime/delivery/in_memory.py:112-187 | completion and release refine the protocol's report, answer as it prescribes, and never raise a provider's live count |
| `DeliveryDraining.FullPollIsRound` | iris/runtime/delivery/in_memory.py:79-104 | a poll with room for every delivery serves every eligible one |
| `DeliveryDraining.ProviderDrains` | iris/runtime/delivery/in_memory.py:79-104 | polled with such room at times at least a lease apart and never reported, a due delivery is terminal after one poll more than its attempts left |
| `MemoryContracts.FilterAgrees` | iris/adapters/memory/vector_index.py:22-35 | filtering a faithful entry is filtering its record, and both ask exactly that archive flag, actor, space and kind are as the query wants them |
| `MemoryContracts.FilterMeans` | iris/adapters/memory/vector_index.py:22-35 | the same for any entry, and without a filter every entry passes |
| `MemoryContracts.DigestExists` | iris/contracts/memory.py:61-68 | for every finite set of records there is a digest that tells them apart, which is all that is asked of the hash |
| `MemoryStore.TextSearchIsStableSort` | iris/adapters/memory/utils.py:50-75 | text search is the stable descending score sort of the matching, positively scored records, cut at the limit |
| `MemoryStore.TextSearchSound` | iris/adapters/memory/utils.py:50-75 | every result is a stored record that matches the query, with its true positive score |
| `MemoryStore.TextSearchKeepsBest` | iris/adapters/memory/utils.py:50-75 | if a matching, positively scored record is left out, then the limit is reached and no returned record scores lower |
| `MemoryStore.ContainsIff` | iris/adapters/memory/utils.py:16-29 | a term is found iff it occurs at some place of the text |
| `MemoryStore.ScoreCounts` | iris/adapters/memory/utils.py:16-29 | the score is the number of query terms that occur in the text |
| `MemoryStore.InMemoryMemoryStore.constructor` | iris/adapters/memory/in_memory.py:28-36 | seeding gives distinct ids, the last record of each id in first-seen order |
| `MemoryStore.InMemoryMemoryStore.Upsert` | iris/adapters/memory/in_memory.py:38-43 | the list refines a finite map: one key is set, order is kept, ids stay distinct |
| `MemoryStore.InMemoryMemoryStore.Append` | iris/adapters/memory/in_memory.py:46-48 | `put` keeps ids distinct iff the id is new |
| `MemoryStore.InMemoryMemoryStore.Get` | iris/adapters/memory/in_memory.py:51-60 | the scan is the map's lookup |
| `MemoryStore.InMemoryMemoryStore.Update` | iris/adapters/memory/in_memory.py:63-70 | sets exactly one key of the map |
| `MemoryStore.InMemoryMemoryStore.Archive` | iris/adapters/memory/in_memory.py:73-86 | changes only the archived flag of the first record of an id, keeps order and all others, and says None iff the id is unknown |
| `MemoryStore.InMemoryMemoryStore.Search` | iris/adapters/memory/in_memory.py:89-104 | filter, scoring loop and sort compute text search |
| `VectorIndex.IndexSearchSound` | iris/adapters/memory/vector_index.py:68-103 | every hit names an entry that passed the filter, under that entry's similarity |
| `VectorIndex.IndexSearchKeepsBest` | iris/adapters/memory/vector_index.py:68-103 | if an entry passing the filter is not returned, then the limit is reached and no hit is further from the query |
| `VectorIndex.IndexSearchRaisesIff` | iris/adapters/memory/vector_index.py:68-103 | a search fails exactly on an empty query vector or when an entry passing the filter has another length, and only when something is asked for and stored |
| `VectorIndex.InMemoryVectorMemoryIndex.Upsert` | iris/adapters/memory/vector_index.py:46-60 | refuses exactly an empty vector and a vector that is not of the declared dimension, without change; otherwise sets exactly one id |
| `VectorIndex.InMemoryVectorMemoryIndex.Delete` | iris/adapters/memory/vector_index.py:63-65 | the finite map loses exactly that id |
| `VectorIndex.InMemoryVectorMemoryIndex.Search` | iris/adapters/memory/vector_index.py:68-103 | the loop computes the filtered top-k, or the first dimension error |
| `VectorIndex.InMemoryVectorMemoryIndex.Metadata` | iris/adapters/memory/vector_index.py:106-128 | the lookup of the finite map that `Upsert` and `Delete` change one id of; the rebuilder classifies every record by it |
| `VectorRebuilder.BatchingIrrelevant` | iris/runtime/memory_vector_rebuilder.py:84-149 | with a model that keeps its contract, the batch size does not affect what is written |
| `VectorRebuilder.WrittenIsFaithful` | iris/runtime/memory_vector_rebuilder.py:126-166 | after writing, each stored record's entry is exactly the entry that record calls for, when the digest tells apart the records that store and entries come from |
| `VectorRebuilder.RebuildMirrorsStore` | iris/runtime/memory_vector_rebuilder.py:84-166 | after a rebuild with orphan removal the index holds exactly the entry of every stored record, each of whose fields is that of the record or of the model |
| `VectorRebuilder.RebuildSucceeds` | iris/runtime/memory_vector_rebuilder.py:84-118 | with such a model a rebuild never fails, and its result is the same for every batch size |
| `VectorRebuilder.RebuildIds` | iris/runtime/memory_vector_rebuilder.py:84-118 | ids afterwards are the stored ids with orphan removal, and old ids plus stored ids without |
| `VectorRebuilder.CountsAddUp` | iris/runtime/memory_vector_rebuilder.py:90-118 | scanned = unchanged + missing + stale + incompatible, and written = the last three |
| `VectorRebuilder.StatesTell` | iris/runtime/memory_vector_rebuilder.py:90-97 | selecting and counting over the classified records yields exactly the outdated records and the number in each state |
| `VectorRebuilder.ClassifyIff` | iris/runtime/memory_vector_rebuilder.py:151-166 | missing, incompatible and unchanged mean no entry, an entry of another provider, model or dimension, and an entry of this provider, model, dimension and digest; anything else is stale |
| `VectorRebuilder.StatsMean` | iris/runtime/memory_vector_rebuilder.py:84-118 | the reported numbers are those of stored records without an entry, with an entry of another model, with an up-to-date entry, and of entries without a record, all in the state before the rebuild |
| `VectorRebuilder.RebuildFixpointIff` | iris/runtime/memory_vector_rebuilder.py:84-159 | a second rebuild writes nothing iff equal ids name equal records |
| `VectorRebuilder.InconsistentNeverSettles` | iris/runtime/memory_vector_rebuilder.py:151-159 | with two different records under one id, every index whatsoever has something outdated |
| `VectorRebuilder.PutNeverSettles` | iris/adapters/memory/in_memory.py:46-48 | two records with one id and different texts that no index whatsoever satisfies: every rebuild writes something |
| `VectorRebuilder.RebuildIdempotent` | iris/runtime/memory_vector_rebuilder.py:84-118 | rebuilding twice leaves exactly the index of rebuilding once |
| `VectorRebuilder.CreateRebuilder` | iris/runtime/memory_vector_rebuilder.py:63-82 | construction fails iff the batch size is not positive |
| `VectorRebuilder.MemoryVectorIndexRebuilder.UpsertBatch` | iris/runtime/memory_vector_rebuilder.py:126-149 | one batch call, a length check, then upserts in order up to the first refusal |
| `VectorRebuilder.MemoryVectorIndexRebuilder.UpsertAll` | iris/runtime/memory_vector_rebuilder.py:84-118 | the batch loop writes all outdated records in order, or stops at the first error |
| `VectorRebuilder.MemoryVectorIndexRebuilder.Rebuild` | iris/runtime/memory_vector_rebuilder.py:84-118 | the index and the statistics are those of the rebuild on values, also when it fails midway |
| `VectorRebuilder.MemoryVectorIndexRebuilder.RemoveOrphans` | iris/runtime/memory_vector_rebuilder.py:84-118 | deletes exactly the entries without a stored record and counts them |
| `MemoryWrite.MetadataKeepsExisting` | iris/cognitive/memory/write.py:53-66 | provenance is added without overwriting anything the candidate says |
| `MemoryWrite.MetadataDefaults` | iris/cognitive/memory/write.py:53-66 | what is added under each of the five names, and that nothing else is |
| `MemoryWrite.SameIdIff` | iris/cognitive/memory/write.py:34-50 | for colon-free actors and spaces two candidates share a memory id iff they agree in actor, space, kind and normalised text |
| `MemoryWrite.ColonsCollide` | iris/cognitive/memory/write.py:34-50 | for every actor id with a colon there is another actor whose candidate shares the memory id |
| `MemoryWrite.WriteStepStores` | iris/cognitive/memory/write.py:112-157 | under the id of an accepted candidate that the run gets to, the store holds field by field what the last such candidate says |
| `MemoryWrite.WriteStepIndexes` | iris/cognitive/memory/write.py:159-180 | and the index its entry, if the vector has the declared dimension |
| `MemoryWrite.WriteStepKeeps` | iris/cognitive/memory/write.py:112-180 | under every other id store and index keep what they had |
| `MemoryWrite.WriteStepCounts` | iris/cognitive/memory/write.py:112-157 | one id is reported per accepted candidate the run gets to, one rejection per candidate not accepted |
| `MemoryWrite.ReachedIff` | iris/cognitive/memory/write.py:159-180 | the run gets to the first accepted candidate whose vector is refused while failures are not tolerated, or to the end, and fails exactly in the first case |
| `MemoryWrite.RunTwice` | iris/cognitive/memory/write.py:112-180 | running the step twice leaves store and index exactly as running it once, also when candidates collide, the store holds repeated ids, entries are refused, or the run is cut short; distinct ids stay distinct |
| `MemoryWrite.WriteKeepsMirror` | iris/cognitive/memory/write.py:112-180 | the write step keeps a synchronised index synchronised |
| `MemoryWrite.MemoryWriteStep.UpsertVector` | iris/cognitive/memory/write.py:159-180 | writes the record's entry; an index failure is raised iff failures are not tolerated |
| `MemoryWrite.MemoryWriteStep.WriteCandidate` | iris/cognitive/memory/write.py:112-157 | one accepted candidate: record first, then entry |
| `MemoryWrite.MemoryWriteStep.Run` | iris/cognitive/memory/write.py:112-157 | without input text nothing happens; otherwise store, index, written ids and rejections are those of the step on values |
| `HybridRetrieval.MergeSpec` | iris/cognitive/memory/hybrid.py:96-127 | merged ids are distinct and each carries the last text and the joined vector score of its id |
| `HybridRetrieval.MergeSources` | iris/cognitive/memory/hybrid.py:96-127 | merged entries come from exactly the ids of the two lists |
| `HybridRetrieval.MergeResults` | iris/cognitive/memory/hybrid.py:96-127 | the two overwriting loops compute the merge |
| `HybridRetrieval.NormalizedWeights` | iris/cognitive/memory/hybrid.py:61-67 | weights are accepted iff their total is positive, and each is scaled in proportion to a total of one |
| `HybridRetrieval.CompositeInUnit` | iris/cognitive/memory/hybrid.py:129-167 | for non-negative scores every composite lies in [0, 1], across the zero-maximum cases |
| `HybridRetrieval.EachWeightItsOwn` | iris/cognitive/memory/hybrid.py:129-167 | each component alone contributes exactly its own weight |
| `HybridRetrieval.DominanceIff` | iris/cognitive/memory/hybrid.py:129-167 | whatever text and vector results are merged under given maxima, no entry ranks below one it dominates, iff no weighted maximum is negative |
| `HybridRetrieval.NegativeMaximumInverts` | iris/cognitive/memory/hybrid.py:129-167 | two vector hits of similarity -0.1 and -0.9 alone: the reranker returns the worse one first |
| `HybridRetrieval.NegativeHitsInvert` | iris/cognitive/memory/hybrid.py:129-167 | the same for any two negative similarities and any weights that count vectors |
| `HybridRetrieval.RankMerged` | iris/cognitive/memory/hybrid.py:129-167 | the running maxima, scoring loop and sort compute the top entries by composite |
| `HybridRetrieval.Rerank` | iris/cognitive/memory/hybrid.py:69-93 | reranking is merge then top-k, and nothing for a limit that is not positive |
| `HybridRetrieval.RerankIsTopK` | iris/cognitive/memory/hybrid.py:69-167 | as many results as were merged, up to the limit, with distinct ids, in descending composite order |
| `HybridRetrieval.RerankOrigin` | iris/cognitive/memory/hybrid.py:129-167 | every result is a merged entry under its own composite score |
| `HybridRetrieval.RerankKeepsBest` | iris/cognitive/memory/hybrid.py:129-167 | if a merged entry is left out, then the limit is reached and no returned result scores lower |
| `HybridRetrieval.ResolvedSafe` | iris/cognitive/memory/hybrid.py:245-273 | whatever the index claims, only stored records matching the query are resolved |
| `HybridRetrieval.ResolvedComplete` | iris/cognitive/memory/hybrid.py:245-273 | every hit whose stored record is wanted is resolved, under its own score |
| `HybridRetrieval.HybridSearchSafe` | iris/cognitive/memory/hybrid.py:205-273 | even with a stale index every result has the archive flag, actor, space and kind the query wants; ids are distinct and at most the limit |
| `HybridRetrieval.HybridSearchComplete` | iris/cognitive/memory/hybrid.py:205-243 | search fails iff the index search does; otherwise every full-text result and every resolved vector hit is among the results, or the limit is reached and no result scores lower |
| `HybridRetrieval.HybridSearchOrigin` | iris/cognitive/memory/hybrid.py:129-243 | every result comes from full text or vector, under 0.35 for its share of the best full-text score, 0.35 for that of the best vector score, and 0.15 each for salience and confidence |
| `HybridRetrieval.VectorHitReturned` | iris/cognitive/memory/hybrid.py:205-273 | a wanted record that only the vector side finds is returned, or the limit is reached and no result scores lower |
| `HybridRetrieval.VectorSideExact` | iris/cognitive/memory/hybrid.py:245-273 | with a synchronised index no vector hit is dropped, and each is a matching record under its own similarity |
| `HybridRetrieval.VectorSideMissesNothing` | iris/cognitive/memory/hybrid.py:205-243 | with a synchronised index, if a matching stored record is not among the vector results, then the limit is reached and none of them is further from the query: the index answers like a scan of the store |
| `HybridRetrieval.HybridMemoryRetriever.Search` | iris/cognitive/memory/hybrid.py:205-243 | the object computes hybrid search on its store and index |
| `HybridRetrieval.HybridMemoryRetriever.ResolveVectorResults` | iris/cognitive/memory/hybrid.py:245-273 | the loop resolves hits against the store |
| `MemorySystem.RunKeepsInv` | iris/cognitive/memory/write.py:112-180 | over every run of write steps, edits and rebuilds, ids stay distinct on both sides, and store and entries come from the records brought in |
| `MemorySystem.HypothesesMet` | iris/contracts/memory.py:61-68 | for every run from the empty system there is a digest under which the hypotheses of the laws here hold |
| `MemorySystem.RebuildSynchronisesForGood` | iris/runtime/memory_vector_rebuilder.py:84-118 | from a rebuild with orphan removal on, the index mirrors the store in every run that changes records through the write step only |
| `MemorySystem.SyncedRebuild` | iris/runtime/memory_vector_rebuilder.py:84-118 | on a synchronised index a rebuild of either kind changes nothing |
| `MemorySystem.EditKeepsSyncedIff` | iris/adapters/memory/in_memory.py:63-86 | an update or archive behind the index keeps it synchronised iff it changes nothing |
| `MemorySystem.SearchExactAfterRebuild` | iris/cognitive/memory/hybrid.py:205-273 | in every such run a vector search cannot fail, and no hit is lost on resolution |
| `MemorySystem.SearchMissesNothingAfterRebuild` | iris/cognitive/memory/hybrid.py:205-273 | in every such run a matching record absent from the vector results means that the limit is reached and none of them is further from the query |
| `Consolidation.UniqueSpec` | iris/cognitive/memory/consolidation.py:96-100 | one candidate per id, the last accepted one, in ascending id order |
| `Consolidation.UniqueOrderIndependentIff` | iris/cognitive/memory/consolidation.py:96-100 | deduplication is independent of the input order iff equal accepted ids carry equal content |
| `Consolidation.GroupsSpec` | iris/cognitive/memory/consolidation.py:103-121 | groups are exactly the scopes of account, actor, space and kind present, once each, and each holds exactly its candidates |
| `Consolidation.GroupsInOrder` | iris/cognitive/memory/consolidation.py:103-121 | groups come by account, actor, space and value of the kind, a missing id counting as the empty one |
| `Consolidation.ConsolidateDependsOnSet` | iris/cognitive/memory/consolidation.py:61-121 | permuting or repeating candidates gives the identical result sequence |
| `Consolidation.Partition` | iris/cognitive/memory/consolidation.py:61-93 | every accepted id is a source of exactly one result, and no other id is a source of any |
| `Consolidation.DecisionSpec` | iris/cognitive/memory/consolidation.py:75-193 | every result is one stale candidate, or the right result for all recent candidates of one scope: retained alone, duplicate when all texts agree, conflict otherwise; a conflict proposes the newest, then most confident, then greatest id, supersedes all others and carries the least confidence, the others propose the most confident; source ids and superseded ids ascend |
| `Consolidation.OutputOrdered` | iris/cognitive/memory/consolidation.py:61-93 | results ascend by id |
| `Consolidation.ValidatorIff` | iris/contracts/memory_consolidation.py:76-101 | on valid candidates the result contract accepts every result iff no accepted candidate has a blank id |
| `Consolidation.BlankIdRaises` | iris/contracts/memory_consolidation.py:32-51 | a valid candidate whose id is one space: any policy that accepts it makes the result contract fail |
| `Consolidation.Fixpoint` | iris/cognitive/memory/consolidation.py:61-193 | consolidating the proposals yields only retained and stale results, and once more changes nothing |
| `Consolidation.SameStaleResults` | iris/cognitive/memory/consolidation.py:174-193 | the second pass reports exactly the stale results of the first |
| `Consolidation.UniqueCandidates` | iris/cognitive/memory/consolidation.py:96-100 | the dict loop computes deduplication |
| `Consolidation.GroupByScopeAndKind` | iris/cognitive/memory/consolidation.py:103-121 | the grouping loop and sorts compute the scope groups |
| `Consolidation.ContentGroups` | iris/cognitive/memory/consolidation.py:124-171 | the dict of normalised texts has one key iff all texts agree |
| `Consolidation.BuildGroupResult` | iris/cognitive/memory/consolidation.py:124-171 | the branches on that count compute the group's result |
| `Consolidation.ConsolidateMemoryCandidates` | iris/cognitive/memory/consolidation.py:61-93 | the whole procedure computes consolidation |
| `Dedupe.OrderIndependentIff` | iris/cognitive/memory/consolidation.py:96-100 | a keyed, sorted dict over any filtered list is independent of the list's order iff equal ids carry equal items |
| `Ordering.LexLeqIff` | iris/cognitive/memory/consolidation.py:96-100 | the order of ids: the first differing character decides, and a prefix comes first |
| `PyText.StripSplits` | iris/cognitive/policy/interaction_policy_candidates.py:51-68 | stripping takes spaces off both ends and leaves none there |
| `InteractionPolicy.EvidenceSpec` | iris/cognitive/policy/interaction_policy_candidates.py:135-141 | the evidence for a kind and stripped value is its last signal per event, once each, by time and then event id |
| `InteractionPolicy.RaisesIff` | iris/cognitive/policy/interaction_policy_candidates.py:44-49 | each of the two errors is raised iff its threshold is out of range: the candidate contract never fires on valid signals |
| `InteractionPolicy.GroupDecided` | iris/contracts/interaction_policy.py:93-118 | on valid evidence for one key the candidate passes its contract, and is made iff the admission rule holds |
| `InteractionPolicy.AdmissionIff` | iris/cognitive/policy/interaction_policy_candidates.py:51-100 | a (kind, value) has a candidate iff its evidence is explicit, or all implicit with enough events all confident enough, or classified with some confidence reaching the threshold; at most one, by initiative, tone, verbosity and then value |
| `InteractionPolicy.CandidateContents` | iris/cognitive/policy/interaction_policy_candidates.py:102-132 | a candidate counts and names exactly its key's distinct events, is suppressed iff a signal is high-risk, and carries the greatest confidence and the sources present |
| `InteractionPolicy.SourceKindsSpec` | iris/cognitive/policy/interaction_policy_candidates.py:103 | the source kinds are exactly those present, once each, explicit before implicit before classifier |
| `InteractionPolicy.MetadataSpec` | iris/cognitive/policy/interaction_policy_candidates.py:148-152 | merged metadata keeps for each name what the latest signal says |
| `InteractionPolicy.ComputeDependsOnSet` | iris/cognitive/policy/interaction_policy_candidates.py:51-68 | the order and repetition of signals do not matter when equal event ids of a key are equal signals |
| `InteractionPolicy.EvidenceOrderIndependentIff` | iris/cognitive/policy/interaction_policy_candidates.py:135-137 | the evidence of every key is independent of the order iff equal event ids of a key are equal signals |
| `InteractionPolicy.MergeMetadata` | iris/cognitive/policy/interaction_policy_candidates.py:148-152 | the update loop computes the merge |
| `InteractionPolicy.ComputeInteractionPolicyCandidates` | iris/cognitive/policy/interaction_policy_candidates.py:23-68 | grouping, sorted keys and the candidate loop compute admission, including both errors |
| `ConversationWindow.TrimIsLongest` | iris/runtime/conversation.py:58-66 | a suffix meets both budgets iff it is no longer than the trimmed window |
| `ConversationWindow.CharsOf` | iris/runtime/conversation.py:86-102 | the history budget counts the characters of the records' contents |
| `ConversationWindow.FromEndKeeps` | iris/runtime/state/conversation.py:62-82 | `xs[-k:]` is the last k for a positive k, everything for zero, and all but the first -k otherwise |
| `ConversationWindow.SelectRecent` | iris/runtime/conversation.py:86-102 | the greedy backwards loop computes the longest suffix within both budgets, and nothing when a budget is not positive |
| `ConversationWindow.OnlineTrim` | iris/runtime/conversation.py:58-66 | trimming earlier never changes a later window: trim(trim(xs) ++ ys) = trim(xs ++ ys) |
| `ConversationWindow.WindowSplitsHistory` | iris/runtime/conversation.py:73-84 | what is older and what is shown make up the history, and there is a summary iff summaries are on with room, there are enough records, and something is older |
| `ConversationWindow.SummaryShown` | iris/runtime/conversation.py:104-123 | a summary is the lines of the older records, cut at the limit with an ellipsis |
| `ConversationWindow.LinesOf` | iris/runtime/conversation.py:104-123 | one line per record in order, joined by newlines |
| `ConversationWindow.BuildWindowOf` | iris/runtime/conversation.py:73-123 | the window and its summary, with the greedy selection |
| `ConversationWindow.LoadLimitSuffices` | iris/runtime/conversation.py:68-71 | trimming the loaded records is trimming the whole history |
| `ConversationWindow.SummaryLostIff` | iris/runtime/conversation.py:104-115 | loaded and whole history disagree on having a summary iff summaries are on, the history is longer than what is loaded, and all that is loaded fits into the window |
| `ConversationWindow.SummaryLost` | iris/runtime/conversation.py:104-115 | a policy and three messages that should have a summary and get none |
| `ConversationWindow.SummaryNeverLost` | iris/runtime/conversation.py:68-71 | that cannot happen when the window is smaller than twice a positive summary minimum |
| `ConversationWindow.WindowExact` | iris/runtime/state/conversation.py:62-82 | with enough retention, after every log of appends to any keys, each key's window is the window of its full history |
| `ConversationWindow.WindowExactIff` | iris/runtime/state/conversation.py:72-82 | that holds for all logs iff the store keeps at least a window's records, or everything, or the window is empty anyway |
| `ConversationWindow.InMemoryConversationHistoryStore.RecentWindow` | iris/runtime/state/conversation.py:62-70 | the last records of a key, none for a limit that is not positive |
| `ConversationWindow.InMemoryConversationHistoryStore.Append` | iris/runtime/state/conversation.py:72-82 | appends to one key, of which a positive limit keeps the last records, and leaves the others alone |
| `ModelCallBudget.AcceptedExactly` | iris/runtime/model_call_budget.py:120-188 | a scope accepts, per site and kind, exactly min(what is left of the limit, calls passing the checks), and counts what it accepts |
| `ModelCallBudget.KindCaps` | iris/runtime/model_call_budget.py:120-252 | in a new scope the accepted calls of each kind at a site are the passing ones up to the budget field of that kind |
| `ModelCallBudget.ScopesExact` | iris/runtime/model_call_budget.py:75-82 | the same for every scope opened anywhere in a trace of nested scopes |
| `ModelCallBudget.AcceptedIff` | iris/runtime/model_call_budget.py:134-163 | a call is accepted iff it passes the checks and fewer passing calls on its key came before it than the limit has left |
| `ModelCallBudget.DecisionExact` | iris/runtime/model_call_budget.py:134-252 | a disabled gate accepts; an enabled one accepts iff the call is confident enough, not a large model at an enqueue-only site and below the limit of its kind, denies iff a large model meets an enqueue-only site, escalates iff low confidence meets allowed risk or doubt, and falls back otherwise, with the reason of each case and a fallback behaviour exactly on refusal |
| `ModelCallBudget.DisabledAcceptsAll` | iris/runtime/model_call_budget.py:149-163 | a disabled gate accepts every call and still counts it |
| `ModelCallBudget.KeysIndependent` | iris/runtime/model_call_budget.py:46-62 | every result for a key is what it would be without the calls on all other keys, in all nested scopes |
| `ModelCallBudget.InnerScopesInvisible` | iris/runtime/model_call_budget.py:75-82 | without its inner scopes a scope ends with the same counters and has given the same results |
| `ModelCallBudget.BudgetContext.Scope` | iris/runtime/model_call_budget.py:166-171 | the current scope, or a new empty one installed |
| `ModelCallBudget.BudgetContext.CheckAndRecord` | iris/runtime/model_call_budget.py:120-147 | decides on the current counters and charges only accepted calls; nothing but the current scope changes |
| `ModelCallBudget.BudgetContext.Run` | iris/runtime/model_call_budget.py:75-82 | running a trace on real scope objects gives the results and counters of the trace on values, and restores the outer scope |
| `DeliveryGates.QuietIsArc` | iris/safety/delivery_gate.py:167-182 | enabled quiet hours are (now + offset - start) mod day < (end - start) mod day when the ends differ, and always otherwise; disabled ones are never |
| `DeliveryGates.QuietEnds` | iris/safety/delivery_gate.py:167-182 | under a steady offset a quiet moment stays quiet exactly until the end of the arc |
| `DeliveryGates.GatesRefine` | iris/safety/delivery_gate.py:82-299 | production allows iff strict allows and its own conditions hold; strict allows iff basic allows and its own conditions hold; so allowed by production implies allowed by both |
| `DeliveryGates.ReasonIsFirstFailing` | iris/safety/delivery_gate.py:82-366 | the production gate gives the reason of the first failing condition of all the gates' checks in order, and allows iff none fails |
| `DeliveryGates.ProactiveRisk` | iris/safety/policy_engine.py:92-129 | a proactive delivery is refused at high risk iff for a safety context, and audited as strict |
| `DeliveryGates.ProductionDecides` | iris/safety/delivery_gate.py:350-366 | production's own refusals, and only those, are audited as production at high risk, with source and target; every other decision is strict's unchanged |
| `RelationshipPolicy.CapsNeverAct` | iris/cognitive/affect/relationship_update_policy.py:100-116 | the delta is the weighted bound itself, a third of it for trust; clamping never changes it |
| `RelationshipPolicy.DeltaBounded` | iris/cognitive/affect/relationship_update_policy.py:100-116 | deltas stay within the bound and take the polarity's sign |
| `RelationshipPolicy.OneCandidatePerSignal` | iris/cognitive/affect/relationship_update_policy.py:33-97 | one candidate per signal iff no event id is blank; an attitude moves affinity by polarity times bound times confidence times decay and trust by a third of that, is suppressed iff that is nothing and reviewed iff confidence is low or the movement large, with the reason of each case; any other signal moves nothing; all candidates pass all validators |
| `RelationshipPolicy.GroupNoLarger` | iris/cognitive/affect/relationship_update_policy.py:100-147 | at whatever decay, in a group no component moves more than in a direct message, and the decision is never stricter for its magnitude |
| `RelationshipPolicy.GroupComputesNoLarger` | iris/cognitive/affect/relationship_update_policy.py:33-147 | the whole policy in a group against a direct message: both answer or neither, no component moves more, nothing suppressed starts to move |
| `RelationshipPolicy.MagnitudeReviewIff` | iris/contracts/relationship_update.py:146-171 | a review for magnitude can happen iff the threshold is within the reach of affinity and a third of trust |
| `RelationshipPolicy.UnreachableThreshold` | iris/contracts/relationship_update.py:146-171 | a valid configuration whose review threshold no signal reaches |
| `RelationshipState.RunBounded` | iris/cognitive/affect/relationship.py:110-166 | over n updates everything stays in range, affinity moves at most 0.05n and trust 0.02n, and familiarity is exactly min(1, f0 + n/20) |
| `RelationshipState.UpdateExact` | iris/cognitive/affect/relationship.py:110-166 | one update adds a twentieth of the valence to affinity and 0.02 with its sign to trust beyond 0.1, cut off at the ends of the ranges; contact alone adds nothing |
| `RelationshipState.UnclampedRun` | iris/cognitive/affect/relationship.py:110-166 | over a run that meets no end of a range, affinity and trust are their start and the sum of all these pushes |
| `RelationshipState.WarmerIsNoWorse` | iris/cognitive/affect/relationship.py:110-128 | over a whole run, warmer turns never leave affinity or trust lower, and lukewarm turns leave trust alone |
| `RelationshipState.TurnRaisesIff` | iris/contracts/relationship.py:40-64 | the record contract objects to a turn iff the actor id is empty, and ranges are kept |
| `RelationshipState.ActorsIndependent` | iris/cognitive/affect/relationship.py:38-92 | after any interleaving of turns, an actor's record is that of a relationship of affinity 0 and trust 1/2, under the display name of its first turn that counts, after exactly its own updates |
| `RelationshipState.FamiliarityCounts` | iris/cognitive/affect/relationship.py:146-166 | familiarity is the number of an actor's contacts over twenty, up to one |
| `RelationshipState.RelationshipStep.Run` | iris/cognitive/affect/relationship.py:38-83 | skips for the three reasons without change, otherwise stores the updated relationship of that actor alone |
| `AffectBaseline.BaselineRaisesIff` | iris/contracts/affect.py:65-87 | the baseline contract fails iff the first affect of all is out of range |
| `AffectBaseline.FirstAffectRaises` | iris/cognitive/affect/persistence.py:122-142 | an affect of valence 1.5 raises when it is the first, and never on a stored baseline |
| `AffectBaseline.BaselineRun` | iris/cognitive/affect/persistence.py:69-165 | over any turns each component of a stored baseline is smoothed over exactly the turns that are not skipped, and no turn raises |
| `AffectBaseline.LatestMoodKept` | iris/cognitive/affect/persistence.py:122-165 | mood and summary of a stored baseline are the latest that are not empty among the turns that count |
| `AffectBaseline.CountsIff` | iris/cognitive/affect/persistence.py:69-105 | a turn counts iff there is text and a mood or a component beyond a millionth |
| `AffectBaseline.FirstBaseline` | iris/cognitive/affect/persistence.py:122-142 | nothing is stored before the first turn that counts with an affect in range, which is stored as it is |
| `AffectBaseline.BaselineRunIsAverage` | iris/cognitive/affect/persistence.py:155-165 | the clamp never acts: a stored component is the exponentially weighted average of its start and the turns that count, within their range |
| `AffectBaseline.ConstantAffectIff` | iris/cognitive/affect/persistence.py:69-165 | n turns of one affect v bring a component to v + 0.9^n (b0 - v) iff the turn counts or the component is at v already: neutral turns are skipped |
| `AffectBaseline.NeutralDoesNotDecay` | iris/cognitive/affect/persistence.py:83-88 | a baseline of 0.8 stays where it is through a turn without affect |
| `AffectBaseline.BaselineRunForgets` | iris/cognitive/affect/persistence.py:69-165 | two stored baselines under the same turns differ by 0.9 per turn that counts times their initial difference |
| `AffectBaseline.AffectPersistenceStep.Run` | iris/cognitive/affect/persistence.py:69-105 | keeps the baseline without input or meaningful affect, otherwise stores the blended one, and raises only on a first affect out of range |
| `CognitiveCycle.RunConcat` | iris/cognitive/cycle/service.py:58-95 | a pipeline runs its parts one after the other and stops at the first failure |
| `CognitiveCycle.RunReflects` | iris/cognitive/cycle/frame_builder.py:86-230 | after a run the frame has the latest perception, affect, relationship, contexts and policy, keeps what no result mentions, and holds all plans offered in order |
| `CognitiveCycle.StrictestExists` | iris/cognitive/policy/safety_response.py:56-77 | a strictest context exists iff some context asks for a refusal or a redirect |
| `CognitiveCycle.StrictestIsFirst` | iris/cognitive/policy/safety_response.py:56-87 | it is the first of the strictest: a refusal before a redirect, then high before medium before low severity, then the greater confidence |
| `CognitiveCycle.RefusalWins` | iris/cognitive/policy/safety_response.py:56-87 | a refusal is never passed over for a redirect |
| `CognitiveCycle.PlansAccumulate` | iris/cognitive/cycle/frame_builder.py:191-200 | no step removes or reorders candidate plans |
| `CognitiveCycle.InhibitionBlocksIff` | iris/cognitive/policy/inhibition.py:40-135 | inhibition blocks the response iff a context forbids it or a plan would answer without text |
| `CognitiveCycle.InhibitionLists` | iris/cognitive/policy/inhibition.py:40-179 | the constraints in full and in order, with the thresholds of calm and familiarity, one for each context by its directive, and a note on the text only without contexts |
| `CognitiveCycle.CalmPreferred` | iris/cognitive/policy/inhibition.py:40-74 | the calm preference is given iff arousal is at least 0.75 and valence at most -0.55 |
| `CognitiveCycle.ProactiveSays` | iris/features/proactive_talk/policy.py:18-81 | on an idle tick the proactive policy adds its three constraints, each under its condition, and on anything else nothing |
| `CognitiveCycle.ChatAnswersIff` | iris/features/chat/definition.py:142-197 | chat answers iff an actor's message is not blocked and the generator says something, and fails iff the generator does |
| `CognitiveCycle.SafetyPlanSelectedIff` | iris/cognitive/cycle/service.py:58-107 | in any pipeline the safety plan of the strictest context is the one selected iff no earlier plan reaches 1000 and no later one exceeds it |
| `CognitiveCycle.KnownStepsHarmless` | iris/cognitive/policy/inhibition.py:138-179 | inhibition, proactive policy, safety response and chat at any priority keep a blocking constraint and offer nothing above the safety plan |
| `CognitiveCycle.GuardKept` | iris/features/proactive_talk/definition.py:44-54 | harmless steps keep a blocked frame blocked to the end of the pipeline |
| `CognitiveCycle.ChatSilent` | iris/features/chat/definition.py:148-153 | on a blocked frame the chat step changes nothing |
| `CognitiveCycle.CoreCycleSelects` | iris/runtime/wiring/cognitive.py:189-213 | in a core pipeline whose run succeeds, with a context to refuse or redirect, plans below 1000 before classification and harmless features after it, the cycle returns the safety plan of the strictest context, whatever its fallback: a refusal iff some context is to be refused, in the words for its category, at priority 1000 |
| `CognitiveCycle.ChatHasNoEffect` | iris/features/chat/definition.py:141-160 | in a core pipeline that reaches a context forbidding an answer, with only harmless features between it and the chat step, the cycle ends as it would without the chat step, failures included |
| `CognitiveCycle.SafetyPlanIff` | iris/cognitive/policy/safety_response.py:29-62 | a safety plan is made iff some context asks for one, whether or not another is to be blocked |
| `CognitiveCycle.BlockDoesNotSilence` | iris/cognitive/policy/safety_response.py:56-77 | two contexts, one to block and one to redirect: the redirect is planned all the same |
| `CognitiveCycle.SelectActionPlan` | iris/cognitive/cycle/service.py:97-107 | the loop computes the selection: the first plan of the highest priority, or the fallback when there is none |
| `CognitiveCycle.BestIndexIff` | iris/cognitive/cycle/service.py:97-107 | the plan selected is the first of the highest priority, and only that one |
| `CognitiveCycle.ConstraintsForCandidateActions` | iris/cognitive/policy/inhibition.py:77-90 | the loop adds one blocking constraint iff some plan would answer without text |
| `CognitiveCycle.RunInhibition` | iris/cognitive/policy/inhibition.py:40-74 | the lists are filled as the inhibition step prescribes, notes only without safety contexts |
| `CognitiveCycle.Cycle.Run` | iris/cognitive/cycle/service.py:43-95 | the cycle is the run of its steps followed by the selection, or the first failure |

## Left out

- gRPC servicer, interceptors, server lifecycle and command line: transport around libraries outside the repository.
- Ollama, OpenAI, Qdrant and LangChain adapters, the SQLite stores and the durable outbox: network and database clients.
- Doctor commands, logging, latency telemetry, counters of avoided calls: input and output only.
- The default call site bound per request, and the reading of the budgets from the configuration: a call carries its site, and budgets are a function of it.
- Runtime configuration parsing and patches, auth policy and static tokens: field-by-field checks without laws across operations.
- Regex and keyword classifiers (appraisal, extraction, memory safety, safety terms, output filter): their results are arbitrary inputs.
- SHA-256, Unicode normalisation, casefolding, embeddings and cosine similarity: parameters, with injectivity or dimension stated where a lemma needs it.
- Floating-point rounding, NaN and infinities: values are reals.
- Locks, coroutines and threads: each operation is one atomic step; the context variables are those of one request.
- Transcript paging and clean-up, prompt assembly, the inference scheduler, learning dispatch of the broker: not part of this model.
- Fixed sentences and rendered text: consolidation and relationship reasons, consolidation result metadata, policy summaries and prompt instructions are not modelled; interaction reasons are the four kinds of sentence; the summary line of a conversation record is a parameter.
- Timestamps and versions added by the relationship and affect stores, and relationship summaries: not part of the modelled records.
- The rest of the workspace frame (memory, goals, appraisal, history): no modelled policy or selection reads it.
- Proactive action selection and its text generator: one of the feature steps over which the cycle's theorems quantify.
