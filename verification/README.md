# TirBase core: a verified model

TirBase synchronises devices without a central server. Each device signs its writes as deltas, keeps
them in a causal DAG, merges the deltas of others through a gate, collects durability receipts, drains
an outbound queue to a cloud ledger, revokes devices by M-of-N signatures, and traces contamination
through the DAG. This project models that core in Dafny and proves what its parts keep over every run.

Structure, bottom up:

- `Sequences`, `Graphs`, `LexOrder`, `Deltas`: shared facts about sequences, paths, byte order, ids.
- `SchemaDiff`, `SchemaHash`: the schema diff, and the hash of the sorted declarations.
- `Kahn`, `BreadthFirst`: the invariants of the two sorts and of the two walks.
- `ChangesetDag`, `CrdtEngine`, `Mesh`, `MeshClocks`: the DAG tables, the engine's clock and gates, any
  number of engines that exchange deltas with loss and duplication and are started again over their
  tables, and what their Lamport clocks are worth.
- `CloudQueue`, `CloudOrder`, `CloudSync`, `CloudLedger`: the outbound queue, its send order by releases, one
  sync cycle, the append-only ledger around its own engine, and the queue and ledger together over a run.
- `Spatial`, `Quorum`, `Durability`, `DurabilityRuns`, `DurabilityEvidence`, `DurabilityTiers`: diversity,
  K-of-N receipts, the tier state machine, its runs with repeated and refused registrations, what counts for a
  delta, and the exact tier over a run.
- `Revocation`: M-of-N accumulation, processing and validation.
- `Leb128`, `LwwOrder`, `Override`: element ids, the last-writer-wins rule, the read-back after a merge.
- `Incidents`, `Contamination`, `IncidentGate`, `IncidentAlgebra`, `RowIndex`, `LateArrivals`: the
  contamination engine as functions on states, its methods, its runs, and what a verification writes.

Objects that the source updates in place are classes; each method is proved against a function of the
old state, and the lemmas speak about those functions. A loop of the source is a loop here. Where the
source depends on the order of a hash map or of table rows, the model chooses arbitrarily, so a result
holds for every order.

Idealisations: a delta id names one content, and a schema hash is an injective function of the sorted
declarations (names that contain the separators of the hashed text are not singled out); clocks are
unbounded; a signature is absent, forged or genuine; incident ids come from a counter; the sector cap is
a real number; a call is atomic. Answers of the document library, the store, the cloud connection and the
refetch are parameters of every result.

## What the proofs found

Where the code does less than its comments say, the model follows the code and a lemma gives the exact
condition:

- The tips stand for the whole DAG exactly when every recorded parent has arrived
  (`Mesh.TipsCoverIffClosed`, `Mesh.EarlyArrivalIsHidden`).
- A new process opens an engine over the stored tables with its clock at 0. The clock then lies below
  stored Lamports until it has caught up (`MeshClocks.ClockDominatesIff`), a delta above the clock need not
  win (`LwwOrder.DefinitiveBeatsAll`), and a delta can lie no higher than its parent
  (`MeshClocks.OrderedIffClimbs`), input for all three `MeshClocks.ReopenedClockRepeats`. No DAG gets a cycle
  from it: the order of production ranks every delta above its parents (`Mesh.EveryDagIsAcyclic`).
- A store write that fails after the document merge leaves the change in the document, the clock advanced
  and an additive schema adopted, without a node (`CrdtEngines.UnmergedLeaves`, `CrdtEngines.UnfiledIff`,
  input `CrdtEngines.FailedWriteLeavesTraces`). The ledger therefore merges a delta twice exactly when an
  arrival of it failed that way and a later one was merged again (`CloudLedgers.MergedTwiceIff`, input
  `CloudLedgers.FailingWriteMergesTwice`); it commits each delta at most once all the same.
- A schema that declares a name twice hashes differently from one of the same structure, so the gate can
  fall back to unknown (`CrdtEngines.NeverUnknownIff`, input `CrdtEngines.RepeatedFieldIsUnknown`).
- Registering a delta again starts it afresh: tiers fall exactly then (`DurabilityRuns.TierFallsIff`), and
  only then is Tier-1 announced twice (`DurabilityRuns.AnnouncedAgainNeedsReset`, input
  `DurabilityRuns.RegisteredAgain`), which can follow whenever the configuration can qualify at all
  (`DurabilityEvidence.ResetAnnouncesAgainIff`). A queue that is full tracks a delta without queueing it
  (`DurabilityRuns.UnqueuedIff`, input `DurabilityRuns.RefusedYetCompactable`).
- A forged signature listed before a genuine one of the same manager hides that manager from the
  validation but not from the processing (`Revocation.AllCountIff`, `Revocation.AppliedNotAcceptedIff`, input
  `Revocation.ForgedFirstHidesSigner`); the validation accepts what the processing does not apply only for
  M = 0 (`Revocation.AcceptedNotAppliedIff`, input `Revocation.ZeroThresholdDisagrees`).
- A list insertion that both documents share is captured as a conflict with itself, and its override
  keeps the list only next to an equal value (`Override.SharedInsertionsConflict`,
  `Override.SharedElementOverride`). A second override in one list uses places that have moved: it keeps the
  list exactly when the values now there are the two it puts back (`Override.TwoConflictsKeepIff`, input
  `Override.SecondOverrideUsesStalePlaces`; after a shared insertion `Override.SelfConflictFirstKeepsIff`); conflicts whose stretches do not meet are all corrected
  (`Override.SeparateConflictsCorrected`).
- Tagging merges at most one overlap and never looks at composites, so open chains can share deltas
  (`IncidentAlgebra.ChainsStayApartIff`, `IncidentAlgebra.ThirdTagStandsBesideComposite`).
- A merge of incidents drops rows of different tables that share a key
  (`IncidentAlgebra.MergeKeepsRowsIff`), so a tag can flag a row and leave it unreported
  (`IncidentAlgebra.RowMissedIff`, input `IncidentAlgebra.LateRowIsMissed`).
- The row index has one slot for each row, so verifying a later incident hides rows of an earlier one
  that is still open and unresolved, and clears its flag (`RowIndex.ReportedAfterVerify`,
  `RowIndex.FlagAfterVerify`, input `RowIndex.TwoRootsShareOneRow`).

## Model

| member | source | states |
|---|---|---|
| Kahn.Release | tirbase-core/src/crdt/dag.rs:442-453 | lowers each listed child's in-degree by its multiplicity without underflow, and reports exactly the children that reached zero, each once |
| Kahn.PendingAfterEmit | tirbase-core/src/crdt/dag.rs:428-453 | emitting a node takes exactly its own edges off each child's count of pending parents |
| Kahn.Step | tirbase-core/src/crdt/dag.rs:442-453 | one turn keeps: degrees count pending parents, zero means emitted or ready, nothing twice, parents first; in whatever order released children queue up |
| Kahn.LeftBehindIsDirty | tirbase-core/src/crdt/dag.rs:433-455 | a stored node that is never emitted has an ancestor that is missing or on a cycle |
| Kahn.DrainedEmitsClean | tirbase-core/src/crdt/dag.rs:433-455 | when nothing is ready, exactly the nodes whose ancestors are all stored and off every cycle have been emitted |
| BreadthFirst.HeadIsNearest | tirbase-core/src/crdt/dag.rs:313-338 | an unvisited node at the head of the queue waits at its exact distance from the root |
| BreadthFirst.Visit | tirbase-core/src/crdt/dag.rs:313-338 | visiting a node and queueing its unvisited children keeps exact distances and forgets no neighbour |
| BreadthFirst.Finished | tirbase-core/src/crdt/dag.rs:313-338 | an empty queue means every reachable node was listed once, nearest first, and nothing else |
| ChangesetDags.ChangesetDag.Insert | tirbase-core/src/crdt/dag.rs:128-190 | inserts node and parent edges in one transaction; a stored node is left alone, a failed write changes nothing |
| ChangesetDags.ChangesetDag.Children | tirbase-core/src/crdt/dag.rs:193-216 | lists exactly the recorded children of a node, each once |
| ChangesetDags.ChangesetDag.BfsDescendants | tirbase-core/src/crdt/dag.rs:313-338 | terminates on every graph and lists exactly the nodes reachable from the root, each once, in non-decreasing distance |
| ChangesetDags.CountRow | tirbase-core/src/crdt/dag.rs:428-431 | counting one more edge row keeps in-degrees and child lists exact |
| ChangesetDags.CountEdges | tirbase-core/src/crdt/dag.rs:418-431 | in-degree and child maps count every edge row with multiplicity |
| ChangesetDags.Drain | tirbase-core/src/crdt/dag.rs:433-455 | emits exactly the clean nodes, each once, parents first |
| ChangesetDags.ChangesetDag.TopologicalSort | tirbase-core/src/crdt/dag.rs:370-456 | returns a causal order: no id twice, parents before children, exactly the nodes with all ancestors stored and off every cycle |
| ChangesetDags.ChangesetDag.Tips | tirbase-core/src/crdt/mod.rs:825-850 | lists exactly the nodes of the causal order that have no child |
| CrdtEngines.CrdtEngine.ProduceDelta | tirbase-core/src/crdt/mod.rs:564-606 | a produced delta carries the ticked clock and the explicit parents or else the tips, and is stored; a failure leaves only the clock ticked |
| CrdtEngines.ProducedMoves | tirbase-core/src/crdt/mod.rs:564-606 | a production ticks the clock by one and stores its own node with exactly its parent edges, or only ticks |
| CrdtEngines.CrdtEngine.Apply | tirbase-core/src/crdt/mod.rs:625-803 | the gates in their order, adoption of an additive schema, merge, clock to the maximum plus one, and the node stored |
| CrdtEngines.OutcomeIff | tirbase-core/src/crdt/mod.rs:625-803 | the answer to a delta as a table over revocation, schema, signature, DID and what library and store did: revoked authors are refused first, whatever the schema; each later answer needs every earlier gate passed |
| CrdtEngines.OnlyTrustedMove | tirbase-core/src/crdt/mod.rs:625-803 | document, DAG, clock and accepted schemas move only for an unrevoked author whose DID resolves, with a genuine signature and an accepted or additive schema |
| CrdtEngines.MergedMoves | tirbase-core/src/crdt/mod.rs:746-810 | a merged delta adds its change at the end of the document, sets the clock to one past the later of the two, stores its node with author and Lamport and exactly its parent edges, and nothing else |
| CrdtEngines.RevokedNeverMoves | tirbase-core/src/crdt/mod.rs:625-650 | over runs: after a revocation and until the engine is opened again, every delta of that author is rejected and moves nothing |
| CrdtEngines.CrdtEngine.constructor | tirbase-core/src/crdt/mod.rs:181-199 | opens an engine over tables that may hold the nodes of an earlier process: the tables stay, the clock is 0, document, definitions and revocations are empty |
| CrdtEngines.RefusalChangesNothing | tirbase-core/src/crdt/mod.rs:625-735 | a rejected or quarantined delta leaves clock, schemas, document and DAG alone; a rejection is recorded with its code, author and id |
| CrdtEngines.CrdtEngine.ClassifyIncomingSchema | tirbase-core/src/crdt/mod.rs:310-339 | the diff-based class is known, breaking, additive or unknown by inclusion of the structures behind the hashes; equal structures under different hashes stay unknown |
| CrdtEngines.NeverUnknownIff | tirbase-core/src/crdt/mod.rs:310-339 | with both definitions at hand, no schema of distinct names falls through the gate unclassified if and only if the current schema repeats no name |
| CrdtEngines.RepeatedFieldIsUnknown | tirbase-core/src/crdt/mod.rs:310-339 | a field declared twice: a valid engine quarantines the delta as unknown |
| CrdtEngines.CrdtEngine.RegisterSchemaDefinition | tirbase-core/src/crdt/mod.rs:256-275 | a definition is filed exactly when it hashes to the given hash |
| CrdtEngines.CrdtEngine.RecordRejection | tirbase-core/src/crdt/mod.rs:401-430 | appends the rejection and keeps the newest 1024 |
| CrdtEngines.RejectionsKept | tirbase-core/src/crdt/mod.rs:401-430 | after a rejection all earlier records are kept in order while there are fewer than 1024, and all but the oldest once there are 1024 |
| CrdtEngines.AppliedKeeps | tirbase-core/src/crdt/mod.rs:625-803 | an incoming delta adds at most its own schema, and a new one only if genuine, from an unrevoked author and strictly larger than the current schema |
| CrdtEngines.AdoptionsAreAdditive | tirbase-core/src/crdt/mod.rs:625-803 | over every run of operations, process starts included, each accepted hash was there at the start, set by the host, given at a process start, or adopted by a merge when it was additive over the schema then current |
| CrdtEngines.UnmergedLeaves | tirbase-core/src/crdt/mod.rs:746-810 | what a delta that is not merged leaves behind: its schema if new exactly when the gates let it through; its changeset at the end of the document and a clock one past the later of the two exactly when only the store write failed; never a node |
| CrdtEngines.FailedWriteLeavesTraces | tirbase-core/src/crdt/mod.rs:746-810 | one failing store write moves schema, document and clock of a valid engine |
| CrdtEngines.UnfiledIff | tirbase-core/src/crdt/mod.rs:746-810 | over every run, process starts included, a change is in the document without a DAG node if and only if, since the engine was last opened, it was merged past a failing store write, and no operation ever stored it |
| SchemaHashes.HashHasStructure | tirbase-core/src/schema/hash.rs:29-58 | the hashed declarations have the structure of the schema, repeated names included |
| SchemaHashes.DistinctHashIffStructure | tirbase-core/src/schema/hash.rs:29-58 | two schemas of distinct names have one hash if and only if they have one structure, whatever their declaration order |
| SchemaHashes.StructureTellsHashIff | tirbase-core/src/schema/hash.rs:29-58 | the structure of a schema determines the hash among schemas of distinct names if and only if the schema repeats no name |
| Mesh.StepKeepsInv | tirbase-core/src/crdt/mod.rs:564-606 | every step of any device, a process start over stored tables included, keeps: each stored node is a produced delta with exactly its recorded parents, which were produced before it |
| Mesh.RunKeepsInv | tirbase-core/src/crdt/mod.rs:794-850 | the invariant holds in every state of every run of any number of engines with loss, duplication, reordering and process starts |
| Mesh.RunRanks | tirbase-core/src/crdt/mod.rs:564-606 | in every reachable state the produced deltas can be ranked in the order of production, each above its parents |
| Mesh.EveryDagIsAcyclic | tirbase-core/src/crdt/dag.rs:370-456 | in every reachable state no device has a cycle in its DAG, however often it was started again |
| MeshClocks.ClockDominatesIff | tirbase-core/src/crdt/mod.rs:181-199 | over every run the clock of a device is at least every stored Lamport if and only if it has reached all Lamports its process found stored when it started |
| MeshClocks.OrderedIffClimbs | tirbase-core/src/crdt/mod.rs:564-606 | over every run the edges of all devices go from smaller to larger Lamports if and only if every production found its clock at or above the Lamport of each parent |
| MeshClocks.LamportRanksEveryDag | tirbase-core/src/crdt/mod.rs:794-803 | on runs that open engines over empty tables only, every clock dominates and every DAG is ordered by Lamport |
| MeshClocks.ReopenedClockRepeats | tirbase-core/src/api/mod.rs:495-508 | a run of one write, a process start and a second write: the clock lies below a stored Lamport, then an edge joins two equal Lamports |
| MeshClocks.LamportAcyclic | tirbase-core/src/crdt/mod.rs:794-803 | a DAG whose stored edges climb in Lamport has no cycle, missing parents included |
| Mesh.OrderCompleteIffClosed | tirbase-core/src/crdt/dag.rs:370-456 | on any DAG without a cycle the causal order holds every stored node if and only if every recorded parent has arrived |
| Mesh.TipsCoverIffClosed | tirbase-core/src/crdt/mod.rs:825-850 | on any DAG without a cycle every stored node is an ancestor of, or equal to, a tip if and only if every recorded parent has arrived |
| Mesh.ProducedDescendsFromAll | tirbase-core/src/crdt/mod.rs:564-606 | on a causally closed DAG without a cycle a delta produced over the tips descends from every stored node |
| Mesh.EarlyArrivalIsHidden | tirbase-core/src/crdt/dag.rs:433-455 | a run of two engines: the child of a lost delta is stored by the receiver, in no causal order and below no tip |
| Mesh.SameNodesSameDag | tirbase-core/src/crdt/mod.rs:794-850 | in every reachable state devices with the same stored nodes have the same edges, hence the same DAG and tips |
| SchemaDiffs.DiffSchemas | tirbase-core/src/schema/diff.rs:125-210 | lists exactly the added, removed and retyped tables and fields, each list sorted by table and field |
| SchemaDiffs.DiffLists | tirbase-core/src/schema/diff.rs:125-210 | what each list of a diff holds in terms of the two structures; a retyped field is listed with the type it had and the type it has |
| SchemaDiffs.Trichotomy | tirbase-core/src/schema/diff.rs:67-94 | identical is equality, additive strict inclusion, breaking non-inclusion of the (table, field, type) maps; exactly one holds |
| SchemaDiffs.DiffIsDetermined | tirbase-core/src/schema/diff.rs:125-210 | the diff is determined by the two structures |
| SchemaDiffs.DeclarationOrderIrrelevant | tirbase-core/src/schema/diff.rs:125-145 | declaring the same tables and fields in another order gives the same structure |
| SchemaDiffs.AdditiveTransitive | tirbase-core/src/schema/diff.rs:76-86 | two additive steps make an additive step |
| CloudQueues.CloudOutboundQueue.Enqueue | tirbase-core/src/durability/cloud_queue.rs:104-113 | appends at the end unless the queue holds 100000 entries; a refusal changes nothing |
| CloudQueues.CloudOutboundQueue.Acknowledge | tirbase-core/src/durability/cloud_queue.rs:116-118 | the retain loop drops every entry of the id: afterwards exactly the other ids are queued, the surviving entries unchanged and in their order |
| CloudQueues.CloudOutboundQueue.MarkTier2 | tirbase-core/src/durability/cloud_queue.rs:122-129 | flags the first entry of the id only |
| CloudQueues.FlaggedIs | tirbase-core/src/durability/cloud_queue.rs:122-129 | marking flags the first entry of the id and leaves its other fields and all other entries alone |
| CloudQueues.CloudOutboundQueue.MarkCompacted | tirbase-core/src/durability/cloud_queue.rs:138-148 | drops the bytes of the first entry of the id only |
| CloudQueues.CloudOutboundQueue.AddReceiptHolder | tirbase-core/src/durability/cloud_queue.rs:160-169 | records a holder once, on the first entry of the id only |
| CloudQueues.CountQueue | tirbase-core/src/durability/cloud_queue.rs:260-283 | in-degrees count the parents that are still queued; child lists match |
| CloudQueues.DrainInOrder | tirbase-core/src/durability/cloud_queue.rs:285-330 | the counting loop equals the recursive definition that never looks at counters, and emits exactly the orderly ids |
| CloudQueues.CloudOutboundQueue.TopologicalSortQueue | tirbase-core/src/durability/cloud_queue.rs:257-341 | the send order is a function of the queue, whatever the hash-map order: orderly ids first, each once after its queued parents, the rest last in queue order; which orderly id goes first is `CloudOrders.SentInBatches` |
| CloudQueues.CausalIsPermutation | tirbase-core/src/durability/cloud_queue.rs:257-341 | for distinct ids the send order is a permutation of the queue |
| CloudQueues.OrderlyFollowParents | tirbase-core/src/durability/cloud_queue.rs:257-341 | every entry not on or behind a cycle follows all its queued parents |
| CloudOrders.SentInBatches | tirbase-core/src/durability/cloud_queue.rs:285-330 | in the send order of any queue, of two orderly entries the one whose last queued parent was sent earlier goes first, one without queued parents before one with; when the same parent released both, or none had to, the one queued first |
| CloudOrders.FreeEntriesKeepOrder | tirbase-core/src/durability/cloud_queue.rs:285-303 | entries without a queued parent are sent in queue order, whatever else is queued |
| CloudOrders.SentAsQueued | tirbase-core/src/durability/cloud_queue.rs:257-341 | a queue of distinct ids in which no entry waits for another is sent exactly as it stands |
| CloudOrders.EmittedIsOrderly | tirbase-core/src/durability/cloud_queue.rs:285-330 | the recursive definition of the loop emits exactly the orderly ids, each once, parents first |
| CloudQueues.WithoutSize | tirbase-core/src/durability/cloud_queue.rs:116-118 | removing some ids of a queue with distinct ids removes one entry for each |
| CloudSync.Attempt | tirbase-core/src/durability/cloud_queue.rs:395-442 | one entry is swept, deferred, or sent and removed exactly when acknowledged; one counter moves |
| CloudSync.CloudSyncLoop | tirbase-core/src/durability/cloud_queue.rs:378-450 | for any queue, repeated ids included, and any adaptive connection and refetch: the events are those of the send order, each removed id is removed once, the queue keeps exactly what was not removed; for distinct ids each entry meets one event and the counts conserve the queue |
| CloudSync.LogOfHolds | tirbase-core/src/durability/cloud_queue.rs:378-450 | for any queue every event is what its entry calls for, no id is acknowledged or swept twice, and every queued id is attempted unless an earlier event removed it |
| CloudSync.EventIsDue | tirbase-core/src/durability/cloud_queue.rs:395-442 | each event of a cycle in terms of the first entry of its id: swept iff flagged durable; put off iff it has no bytes and either is not compacted or no holder has them; else sent with its own or the fetched bytes, and removed iff the connection accepts |
| CloudSync.SummaryCounts | tirbase-core/src/durability/cloud_queue.rs:378-450 | acknowledged counts sweeps and accepted sends, rejected the refused sends, deferred the entries put off, and each id is listed as acknowledged as often as it was accepted |
| CloudSync.CycleConserves | tirbase-core/src/durability/cloud_queue.rs:378-450 | when each entry meets exactly one event, acknowledged, rejected and deferred add up to the starting depth; the final queue is exactly the rejected and deferred entries; no id is sent twice; acknowledged ids are distinct and gone |
| CloudSync.AttemptsFollowParents | tirbase-core/src/durability/cloud_queue.rs:392-442 | on an acyclic queue no entry is attempted before its queued parents |
| CloudLedgers.CloudLedger.ReceiveDelta | tirbase-core/src/durability/cloud_ledger.rs:141-171 | a committed delta is acknowledged without touching the engine; any other goes through the engine, an engine error leaves it uncommitted with whatever the engine did, and acknowledged means committed |
| CloudLedgers.ReceivedIs | tirbase-core/src/durability/cloud_ledger.rs:141-171 | an arrival commits its delta exactly when the engine merges or quarantines it, logs it exactly when the engine rejects it, and reaches the engine exactly when it was not committed |
| CloudLedgers.CommittedOnce | tirbase-core/src/durability/cloud_ledger.rs:141-171 | over any arrivals each id is committed at most once |
| CloudLedgers.LedgerGrows | tirbase-core/src/durability/cloud_ledger.rs:141-171 | over any arrivals nothing the ledger held before is lost or moved |
| CloudLedgers.MergedTwiceIff | tirbase-core/src/durability/cloud_ledger.rs:141-171 | from a ledger without the delta, its change is merged more than once if and only if an arrival passed the gates, merged and failed its store write, and a later one was merged again |
| CloudLedgers.FailingWriteMergesTwice | tirbase-core/src/durability/cloud_ledger.rs:141-171 | a failing store write and a retry: the ledger merges one delta twice |
| CloudLedgers.CloudLedger.SendDelta | tirbase-core/src/durability/cloud_ledger.rs:223-238 | answers success exactly when the bytes decode and the ledger holds the decoded delta afterwards |
| CloudLedgers.SyncToLedger | tirbase-core/src/durability/cloud_queue.rs:378-450 | one sync cycle over a ledger connection: its events are those of a cycle, a send is acknowledged exactly when its reply is heard and the ledger then holds the delta, and the ledger ends as its arrivals make it |
| CloudLedgers.RemovedIsCommitted | tirbase-core/src/durability/cloud_queue.rs:429-441 | whatever a cycle takes out of the queue is committed when the cycle ends |
| CloudLedgers.StepKeepsInv | tirbase-core/src/durability/cloud_ledger.rs:141-171 | enqueueing, repeated ids included, cycles with lost replies and queue maintenance keep: enqueued means queued or committed, and the ledger is what its arrivals made of it |
| CloudLedgers.NothingLost | tirbase-core/src/durability/cloud_ledger.rs:141-171 | over every run with ids enqueued again and a connection that may commit and report failure, each enqueued delta is queued or committed, the ledger only grows, and a delta is merged twice exactly when an arrival of it failed after its merge and a later one was merged again |
| Spatial.SpatialDiversityTracker.Add | tirbase-core/src/durability/spatial.rs:34-39 | counters always equal the counts of the recorded receipts |
| Spatial.SpatialDiversityTracker.TaggedReceiptCount | tirbase-core/src/durability/spatial.rs:47-49 | tag counts plus untagged equal the number of receipts |
| Spatial.SpatialDiversityTracker.SatisfiesDiversity | tirbase-core/src/durability/spatial.rs:71-104 | the check over counters decides the rule over receipts: too few sectors, or none over its share |
| Spatial.SurvivesSectorLoss | tirbase-core/src/durability/spatial.rs:71-104 | a non-degraded success leaves at least 1 - f of the receipts after the loss of any one sector |
| Spatial.CapForcesSpread | tirbase-core/src/durability/spatial.rs:71-104 | when every receipt is tagged, the number of sectors times f is at least 1 |
| Quorum.Tier1QuorumTracker.AddReceiptWithTag | tirbase-core/src/durability/quorum.rs:114-146 | a receipt of a new issuer counts under its verified tag; the answer is true when it reached the quorum, or for a repeat when it was reached |
| Quorum.HistoryTracked | tirbase-core/src/durability/quorum.rs:114-146 | after any receipts the tracker counts exactly the first receipt of each issuer |
| Quorum.Tier1IsHistory | tirbase-core/src/durability/quorum.rs:114-188 | Tier-1 holds exactly when some non-empty prefix of the issuer-deduplicated receipts passed the check of that moment; the check written out is `Quorum.Tier1Iff` |
| Quorum.FirstsAreFirst | tirbase-core/src/durability/quorum.rs:119-131 | the receipts that count are exactly those without an earlier receipt of their issuer, in order |
| Quorum.Tier1Iff | tirbase-core/src/durability/quorum.rs:114-188 | after any receipts: with the first receipt of each issuer under its verified tag, or else its own, Tier-1 is reached if and only if for some n of at least K and at least one the first n have fewer sectors than a configured minimum, or no sector with more than the capped share of n |
| Quorum.CountedIssuers | tirbase-core/src/durability/quorum.rs:114-146 | a tracker has counted exactly the issuers presented to it, one receipt each, and Tier-1 stands on at least K of them |
| Quorum.AnswerIff | tirbase-core/src/durability/quorum.rs:119-146 | the answer to a receipt: for a repeated issuer whether Tier-1 stood before, for a new one whether this receipt achieved it |
| Durabilities.DurabilitySubsystem.RegisterDelta | tirbase-core/src/durability/mod.rs:228-248 | the state is stored before the enqueue, which fails exactly on a full queue |
| DurabilityTiers.RegisteredIs | tirbase-core/src/durability/mod.rs:228-248 | a registered delta is tracked as Uncommitted with an empty tracker and the given hash and keys, and queued last with its bytes and parents unless 100000 entries are queued; nothing else changes |
| DurabilityEvidence.CountedIffSigned | tirbase-core/src/durability/mod.rs:270-415 | over every run the tracker of a delta counts a peer if and only if, since the last registration of the delta, a receipt of the peer came that was signed by the key then in force over the registered state hash and that the anchor let pass |
| Durabilities.DurabilitySubsystem.ReceiveReceipt | tirbase-core/src/durability/mod.rs:300-415 | a receipt counts exactly when its issuer's key signed this state hash and the anchor admits it; Tier-1 is entered from Uncommitted only |
| DurabilityEvidence.AdmitsIff | tirbase-core/src/durability/mod.rs:300-372 | a receipt is admitted exactly when the delta is tracked, the key on file for its issuer signed it over the tracked state hash and, in the attested mode, it brings a valid token, whose claim it then counts under |
| DurabilityTiers.ReceivedIs | tirbase-core/src/durability/mod.rs:372-415 | an admitted receipt makes its issuer a holder of the first queued entry, once, and is counted; a step from Uncommitted to Tier-1 permits compaction and is announced; a refused one changes nothing |
| DurabilityTiers.TierIff | tirbase-core/src/durability/mod.rs:300-435 | over every run a tracked delta is at Tier-2 if and only if the ledger accepted it since its last registration, and otherwise at Tier-1 if and only if the receipts admitted since then, each issuer's first, at some moment were at least K and spread |
| DurabilityTiers.Tier1NeedsK | tirbase-core/src/durability/mod.rs:372-415 | over every run a delta at Tier-1, or permitted to be compacted, has receipts of at least K different peers, each admitted since its last registration |
| Durabilities.DurabilitySubsystem.OnCloudAck | tirbase-core/src/durability/mod.rs:421-435 | the delta is Tier-2 and out of the queue, and the listener is told the previous tier |
| DurabilityTiers.AckedIs | tirbase-core/src/durability/mod.rs:421-435 | an acknowledgement makes a tracked delta Tier-2, leaves no entry of it and every other entry, and announces the tier it had |
| DurabilityTiers.CompactedIs | tirbase-core/src/durability/cloud_queue.rs:138-148 | a compaction takes the bytes of the first entry of the id and keeps its holders, parents and all other entries |
| Durabilities.DurabilitySubsystem.RunCloudSyncCycle | tirbase-core/src/api/mod.rs:4101-4123 | for any queue, repeated ids included, a cycle takes out what the connection acknowledged or a sweep found, and marks every acknowledged delta Tier-2 |
| DurabilityRuns.TierFallsIff | tirbase-core/src/durability/mod.rs:228-435 | between two moments of any run the tier of a delta falls if and only if it was registered again while above Uncommitted |
| DurabilityRuns.AnnouncedAtMost | tirbase-core/src/durability/mod.rs:300-415 | over every run Tier-1 of a delta is announced at most once, and once more for each time it is registered again above Uncommitted |
| DurabilityRuns.AnnouncedAgainNeedsReset | tirbase-core/src/durability/mod.rs:300-415 | a second announcement of Tier-1 needs a registration of the delta above Uncommitted |
| DurabilityEvidence.ResetAnnouncesAgainIff | tirbase-core/src/durability/mod.rs:228-415 | in every reachable state in which a delta has just been registered above Uncommitted, further keys and receipts can announce Tier-1 for it once more if and only if the anchor is not attested, or some share is allowed to a sector, or the minimum of sectors is at least two |
| DurabilityRuns.RegisteredAgain | tirbase-core/src/api/mod.rs:3559-3573 | registered, qualified, registered and qualified again: the tier falls and Tier-1 is announced twice |
| DurabilityRuns.UnqueuedIff | tirbase-core/src/durability/mod.rs:228-248 | over every run a tracked delta below Tier-2, compactable or not, is missing from the queue if and only if its last registration found the queue full and no entry of it |
| DurabilityRuns.RefusedYetCompactable | tirbase-core/src/durability/mod.rs:228-248 | a run in which a delta registered on a full queue reaches Tier-1 and may be compacted, unqueued |
| DurabilityRuns.RefusedYetQueued | tirbase-core/src/durability/mod.rs:228-248 | a registration refused by a full queue leaves an older entry of the delta in place |
| Revocation.RevocationSubsystem.AddSignature | tirbase-core/src/auth/revocation.rs:155-221 | one signature is added exactly when its manager is unrevoked, it verifies, the manager is new and the threshold is open |
| Revocation.AnswerIff | tirbase-core/src/auth/revocation.rs:155-221 | over every run the answer to one signature: refused for a revoked manager, failed if it does not verify, refused for one who signed before the threshold, else Applied from the M-th signer on and before it how many have signed of M |
| Revocation.RevocationSubsystem.ProcessIncomingDelta | tirbase-core/src/auth/revocation.rs:355-445 | accumulates all signatures, fires the effects once, and returns the store's status |
| Revocation.CountValid | tirbase-core/src/auth/revocation.rs:465-494 | counts the managers whose first listed signature is genuine |
| Revocation.RevocationSubsystem.ValidateRevocationDelta | tirbase-core/src/auth/revocation.rs:455-497 | accepts exactly when that count reaches M, without effects |
| Revocation.RunCollects | tirbase-core/src/auth/revocation.rs:155-238 | over every sequence of deltas the store holds the distinct genuine signers presented, up to M, and revoked means applied |
| Revocation.RevokedIffThreshold | tirbase-core/src/auth/revocation.rs:355-445 | a target is revoked if and only if at least M (one, if M = 0) distinct managers, unrevoked when accepted, presented genuine signatures; each is gossiped exactly once, whatever the order and batching |
| Revocation.StatusIff | tirbase-core/src/auth/revocation.rs:223-238 | over every run a target has no status before anyone signed, Applied from the threshold on, and in between Pending with the number of signers so far and M |
| Revocation.SignersAre | tirbase-core/src/auth/revocation.rs:163-179 | who signs: unrevoked managers whose key resolves and verifies one of the listed signatures |
| Revocation.RevokedStays | tirbase-core/src/auth/revocation.rs:415-440 | later deltas only extend the list of revoked targets |
| Revocation.EnoughSignersApply | tirbase-core/src/auth/revocation.rs:355-445 | a delta with M genuine signers is applied at once in every reachable state |
| Revocation.ValidatedIsApplied | tirbase-core/src/auth/revocation.rs:455-497 | for M at least 1, in every reachable state, what the validation accepts the processing applies |
| Revocation.CountedIffFirst | tirbase-core/src/auth/revocation.rs:465-494 | the validation counts exactly the unrevoked managers whose first listed signature is genuine |
| Revocation.AllCountIff | tirbase-core/src/auth/revocation.rs:455-497 | validation and processing count the same signers if and only if the first listed signature of every genuine signer is genuine |
| Revocation.ValidatesIff | tirbase-core/src/auth/revocation.rs:455-497 | the validation accepts if and only if the target is named and the genuine signers less the hidden ones reach M |
| Revocation.AcceptedNotAppliedIff | tirbase-core/src/auth/revocation.rs:455-497 | in every reachable state the validation accepts what the processing does not apply if and only if M is 0, the target is named and not revoked, and nobody has genuinely signed the delta |
| Revocation.AppliedNotAcceptedIff | tirbase-core/src/auth/revocation.rs:455-497 | in every reachable state the processing applies what the validation refuses if and only if the visible signers are fewer than M and all who have signed so far are enough |
| Revocation.GossipConvincesPeers | tirbase-core/src/auth/revocation.rs:251-261 | a complete delta carries exactly M distinct genuine signers, and any peer with the same M that has revoked none of them validates and applies it in one step |
| Revocation.ForgedFirstHidesSigner | tirbase-core/src/auth/revocation.rs:455-497 | the converse fails: a forged signature listed first hides a genuine one from the validation |
| Leb128.ReadU64 | tirbase-core/src/crdt/verify.rs:387-402 | finds the one terminated encoding at the position, its value and its end, or proves there is none; never reads past the end |
| Leb128.StepSpells | tirbase-core/src/crdt/verify.rs:387-402 | shift-and-or of one more byte spells one more base-128 digit modulo the word size |
| Leb128.WordEncodes | tirbase-core/src/crdt/verify.rs:387-402 | the encoding of every 64-bit word ends, fits ten bytes and spells the word |
| Leb128.EncodedReadsAs | tirbase-core/src/crdt/verify.rs:387-402 | every 64-bit word is read back from its encoding, whatever surrounds it, advancing by its length |
| Leb128.ReadsUnique | tirbase-core/src/crdt/verify.rs:387-402 | there is at most one encoding at a position |
| Leb128.ExidParts | tirbase-core/src/crdt/verify.rs:370-385 | returns counter and actor exactly when the bytes have the documented layout |
| Leb128.ParsedHead | tirbase-core/src/crdt/verify.rs:370-385 | what parses starts with a tag of serialisation version 0 that is not the root and has at least one byte for each number |
| Leb128.PrintedParses | tirbase-core/src/crdt/verify.rs:362-385 | every printed id parses to its own counter and actor and to nothing else |
| LwwOrder.BeatsIsStrictTotal | tirbase-core/src/crdt/mod.rs:1262-1273 | the rule is a strict total order on (Lamport, actor bytes) |
| LexOrder.LessIff | tirbase-core/src/crdt/mod.rs:1262-1273 | bytes are ordered by the first place where they differ, a proper prefix first |
| LwwOrder.BeatsIff | tirbase-core/src/crdt/mod.rs:1262-1273 | one write beats another if and only if its Lamport is higher, or on equal Lamports its actor has the greater byte at the first difference or extends the other |
| LwwOrder.WinnerIsGreatest | tirbase-core/src/crdt/mod.rs:1262-1273 | applying writes one by one ends with the greatest |
| LwwOrder.WinnerIsNewest | tirbase-core/src/crdt/mod.rs:1262-1273 | the winner has the highest Lamport of all writes and, among those with that Lamport, the greatest actor bytes |
| LwwOrder.WinnerOrderIndependent | tirbase-core/src/crdt/mod.rs:1262-1273 | the winner does not depend on order or repetition |
| LwwOrder.WinnerGroups | tirbase-core/src/crdt/mod.rs:1262-1273 | merging the winners of two groups gives the winner of all |
| LwwOrder.DefinitiveBeatsAll | tirbase-core/src/crdt/verify.rs:200-203 | over every run every write above the clock of a device beats every write it has stored if and only if the clock has reached all Lamports its process found stored when it started |
| Override.CaptureLww | tirbase-core/src/crdt/verify.rs:94-118 | captures exactly the keys with two different scalar writes, each once, sorted by key |
| Override.CaptureRga | tirbase-core/src/crdt/verify.rs:136-155 | captures one conflict for each pair of insertions behind one predecessor, local by local and incoming by incoming, as often as the loops meet it |
| Override.AllPairsHold | tirbase-core/src/crdt/verify.rs:136-155 | a conflict is captured exactly when its elements were inserted behind one predecessor, one in each document |
| Override.PairsInLoopOrder | tirbase-core/src/crdt/verify.rs:136-155 | the capture meets each pair of insertions behind one predecessor exactly once, local by local and within one in the order of the incoming ones |
| Override.SharedInsertionsConflict | tirbase-core/src/crdt/verify.rs:136-155 | an insertion both documents share is captured as a conflict of the element with itself |
| Override.OverrideScalar | tirbase-core/src/crdt/verify.rs:204-266 | one conflict is rewritten exactly when the local write won in the definitive zone; no other key changes; one outcome is counted |
| Override.ScalarTable | tirbase-core/src/crdt/verify.rs:204-266 | what one conflict adds to the report by the writer of the merged cell: a third writer is indeterminate, the incoming one only checked, the local one a divergence; a key that is gone adds nothing, and outside the definitive zone every cell is indeterminate |
| Override.CellAfter | tirbase-core/src/crdt/verify.rs:204-266 | the cell of a conflict changes only from the local write to the incoming value, in the definitive zone; a third writer's cell keeps its value |
| Override.OverrideScalars | tirbase-core/src/crdt/verify.rs:204-266 | rewrites exactly the keys where the local write won in the definitive zone, touches no other, and reports the counts |
| Override.ScalarReportAdds | tirbase-core/src/crdt/verify.rs:204-266 | the scalar report is the sum of what its conflicts add |
| Override.DivergencesAreOverrides | tirbase-core/src/crdt/verify.rs:204-266 | divergences are the keys where the local write won, and split into applied (the write succeeded) and failed |
| Override.OverrideList | tirbase-core/src/crdt/verify.rs:333-344 | the four edits in order, stopping at the first that fails |
| Override.ReorderedPair | tirbase-core/src/crdt/verify.rs:333-344 | for two distinct places: incoming directly before local at the lower place, everything else in its order |
| Override.KeepsValuesIff | tirbase-core/src/crdt/verify.rs:333-344 | an override keeps the list's values if and only if what it takes out is what it puts in |
| Override.OverrideLists | tirbase-core/src/crdt/verify.rs:271-352 | overrides use places looked up once before the loop; the lists and the report are those of that pass |
| Override.PlaceIsFirst | tirbase-core/src/crdt/verify.rs:271-309 | the places of a conflict are those in the first list that holds both elements; there are none exactly when no list does |
| Override.ListReportAdds | tirbase-core/src/crdt/verify.rs:284-352 | what one more list conflict adds to the report: nothing without a place, indeterminate outside the definitive zone, a plain check in the right order, else a divergence that is applied exactly when both places still exist |
| Override.SingleOverrideCorrects | tirbase-core/src/crdt/verify.rs:271-352 | one conflict of two distinct elements: order corrected, values kept, the other elements and lists untouched |
| Override.SharedElementOverride | tirbase-core/src/crdt/verify.rs:271-352 | the override of a shared element keeps the list's values if and only if an equal value follows it |
| Override.TwoConflictsKeepIff | tirbase-core/src/crdt/verify.rs:271-352 | after a first conflict in place, a second one in the same list keeps the values if and only if the two merged values that have moved to its places are the two it puts back |
| Override.SelfConflictFirstKeepsIff | tirbase-core/src/crdt/verify.rs:271-352 | after a shared insertion in conflict with itself, a second conflict in the same list restores or keeps the values if and only if what was overwritten and what it takes are, together, the doubled value and what it puts in |
| Override.SeparateConflictsCorrected | tirbase-core/src/crdt/verify.rs:271-352 | any number of conflicts, each in place or idle, that shift no place in common: every list keeps its values, each incoming value moves up to its place, everything else stays |
| Override.SeparatePairsOrdered | tirbase-core/src/crdt/verify.rs:271-352 | in such a pass each incoming value of a conflict in place ends directly before its local one |
| Override.SecondOverrideUsesStalePlaces | tirbase-core/src/crdt/verify.rs:271-283 | two captured conflicts, both in place, of which the second destroys a local element |
| Override.VerifyAndOverride | tirbase-core/src/crdt/verify.rs:192-355 | in the definitive zone every attributable scalar conflict whose write succeeds ends holding the incoming value; otherwise nothing changes; the report adds both passes |
| Override.SumAdds | tirbase-core/src/crdt/verify.rs:192-355 | the report of a read-back adds its two passes counter by counter |
| Override.IndeterminateChangesNothing | tirbase-core/src/crdt/verify.rs:271-352 | outside the definitive zone the lists are left alone |
| Contamination.BfsDescendantsRaw | tirbase-core/src/contamination/taint.rs:155-198 | the walk on the raw tables lists exactly the descendants, nearest first |
| Contamination.WalksAgree | tirbase-core/src/contamination/taint.rs:155-198 | the two walks list the same deltas |
| Contamination.CompositeMerge | tirbase-core/src/contamination/incident.rs:124-171 | union of roots, deltas and rows, the rows by key alone |
| Contamination.CausalContaminationEngine.AppendTag | tirbase-core/src/contamination/taint.rs:38-69 | one tag at the end of the log of one stored delta; nothing for an unknown one |
| Contamination.CausalContaminationEngine.StoreDelta | tirbase-core/src/crdt/dag.rs:128-190 | a delta is stored with an empty tag log, one already stored keeps its log; stored deltas and tag logs stay the same set |
| Contamination.CausalContaminationEngine.Taint | tirbase-core/src/contamination/mod.rs:105-166 | tags every descendant, flags every row, and builds the incident |
| Contamination.CausalContaminationEngine.TagContaminationRoot | tirbase-core/src/contamination/mod.rs:92-219 | opens an incident when no open one overlaps, else merges with one of those that do |
| Contamination.CausalContaminationEngine.Settle | tirbase-core/src/contamination/resolution.rs:123-167 | audits each incident of the root and decontaminates those whose roots are all resolved |
| Contamination.CausalContaminationEngine.WalkLateArrivals | tirbase-core/src/contamination/taint.rs:225-272 | tags exactly the descendants that are not in the snapshot |
| Contamination.CausalContaminationEngine.WalkIncidents | tirbase-core/src/contamination/resolution.rs:202-253 | late arrivals join each incident of the root with the tag its roots call for; which these are is `LateArrivals.VerifyBrings` |
| Contamination.CausalContaminationEngine.WalkComposites | tirbase-core/src/contamination/resolution.rs:255-300 | the same for each open composite of the root |
| Contamination.CausalContaminationEngine.DecomposeComposites | tirbase-core/src/contamination/resolution.rs:354-440 | decomposes every composite of the root, whatever its state, and registers each unresolved root again |
| Contamination.CausalContaminationEngine.RefreshIndex | tirbase-core/src/contamination/mod.rs:264-312 | points rows at the new incidents, then drops every entry that no longer taints |
| Contamination.CausalContaminationEngine.VerifyRoot | tirbase-core/src/contamination/mod.rs:225-315 | the whole verification for some order of the hash maps; a failed authorisation changes nothing; what it writes, tag by tag and delta by delta, is `LateArrivals.VerifyBrings`, `LateArrivals.VerifyJoins` and `LateArrivals.DecompositionLeaves` |
| Contamination.CausalContaminationEngine.CloseIncident | tirbase-core/src/contamination/resolution.rs:451-498 | closes exactly an open incident, audits it, and leaves tags and rows alone |
| LateArrivals.CloseMarks | tirbase-core/src/contamination/resolution.rs:451-498 | an open incident becomes Closed with one audit entry of the manager; nothing else changes, and any other incident is left as it was |
| IncidentGate.StepKeeps | tirbase-core/src/contamination/resolution.rs:92-315 | tagging, verifying, closing and DAG growth keep the decontamination gate and extend every log |
| IncidentGate.LogsOnlyGrow | tirbase-core/src/contamination/taint.rs:38-69 | between any two moments of a run every old tag log and audit log is a prefix of the new one; roots never change and incidents never shed a delta |
| IncidentGate.DecontaminationNeedsResolution | tirbase-core/src/contamination/resolution.rs:146-167 | in every reachable state a decontamination tag names an incident whose roots all carry a resolution |
| IncidentGate.VerifyClears | tirbase-core/src/contamination/resolution.rs:123-253 | when a verification resolves all roots of an incident, every stored live descendant of them carries its decontamination on return |
| IncidentGate.DecontaminatedIffResolved | tirbase-core/src/contamination/resolution.rs:123-253 | after a verification the stored descendants, late arrivals included, carry the decontamination if and only if all roots of the incident are resolved |
| LateArrivals.VerifyBrings | tirbase-core/src/contamination/resolution.rs:92-315 | for every delta and every tag, a verification appends the tag once or not at all: the resolution on the root; the decontamination of a fully resolved incident on what it holds and what its roots reach, of a fully resolved open composite on its late arrivals; for an incident or open composite with an unresolved root the contamination by the first unresolved root that reaches a delta outside its delta set; nothing else |
| LateArrivals.LateArrivalIsTainted | tirbase-core/src/contamination/resolution.rs:233-297 | a stored delta outside the delta set that an unresolved root of an incident, or of an open composite, reaches is newly tagged as contaminated by some such root |
| LateArrivals.VerifyJoins | tirbase-core/src/contamination/resolution.rs:202-300 | the delta set of an incident of the root in any state, and of an open composite of it, gains exactly what its roots reach, the unresolved ones alone while one is unresolved; all other delta sets stay |
| LateArrivals.DecompositionLeaves | tirbase-core/src/contamination/resolution.rs:354-440 | a decomposition numbers one open incident for each unresolved root of each composite of the root, in any state, with what that root reaches and every projected row, and no other |
| LateArrivals.VerifyAudits | tirbase-core/src/contamination/resolution.rs:123-167 | each incident of the root, in any state, gets one audit entry naming manager and root; no other incident is audited and no incident changes its state |
| LateArrivals.RunKeepsDistinct | tirbase-core/src/contamination/incident.rs:124-171 | the assumptions of these results hold in every reachable state; incidents and composites list each root once |
| IncidentGate.TagMarksExactlyDescendants | tirbase-core/src/contamination/mod.rs:105-130 | in every reachable state, tagging a root appends one contamination tag to each stored descendant and nothing anywhere else |
| IncidentAlgebra.TagOpens | tirbase-core/src/contamination/mod.rs:92-219 | without an overlap a tag numbers one open incident of the root with all it reaches and every projected row, points those rows at it, raises their flags, and changes no other incident |
| IncidentAlgebra.TagJoins | tirbase-core/src/contamination/mod.rs:167-219 | with an overlap the new incident and the one it met are both superseded by the composite numbered next; no other incident changes, and the flags of all projected rows are raised |
| IncidentAlgebra.TagJoinsAs | tirbase-core/src/contamination/incident.rs:124-171 | that composite is open, names its two sources in order, lists the roots and rows of the older first, holds the deltas of both, and takes over every row in the index |
| IncidentAlgebra.TagRunKeepsAlgebra | tirbase-core/src/contamination/mod.rs:151-219 | over tag-only runs open incidents are pairwise disjoint, a superseded one names a composite that lists it and holds its roots and deltas, a composite is the union of exactly two |
| IncidentAlgebra.EveryDeltaIsHeld | tirbase-core/src/contamination/mod.rs:151-219 | over tag-only runs every delta of any incident belongs to an open incident or composite |
| IncidentAlgebra.ChainsStayApartIff | tirbase-core/src/contamination/mod.rs:167-178 | tagging keeps all open chains disjoint if and only if the new one met at most one open incident and no open composite |
| IncidentAlgebra.ThirdTagStandsBesideComposite | tirbase-core/src/contamination/mod.rs:167-178 | tagging one root three times leaves an incident beside a composite with the same deltas |
| IncidentAlgebra.MergeKeepsKeys | tirbase-core/src/contamination/incident.rs:146-152 | a merge invents no row and loses no key |
| IncidentAlgebra.MergeKeepsRowsIff | tirbase-core/src/contamination/incident.rs:146-152 | a merge keeps every row if and only if no row reuses the key of another |
| IncidentAlgebra.MergeHoldsRowIff | tirbase-core/src/contamination/incident.rs:146-152 | a merge holds a row if and only if the first incident lists it or some row of the second brings it before its key is taken |
| IncidentAlgebra.MergeDropsSecondTable | tirbase-core/src/contamination/incident.rs:149 | two tables with one key: the row of the second is lost |
| IncidentAlgebra.RowMissedIff | tirbase-core/src/contamination/mod.rs:151-219 | tagging leaves a projected row unreported if and only if it merged with an open incident, the row was not reported before, the incident does not list it, and its key is taken wherever it is projected |
| IncidentAlgebra.LateRowIsMissed | tirbase-core/src/contamination/mod.rs:151-219 | a reachable run in which a row is flagged and not reported |
| RowIndex.ResolutionRegisters | tirbase-core/src/contamination/resolution.rs:354-440 | what decomposition adds, in terms of the state before: exactly the surviving roots, open and unresolved, with every row flagged again |
| RowIndex.ReportedAfterVerify | tirbase-core/src/contamination/mod.rs:240-315 | after a verification a row is reported if and only if a root survives in a composite and the row exists, or the incident in its slot still taints it; every entry names an open, unresolved incident |
| RowIndex.FlagAfterVerify | tirbase-core/src/contamination/resolution.rs:146-172 | the flag of a row after a verification: raised if a root survives and the row is projected, else cleared if an incident of the root, now resolved, holds the row, whatever other incidents hold it, else unchanged |
| RowIndex.SurvivorsKeepFlags | tirbase-core/src/contamination/resolution.rs:396-416 | when a root survives, every projected row is flagged, although flags were cleared earlier in the call |
| RowIndex.RunKeepsIndex | tirbase-core/src/contamination/mod.rs:213-216 | the assumptions of these results hold in every reachable state |
| RowIndex.VerifyHidesSharedRow | tirbase-core/src/contamination/mod.rs:286-312 | verifying the incident in a row's slot hides the row while an earlier open incident still taints it |
| RowIndex.TwoRootsShareOneRow | tirbase-core/src/contamination/mod.rs:213-216 | a reachable run in which that happens and the flag of the row is cleared too |

## Left out

- CrdtEngines.CrdtEngine.Apply: the read-back override that follows a document merge inside this call is not part of the contract, because it acts on document contents while the engine's document is the list of its changesets; it is proved for all documents in `Override`, with the engine's clock before the call as its parameter.
- Contamination.CausalContaminationEngine.Taint: every tag and flag write succeeds here, while the source drops the error of a single failing one and goes on, which leaves that delta untagged or that row unflagged; later walks pass it over, because the incident's snapshot holds it already.
- Contamination.CausalContaminationEngine.Settle: the same, for the decontamination tags and the cleared flags of one verification.
- Contamination.CausalContaminationEngine.WalkLateArrivals: the same, for the tags of late arrivals.
- CloudLedgers.NothingLost: the bytes of a queued entry, and those a refetch returns, are taken to decode to the delta of the entry's id, because the serialiser is not modelled; without that a cycle could commit another delta than the one it removes.
- The document library: a document is a list of merged changes, a map of root cells and lists of elements; how a merge picks winners and orders is a parameter.
- Cryptography and identity: signatures, key derivation, DIDs and tokens are flags on the data; manager authorisation is one flag.
- Storage: tables are maps and sets, calls are atomic, and locks, compression and serialisation are not modelled. The in-memory variants of the browser build are not part of this model; they differ: `insert` overwrites a stored node and repeats children, affected rows come from an index by delta, and no tips are taken.
- Time: timestamps, token expiry and the receipt times of revocations; device status records hold only times and payload and are left out with them.
- Listeners and gossip transport: a call to a listener is an entry in an event log or in the list of gossiped deltas; the call that taints the deltas of a revoked author follows it and is left out.
- The taint source and the audit details of an incident other than operation, manager and root; all sources take the same path.
- A restart of the contamination engine, whose incidents live in memory only: runs are those of one process. The same holds for the outbound queue and the ledger, the durability states and the revoked list, so `CloudLedgers.NothingLost`, `DurabilityRuns.TierFallsIff` and `Revocation.RevokedStays` speak of one process; only engines and their tables are started again here.
- Machine integers: clocks, counters and lengths are unbounded except in the LEB128 reader, where words are 64 bits wide; an actor length so large that position plus length wraps is treated as past the end.
- The floating-point comparison of the sector cap is one of real numbers.
- DAG node fields other than author and Lamport, and the lookups by author, schema and id.
- The tier subsystem holds quorum trackers as values; the tracker object is proved against the same functions.
- The tag listing and the tier queries, the recent-revocation listing, the one-of-one warning and the incident queries: they read one field each.
- Trust state, root authority, schema-version paths, migration quarantine, diagnostics and the SDK: data or small transitions without an algorithm of their own.
