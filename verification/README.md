# Fractonica, verified

This project models the stateful core of Fractonica in Dafny and proves what its design promises. Four components are
covered.

- The client operation store. Signed operations form a causal graph. The store keeps the heads, the visibility table and
  the projections incrementally, queues each operation for its peers under leases, and tracks media transfers.
  Every SQLite transaction is one atomic step on maps and sets. A run is any sequence of such steps.
- The capability evaluator. It is a recursive, budgeted, cycle-checked walk over grants. It is proved equivalent to an
  inductive definition of justified authority, and the theorems about chains are proved from that definition.
- The two blob stores. The node's upload store is a crash machine in which files and metadata change in separate durable
  steps. The client's download store has its own schedules with torn writes and crashes.
- Observing, authoring and committing an edit, and the loop that imports records after pairing.

Imperative code is imperative here: `EvaluationContext`, `ClientStore`, `BlobStore` and `ContentStore` are classes, and
their loops are proved against specification functions. The theorems are about those functions and their runs.

Digests and identifiers are natural numbers, compared as the fixed-width byte strings they stand for. SHA-256 is an
arbitrary function. The signature check is a field of the operation. Clocks, nonces, upload ids, lease ids and the signer
are parameters.

## Findings

- The controller of a bootstrapped space can append after all, once a member signs a link grant for it. The exact
  condition is that it holds a live grant of a member.
- The store compares a parent's entity and schema but not its space. Heads of a store without deletions stay exact, and
  every client history keeps one root and one visibility, whatever the parents. Five other claims can fail, each
  shown by a run, and each has an exact condition that can be checked before the step: a history keeps a head, has one
  schema, has at most 64 heads, has a root when it is a control-plane history, and the heads stay exact over a deletion.
- Forwarding drains a store if and only if its log respects the head cap in its own order. Runs without deletions, and
  runs with parents in their own space, always do. A foreign parent followed by a deletion can break it.
- The download store refuses all chunks if and only if a partial file is longer than the descriptor, or a blob of another
  length exists. This needs two descriptors that disagree on the length of one content id.
- The sync client appends nothing once the offset is the full length. It therefore reports completion without a blob, and
  the store marks the bytes local, if and only if the partial file is full but unpublished. A crash between the last
  write and publication leaves such a file, and empty content always counts as one. A caller that also sends the empty
  last slice always publishes.
- A partial file with wrong bytes makes the worker reject the transfer, although another pass would repair it.
- Recovery of the upload store succeeds if and only if no digest is shared at two lengths by stored blobs and unfinished
  uploads. Safety of what is stored needs no assumption on the digest.

## Files

| file | holds |
|---|---|
| Wrappers, Ordering, Operations | results, sorted lists, operations and what verification guarantees |
| Authorization, AuthorityChains, AuthorityTheorems, Bootstrap | the evaluator, its inductive meaning, and what follows |
| OperationGraph, GraphInvariants, EntityHistories | log and derived tables, their reference definition, histories |
| Outbox, MediaTransfers | delivery and transfer queues |
| TransferRuns | transfer leases over whole runs |
| ClientDatabase, StoreRuns, DeliveryRuns, DeliveryBatches | steps and runs of the whole store |
| ClientStore | the store as it runs |
| CommitAcceptance, Forwarding | when commits must succeed, and draining one store into another |
| Authoring, PairingMerge | edits from observed heads, and the import loop |
| BlobMachine, BlobEffects, BlobStore | the crash machine, its steps, and the upload store as it runs |
| ClientContent, Downloads | the download store, and the client and worker that drive it |
| Counterexamples | runs on which claims about histories, deletions and forwarding fail |

## Model

| member | source | states |
|---|---|---|
| `Ordering.BinarySearchIsMembership` | crates/fractonica-application/src/authorization.rs:441-454 | on a strictly sorted list the halving search behind the subset tests is exactly membership |
| `Authorization.EvaluationContext.ResolveSet` | crates/fractonica-application/src/authorization.rs:287-301 | resolves references in order to the specified result and visit count; the cycle stack on return equals the stack on entry, on every path |
| `Authorization.EvaluationContext.Resolve` | crates/fractonica-application/src/authorization.rs:303-320 | counts the visit, refuses over budget or on a cycle, restores the cycle stack on every path; always terminates |
| `Authorization.EvaluationContext.ResolveInner` | crates/fractonica-application/src/authorization.rs:322-393 | genesis anchoring, subject, revocation, window and issuer conjunction, with result and visits equal to the recursive specification |
| `Authorization.AuthorizeOperationForVisibility` | crates/fractonica-application/src/authorization.rs:132-163 | the running evaluator returns exactly the specified decision |
| `Authorization.AuthorizeCapabilityAction` | crates/fractonica-application/src/authorization.rs:171-194 | the running evaluator returns exactly the specified decision for a non-operation action |
| `AuthorityChains.EvalSound` | crates/fractonica-application/src/authorization.rs:303-393 | an accepted reference has an inductively justified chain down to the trusted genesis, of exactly the visits consumed |
| `AuthorityChains.EvalComplete` | crates/fractonica-application/src/authorization.rs:303-393 | an inductively justified chain whose unfolded tree fits the budget is accepted, with that visit count |
| `AuthorityChains.NeverItsOwnAncestor` | crates/fractonica-application/src/authorization.rs:303-320 | a justified chain never contains its own identifier again, so the cycle check refuses no valid chain |
| `AuthorityChains.AuthorizationIsExact` | crates/fractonica-application/src/authorization.rs:132-163 | an operation is authorized if and only if every reference has a justified permitting chain and the unfolded reference trees need at most 4096 visits |
| `AuthorityChains.ActionAuthorizationIsExact` | crates/fractonica-application/src/authorization.rs:171-194 | the same equivalence for capability actions |
| `AuthorityTheorems.AppendIsNeverAmplified` | crates/fractonica-application/src/authorization.rs:402-439 | every grant reachable through references from an authorized append permits that action, schema and visibility, at any distance |
| `AuthorityTheorems.ActionIsNeverAmplified` | crates/fractonica-application/src/authorization.rs:254-259 | every grant reachable from an authorized action holds that action |
| `AuthorityTheorems.DelegationDepthBoundsChains` | crates/fractonica-application/src/authorization.rs:415-439 | on any accepted path the depth-decreasing delegations are the root-most ones, at most as many as the root-most grant's depth, and below a link no grant issues or revokes |
| `AuthorityTheorems.DirectWindowsDecideAdmission` | crates/fractonica-application/src/authorization.rs:373-400 | an operation authorized at one time is authorized at time t if and only if t lies in the window of every directly referenced grant |
| `AuthorityTheorems.RevokingNeverAdmits` | crates/fractonica-application/src/authorization.rs:362-372 | adding revocations never turns a refusal into an acceptance |
| `AuthorityTheorems.RevokedAncestorRefuses` | crates/fractonica-application/src/authorization.rs:362-388 | revoking any grant on a reference path refuses the operation |
| `AuthorityTheorems.FewerReferencesStillAdmit` | crates/fractonica-application/src/authorization.rs:287-301 | dropping references from a nonempty list, or permuting them, never turns an acceptance into a refusal |
| `Bootstrap.EveryGrantIsMembership` | crates/fractonica-application/src/lib.rs:637-738 | in a space grown from an accepted bootstrap every live grant, at any distance, is a membership grant |
| `Bootstrap.WriterMayAlwaysAppend` | crates/fractonica-application/src/lib.rs:637-738 | the local writer may append every client schema at either visibility at every time while its grant is unrevoked |
| `Bootstrap.OnlyTheControllerAdministers` | crates/fractonica-application/src/authorization.rs:261-276 | no actor but the controller can revoke or issue anything beyond a workspace link, however the grants grow |
| `Bootstrap.AppendableExactlyWhenLinked` | crates/fractonica-application/src/authorization.rs:402-413 | an actor can append with one reference if and only if it holds a live justified grant for it; this is the exact condition for the controller too |
| `Bootstrap.ControllerAppendsOnlyAsLinkedMember` | crates/fractonica-application/src/authorization.rs:261-276 | whenever the controller appends, each reference is a membership grant that another member signed for it |
| `Bootstrap.LinkedControllerAppends` | crates/fractonica-application/src/authorization.rs:415-439 | counterexample: an accepted bootstrap and one link signed by the writer, after which the controller does append |
| `ClientStore.ValidateReferences` | crates/fractonica-client-sqlite/src/lib.rs:2847-2862 | the loops report exactly the first missing parent, then the first missing authorization |
| `ClientStore.ValidateTopology` | crates/fractonica-client-sqlite/src/lib.rs:2864-2912 | parent agreement, root uniqueness, initial tombstone and head cap, in the source's order |
| `ClientStore.InsertGraphRows` | crates/fractonica-client-sqlite/src/lib.rs:2914-2956 | the edge and head loops add every edge with its position, drop every named head, and add the new one |
| `ClientStore.Replay` | crates/fractonica-client-sqlite/src/lib.rs:2173-2194 | the rebuild loop computes the fold of the log, failing exactly where the fold fails |
| `GraphInvariants.AdmitKeepsInv` | crates/fractonica-client-sqlite/src/lib.rs:2914-3084 | an accepted operation keeps every derived table exactly what the stored operations determine |
| `GraphInvariants.RebuildRepresents` | crates/fractonica-client-sqlite/src/lib.rs:2173-2194 | replaying any legal log succeeds and yields the tables its operations determine, heads being the operations nobody names |
| `GraphInvariants.RebuildReproducesTables` | crates/fractonica-client-sqlite/src/lib.rs:2173-2194 | a replay reproduces edges, visibility and projections always, and the heads if and only if they were exact |
| `GraphInvariants.SameOperationsSameTables` | crates/fractonica-client-sqlite/src/lib.rs:2914-3084 | equal operation sets give equal heads, edges, visibility and projections, whatever the two arrival orders |
| `GraphInvariants.DeleteSucceedsExactly` | crates/fractonica-client-sqlite/src/lib.rs:430-489 | the graph tables let a space be deleted if and only if no remaining operation refers into it |
| `GraphInvariants.DeleteKeepsInv` | crates/fractonica-client-sqlite/src/lib.rs:430-489 | deleting a space commutes with the fold over the log; the heads stay exact if and only if no remaining operation was superseded only from inside the deleted space |
| `EntityHistories.AdmissionIsExact` | crates/fractonica-client-sqlite/src/lib.rs:2847-2912 | an operation is admitted if and only if it is legal after the stored ones and within the head cap |
| `EntityHistories.HeadsAfterAdmit` | crates/fractonica-client-sqlite/src/lib.rs:2914-2956 | the heads of any entity after an admission are the old ones minus the named parents, plus the new operation in its own entity |
| `EntityHistories.AdmitKeepsOthersHeaded` | crates/fractonica-client-sqlite/src/lib.rs:2864-2956 | another entity keeps a head if and only if not all of its heads are named as parents; a caller can check this first |
| `EntityHistories.RootIsUnique` | crates/fractonica-client-sqlite/src/lib.rs:2864-2912 | with any parents, no two operations of one history have no parents |
| `EntityHistories.OneRootOneVisibility` | crates/fractonica-client-sqlite/src/lib.rs:3017-3049 | with any parents, a history holding a client operation has exactly one root, of a client schema, and every visibility declared in it is the root's |
| `EntityHistories.OneRootOneSchemaOneVisibility` | crates/fractonica-client-sqlite/src/lib.rs:2864-2912 | with space-local parents every nonempty history, of the control plane too, has one root, one schema and one visibility |
| `EntityHistories.AdmitKeepsRooted` | crates/fractonica-client-sqlite/src/lib.rs:2864-2912 | after an admission the history has a root if and only if the operation is one or the history had one |
| `EntityHistories.AdmitKeepsSingleSchema` | crates/fractonica-client-sqlite/src/lib.rs:2864-2912 | an admission leaves the history with one schema if and only if every operation already in it has the new operation's schema; other histories keep theirs |
| `EntityHistories.AdmitKeepsHeadCap` | crates/fractonica-client-sqlite/src/lib.rs:2889-2956 | an admission leaves at most 64 heads if and only if fewer than 64 heads of its own history go unnamed; no other history gains a head |
| `EntityHistories.HeadCountBounded` | crates/fractonica-client-sqlite/src/lib.rs:2864-2912 | with space-local parents every nonempty history has between one and 64 heads |
| `EntityHistories.ReferencesComeEarlier` | crates/fractonica-client-sqlite/src/lib.rs:2847-2862 | parents and authorizations carry smaller local sequences than the operations naming them |
| `Counterexamples.ForeignChildEmptiesHistory` | crates/fractonica-client-sqlite/src/lib.rs:2851-2877 | counterexample: parents are not compared by space, so a run exists after which a foreign child has left another space's history without a head |
| `Counterexamples.SchemaCanSplit` | crates/fractonica-client-sqlite/src/lib.rs:2851-2877 | counterexample: a run after which one history holds two schemas and reading the entity fails as corrupt |
| `Counterexamples.HeadCapCanFail` | crates/fractonica-client-sqlite/src/lib.rs:2889-2912 | counterexample: a run after which one history has 65 heads, since named heads of other spaces are counted as consumed |
| `Counterexamples.DeletionCanHideHead` | crates/fractonica-client-sqlite/src/lib.rs:430-489 | counterexample: a deletion after which an operation nobody names is not a head, so a rebuild changes the store; before it a control-plane history had no root |
| `Counterexamples.DeletionCanUncap` | crates/fractonica-client-sqlite/src/lib.rs:430-489 | counterexample: a deletion after which the remaining log no longer respects the head cap in its own order |
| `Counterexamples.ForwardingCanFail` | crates/fractonica-client-sqlite/src/lib.rs:1580-1650 | counterexample: a sender with all rows due whose forwarding is refused, at any batch size and any clock |
| `ClientDatabase.RunKeepsInv` | crates/fractonica-client-sqlite/src/lib.rs:2203-2271 | after any sequence of transactions with any arguments, graph, outbox and media tables are well formed |
| `StoreRuns.NextKeepsExact` | crates/fractonica-client-sqlite/src/lib.rs:430-489 | one transaction keeps the heads exact if and only if it is not a deletion that hides a head |
| `StoreRuns.RebuildIsReplay` | crates/fractonica-client-sqlite/src/lib.rs:2173-2194 | in every reachable state a rebuild succeeds, leaves deliveries, transfers and the other tables untouched, and changes nothing if and only if the heads are exact |
| `StoreRuns.Convergence` | crates/fractonica-client-sqlite/src/lib.rs:2203-2271 | two stores that accepted the same operations in any orders, from any sources, between any other steps without deletions, agree on heads, edges, visibility and projections |
| `StoreRuns.ConvergenceAfterDeletions` | crates/fractonica-client-sqlite/src/lib.rs:430-489 | after any two runs, deletions included, equal surviving operations give equal edges, visibility and projections; beside exact heads on one side the heads agree if and only if the other side's are exact; and a rebuild makes all agree |
| `StoreRuns.RunKeepsHeaded` | crates/fractonica-client-sqlite/src/lib.rs:2864-2956 | over every run each stored operation was appended to an empty history or one with an open operation, in the order of the log, and every head is open |
| `StoreRuns.ClientHistoryInvariant` | crates/fractonica-client-sqlite/src/lib.rs:2847-3084 | after every run, with any parents and any deletions, every client history has exactly one root and one visibility |
| `StoreRuns.DagInvariant` | crates/fractonica-client-sqlite/src/lib.rs:2847-2956 | after every run of space-local commits, deletions and any other steps: heads are the operations nobody names, histories have one root, schema, visibility, and one to 64 heads |
| `StoreRuns.ReferencesHaveSmallerSequences` | crates/fractonica-client-sqlite/src/lib.rs:2847-2862 | after every run, references point to smaller local sequences |
| `StoreRuns.MediaInvariant` | crates/fractonica-client-sqlite/src/lib.rs:1217-1578 | after every run: waiting uploads are not local, local bytes mean complete downloads, complete means fully transferred, progress never exceeds the length, lease fields exactly while leased |
| `ClientStore.CommitTransaction` | crates/fractonica-client-sqlite/src/lib.rs:2203-2271 | verification, replay or conflict, references, topology, insertion, resources and queueing in the source's order, all or nothing |
| `ClientStore.ClientStore.Commit` | crates/fractonica-client-sqlite/src/lib.rs:676-687 | commits or rolls back whole; reports sequence, replay and queued peers of the new state |
| `ClientStore.ClientStore.DeleteWorkspace` | crates/fractonica-client-sqlite/src/lib.rs:430-489 | removes a space from every modelled table, or nothing exactly when a remaining operation refers into it |
| `ClientStore.ClientStore.RebuildDerivedState` | crates/fractonica-client-sqlite/src/lib.rs:2173-2194 | never fails on a reachable store, keeps the log, and makes the heads exact |
| `ClientStore.ClientStore.LeaseDue` | crates/fractonica-client-sqlite/src/lib.rs:1580-1650 | leases and returns the oldest due operations in order with their raised attempt counts |
| `ClientStore.ClientStore.LeaseDueResources` | crates/fractonica-client-sqlite/src/lib.rs:1263-1332 | leases the first due transfers in lease order and returns them as loaded after the lease, with attempts and progress |
| `ClientStore.ClientStore.FinishDelivery` | crates/fractonica-client-sqlite/src/lib.rs:1723-1760 | succeeds if and only if the time and error text are valid and the caller holds the row's lease; only then does the row change |
| `ClientStore.ClientStore.ReleaseLease` | crates/fractonica-client-sqlite/src/lib.rs:1672-1685 | afterwards no row of the peer carries the lease; returns how many did |
| `ClientStore.LeaseEach` | crates/fractonica-client-sqlite/src/lib.rs:1622-1648 | the row-by-row loop leases every selected row exactly once and fails exactly on an attempt overflow |
| `ClientStore.LeaseEachTransfer` | crates/fractonica-client-sqlite/src/lib.rs:1306-1330 | the same for transfers |
| `ClientStore.InsertResources` | crates/fractonica-client-sqlite/src/lib.rs:2490-2530 | the loop records every resource and link, refusing exactly a length that disagrees |
| `ClientStore.QueueResources` | crates/fractonica-client-sqlite/src/lib.rs:2532-2588 | the loop queues downloads and uploads per resource as specified, and nothing for remote commits |
| `DeliveryBatches.DuePositions` | crates/fractonica-client-sqlite/src/lib.rs:1603-1621 | the due rows are exactly the due operations of an enabled peer, in local-sequence order |
| `DeliveryBatches.BatchIsOldestDue` | crates/fractonica-client-sqlite/src/lib.rs:1603-1621 | a batch that leaves a due row behind is full and took only older rows |
| `DeliveryRuns.StepMovesRow` | crates/fractonica-client-sqlite/src/lib.rs:1580-1760 | every transaction moves every delivery row only along the row machine: queue, lease when due, finish or release by the holder, reset, acknowledge by source, remove |
| `DeliveryRuns.RowFieldsMatchState` | crates/fractonica-client-sqlite/src/lib.rs:1580-1760 | after every run lease fields exist exactly while leased and the acknowledgement time exactly once acknowledged |
| `DeliveryRuns.AcknowledgedIsAbsorbing` | crates/fractonica-client-sqlite/src/lib.rs:1723-1760 | an acknowledged row stays acknowledged over any run that does not delete its operation's workspace |
| `DeliveryRuns.SupersededHolderIsPowerless` | crates/fractonica-client-sqlite/src/lib.rs:1672-1760 | with fresh lease ids, a holder that lost a row can never change it again, over any run |
| `DeliveryRuns.LeaseIsExclusive` | crates/fractonica-client-sqlite/src/lib.rs:1580-1650 | if a leased row changed over a run, some step observed its expiry or explicitly ended that lease, and the row was untouched until then |
| `DeliveryRuns.RowChangesOnlyWhenTouched` | crates/fractonica-client-sqlite/src/lib.rs:1580-1760 | any row that changed over a run was found due, ended by its holder, reopened, acknowledged by its source, or removed, and was as before until then |
| `DeliveryRuns.RejectedIsParked` | crates/fractonica-client-sqlite/src/lib.rs:918-968 | a rejected row stays as it is until the peer's space is reopened, its source acknowledges it, or it is deleted |
| `DeliveryRuns.OutboxCoverage` | crates/fractonica-client-sqlite/src/lib.rs:2780-2845 | after every run each enabled push peer has a row for every client-schema operation announced in a space configured for it |
| `DeliveryRuns.PeerIsolation` | crates/fractonica-client-sqlite/src/lib.rs:834-987 | a peer that had a credential or a configured space whenever it was pushed to has no unacknowledged row outside its configured spaces |
| `MediaTransfers.SelectionIsLeast` | crates/fractonica-client-sqlite/src/lib.rs:1263-1332 | the leased transfers are the least due ones in lease order, as many as the limit allows |
| `MediaTransfers.ApplyResourceKeepsInv` | crates/fractonica-client-sqlite/src/lib.rs:2532-2621 | queueing after a commit keeps the transfer invariant and forgets nothing |
| `MediaTransfers.FinishTransferKeepsInv` | crates/fractonica-client-sqlite/src/lib.rs:1510-1578 | finishing keeps the invariant and ends the row; the bytes become local exactly for a completed download, which completes the other downloads, makes waiting uploads leasable from then on, and leaves every other row alone |
| `MediaTransfers.RequeueUploadsKeepsInv` | crates/fractonica-client-sqlite/src/lib.rs:955-984 | reopening a peer's uploads keeps the invariant |
| `TransferRuns.StepMovesRow` | crates/fractonica-client-sqlite/src/lib.rs:1217-1578 | every transaction moves every transfer row only along the row machine, and a failed one moves none |
| `TransferRuns.SupersededHolderIsPowerless` | crates/fractonica-client-sqlite/src/lib.rs:1334-1578 | with fresh lease ids, a worker that lost a transfer is refused on every later call, over any run |
| `TransferRuns.LeaseIsExclusive` | crates/fractonica-client-sqlite/src/lib.rs:1263-1332 | if a leased transfer changed over a run, some step acted as its holder, found it expired, made the bytes of a download local, or reopened for its peer a space that links the content, and the row was untouched until then |
| `CommitAcceptance.RunKeepsKnown` | crates/fractonica-client-sqlite/src/lib.rs:2490-2530 | over every run, each stored operation's resources are known under the lengths it declares |
| `CommitAcceptance.NewOperationIsCommitted` | crates/fractonica-client-sqlite/src/lib.rs:2203-2271 | a new operation that the graph admits and whose lengths agree is committed, from any known source |
| `CommitAcceptance.CommitQueuesUploads` | crates/fractonica-client-sqlite/src/lib.rs:2532-2621 | committing a new local or peer operation queues every resource for every other pushed peer with its space configured |
| `Forwarding.MirrorExtends` | crates/fractonica-client-sqlite/src/lib.rs:2203-2271 | applying the sender's next operation to a mirror of its log succeeds if and only if that operation respects the head cap in log order; otherwise the error is the head limit |
| `Forwarding.ForwardingIsExact` | crates/fractonica-client-sqlite/src/lib.rs:1580-1650 | from the state after any run with all rows due: the rounds succeed if and only if the part of the log they cover respects the head cap, fail only by the head limit, and on success the receiver holds exactly that part and exactly the rest of the log stays due, in order |
| `Forwarding.DrainedReceiver` | crates/fractonica-client-sqlite/src/lib.rs:2780-2912 | rounds that cover the log drain it if and only if the log respects the head cap, and then the receiver's tables equal the sender's if and only if the sender's heads are exact |
| `Forwarding.CausalForwarding` | crates/fractonica-client-sqlite/src/lib.rs:1580-1650 | after a run without deletions, or with space-local parents: no round is refused, the receiver holds exactly the first rounds*limit operations, and exactly the others stay due, in order |
| `Forwarding.ForwardingConverges` | crates/fractonica-client-sqlite/src/lib.rs:2780-2912 | after such a run, once the rounds cover the log, the receiver has the sender's heads, edges, visibility and projections |
| `Authoring.SortDedupIsSorted` | crates/fractonica-client/src/lib.rs:26-51 | sorting and deduplicating gives a strictly sorted list of the same identifiers |
| `Authoring.SortDedupIsCanonical` | crates/fractonica-client/src/lib.rs:61-99 | the result depends only on which identifiers were given |
| `Authoring.ContextIsCanonical` | crates/fractonica-client/src/lib.rs:26-51 | a context is accepted exactly for a real space and one to 64 distinct authorizations, and holds them sorted |
| `Authoring.EntityNeverCorrupt` | crates/fractonica-client-sqlite/src/lib.rs:1782-1829 | in every store reached by space-local commits reading an entity never fails, and it is absent exactly when its history is empty |
| `Authoring.ObservationNeverHitsCap` | crates/fractonica-client-runtime/src/lib.rs:1293-1318 | in every store reached by space-local commits an existing client entity is observable under its schema, with exactly its current heads |
| `Authoring.EditPassesTopology` | crates/fractonica-client-sqlite/src/lib.rs:2864-2912 | in every store, an edit of stored heads passes topology if and only if its entity has a head and fewer than 64 current heads were unobserved |
| `Authoring.UninterleavedEdit` | crates/fractonica-client-runtime/src/lib.rs:1113-1137 | in every store, with nothing interleaved the edit passes topology and leaves exactly one head |
| `Authoring.UninterleavedAdmission` | crates/fractonica-client-sqlite/src/lib.rs:2847-3084 | with nothing interleaved the edit is admitted if and only if its authorizations are stored and it declares no other visibility |
| `Authoring.InterleavedEdit` | crates/fractonica-client-sqlite/src/lib.rs:2864-2956 | after any interleaved steps: the parents are still stored unless the space was deleted; if they are, the cap condition is exact; and a commit makes the heads the current ones minus the observed, plus the edit |
| `Authoring.CommitAuthored` | crates/fractonica-client-runtime/src/lib.rs:1113-1137 | observe, author, commit: on success exactly that commit happened, on any failure the store is unchanged |
| `PairingMerge.MergeRecords` | crates/fractonica-client-runtime/src/lib.rs:1003-1039 | the batched cursor loop terminates and equals importing the original live rows one by one |
| `PairingMerge.NextBatch` | crates/fractonica-client-sqlite/src/lib.rs:1977-2035 | the batch query after the cursor returns exactly the next unvisited rows and is never corrupt |
| `PairingMerge.PairedContextIsReady` | crates/fractonica-client-runtime/src/lib.rs:997-1002 | the context built from the admitted grant meets what importing needs |
| `PairingMerge.ImportAllIsSafe` | crates/fractonica-client-runtime/src/lib.rs:1003-1039 | any number of imports, failed or not, leaves the operations, live rows and heads outside the destination space unchanged |
| `PairingMerge.MergeSucceedsExactly` | crates/fractonica-client-runtime/src/lib.rs:1018-1033 | in every store, the merge succeeds if and only if no entity has two live payloads and each is absent in the destination or readable there with that payload as sole head; otherwise it reports a collision, or corruption if the destination holds an unreadable history for a row |
| `PairingMerge.MergedRecordsAreSoleHeads` | crates/fractonica-client-runtime/src/lib.rs:1018-1033 | after a successful merge every live source payload is the sole head of the same entity in the destination |
| `PairingMerge.NothingIsImportedTwice` | crates/fractonica-client-runtime/src/lib.rs:1018-1033 | whatever is offered, however often, an entity's destination history is untouched or went from nothing to one operation |
| `PairingMerge.MergeIsRepeatable` | crates/fractonica-client-runtime/src/lib.rs:1003-1039 | after a stop at any row a rerun sees the same rows, completes, and a further run commits nothing |
| `BlobMachine.RunKeepsInv` | crates/fractonica-blob-store/src/lib.rs:168-322 | the crash invariant holds after every interleaving of uploads, torn writes, crashes and recovery steps |
| `BlobMachine.ContentIsAlwaysBacked` | crates/fractonica-blob-store/src/lib.rs:403-490 | at every point each descriptor has a blob of its length hashing to its id, and each non-active upload is named by the digest of its accepted chunks |
| `BlobEffects.PublishEnabled` | crates/fractonica-blob-store/src/lib.rs:441-490 | a finalizing upload can be published if and only if no blob of another length is stored under its digest; its file is there unless a blob is |
| `BlobEffects.FinishEnabled` | crates/fractonica-blob-store/src/lib.rs:419-439 | a published upload never conflicts with an existing descriptor |
| `BlobEffects.ResumeEffect` | crates/fractonica-blob-store/src/lib.rs:492-516 | a fully received active upload found by recovery always matches its declared digest |
| `BlobStore.Fetch` | crates/fractonica-blob-store/src/lib.rs:495-498 | a bounded query returns distinct candidates, and all of them when it comes back short |
| `BlobStore.BlobStore.CreateUpload` | crates/fractonica-blob-store/src/lib.rs:168-216 | refused exactly when too large or empty with a wrong digest; an empty upload is complete at once unless a nonempty blob has its digest, which is reported as corrupt |
| `BlobStore.BlobStore.AppendChunk` | crates/fractonica-blob-store/src/lib.rs:222-322 | the PATCH rule of tus 1.0.0 in exact cases: refused with nothing changed, a wrong last chunk with nothing committed, a last chunk whose digest names a blob of another length, or exactly the chunk appended at the committed offset, complete when full |
| `BlobStore.BlobStore.UploadRest` | crates/fractonica-blob-store/src/lib.rs:222-322 | feeding the rest from the committed offset in chunks of any allowed sizes, at any times that each come before the upload expires, ends complete under the digest of all accepted bytes |
| `BlobStore.BlobStore.InstallFinalFile` | crates/fractonica-blob-store/src/lib.rs:441-490 | moves the file to its digest or drops it for an existing blob; reports corruption, changing nothing, if and only if that blob has another length |
| `BlobStore.BlobStore.CompleteUpload` | crates/fractonica-blob-store/src/lib.rs:419-439 | adds the descriptor and closes the session, never conflicting |
| `BlobStore.BlobStore.RemoveOrphans` | crates/fractonica-blob-store/src/lib.rs:544-588 | removes exactly the staging files without a session |
| `BlobStore.BlobStore.DiscardUpload` | crates/fractonica-blob-store/src/lib.rs:598-612 | removes the staging file, then the session; each step keeps the crash invariant |
| `BlobStore.BlobStore.Recover` | crates/fractonica-blob-store/src/lib.rs:492-542 | from every state a crash can leave: terminates, keeps every descriptor, succeeds if and only if no two uploads needing finalization and no stored blob share a digest at different lengths, and then leaves no orphan, finalizing, fully received active or expired upload |
| `BlobStore.Restart` | crates/fractonica-blob-store/src/lib.rs:131-156 | opening the store on what any run of the machine left, crashed at any point, succeeds if and only if the same condition holds of the files found, and keeps every descriptor backed |
| `BlobStore.RecoveryCanFail` | crates/fractonica-blob-store/src/lib.rs:441-542 | counterexample: under a digest function that confuses two lengths, an empty and a one-byte upload leave a working store whose reopening fails |
| `ClientContent.PublishedBlobsAreExact` | crates/fractonica-client-content/src/lib.rs:245-276 | after any schedule with crashes a found blob has the declared length and digest, so skipping the digest check is sound |
| `ClientContent.ReadRangeIsSlice` | crates/fractonica-client-content/src/lib.rs:278-300 | a range read returns exactly the requested slice, clipped at the end, and fails exactly past the end |
| `ClientContent.StuckExactly` | crates/fractonica-client-content/src/lib.rs:176-190 | the store refuses every chunk of a download, for ever, if and only if the partial file is longer than declared or a blob of another length exists |
| `ClientContent.DownloadCanStick` | crates/fractonica-client-content/src/lib.rs:176-190 | counterexample: one chunk under a descriptor leaves the download of the same content under a shorter descriptor stuck, for every digest function |
| `ClientContent.DownloadCompletes` | crates/fractonica-client-content/src/lib.rs:192-243 | a caller that feeds true slices from the reported offset, the empty one at the full offset included, publishes exactly the true bytes, from any partial file not longer than the content |
| `ClientContent.AnyScheduleThenDownload` | crates/fractonica-client-content/src/lib.rs:176-325 | the same caller, after any schedule of appends, wrong offsets, failed digests, torn writes, imports and crashes that agree on lengths |
| `ClientContent.ContentStore.FindBlob` | crates/fractonica-client-content/src/lib.rs:245-276 | the cached answer equals the fully verified one |
| `ClientContent.ContentStore.FindOffset` | crates/fractonica-client-content/src/lib.rs:176-190 | reports the durable offset, or the exact error |
| `ClientContent.ContentStore.AppendDownloadChunk` | crates/fractonica-client-content/src/lib.rs:192-243 | appends at the durable offset, publishes or removes the last chunk's file, as specified |
| `ClientContent.ContentStore.ImportStream` | crates/fractonica-client-content/src/lib.rs:81-123 | the copy loop publishes exactly the concatenated source or leaves the files unchanged |
| `ClientContent.ContentStore.ImportNativeFile` | crates/fractonica-client-content/src/lib.rs:130-174 | the copy loop publishes the file under the digest and length it found |
| `ClientContent.ContentStore.ReadBlobRange` | crates/fractonica-client-content/src/lib.rs:278-300 | reads the specified range |
| `Downloads.DownloadContentChunk` | crates/fractonica-sync/src/lib.rs:1236-1300 | the sync client's round as specified: nothing at the full offset, otherwise one range of exactly the right size, appended at the reported offset |
| `Downloads.CompletionIsPublication` | crates/fractonica-sync/src/lib.rs:1249-1261 | whatever the peer answers, a round that reports completion comes with a published blob if and only if the content was not already full but unpublished |
| `Downloads.UnpublishedForever` | crates/fractonica-sync/src/lib.rs:1249-1261 | content that is full but unpublished stays so over any number of rounds with any peers, and every round reports it complete |
| `Downloads.ClientDownloadsExactly` | crates/fractonica-sync/src/lib.rs:1249-1300 | with truthful peers the client's rounds publish exactly the true bytes if and only if the content was not full but unpublished; otherwise they change nothing |
| `Downloads.AnyScheduleThenClient` | crates/fractonica-sync/src/lib.rs:1236-1300 | the same after any schedule with crashes that agrees on lengths; nonempty content is left unpublished only by a crash between the last write and publication |
| `Downloads.CrashLeavesUnpublished` | crates/fractonica-client-content/src/lib.rs:222-238 | counterexample: a crash after the last write and before publication leaves true bytes that the client reports complete and never publishes |
| `Downloads.EmptyContentIsUnpublished` | crates/fractonica-sync/src/lib.rs:1256-1261 | counterexample: without any crash the client reports empty content complete and never publishes it, though one empty chunk would |
| `Downloads.WorkSettlesExactly` | crates/fractonica-sync/src/lib.rs:543-606 | with truthful peers the worker always settles: it publishes if a blob is there or the partial file is a proper prefix, completes without a blob if full but unpublished, and rejects exactly otherwise |
| `Downloads.WrongByteIsRejected` | crates/fractonica-sync/src/lib.rs:543-606 | counterexample: one wrong byte left by an earlier peer makes the worker reject a transfer that further passes would complete |
| `Downloads.LocalMeansPublishedExactly` | crates/fractonica-sync/src/lib.rs:714-735 | after a completing round the store marks the bytes local, and they are there if and only if the content was not full but unpublished |

## Left out

- COSE signatures, Ed25519, SHA-256 and canonical encoding: the seal is a field, the hash an arbitrary function.
- Metadata maps, entity references and text limits of documents: they do not reach the tables modelled here.
- Lower-casing of sort texts is modelled for ASCII only; Unicode case folding is not.
- String limits count characters, not UTF-8 bytes.
- Media type, role and name of a resource: the first writer wins, so they are not part of convergence.
- Workspace rows, the active workspace, the local identity, and pull cursors.
- Storing a workspace: it is two remote commits in one transaction, so its states are reached by two commit steps.
- List, preview and count queries of the client store: read-only and single-branch.
- Peer configuration, requeueing and single-row media updates are modelled as steps on values, not as class methods.
- Order of the bounded recovery queries: any order is allowed, so every order is covered.
- Local sequence numbers, offsets and timestamps are unbounded; only the checked additions of the source are modelled.
- Coverage for a peer without credential and configured space: deleting its last space can widen its scope.
- File permissions, symbolic links, directory syncs and other I/O failures: an action is durable once it returns.
- File fingerprints of both blob stores: a verified blob is assumed unchanged until reopening.
- Concurrent calls on the client stores: every transaction or call is one step. Uploads of the node do interleave.
- Network transport, pairing handshake and endpoint validation. A peer's answer is bytes, a retryable or a final failure.
- The background worker, except for what it does with one download.
- The node's operation repository, HTTP routes and the user interfaces.
- ClientContent.DownloadCompletes: assumes that no other string of that length has the digest of the true bytes.
- Downloads.ClientDownloadsExactly: assumes the same.
- Downloads.WorkSettlesExactly: assumes the same, and that the peer keeps announcing the content.
- PairingMerge.MergeSucceedsExactly: assumes an honest signer, stored authorizations, and identifiers that determine content.
- StoreRuns.DagInvariant: assumes parents in the operation's own space, which the store does not check.
- Authoring.EntityNeverCorrupt: covers stores with parents in the operation's own space; otherwise reading can fail.
- Authoring.ObservationNeverHitsCap: covers stores with parents in the operation's own space, for the same reason.
- GraphInvariants.DeleteSucceedsExactly: does not model the foreign keys of the workspace and active-workspace tables.
- ClientStore.ClientStore.DeleteWorkspace: the same; an active workspace authorized from another space can also refuse.
- PairingMerge.ImportAllIsSafe: says nothing of the media and outbox rows that the imports add.
