# Verified model of the Stryi chain core

This project models the chain state machine of `stryi_core` and the algorithms beside it, and
proves what they keep. `dafny verify dfyconfig.toml` checks everything.

## What is modelled

**Blocks, undo and storage.** `UtxoProcessor` applies a block to the UTXO set through its net
effect and undoes it. `Storage` is the table view, `Transition` the three atomic transitions
(Genesis, Append, Reorganize), and `CanonicalChain` the invariant that ties every table to one
canonical chain: heights, bodies, work indexes, undo records, transaction locators, chain state
and the UTXO set, which is the replay of the chain from nothing. `Overlay` is the private view a
fork is validated and prepared on, and `Reorg` proves that one batched reorganization leaves the
store that rewinding tip first and appending block by block would leave. `LiveOutputs` says in
transaction fields alone what an applied block leaves and what the committed UTXO set holds, and
`TransitionGuards` what each transition stores and when it is refused.

**Consensus.** `ForkChoice` is a pure machine over the canonical chain and the buffered forks.
`Engine` is the class with the source's fields and loops; each `OnBlock` call is shown to take
exactly one step of that machine. `HeaviestBranch` says what becomes of every block its validator
accepts or refuses, and that over a whole run no accepted branch outweighs the canonical chain;
`ChainWeight` what that weight measures. `ChainIndex` and `Startup` cover the in-memory index and
its rebuilding after a restart, `Lifecycle` whole runs from an empty store and a second start.

**Validation and money.** `BlockRules` holds the static rules, `BlockDag` the in-block dependency
graph with its order check and execution layers, `BlockValidation` the checks against stored
UTXOs with fees and reward, and `Supply` and `Audit` what they imply: over every run the UTXO set
holds no more than the genesis allocations plus the subsidies of the canonical heights, and only
owners spend. `AcceptanceRules` restates what the validator accepts as rules over block fields and
stored entries.
`InBlockSpending` and `InputlessPayment` compare the validator with the rules its comments state.

**Difficulty.** `Asert` is the fixed-point target computation against its unbounded-integer
formula, following the aserti3-2d specification without compact rounding, and `AsertAccuracy` how
near its cubic comes to a power of two; `Difficulty` the threshold a branch demands, and the
timestamp rule with the miner's choice; `MedianTime` and `MedianWindow` the median of the last
eleven timestamps.

**Mempool.** `Digraph` has the graph walks, `ParentOrder` the exact condition under which the
ancestor walk lists parents before children, `Tracker` the dependency tracker with its
swap-removal, `MempoolStorage` the two outpoint indexes, `Selection` the filling of a block from
ranked packages, with `OutsideWalk` for what a package adds to an earlier selection, `Mempool`
admission with replacement, removal, expiry, block updates and the selection over the stored pool,
and `Candidate` the miner's block over a selection and the validator's answer to it.

**Merkle tree, address index, common ancestor.** `Merkle`, `AddressIndex` and `Lca`.

`Primitives`, `Arithmetic` and `Collections` are shared helpers; `ChainTypes` has the records.

## Assumptions of the model

- Hashes are ideal: a transaction id or block hash carries its own preimage, so equal hashes mean
  equal preimages. Genesis is the exception the source makes: it hashes to zero. In headers the
  Merkle root stands for the list of transactions; `Merkle.EqualRootsIff` says what the source's
  root determines, given collision-free hash functions, and `Merkle.RootCommits` that on lists
  without repetition it is the whole list.
- The validator may answer differently on every call. Fork choice relies on `ForkChoice.Sound`:
  a block accepted on a branch is well formed, applies to the set the branch leaves, and brings
  transaction ids that are new to the branch. The last of these is the one demand the repository's
  rules do not imply; `Audit.ValidatorIsSound` derives all three from those rules when every
  payment of an accepted block has at least one input.
- The wall clock, signature recovery, the fee required for a replacement and the ranking by fee
  rate are parameters, quantified over where they are used.

## Where the code and its comments differ

- The source accepts a payment without inputs and with zero-value outputs, so its transaction id
  can recur and its output can overwrite a live one. `InputlessPayment.InputlessPaymentBreaksUndo`
  gives two successive blocks that the whole validator accepts over any stored set;
  `UtxoProcessor.RewindBlocksRestoresIff` is the exact condition under which a sequence of blocks
  can be undone, and `CanonicalChain.AppendKeepsCanonical` the exact condition under which an
  append keeps the tables canonical.
- `validator/tx.rs` says that outputs created earlier in the block can be spent, but nothing ever
  fills the map it resolves them from. `InBlockSpending.AcceptsIff` says exactly where the code
  meets the documented rule: on the blocks in which no transaction spends an output of another.
  `InBlockSpending.ChainedPaymentsRejected` is a block that the rule allows and the code rejects.
  Selections carry a transaction's tracked ancestors with it, so the miner builds such blocks:
  `Candidate.LinkedNeverAccepted`, and `Candidate.StoredSelectionIff` for the converse.
- `get_with_ancestors` is documented as parent-first, and `get_best_transactions`, built from it,
  as a valid inclusion order. Neither holds of every mempool. `ParentOrder.ParentFirstIff` says
  exactly when the first does: take the parents of any node in the list in the order in which they
  were linked; a parent that no earlier one has already brought in must share no ancestor with
  those that have been. A transaction that spends from a parent and then from that parent's child
  breaks this (`Tracker.TrackDiamond`); named the other way round the two are listed in order.
  `Selection.RankingOrderIff` says when one selection is in order, `Selection.SelectionOrderIff`
  when every selection is. The sets are right, and `topological_order` does order parents first.
- A canonical block submitted again is answered as already included unless it is genesis, which
  the height check rejects first (`ForkChoice.CanonicalBlockAgain`). The verdict "buffered" means a
  stored fork exactly when the block's parent is known; an orphan gets the same verdict and is not
  stored (`ForkChoice.BufferedIsStored`).
- A Merkle root alone does not fix the list of leaves, nor their number. `Merkle.EqualRootsIff` is
  the exact condition for two lists to share a root, `Merkle.RepeatedTailCollides` the family of
  lists that do because a level is odd.

## Model

| member | source | states |
|---|---|---|
| `UtxoProcessor.ComputeNetEffect` | crates/stryi_core/src/transactions/utxo_processor.rs:41-70 | one pass over the block yields its net effect: outputs left behind, and outside inputs in order |
| `UtxoProcessor.DrainSpent` | crates/stryi_core/src/transactions/utxo_processor.rs:72-84 | draining the fetched entries succeeds exactly when no outside input repeats, and collects exactly the taken entries |
| `UtxoProcessor.ApplyRefinesFold` | crates/stryi_core/src/transactions/utxo_processor.rs:33-95 | if no live outpoint is overwritten, the net-effect form succeeds exactly when spending and adding transaction by transaction does, with the same final set |
| `UtxoProcessor.RewindRestoresIff` | crates/stryi_core/src/transactions/utxo_processor.rs:97-109 | rewinding an applied block always succeeds, and restores the original set if and only if no output it left landed on a live outpoint it did not spend |
| `UtxoProcessor.RewindBlocksRestoresIff` | crates/stryi_core/src/transactions/utxo_processor.rs:33-109 | rewinding an applied sequence of blocks with its undo records, last first, gives back the original set if and only if no block of the sequence left an output on a live outpoint it did not spend |
| `UtxoProcessor.ApplyBlocksSplit` | crates/stryi_core/src/transactions/utxo_processor.rs:33-95 | applying xs + ys is applying xs, then ys, with the undo records concatenated |
| `LiveOutputs.NetIsLiteral` | crates/stryi_core/src/transactions/utxo_processor.rs:41-70 | every entry a block leaves is an output of one of its transactions under that transaction's id and position, with that output's own value and recipient; it takes from outside only what its payments name, and all of that which it does not make |
| `LiveOutputs.AppliedLiterally` | crates/stryi_core/src/transactions/utxo_processor.rs:33-95 | over any set, an entry after a block is an old one unchanged or an output of the block with its own value and recipient; what the block does not make stays if and only if no payment of it takes it; what a payment takes was stored or made by the block |
| `LiveOutputs.ChainLive` | crates/stryi_core/src/transactions/utxo_processor.rs:33-95 | replaying a chain of distinct transaction ids leaves exactly the outputs it makes and does not take |
| `LiveOutputs.CanonicalEntries` | crates/stryi_core/src/storage/in_memory.rs:63-95 | in committed tables an outpoint holds a given entry if and only if a canonical transaction has that output, with that value and recipient, and no canonical payment names the outpoint |
| `Ledger.RepeatCannotSpend` | crates/stryi_core/src/transactions/mod.rs:31-46 | a payment with an input whose id occurred before cannot have live inputs |
| `Ledger.SpendingBlockIsNew` | crates/stryi_core/src/transactions/mod.rs:31-46 | a well-formed block of payments with inputs brings only ids that are new to the chain it applies to |
| `Ledger.NoDuplicateTxIds` | crates/stryi_core/src/transactions/mod.rs:31-46 | no transaction id occurs twice on a replayable chain of well-formed blocks whose payments all have inputs |
| `Ledger.TipOverwritesNothing` | crates/stryi_core/src/transactions/utxo_processor.rs:44-70 | on a replayable chain of distinct transaction ids no block overwrites a live outpoint, so every tip can be undone |
| `InputlessPayment.ZeroPaymentAccepted` | crates/stryi_core/src/consensus/validator/mod.rs:36-58 | the whole validator (static rules, order, signatures, values, reward) accepts such a block over any stored set when its payment's signature is recoverable and the subsidy covers its coinbase |
| `InputlessPayment.InputlessPaymentBreaksUndo` | crates/stryi_core/src/consensus/validator/tx.rs:70-126 | counterexample: over any stored set the validator accepts two successive blocks that carry one input-less payment, and rewinding the second then loses the output the first one made |
| `Storage.MemoryView.ApplyBlock` | crates/stryi_core/src/transactions/utxo_processor.rs:33-95 | on the table view: all or nothing, equal to the pure apply |
| `Storage.MemoryView.BatchGetUtxos` | crates/stryi_core/src/storage/mod.rs:165-181 | fetches the whole batch or fails on a missing outpoint |
| `Storage.MemoryView.BatchRemoveUtxos` | crates/stryi_core/src/storage/in_memory.rs:196-208 | removes a batch, or fails on a missing outpoint |
| `Storage.MemoryView.PutBlock` | crates/stryi_core/src/storage/in_memory.rs:212-234 | body, index, height and one locator per transaction, nothing else |
| `Storage.MemoryView.RemoveCanonicalBlock` | crates/stryi_core/src/storage/in_memory.rs:236-258 | removes the height and only the locators that still name the block; body, index and undo stay |
| `Transition.StageGenesis` | crates/stryi_core/src/storage/transition.rs:38-102 | first initialization, harmless repetition, or refusal |
| `Transition.StageAppend` | crates/stryi_core/src/storage/transition.rs:104-122 | state check, undo, block, work and state of one appended block |
| `Transition.DetachToAncestor` | crates/stryi_core/src/storage/transition.rs:219-267 | walks from the tip down to the ancestor and unlinks every block, tip first |
| `Transition.StageReorganization` | crates/stryi_core/src/storage/transition.rs:124-168 | the whole batched reorganization, with every refusal of the source |
| `Transition.InMemoryStorage.ApplyTransition` | crates/stryi_core/src/storage/in_memory.rs:63-95 | a transition commits completely or leaves the data as it was |
| `TransitionGuards.GenesisStores` | crates/stryi_core/src/storage/transition.rs:38-102 | an empty store takes exactly a block of the genesis shape, written out field by field, and then holds the given parameters, that block and the state of a chain of one |
| `TransitionGuards.DamagedHeadRefused` | crates/stryi_core/src/storage/transition.rs:269-302 | if the rows of the stored head disagree with the state or one another, every transition fails |
| `TransitionGuards.UninitializedRefused` | crates/stryi_core/src/storage/transition.rs:104-134 | without a stored state an append or a reorganization fails as uninitialized |
| `TransitionGuards.RemainsRefused` | crates/stryi_core/src/storage/transition.rs:78-82 | without a stored state a genesis fails where parameters or a block at height 0 remain |
| `TransitionGuards.ExtendsIff` | crates/stryi_core/src/storage/transition.rs:327-355 | the head moves to a block exactly when it is an ordinary block with a positive threshold, the next height and the head as parent, and the new state is its position, its timestamp, its height plus one and the added work |
| `TransitionGuards.ReorganizeAcceptsIff` | crates/stryi_core/src/storage/transition.rs:124-168 | over canonical tables a reorganization goes through if and only if it was prepared on the present head, names every detached block tip first down to a canonical ancestor, removes only live entries, and brings blocks that follow one another from there |
| `CanonicalChain.AppendKeepsChained` | crates/stryi_core/src/storage/transition.rs:104-122 | Append succeeds exactly on a block that links, applies and has a height left, and its result satisfies every table of the invariant for the longer chain |
| `CanonicalChain.AppendKeepsCanonical` | crates/stryi_core/src/storage/transition.rs:104-122 | the longer chain is canonical again, so that every block of it can be undone, if and only if the transaction ids of the appended block are new to the chain |
| `CanonicalChain.RewindTipKeepsCanonical` | crates/stryi_core/src/storage/transition.rs:219-267 | undoing the tip satisfies the invariant for the shorter chain and retains bodies, indexes and undo records |
| `CanonicalChain.GenesisIsCanonical` | crates/stryi_core/src/storage/transition.rs:38-102 | an empty store is initialized exactly by a valid genesis, and then satisfies the invariant |
| `CanonicalChain.GenesisRepeats` | crates/stryi_core/src/storage/transition.rs:45-76 | initializing again accepts exactly the same genesis and parameters and writes nothing |
| `CanonicalChain.LocatorsExact` | crates/stryi_core/src/storage/in_memory.rs:137-172 | the transaction index answers exactly for the canonical transactions, with their block and position |
| `CanonicalChain.AddWorkNeverFails` | crates/stryi_core/src/difficulty.rs:93-108 | along any chain of u64 height the 512-bit work sum cannot overflow |
| `CanonicalChain.WorkGrows` | crates/stryi_core/src/difficulty.rs:93-108 | cumulative work strictly grows along a chain |
| `CanonicalChain.ChainWorkBelow` | crates/stryi_core/src/block/mod.rs:220-235 | cumulative work is a function of the tip hash alone |
| `ChainWeight.WorkIsExpectedHashes` | crates/stryi_core/src/difficulty.rs:93-101 | the work of a block is 2^256 over its target plus one, rounded down, said with products |
| `ChainWeight.EasierTargetLighter` | crates/stryi_core/src/difficulty.rs:93-101 | a larger target never has more work |
| `ChainWeight.HarderChainHeavier` | crates/stryi_core/src/difficulty.rs:93-108 | of two linked chains of one length, the one whose thresholds are nowhere larger weighs at least as much |
| `ChainWeight.LongerChainHeavier` | crates/stryi_core/src/difficulty.rs:93-108 | at one threshold the longer of two linked chains weighs at least as much |
| `Overlay.OpenOverlay` | crates/stryi_core/src/consensus/forks/overlay.rs:46-82 | opens at the committed head over a known canonical ancestor, or fails |
| `Overlay.ForkDbOverlay.RewindBlock` | crates/stryi_core/src/consensus/forks/overlay.rs:84-125 | one rewound block: head, detached list and view change as a rewind of the base would |
| `Overlay.ForkDbOverlay.ReplayBlock` | crates/stryi_core/src/consensus/forks/overlay.rs:127-152 | one replayed block joins the branch with its undo record, and the view is the applied one |
| `Overlay.ForkDbOverlay.IntoDelta` | crates/stryi_core/src/consensus/forks/overlay.rs:154-186 | the delta holds exactly the net changes between base and view |
| `Overlay.NetChangesRebuild` | crates/stryi_core/src/consensus/forks/overlay.rs:154-186 | removing and putting the net changes rebuilds the view from the base |
| `Reorg.ReorganizeIsRewindAndReplay` | crates/stryi_core/src/storage/transition.rs:124-168 | one batched Reorganize of any well-formed branch succeeds exactly when rewinding each detached block tip first and then appending each branch block does, and leaves the same store, which is canonical if and only if the branch repeats no transaction id |
| `Reorg.PreparedEqualsAppended` | crates/stryi_core/src/storage/transition.rs:153-165 | attaching prepared blocks writes what appending them one by one writes, repeated transaction ids included |
| `Reorg.DetachCanonical` | crates/stryi_core/src/storage/transition.rs:219-267 | detaching any suffix of a canonical chain succeeds and lists it tip first |
| `ChainIndex.Index.Insert` | crates/stryi_core/src/consensus/index.rs:36-61 | adds one entry and makes it the tip when it is the heaviest |
| `ChainIndex.Index.Remove` | crates/stryi_core/src/consensus/index.rs:63-74 | removes one entry and re-scans only when the tip went |
| `ChainIndex.Index.RecomputeTip` | crates/stryi_core/src/consensus/index.rs:97-113 | the scan ends at a heaviest entry |
| `ChainIndex.MirrorsInsert` | crates/stryi_core/src/consensus/index.rs:36-61 | inserting the next block keeps the index an exact mirror of the chain |
| `ChainIndex.MirrorsRemoveTip` | crates/stryi_core/src/consensus/index.rs:63-113 | dropping the tip and re-scanning finds the parent |
| `ChainIndex.MirrorsUnique` | crates/stryi_core/src/consensus/index.rs:20-24 | a chain has only one mirroring index |
| `ForkChoice.RefStepKeeps` | crates/stryi_core/src/consensus/engine.rs:372-571 | every step keeps every fork non-empty, linked from a canonical ancestor, keyed by its last block, replayable, off the canonical chain, disjoint from other forks, with its branch's work and not heavier than the tip |
| `ForkChoice.RunSafe` | crates/stryi_core/src/consensus/engine.rs:573-631 | the invariant holds over every run, and canonical work never falls |
| `ForkChoice.CommitIffHeavier` | crates/stryi_core/src/consensus/engine.rs:299-336 | the canonical chain changes exactly on the two committing verdicts, to a strictly heavier one ending in the submitted block; other outcomes but buffering change nothing |
| `ForkChoice.FailureCauses` | crates/stryi_core/src/consensus/engine.rs:299-336 | a call fails only because its validator could not read storage or no height is left, and changes nothing |
| `ForkChoice.GenesisAgainRejected` | crates/stryi_core/src/consensus/engine.rs:132-146 | a genesis block submitted to any state is rejected by the height check and changes nothing |
| `ForkChoice.CanonicalBlockAgain` | crates/stryi_core/src/consensus/engine.rs:573-631 | a canonical block submitted again changes nothing, and is answered as already included if and only if it is not genesis |
| `ForkChoice.ForkBlockAgain` | crates/stryi_core/src/consensus/engine.rs:573-631 | a block of a buffered fork submitted again is answered as known in the fork tree and changes nothing |
| `ForkChoice.BufferedIsStored` | crates/stryi_core/src/consensus/engine.rs:573-631 | a block answered as buffered is stored as a fork if and only if its parent is known; otherwise nothing changes |
| `HeaviestBranch.AcceptedBlockKept` | crates/stryi_core/src/consensus/engine.rs:299-486 | a block its validator accepts is committed with its whole branch if the branch is heavier than the chain, and kept as a fork in place of the one it extends if not; the verdict carries the new head, the branch as attached and the replaced blocks, tip first; only the last u64 height cannot be committed |
| `HeaviestBranch.AcceptedNotHeavier` | crates/stryi_core/src/consensus/engine.rs:420-486 | after a call the canonical chain weighs at least what the accepted branch does |
| `HeaviestBranch.RefusedBlockDropped` | crates/stryi_core/src/consensus/engine.rs:299-336 | a refusal by the validator changes nothing and is the verdict, unless storage could not be read |
| `HeaviestBranch.WrongHeightRejected` | crates/stryi_core/src/consensus/engine.rs:132-146 | a block on a known parent whose height is not the next one is rejected and changes nothing |
| `HeaviestBranch.OrphanNotKept` | crates/stryi_core/src/consensus/engine.rs:573-631 | a new block whose parent is neither canonical nor the last block of a fork is answered as buffered and not kept |
| `HeaviestBranch.RunHeaviest` | crates/stryi_core/src/consensus/engine.rs:573-631 | after any run the canonical chain weighs at least what every branch does that a validator accepted on the way |
| `ForkPreparation.BuildForkOverlay` | crates/stryi_core/src/consensus/engine.rs:338-368 | the overlay is rewound to the ancestor; no lookup fails on a canonical store |
| `ForkPreparation.ReplayAll` | crates/stryi_core/src/consensus/engine.rs:514-525 | replaying a valid branch on the overlay never fails |
| `ForkPreparation.BranchIsView` | crates/stryi_core/src/consensus/forks/overlay.rs:189-270 | what the validator sees through the overlay is the branch's replayed set, bodies and heights |
| `ForkPreparation.DeltaPrepared` | crates/stryi_core/src/consensus/engine.rs:492-536 | the delta of a replayed overlay meets the contract the transition relies on |
| `Engine.ClassifyAgrees` | crates/stryi_core/src/consensus/classify.rs:47-101 | the successive tests compute where the block goes relative to chain and forks |
| `Engine.HeightAgrees` | crates/stryi_core/src/consensus/engine.rs:132-146 | the height check is the parent's height plus one whenever the parent is known |
| `Engine.ConsensusEngine.SumBranch` | crates/stryi_core/src/consensus/engine.rs:502-512 | cumulative work of every branch prefix |
| `Engine.ConsensusEngine.DropStaleForks` | crates/stryi_core/src/consensus/engine.rs:545-554 | exactly the forks that lost their ancestor or a block to the new chain go |
| `Engine.ConsensusEngine.PerformReorg` | crates/stryi_core/src/consensus/engine.rs:491-571 | all tables, the index and the forks move to the heavier branch together, or nothing moves |
| `Engine.ConsensusEngine.HandleExtendCanonical` | crates/stryi_core/src/consensus/engine.rs:299-336 | a block on the tip takes the machine's step |
| `Engine.ConsensusEngine.HandleCreatesFork` | crates/stryi_core/src/consensus/engine.rs:372-418 | a block below the tip takes the machine's step |
| `Engine.ConsensusEngine.HandleExtendsFork` | crates/stryi_core/src/consensus/engine.rs:420-489 | a block on a fork takes the machine's step |
| `Engine.ConsensusEngine.OnBlock` | crates/stryi_core/src/consensus/engine.rs:573-631 | each call is one step of the fork-choice machine; a commit leaves the store rewind-and-replay would leave, anything else leaves store and index unchanged |
| `Startup.CollectAncestry` | crates/stryi_core/src/consensus/engine.rs:167-234 | the downward walk returns the stored ancestry, genesis first |
| `Startup.BuildChainIndex` | crates/stryi_core/src/consensus/engine.rs:150-278 | both phases compute the rebuilt index or its error |
| `Startup.BuildSucceedsIff` | crates/stryi_core/src/consensus/engine.rs:150-278 | startup succeeds exactly on tables that hold a chain in the stored shape |
| `Startup.RestartRebuildsIndex` | crates/stryi_core/src/consensus/engine.rs:150-278 | from canonical tables startup succeeds and yields exactly the live index |
| `Lifecycle.InitializeStore` | crates/stryi_core/src/storage/transition.rs:38-102 | a fresh store accepts exactly a valid genesis, and then holds it and the given parameters |
| `Lifecycle.OpenEngine` | crates/stryi_core/src/consensus/engine.rs:58-77 | an engine opened on canonical tables is valid, with no forks |
| `Lifecycle.RunEngine` | crates/stryi_core/src/consensus/engine.rs:573-631 | a run of the engine is a run of the machine; afterwards a restart would rebuild the live index, the UTXO set is the replay of the canonical chain, and genesis and parameters are as they were |
| `Lifecycle.StartRunStart` | crates/stryi_core/src/storage/transition.rs:38-102 | after genesis and any run the same genesis with the same parameters is accepted again and leaves the tables as they are |
| `BlockDag.DependencyGraph.Build` | crates/stryi_core/src/dependencies.rs:26-78 | fails exactly when two transactions create one outpoint; otherwise index, edges and external inputs are exact |
| `BlockDag.DependencyGraph.ValidateOrder` | crates/stryi_core/src/dependencies.rs:81-101 | accepts exactly when no input repeats or was reserved before and every in-block creator precedes its users |
| `BlockDag.DependencyGraph.GetParallelExecutionGroups` | crates/stryi_core/src/dependencies.rs:119-149 | the layering loop ends on every built graph; group g is exactly the transactions of dependency level g |
| `BlockDag.LayersPartition` | crates/stryi_core/src/dependencies.rs:119-149 | every transaction is in the groups, at exactly one place |
| `BlockDag.LayersRespectDependencies` | crates/stryi_core/src/dependencies.rs:119-149 | whatever a transaction depends on is in a strictly earlier group |
| `BlockDag.OrderedEffect` | crates/stryi_core/src/transactions/utxo_processor.rs:41-70 | in an ordered block the net effect takes from outside only what the block does not create |
| `BlockDag.OrderedBlockApplies` | crates/stryi_core/src/dependencies.rs:26-101 | if the order check accepts and the external inputs are stored, applying the block succeeds |
| `BlockValidation.SubsidyIsFormula` | crates/stryi_core/src/consensus/rules.rs:50-65 | the saturating u64 arithmetic computes the documented formula exactly, and the initial subsidy at every height when the interval is zero |
| `BlockValidation.SubsidyNeverGrows` | crates/stryi_core/src/consensus/rules.rs:50-65 | the subsidy never grows with height |
| `BlockValidation.CheckInputs` | crates/stryi_core/src/consensus/validator/tx.rs:83-108 | accepts exactly unreserved, resolved, owned inputs whose sum fits, and returns that sum |
| `BlockValidation.ValidateTransaction` | crates/stryi_core/src/consensus/validator/tx.rs:28-126 | accepts exactly what the per-kind rules allow |
| `BlockValidation.ValidateGroup` | crates/stryi_core/src/consensus/validator/block.rs:187-197 | a layer is accepted exactly when each member is; reservations never clash |
| `BlockValidation.CalculateTotalFees` | crates/stryi_core/src/consensus/validator/tx.rs:130-178 | total fees, failing exactly where a checked operation does |
| `BlockValidation.ValidateTransactions` | crates/stryi_core/src/consensus/validator/block.rs:133-226 | the method with its graph, groups and reward rule accepts exactly Accepts |
| `AcceptanceRules.PaymentRuleIff` | crates/stryi_core/src/consensus/validator/tx.rs:70-126 | a payment passes if and only if all it names is stored, its signature recovers to the owner of each, and what it takes covers what it gives and fits u64 |
| `AcceptanceRules.FeesAreSurplus` | crates/stryi_core/src/consensus/validator/tx.rs:130-178 | the total fee is what the payments take and do not give, and fails exactly where that passes u64 |
| `AcceptanceRules.AcceptsIffRules` | crates/stryi_core/src/consensus/validator/block.rs:132-226 | a block is accepted if and only if no two transactions make the same outputs, no outpoint is named twice, every input is stored and not made by the block, every payment meets its rule, and a single coinbase output claims at most subsidy plus surplus |
| `AcceptanceRules.AcceptedAreSigned` | crates/stryi_core/src/consensus/validator/tx.rs:83-108 | whatever a payment of an accepted block takes is stored, and its signature recovers to that entry's owner |
| `AcceptanceRules.ForeignInputRejected` | crates/stryi_core/src/consensus/validator/tx.rs:95-100 | one input that is not stored or not owned by the signer keeps the whole block out |
| `AcceptanceRules.LeavesSigned` | crates/stryi_core/src/consensus/validator/tx.rs:70-126 | along an accepted chain an entry leaves the set only by a payment its owner signed |
| `Supply.AcceptedIndependent` | crates/stryi_core/src/consensus/validator/block.rs:138-145 | since the validator never records in-block outputs, accepted blocks spend only stored outputs and have one layer |
| `InBlockSpending.AcceptsIff` | crates/stryi_core/src/consensus/validator/tx.rs:22-30 | the acceptance the validator documents, with in-block outputs resolvable, and the one it has agree exactly on the blocks in which no transaction spends an output of the same block |
| `InBlockSpending.ChainedPaymentsRejected` | crates/stryi_core/src/consensus/validator/block.rs:132-152 | counterexample: a coinbase, a payment of a stored output and a payment of that payment's output pass the header, structure and documented rules and are rejected |
| `Supply.AcceptedEffect` | crates/stryi_core/src/consensus/validator/block.rs:133-153 | an accepted block applies, removing its payments' inputs and adding all its outputs |
| `Supply.FeeBalance` | crates/stryi_core/src/consensus/validator/tx.rs:130-178 | fees plus all outputs equal all inputs plus what non-payments mint |
| `Supply.ValueConserved` | crates/stryi_core/src/consensus/validator/block.rs:199-226 | an accepted block changes the total value by its coinbase less its fees, so by at most its subsidy |
| `Supply.SupplyBound` | crates/stryi_core/src/consensus/rules.rs:50-65 | along an accepted chain the UTXO set never holds more than the genesis allocations plus the subsidies |
| `Audit.RefStepAudits` | crates/stryi_core/src/consensus/engine.rs:299-486 | whatever validators vouch for holds of every block of every branch, against the set its parent left, after every step |
| `Audit.ValidatorIsSound` | crates/stryi_core/src/consensus/validator/mod.rs:28-58 | the repository's validator, once payments must have inputs, vouches for all that fork choice relies on, new transaction ids included |
| `Audit.ValidatesIffRules` | crates/stryi_core/src/consensus/validator/mod.rs:28-58 | the whole validator beside thresholds and timestamps, in block fields: root, threshold, a coinbase naming the block's height and parent, payments after it, no repeated transaction, and the rules for inputs, owners and values |
| `Audit.SupplyBoundedOverRuns` | crates/stryi_core/src/consensus/engine.rs:573-631 | over any run of blocks, forks and reorganizations from genesis the money supply stays within genesis allocations plus subsidies |
| `Audit.OnlyOwnersSpend` | crates/stryi_core/src/consensus/engine.rs:573-631 | over any run from genesis, an entry that a canonical block removes was taken by a payment in it that the entry's owner signed |
| `Asert.AsertIsClampedFormula` | crates/stryi_core/src/difficulty/asert.rs:8-53 | defined exactly on valid parameters, and then equal to the clamped unbounded formula, in [1, cap], for every drift |
| `Asert.NoBitLost` | crates/stryi_core/src/difficulty/asert.rs:37-44 | the shifted product fits 512 bits inside the cutoffs |
| `Asert.FactorBounds` | crates/stryi_core/src/difficulty/asert.rs:29-35 | the cubic fits u128 and the factor is in [2^16, 2^17) |
| `Asert.AsertMonotone` | crates/stryi_core/src/difficulty/asert.rs:25-52 | more drift never gives a smaller target |
| `Asert.WholeHalfLivesDouble` | crates/stryi_core/src/difficulty/asert.rs:25-52 | n half-lives of drift scale the initial target by 2^n, floored and clamped |
| `AsertAccuracy.FactorsMultiplyToTwo` | crates/stryi_core/src/difficulty/asert.rs:29-35 | over the two parts of one half-life the fixed-point factors multiply to two, to within one part in 3500 |
| `Difficulty.ThresholdOnBranch` | crates/stryi_core/src/difficulty.rs:255-321 | on a branch whose blocks met the thresholds computed on the views they were validated with, the computation never fails and equals the schedule anchored at height 1 |
| `Difficulty.ThresholdsFollowIff` | crates/stryi_core/src/consensus/validator/header.rs:87-112 | the threshold check passes at every block of a branch, each on its own view, if and only if every block carries the schedule of its parent |
| `Difficulty.ScheduleSteers` | crates/stryi_core/src/difficulty.rs:255-321 | a branch whose block n came exactly targetSpacing * (n - 1) seconds after block 1 keeps the initial threshold, a slower one never demands a smaller threshold, a faster one never a larger one, and it stays in [1, max] |
| `Difficulty.LaterNeverHarder` | crates/stryi_core/src/difficulty.rs:255-321 | of two branches over one block 1, the one that reached height n later never demands the smaller threshold |
| `Difficulty.DelayDoubles` | crates/stryi_core/src/difficulty.rs:255-321 | a branch q half-lives behind its schedule has the initial threshold times 2^q, rounded down and kept in [1, max] |
| `Difficulty.ThresholdIffAnchor` | crates/stryi_core/src/difficulty.rs:255-321 | on a linked branch there is a threshold above genesis if and only if block 1 carries the initial one |
| `Difficulty.OffBranchFails` | crates/stryi_core/src/difficulty.rs:255-321 | a parent that its own height does not lead back to has no threshold |
| `Difficulty.AcceptedTimesAdvance` | crates/stryi_core/src/consensus/validator/header.rs:62-84 | blocks accepted under the timestamp rule are each later than their parent's median time past |
| `Difficulty.MinerTimestampExact` | crates/stryi_node/src/miner/mod.rs:311-322 | the miner takes the earliest allowed timestamp not before now, allowed being after the median and at most 120 seconds ahead, and gives up exactly when none is |
| `MedianTime.SortPrefix` | crates/stryi_core/src/difficulty.rs:89 | sorts the collected prefix in place |
| `MedianTime.MedianTimePast` | crates/stryi_core/src/difficulty.rs:55-91 | the walk, its failures and the upper median |
| `MedianTime.MedianReaches` | crates/stryi_core/src/difficulty.rs:89-90 | the median reaches m exactly when the upper half of the window does |
| `MedianTime.MedianOnBranch` | crates/stryi_core/src/difficulty.rs:55-91 | on a linked branch it never fails and takes the last eleven |
| `MedianWindow.MedianDefinedIff` | crates/stryi_core/src/difficulty.rs:55-91 | there is a median if and only if stored headers lead from the parent down to genesis, or through eleven, without a gap |
| `MedianWindow.MedianOfLastEleven` | crates/stryi_core/src/difficulty.rs:55-91 | on a linked branch the median reaches m exactly when at least half, rounded up, of the last eleven timestamps do |
| `MedianTime.MedianNeverDecreases` | crates/stryi_core/src/difficulty.rs:55-91 | it never decreases along a branch whose blocks pass the timestamp rule, while the window grows and after |
| `Digraph.BreadthFirst` | crates/stryi_core/src/mempool/dependencies.rs:77-102 | finds exactly the reachable nodes, each once |
| `Digraph.GatherWithAncestors` | crates/stryi_core/src/mempool/dependencies.rs:105-121 | finds the start and exactly what reaches it, each once, start last |
| `Digraph.GatherNotParentFirst` | crates/stryi_core/src/mempool/dependencies.rs:47-58 | counterexample: the documented parent-first order of get_with_ancestors does not hold on one small acyclic graph |
| `ParentOrder.GatherIsVisit` | crates/stryi_core/src/mempool/dependencies.rs:105-121 | the stack walk visits start and then, parent by parent in link order, each parent with everything above it not visited yet |
| `ParentOrder.ParentFirstIff` | crates/stryi_core/src/mempool/dependencies.rs:47-58 | on any acyclic graph gathering lists parents before children if and only if, at every listed node, each parent that is new when its turn comes shares no ancestor with the earlier parents |
| `OutsideWalk.GatheringOutside` | crates/stryi_core/src/mempool/dependencies.rs:105-121 | leaving a parent-closed set out of a gathered list is gathering along the edges that do not come out of the set |
| `Digraph.DfsTopo` | crates/stryi_core/src/mempool/dependencies.rs:123-139 | the post-order visit finishes every node after all its targets |
| `Digraph.TopologicalSort` | crates/stryi_core/src/mempool/dependencies.rs:60-75 | every node once, each before its targets, on any acyclic graph |
| `Tracker.RemovalLinks` | crates/stryi_core/src/mempool/dependencies.rs:34-41 | swap-removal of a node removes exactly its transaction and links from the graph |
| `Tracker.RemovalAcyclic` | crates/stryi_core/src/mempool/dependencies.rs:34-41 | and keeps the graph acyclic |
| `Tracker.DependencyTracker.AddTransaction` | crates/stryi_core/src/mempool/dependencies.rs:19-32 | on any state: one node, its index entry, and one edge from each indexed parent in the order given; for an untracked transaction that is not its own parent the graph gains exactly it and its links, stays acyclic, and the index stays exact |
| `Tracker.DependencyTracker.RemoveTransaction` | crates/stryi_core/src/mempool/dependencies.rs:34-41 | removes one transaction and rebuilds the index exactly |
| `Tracker.DependencyTracker.GetDescendants` | crates/stryi_core/src/mempool/dependencies.rs:43-45 | exactly the tracked descendants, each once |
| `Tracker.DependencyTracker.GetWithAncestors` | crates/stryi_core/src/mempool/dependencies.rs:47-58 | the transaction, last, with exactly its tracked ancestors, in the order of the walk; parents come before children if and only if the order is kept above its node |
| `Tracker.PackageOrderIff` | crates/stryi_core/src/mempool/dependencies.rs:47-58 | the hash-level form: a package lists parents first if and only if the order is kept above its node |
| `Tracker.DependencyTracker.TopologicalOrder` | crates/stryi_core/src/mempool/dependencies.rs:60-75 | every tracked transaction once, parents before children |
| `Tracker.TrackDiamond` | crates/stryi_core/src/mempool/dependencies.rs:19-58 | counterexample reached by three additions: a transaction over a parent and that parent's child, the parent named first, is listed with the child before the parent |
| `MempoolStorage.TransactionStorage.InsertWithTimestamp` | crates/stryi_core/src/mempool/storage.rs:21-55 | on any state: the entry and both index updates; exact tables stay exact if and only if no other stored transaction spends an input of the new one, an insertion under a stored hash included |
| `MempoolStorage.TransactionStorage.Remove` | crates/stryi_core/src/mempool/storage.rs:58-80 | both indexes stay exact |
| `MempoolStorage.OneSpender` | crates/stryi_core/src/mempool/storage.rs:107-109 | an exact spending index has one spender for each outpoint |
| `Mempool.DoomedStep` | crates/stryi_core/src/mempool/mod.rs:126-134 | removing subtrees one after another removes their union |
| `Mempool.NothingOrphaned` | crates/stryi_core/src/mempool/mod.rs:126-134 | no transaction stays behind without a tracked parent it had |
| `Mempool.MemPool.RemoveTransaction` | crates/stryi_core/src/mempool/mod.rs:126-134 | removes exactly the transaction and all tracked below it |
| `Mempool.MemPool.UpdateOnBlock` | crates/stryi_core/src/mempool/mod.rs:192-196 | removes exactly the confirmed transactions |
| `Mempool.MemPool.CleanupExpired` | crates/stryi_core/src/mempool/mod.rs:199-218 | removes exactly the transactions whose timestamp lies more than the expiry time before now, and all tracked below them, in any order |
| `Mempool.MemPool.FindConflicts` | crates/stryi_core/src/mempool/rbf_conflicts.rs:75-89 | exactly the stored transactions that spend an input of the new one |
| `Mempool.MemPool.ResolveConflicts` | crates/stryi_core/src/mempool/rbf_conflicts.rs:91-146 | evicts exactly the conflicts and their descendants if the fee reaches what is asked for the sum of their burdens, capped at u64, and their number; else nothing |
| `Mempool.BurdenCounts` | crates/stryi_core/src/mempool/rbf_conflicts.rs:91-146 | the burden of a conflict counts its own fee and that of every transaction tracked below it, each once |
| `Mempool.MemPool.AddTransaction` | crates/stryi_core/src/mempool/mod.rs:66-123 | admits exactly under the listed conditions; each refusal names the first that fails and changes nothing; an admission keeps storage, indexes and tracker in step |
| `Mempool.MemPool.ParentHashes` | crates/stryi_core/src/mempool/mod.rs:317-328 | the stored creators of the inputs, in input order |
| `Mempool.CompleteMoreIff` | crates/stryi_core/src/mempool/mod.rs:118-120 | an admission keeps every dependency linked if and only if no stored transaction spends an output of the new one |
| `Mempool.CompleteLess` | crates/stryi_core/src/mempool/mod.rs:126-134 | removals keep every dependency between stored transactions linked |
| `Mempool.PackageCloses` | crates/stryi_core/src/mempool/mod.rs:259-276 | adding a transaction with its ancestors keeps a selection ancestor-closed |
| `Mempool.MemPool.GetBestTransactions` | crates/stryi_core/src/mempool/mod.rs:223-284 | duplicate-free, within the limit, ancestor-closed, complete when the limit covers the pool, equal to taking the fitting packages in ranking order, and parents first if and only if each candidate was taken in order |
| `Selection.SelectionOrderIff` | crates/stryi_core/src/mempool/mod.rs:219-284 | the selection lists parents before children under every ranking and limit if and only if at every tracked node each parent that is new when its turn comes shares no ancestor with the earlier parents |
| `Selection.RankingOrderIff` | crates/stryi_core/src/mempool/mod.rs:253-281 | for one ranking and limit, the selection lists parents before children if and only if every candidate it takes has its order kept along the links that do not come from what was selected before it |
| `Selection.ChosenOrder` | crates/stryi_core/src/mempool/mod.rs:253-281 | packages that each list parents first add up to a selection that does |
| `Selection.LeftOutOnlyIfTooLarge` | crates/stryi_core/src/mempool/mod.rs:253-281 | a candidate is left out only if what its package would have added did not fit |
| `Candidate.LinkedNeverAccepted` | crates/stryi_node/src/miner/mod.rs:163-225 | a candidate block that holds a tracked parent with its child is never accepted, whatever is stored |
| `Candidate.AcceptedHasNoChild` | crates/stryi_node/src/miner/mod.rs:261-278 | an accepted candidate over an ancestor-closed selection holds no transaction with a tracked parent |
| `Candidate.StoredSelectionIff` | crates/stryi_node/src/miner/mod.rs:163-225 | a candidate of payments of stored outputs is accepted if and only if none spends an output of another and the fees do not overflow |
| `Candidate.LinkFreeIff` | crates/stryi_node/src/miner/mod.rs:163-225 | while the links are complete, a candidate is free of in-block dependencies if and only if its selection is free of links |
| `Candidate.CandidateValidates` | crates/stryi_node/src/miner/mod.rs:163-225 | a candidate over distinct payments of stored outputs names the height and parent it was built for in header and coinbase, pays exactly the subsidy to the miner, passes the header and structure rules, and the whole validator if and only if no transaction spends an output of another and the fees fit |
| `Merkle.NewTree` | crates/stryi_core/src/merkletree.rs:56-93 | levels and root of the tree with the last node of odd levels duplicated |
| `Merkle.SmallRoots` | crates/stryi_core/src/merkletree.rs:56-93 | roots of one, two and three leaves: left before right, and the last of three paired with itself |
| `Merkle.GenerateProof` | crates/stryi_core/src/merkletree.rs:117-147 | the sibling path, or nothing for an index out of range |
| `Merkle.Verify` | crates/stryi_core/src/merkletree.rs:182-201 | accepts exactly when the recomputed root is the expected one |
| `Merkle.ProofVerifies` | crates/stryi_core/src/merkletree.rs:117-201 | every generated proof leads to the root |
| `Merkle.ProveAndVerify` | crates/stryi_core/src/merkletree.rs:56-201 | build, prove, verify: always accepted |
| `Merkle.AcceptedIsMember` | crates/stryi_core/src/merkletree.rs:182-201 | with a collision-free combiner an accepted full-depth proof starts at a node of the tree, and at an index in range at that very node |
| `Merkle.EqualRootsSameLength` | crates/stryi_core/src/merkletree.rs:56-93 | lists of one length have equal roots exactly when they are equal |
| `Merkle.EqualRootsIff` | crates/stryi_core/src/merkletree.rs:56-93 | under collision-free hashing two non-empty lists have one root if and only if their trees have one depth and the same leaf at every position, positions right of an odd level's end repeating its last node |
| `Merkle.RepeatedTailCollides` | crates/stryi_core/src/merkletree.rs:72-85 | counterexample family: when 2^k leaves fill the last node of an odd level, repeating them does not change the root |
| `Merkle.DuplicatedLastCollides` | crates/stryi_core/src/merkletree.rs:72-85 | its case k = 0: repeating the last leaf of an odd list does not change the root |
| `Merkle.RootCommits` | crates/stryi_core/src/merkletree.rs:153-170 | without repetitions, as block validation demands, equal roots mean equal lists, lengths included |
| `AddressIndex.UtxoTables.BatchPut` | crates/stryi_storage/src/write.rs:14-59 | succeeds exactly when values match keys; then the last value of each listed outpoint is stored and nothing else changed, and every address set is exact; the index is never found inconsistent |
| `AddressIndex.UtxoTables.BatchRemove` | crates/stryi_storage/src/write.rs:61-88 | succeeds exactly on distinct stored outpoints and keeps every address set exact |
| `AddressIndex.UtxoTables.GetUtxosForAddress` | crates/stryi_storage/src/utxo.rs:28-53 | indexed lookup equals scanning all UTXOs and never fails |
| `Lca.FindLca` | crates/stryi_node/src/node/lca.rs:11-82 | the greatest agreeing height, or the initial values when genesis differs |
| `Lca.FindForkPoint` | crates/stryi_node/src/node/lca.rs:11-82 | on two linked chains the last block they share |

## Left out

- Error payloads and messages: failures keep the distinctions callers act on (storage failure or
  rejection), not their text.
- Output and transaction positions as u32: positions are unbounded, so the truncating cast of an
  output position beyond 2^32 - 1 and the check on a transaction's position do not appear.
- Parallel validation inside a layer: modelled in sequence; the members of a layer share no input,
  so their order cannot matter.
- Proof of work, nonce search and signature cryptography: parameters or absent.
- Lock poisoning, RocksDB, postcard encoding, snapshots, column families and the failure handler:
  a transition is clone, change, publish.
- The little-endian codecs of thresholds and work.
- `restore_state` and `get_sync_state` of the mempool: a snapshot may list a child before its
  parent, so restored links can be incomplete.
- The eviction order of `resolve_conflicts`: the members are removed in an arbitrary order, since
  the removals commute.
- Floating-point fee pricing and package fee rates: arbitrary functions.
- `get_transaction` on the overlay, and the maintenance hook of the fork registry, which does
  nothing.
- `ForkChoice.RunSafe`: runs in which a validator accepts a block that repeats a transaction id of
  its branch; the block is stored as usual, but undoing it later can lose outputs, so a later
  reorganization need not meet its specification.
- `Lca.FindLca`: the remote chain is a fixed list of hashes; a peer whose chain changes during the
  search, and tips at the last u64 height, are outside the model.
- `AddressIndex.UtxoTables.BatchPut`: after a failure the tables are unspecified, because the
  surrounding transaction is dropped.
- Networking, the command line, wallet, configuration and the chain generator.
