# A verified model of a block DAG node

A node of this chain keeps blocks of many conciliums (committees) in one directed acyclic graph. Every block
carries a patch: what it and its ancestors did to the table of unspent outputs. Patches are merged along the graph,
a prefix of the graph becomes final once a majority of conciliums has seen it, the patch of that prefix is
written to storage, and the patches of the blocks that survive are rebased. This project models that engine, the
voting and proposer selection that produce its blocks, the framing of its messages, and three of its bounded or
indexed stores, and proves what they are for.

## Main results

- **The ledger engine is a plain ledger, in every state of every run.** A plain ledger is a set of executed
  transactions: what they created less what they consumed (`Ledger`). A patch over storage *represents* such a history
  (`Refinement.Represents`). Merging represents the union of histories and throws exactly if the union spends an output
  twice; storing a patch makes its history final; purging rebases without a change of meaning. A block executes exactly
  if the plain ledger accepts it transaction by transaction (`Execution.ExecBlockRefines`,
  `NodeRun.ExecuteRefines`). `NodeRun.RunKeeps` and `NodeRun.StateIsLedger` carry that through every sequence of
  arrivals, and `NodeProcess.Node.ProcessBlock` shows that the objects, updated in place, take exactly such steps.
- **Finality.** Final becomes exactly what some downward path reaches with blocks of more than half of the conciliums, and
  rolled back exactly what lies below a tip whose history clashes with that (`Finalisation.SettledStable`,
  `Finalisation.RolledBackIff`). The outcome does not depend on the order of the search, merging the patches
  never throws, survivors never conflict with what is stored, and over any run no block is both final and rolled back
  (`Finalisation.SettledUnique`, `NodeRun.NeverStuck`, `NodeRun.FinalForever`).
- **Ownership.** Over any run nobody but the address an output pays gets it spent: what is executed was proved by the owners
  of all it consumes, and the coins of an address that proved nothing stay where they are, in storage and for every
  pending block (`Ownership.RunHonest`, `Ownership.OwnCoinsStay`).
- **Merge algebra.** On patches over one output table `merge` commutes, associates and is idempotent, failures
  included, so that merging a list depends only on which patches are in it (`MergeAlgebra`).
- **Conservation.** An accepted block of transfers keeps the total of all unspent outputs (`Conservation`,
  `Finalisation.ExecutionConserves`); merging branches of any length keeps it if and only if they share no transfer
  (`MergeTotals.BranchTotal`); and in every state of every run the total is the initial one and what the final blocks, and
  those below a pending one, executed again (`RunTotals.RunTotal`). A block closed by `Finish` executes
  (`BlockBuilding.FinishedBlockExecutes`).
- **Voting.** Nodes that agree on different contents share a witness about which somebody told them different
  things. Two nodes that committed different blocks did so on inconsistent reports (`Bft.CommitsAgree`), a block is committed
  exactly if it is held, voted for and signed by a quorum (`Bft.BftConsensus.ProcessMessage`), and every node of the
  concilium accepts the signatures of every block ever committed (`Bft.CommitsAccepted`). A quorum of stake is half of all
  stake and one unit more (`Quorums.StakeQuorumIff`).
- **Proposers.** Any T consecutive rounds serve every member exactly by stake if and only if 1289 does not divide T
  (`Fairness.ServedByStakeIff`); replicas in one round name one proposer (`ConciliumRounds.ReplicasAgree`).
- **Framing.** However a stream is cut into chunks, the same messages come out (`MessageAssembly.ChunksDoNotMatter`).
- **Stores.** The wallet lists exactly what a scan of the table finds (`Wallet`), the mempool stays within its bound
  (`Mempool.dfy`), and the search for blocks a peer lacks sends exactly what is
  reachable, or whole levels up to its limit (`GetBlocks`).

## Layout

| file | what it is about |
|---|---|
| Wrappers, Collections, Ledger | failures as values; sets; transactions, histories, the plain ledger |
| Patches, MergeAlgebra, Refinement | patches as values, laws of merging, what a patch means |
| Execution, Conservation, MergeTotals | executing transfers and blocks on values against the plain ledger; totals |
| Ownership | who may spend what, for a transfer, a block and a run |
| PendingDag, Finality, NodeRun, Finalisation | the pending graph, one finality decision, the state machine, its consequences |
| RunLog, Ancestry, RunTotals | which blocks of a run make up a history, and the totals over a run |
| Utxo, PatchDb, App, PendingBlocks, NodeProcess, BlockBuilding | the classes, updated in place, against those values |
| Arithmetic, Shares, Concilium, ConciliumRounds, Quorums, Fairness | greatest common divisor, quorum and shares, rounds, proposers |
| Voting, Bft | majorities over a matrix of reports; the consensus object and its handlers |
| MessageAssembly, Wallet, Mempool, GetBlocks | framing, wallet index, mempool, level search |

## How the node is rendered

- Exceptions are `Failure` values; a method that fails says what it leaves unchanged.
- A table from hashes to transactions stands for collision-free hashing. A coinbase may arrive under a hash seen before
  only if it has no outputs to store, as for empty blocks of one concilium; any other is made unique by a random output
  (structures/block.js:164-179).
- A claim script is the address recovered from it, and a signature is its signer and the hash signed. Sizes, and
  the fee due for them, are parameters.
- Amounts are exact natural numbers and the foundation's share is a tenth of the fees rounded down; stakes, weights
  and quorums are exact reals. Ids of conciliums are natural numbers.
- `PatchDb` holds the versions of UTXOs as maps; that the two parallel lists of a UTXO behave as such a map is
  what `Utxo` proves.
- A run is a sequence of states together with the histories of storage and pending blocks, which every step determines.
- A block arrival is one atomic step, and what it does is determined but for the order in which blocks that became
  final are listed. A block whose parents were not all executed is marked bad if one that the main graph knows to be bad
  comes before those that it lacks; otherwise it waits. The main graph knows the blocks that failed themselves, and not
  those that were rolled back, which are removed from it (node/node.js:1903-1940).
- The round-robin and stake conciliums are one class with a kind, since they share their round methods.
- The witnesses of a consensus are listed in the order of the definition, where the program sorts their addresses; that
  order only decides which of several equal reports a signature is taken from, and the order of signatures.
- Reports also carry the concilium id in the program, which is the same for all reports of one consensus.
- The hash of a transaction does not cover its claim proofs. The table gives one transaction per hash, so copies that
  differ in their proofs only are not told apart.

## Where the code differs from what one may expect

Each of these has a lemma with an input for which the expectation fails, and one that says exactly when it holds.

- Merged branches may both contain one transfer. It has paid its fee in both, so that the merge has more than either
  (`MergeTotals.SharedFeePaidTwice`); `MergeTotals.BranchTotal` says by how much, and when the total stays.
- The proposer slot multiplies by 1289, so that service by stake fails for totals which 1289 divides, such as stakes of 1 and
  1288 (`Fairness.UnfairStakes`, `Fairness.ServedByStakeIff`).
- Following a round below the base leads to another round, at the same distance above it
  (`ConciliumRounds.RoundBelowIsMirrored`, `ConciliumRounds.AdjustedIff`).
- The only witness of a concilium goes by its own view. That is what a quorum agrees on unless it was given a quorum of more
  than one (`Bft.SoleWitnessOverrules`, `Bft.BftConsensus.DecidesIff`).
- A search for blocks may send one more than its limit (`GetBlocks.StarPassesLimit`): if and only if some level starts below
  the limit and would end above it (`GetBlocks.PastLimitIff`).
- A chunk that ends inside a length prefix makes the reader throw (`MessageAssembly.CutPrefixThrows`,
  `MessageAssembly.CutInside`). A negative length throws unless the length of the prefix outweighs it, and
  then makes a message of the first bytes of the prefix (`MessageAssembly.NegativeLengths`, `MessageAssembly.FeedIsSplit`).
- The check of a block's signatures counts a repeated one again, so that fewer members than a quorum may be accepted
  (`Bft.RepeatedSignatureCounts`). For signatures of different members acceptance is a quorum of members who signed, and
  what is counted is just what they weigh if and only if nobody signed twice (`Bft.AcceptedIffSigned`,
  `Bft.GatheredIsSigned`). What a node commits has different signers (`Bft.BftConsensus.SignedIsCommitted`).
- Lists with repeated elements may look equal and not be (`Utxo.RepetitionLooksEqual`, `Utxo.SameElements`).

## Model

| member | source | states |
|---|---|---|
| Utxo.UTXO.AddCoins | structures/utxo.js:76-88 | adds the output to the map the parallel lists stand for, or fails and changes nothing iff the index is there |
| Utxo.UTXO.SpendCoins | structures/utxo.js:90-100 | removes exactly that output from the map, whatever its position; fails iff it is not there |
| Utxo.UTXO.CoinsAtIndex | structures/utxo.js:107-114 | finds the output of an index, fails iff there is none |
| Utxo.UTXO.IsEmpty | structures/utxo.js:55-60 | empty iff all outputs are spent; fails iff the lists do not match |
| Utxo.UTXO.Equals | structures/utxo.js:137-142 | true iff the two UTXOs hold the same outputs, in whatever order their lists are |
| Utxo.UTXO.AmountOut | structures/utxo.js:149-154 | sum of all unspent amounts |
| Utxo.UTXO.FilterOutputsForAddress | structures/utxo.js:176-216 | a new UTXO of just the outputs paying the address |
| Utxo.ArrayEquals | utils.js:371-373 | true iff the lists are equally long and all of the second is in the first; without repetitions that is equality of their sets |
| Utxo.SameElements | utils.js:56-59 | of lists without repetition the comparison by count decides whether they have the same elements |
| Utxo.RepetitionLooksEqual | utils.js:371-373 | with a repetition it does not: two lists with different elements that look equal |
| PatchDb.PatchDB.SetConciliumId | storage/patch.js:377-392 | sets the concilium once and raises its level |
| PatchDb.PatchDB.SetSpentOutput | storage/patch.js:328-333 | the patch with one more recorded spend |
| PatchDb.PatchDB.SpendCoins | storage/patch.js:69-83 | the patch after spending, from its own version of the UTXO if it has one; fails, changing nothing, iff the output is not there |
| PatchDb.PatchDB.CreateCoins | storage/patch.js:91-100 | the patch with one more output; fails, changing nothing, iff the index is taken |
| PatchDb.PatchDB.HasUtxos | storage/patch.js:508-511 | whether the patch has a version of one of the UTXOs |
| PatchDb.PatchDB.MergeLevels | storage/patch.js:152-162 | the higher level of each concilium |
| PatchDb.LevelsAreHigher | storage/patch.js:152-162 | a merged level is that of one side and not below that of the other |
| PatchDb.ForkIff | storage/patch.js:141-148 | two patches are a fork iff they are of one concilium, and its level is the same in both or in neither |
| PatchDb.PatchDB.CopyUtxo | storage/patch.js:170-181 | a UTXO that one side has goes to the result with its spends, nothing else changes |
| PatchDb.PatchDB.JoinUtxo | storage/patch.js:182-218 | of a UTXO both sides have, the common outputs and all spends; fails iff the sides record different spenders of an output |
| PatchDb.PatchDB.MergeUtxos | storage/patch.js:164-220 | the coin and spend maps of the merge; fails iff there is a conflict |
| PatchDb.PatchDB.Merge | storage/patch.js:140-265 | throws on an unexpected fork or a conflict and only then; else a fresh patch whose value is the merge, the arguments unchanged |
| PatchDb.PatchDB.SpendingTxnsEqual | storage/patch.js:353-361 | true iff the two maps of spends are the same |
| PatchDb.PatchDB.PurgeUtxo | storage/patch.js:276-292 | one UTXO rebased: dropped if unchanged, else what the other patch spent is spent here too; the others unchanged |
| PatchDb.PatchDB.Purge | storage/patch.js:274-293 | the whole patch rebased on the other, coins and spends exactly |
| Patches.SameVersions | storage/patch.js:12-32 | a well-formed patch is determined by what it says about each UTXO |
| MergeAlgebra.MergeCommutes | storage/patch.js:164-220 | merging two patches over one output table gives the same patch, or the same failure, in either order |
| MergeAlgebra.MergeIdempotent | storage/patch.js:164-220 | a patch merged with itself is itself |
| MergeAlgebra.MergeAssociates | storage/patch.js:164-220 | both groupings of three patches throw or neither does, and then they agree |
| MergeAlgebra.MergeAllIsJoin | node/pendingBlocksManager.js:220-243 | merging a list throws iff two of its patches conflict; else the result touches what any touches, holds what no toucher spent, and records every spend |
| MergeAlgebra.MergeAllDependsOnSet | node/pendingBlocksManager.js:220-243 | the result of merging a list depends only on which patches are in it, not on their order or repetition |
| Refinement.ViewIsLedger | storage/persistentStorage.js:398-434 | reading through a patch that represents a history gives exactly the plain ledger of that history |
| Refinement.ConflictIsDoubleSpend | storage/patch.js:202-214 | a merge throws iff the two histories together spend some output twice |
| Refinement.MergeRepresents | storage/patch.js:164-220 | a merge that does not throw represents the union of the two histories |
| Refinement.ApplyStores | storage/persistentStorage.js:442-458 | writing a patch to storage leaves the plain ledger of its history in storage |
| Refinement.PurgeRepresents | storage/patch.js:274-293 | a purged patch represents, over the new storage, its own history and the one that went to storage |
| Refinement.FinalisationKeepsMeaning | storage/patch.js:274-293 | storing s and reading through the purged p is reading through p merged with s over the old storage; nothing changes for p if its history contains that of s |
| Ledger.ApplyExtends | node/node.js:1055-1112 | applying an accepted transfer to the ledger of a history gives the ledger of the history with it |
| Ledger.NoReplay | node/app.js:50-72 | a transfer executed once is never accepted again, and a coinbase never as a transfer |
| Ledger.CoinbaseExtends | node/node.js:1551-1559 | a coinbase adds its outputs to the ledger and consumes nothing |
| App.Application.ProcessInput | node/app.js:50-72 | succeeds iff the input is unspent, claimed by its owner and not used before; then the patch spends it and its coins are counted |
| App.Application.ProcessTxInputs | node/app.js:38-75 | succeeds iff all inputs are distinct, unspent and claimed by their owners; then a fresh patch with exactly these spends and the sum of their coins, the incoming patch unchanged |
| App.SpendStep | node/app.js:67-71 | spending one more input: fails iff it was spent before, else gives the patch of the longer list of inputs |
| App.Application.ProcessOutput | node/app.js:90-93 | creates one output unless it is empty |
| App.Application.ProcessPayments | node/app.js:83-96 | creates exactly the non-zero outputs and returns the sum of all; fails iff one of their indexes is taken |
| App.Storage.GetUtxosPatch | storage/persistentStorage.js:398-417 | a patch of just the stored UTXOs the inputs refer to |
| App.Storage.ApplyPatch | storage/persistentStorage.js:442-458 | overwrites the UTXOs the patch has, deletes those it emptied, keeps the others |
| Execution.InputsRefine | node/node.js:1071-1079 | what a transfer may spend, read from storage and patch, is what the plain ledger lets it spend, for the same amount |
| Execution.ExecTxRefines | node/node.js:1055-1112 | a transfer executes iff the plain ledger accepts it, for the same fee, and its patch merged into the block represents the longer history |
| Execution.TxMergeRepresents | node/node.js:1530-1533 | merging the patch of a transfer into the patch of its block never conflicts and represents the history with the transfer |
| Execution.ExecTxsAgree | node/node.js:1522-1534 | transfers one after the other: same verdict and fees as the plain ledger, and the patch is that ledger |
| Execution.CoinbaseRepresents | node/node.js:1551-1559 | the coinbase never collides and adds itself to the represented history |
| Execution.ExecBlockRefines | node/node.js:1508-1542 | a block executes iff the plain ledger accepts it transaction by transaction, and the resulting patch over storage is the resulting ledger |
| Execution.TransfersOnly | node/node.js:1525-1533 | only transfers pass as the transactions after the first |
| Conservation.TransferConserves | node/node.js:1083-1090 | an accepted transfer keeps the total of all unspent outputs but for its fee |
| Conservation.BlockConserves | node/node.js:1522-1559 | an accepted block keeps the total of all unspent outputs, and its first transaction has the one input that is nobody's output |
| Ownership.SpendableIff | node/app.js:50-72 | the inputs of a transfer can be processed iff they are unspent, each used once, and the address each pays has proved it: by the proof for that input if there are proofs, else by signing the whole |
| Ownership.AcceptsIff | node/node.js:1055-1112 | a transfer is accepted iff it has outputs, these and the fee for its size cost less than its inputs are worth, and each input is unspent, used once and proved by the address it pays |
| Ownership.BlockHonest | node/node.js:1508-1542 | whatever an accepted block consumes was proved by the address it pays |
| Ownership.RunHonest | node/node.js:2145-2167 | over any run everything executed since the start came with a block that arrived, and consumes only what the addresses paid by it proved |
| Ownership.OwnCoinsStay | node/app.js:267-272 | over any run an output whose owner proved nothing in the blocks that arrived stays, in storage and read through every pending block |
| Finalisation.ExecutionConserves | node/node.js:1508-1542 | reading through the patch of an executed block gives the same total as reading through its merged parents |
| MergeTotals.TotalsOfUnion | storage/patch.js:164-220 | the totals of two histories add up to those of their union and of what they have in common |
| MergeTotals.MergedTotal | node/pendingBlocksManager.js:220-243 | merging an accepted block with another history over the one it was executed on adds the fees of the transfers both sides executed, less what the coinbase pays out if both sides have it |
| MergeTotals.TurnsTotal | node/pendingBlocksManager.js:220-243 | blocks executed each on a part of what was there before them: the transfers and coinbases executed again account for the change of the total |
| MergeTotals.BranchTotal | node/pendingBlocksManager.js:220-243 | the same for merging a branch of any number of blocks; if no coinbase that pays is shared nothing is lost, and the total stays iff no transfer is shared |
| MergeTotals.BranchPatchTotal | storage/patch.js:140-265 | the same for what is read through the merged patches |
| MergeTotals.SharedFeePaidTwice | node/pendingBlocksManager.js:220-243 | two sibling blocks with one transfer: each keeps the total of 10, merged it is 13 |
| RunTotals.RunTraced | node/node.js:1561-1612 | over any run the accepted arrivals are those whose blocks executed; the final history is that of the final blocks and all below them, a pending one that of these, the block and all below it |
| Ancestry.ReachedBelow | node/pendingBlocksManager.js:353-363 | what is reached in the pending graph is below by the parents the blocks name |
| Ancestry.StableAncestors | node/pendingBlocksManager.js:252-303 | what becomes final is what is below the stable blocks |
| RunTotals.RunTotal | node/node.js:1561-1612 | in every state of every run the total of storage, and that read through each pending block, is the initial one and what these blocks executed again: fees of transfers, less payouts of coinbases |
| BlockBuilding.DevFee | structures/block.js:165-172 | a tenth, rounded down, or nothing if that is less than twice the least useful amount |
| BlockBuilding.Block.Finish | structures/block.js:149-185 | prepends a coinbase that pays out exactly the fees: its share to the foundation, the rest to the creator, no outputs for no fees |
| BlockBuilding.Block.AddTx | structures/block.js:133-139 | appends a transaction unless the block is final |
| BlockBuilding.FinishedBlockExecutes | structures/transaction.js:332-335 | a block whose transfers execute, closed with their fees, passes the coinbase check and executes |
| PendingDag.PathVertices | node/pendingBlocksManager.js:353-363 | the blocks on all full downward paths are those reached |
| PendingDag.TipAbove | node/pendingBlocksManager.js:91-93 | every pending block is below, or is, some tip |
| PendingBlocks.PendingBlocksManager.PendingParents | node/pendingBlocksManager.js:52-54 | the parents an edge leads to are those still pending |
| PendingBlocks.PendingBlocksManager.AddBlock | node/pendingBlocksManager.js:49-63 | the block joins the graph with edges to its pending parents and its patch; the graph stays acyclic |
| PendingBlocks.PendingBlocksManager.MergePatches | node/pendingBlocksManager.js:220-243 | the merge of the pending ones among the patches asked for; throws iff they conflict |
| PendingBlocks.PendingBlocksManager.FindTopStableForPath | node/pendingBlocksManager.js:332-346 | the first block of a path by which enough conciliums were seen, none if they never are |
| PendingBlocks.PendingBlocksManager.FindTopStable | node/pendingBlocksManager.js:312-323 | exactly the blocks at which some downward path first has seen enough conciliums |
| PendingBlocks.PendingBlocksManager.FindAlsoStable | node/pendingBlocksManager.js:353-363 | the blocks reached from the top stable ones |
| PendingBlocks.PendingBlocksManager.RemoveBlocks | node/pendingBlocksManager.js:402-406 | the graph and patches without these blocks, the other patches untouched |
| PendingBlocks.PendingBlocksManager.RemoveConflictingBranches | node/pendingBlocksManager.js:372-395 | what is under a tip, other than the new block, whose patch does not merge is taken out and returned |
| PendingBlocks.PendingBlocksManager.PurgePatches | node/pendingBlocksManager.js:286-290 | every pending patch is purged once, no patch object being shared |
| PendingBlocks.PendingBlocksManager.CheckFinality | node/pendingBlocksManager.js:252-303 | state, stable set, rollback set and patch to apply are those of the finality function; nothing changes if no block becomes stable or the merge throws |
| Finality.StableMergeSucceeds | node/pendingBlocksManager.js:266-268 | merging patches of blocks below the new block never throws, and represents a part of its history |
| Finality.MergeVertices | node/pendingBlocksManager.js:220-243 | merging patches of pending blocks throws iff their histories together spend an output twice |
| Finality.LeftOver | node/pendingBlocksManager.js:272-283 | the stable set is closed under parents and disjoint from the rollback set; what is left is the graph without both |
| Finality.FinaliseKeeps | node/pendingBlocksManager.js:252-303 | no surviving patch conflicts with the applied one, and every one represents its history and the new final one over the new storage |
| Finalisation.StableIsSeen | node/pendingBlocksManager.js:312-363 | a block is stable iff some downward path from the new block to it meets blocks of more than half of the conciliums |
| Finalisation.SettledStable | node/pendingBlocksManager.js:252-303 | exactly the blocks to which a path leads that meets more than half of the conciliums become final, their parents are final too, and none is kept pending or rolled back |
| Finalisation.MajoritiesMeet | node/pendingBlocksManager.js:12-13 | two paths that each meet more than half of the conciliums hold blocks of one and the same concilium |
| Finalisation.RolledBackIff | node/pendingBlocksManager.js:372-395 | a pending block is rolled back iff it did not become final and lies below, or is, a block that nothing pending builds on and whose history spends an output twice together with what became final |
| Finalisation.SettledUnique | node/pendingBlocksManager.js:312-323 | the outcome does not depend on the order in which paths are searched or on repeated top blocks |
| Finalisation.SurvivorReads | node/pendingBlocksManager.js:286-290 | a surviving block reads what it read merged with the stored patch; exactly what it read before if it is above all top stable blocks |
| NodeRun.HeightReached | node/node.js:2341-2350 | the height is one more than that of the highest known parent |
| NodeRun.StateIsLedger | node/node.js:1508-1542 | in every good state storage is the plain ledger of the final transactions, and every pending block reads the plain ledger of its history |
| NodeRun.ExecuteRefines | node/node.js:1508-1542 | a block on known parents executes iff its height is right, its parents together spend nothing twice and the plain ledger of their history accepts it |
| NodeRun.FinalisedKeeps | node/node.js:1582-1612 | storing the stable patch and dropping, rolling back and purging keeps the invariant |
| NodeRun.StepKeeps | node/node.js:1561-1578 | whatever block arrives the invariant is kept, and histories grow only by what became final |
| NodeRun.StepHasStory | node/node.js:1561-1578 | every step has histories |
| NodeRun.NeverStuck | node/node.js:2145-2167 | no arrival can make the finality check throw: a step always exists |
| NodeRun.RunKeeps | node/node.js:2145-2167 | the invariant holds in every state of every run |
| NodeRun.FinalForever | node/node.js:1854-1857 | over any run no block is both final and rolled back, before or after |
| NodeRun.StartOk | node/node.js:1582-1612 | a node that starts on the ledger of final blocks is in a good state |
| NodeProcess.Node.PatchForTx | node/node.js:1071-1078 | reads the inputs from storage, under the versions of the block patch if it has any |
| NodeProcess.Node.ProcessTx | node/node.js:1055-1112 | patch and fee of a transfer exactly as specified, or a failure; the patch of the block is only read |
| NodeProcess.Node.ProcessBlockCoinbaseTX | node/node.js:1551-1559 | succeeds iff the first transaction is a coinbase over exactly the fees and creates its outputs |
| NodeProcess.Node.ExecNextTx | node/node.js:1525-1533 | one more transfer merged into the patch of its block, exactly as specified, or a failure |
| NodeProcess.Node.ExecRest | node/node.js:1522-1534 | all transfers of a block, one after the other, with their fees, or a failure; the patch of the parents is only read |
| NodeProcess.Node.ExecTransfers | node/node.js:1522-1542 | the patch of the block after all its transactions, or a failure |
| NodeProcess.Node.ExecuteTheBlock | node/node.js:1508-1542 | height check, merged parents, transactions: the patch of the block exactly as specified, or a failure that changes nothing |
| NodeProcess.Node.ProcessFinalityResults | node/node.js:1582-1612 | the patch goes to storage, stable blocks become final, rolled back ones bad |
| NodeProcess.Node.AcceptBlock | node/node.js:1561-1578 | the block joins and what it makes final is settled; the state is a successor in the state machine |
| NodeProcess.Node.CanExecuteBlock | node/node.js:1903-1921 | true iff all parents were executed; throws iff a bad parent comes before any other that was not executed |
| NodeProcess.Node.ExecAndAccept | node/node.js:2145-2167 | executes a block and accepts it, or marks it bad iff it does not execute |
| NodeProcess.Node.ProcessBlock | node/node.js:2093-2113 | the arrival of a block is one step of the state machine and keeps storage and all patches plain ledgers; a block that lacks parents changes nothing unless one known to be bad comes before those it lacks |
| NodeProcess.Node.constructor | node/node.js:1582-1612 | a node on an existing storage starts in a good state |
| NodeProcess.NoTopsClash | node/pendingBlocksManager.js:266-268 | in a good state the patches of the top stable blocks merge, in whatever order |
| Arithmetic.GCD | utils.js:36-46 | terminates; the divisors of the result are the common divisors of the list |
| Arithmetic.GCDIsGreatest | utils.js:36-46 | so it is the greatest common divisor |
| Conciliums.ShareOut | conciliums/conciliumPoS.js:46-59 | shares are positive and add up to their total, and the quorum lies above one half and not above one, also when the divisor is replaced |
| Conciliums.WeightsAddUp | conciliums/conciliumPoS.js:127-132 | weights are positive; those of stake add up to one, the others to the number of members |
| Conciliums.ShareIsPart | conciliums/conciliumPoS.js:127-132 | a share over the total of shares is the part of all stake, whatever the divisor |
| ConciliumRounds.Concilium.constructor | conciliums/conciliumPoS.js:37-64 | sets up shares, total and quorum from the stakes |
| ConciliumRounds.Concilium.GetQuorum | conciliums/conciliumRr.js:55-59 | the quorum of the definition, for stake above one half and not above one; for round-robin the given one, or one more than half of the members |
| ConciliumRounds.Concilium.GetWitnessWeight | conciliums/conciliumPoS.js:127-132 | the part of all stake of a member; throws for strangers; one in a round-robin concilium |
| ConciliumRounds.QuorumIsMajority | conciliums/conciliumRr.js:55-59 | the quorum is more than half of all weight unless a smaller one was given |
| Quorums.StakeQuorumIff | conciliums/conciliumPoS.js:56-59 | of several members, those marked make up the quorum iff twice their stake is at least all stake and two units |
| Quorums.SoleStakeQuorum | conciliums/conciliumPoS.js:56-59 | a single member of a stake concilium makes up the quorum, and nobody does not |
| Quorums.UnitIs | conciliums/conciliumPoS.js:46-52 | the unit of shares: never below the greatest common divisor, at least a thousand for a million and a million for a billion, and replaced only by these |
| Shares.FindIdxByRound | conciliums/conciliumPoS.js:150-159 | finds the member into whose share the round falls and never throws |
| Shares.ShareUnique | conciliums/conciliumPoS.js:150-159 | no point of the line belongs to two members |
| Shares.SlotsAdvance | conciliums/conciliumPoS.js:61-63 | slots start at 3559 and go on by 1289 |
| Shares.SlotsDiffer | conciliums/conciliumPoS.js:172-174 | slots less than T apart fall on different points unless 1289 divides T |
| Shares.FairIff | conciliums/conciliumPoS.js:150-174 | integer shares without common divisor are served exactly over any T consecutive slots iff 1289 does not divide T |
| Fairness.ProposesIsPick | conciliums/conciliumPoS.js:161-174 | with whole units a member proposes in a round iff its slot falls on one of the points of the member |
| Fairness.ServedByStakeIff | conciliums/conciliumPoS.js:150-174 | over any T consecutive rounds every member has as many turns as units of stake, iff 1289 does not divide T |
| Fairness.UnfairStakes | conciliums/conciliumPoS.js:172-174 | stakes of 1 and 1288 are not served by stake |
| ConciliumRounds.Concilium.FormProposerAddressesSequence | conciliums/conciliumPoS.js:161-170 | the table names, for each round from the first on, the member whose share its slot falls into |
| ConciliumRounds.Concilium.InitRounds | conciliums/conciliumPoS.js:138-142 | starts at the seed, with the table of that base |
| ConciliumRounds.Concilium.NextRound | conciliums/baseConciliumDefinition.js:137-142 | one round on, or a new sequence from the current seed; the table stays that of the base |
| ConciliumRounds.Concilium.GetProposerAddress | conciliums/conciliumPoS.js:114-119 | never fails after an initialisation, and names the proposer of the current round |
| ConciliumRounds.ProposerUnique | conciliums/conciliumPoS.js:150-174 | a definition and a round determine the proposer |
| ConciliumRounds.TakesTurns | conciliums/conciliumRr.js:70-74 | in a round-robin concilium every member has exactly one turn in as many consecutive rounds as there are members |
| ConciliumRounds.Concilium.AdjustRound | conciliums/baseConciliumDefinition.js:156-161 | a sequence without a seed starts over; a round less than a sequence away gives its distance as the local round, any other changes nothing |
| ConciliumRounds.AdjustedIff | conciliums/baseConciliumDefinition.js:156-161 | a round less than a sequence away from the base is followed iff it does not lie before the base; a round before it leads to its mirror image |
| ConciliumRounds.OutOfReach | conciliums/baseConciliumDefinition.js:156-161 | a round a sequence away or more changes nothing, but that a sequence that started without a seed starts over |
| ConciliumRounds.RoundBelowIsMirrored | conciliums/baseConciliumDefinition.js:156-161 | with base 5 and three rounds, agreeing on round 4 leads to round 6 |
| ConciliumRounds.ReplicasAgree | conciliums/conciliumPoS.js:114-119 | replicas of one definition in one round name the same proposer |
| ConciliumRounds.AdjustedReplicasAgree | conciliums/baseConciliumDefinition.js:156-161 | replicas of one definition, base and seed that adjust to one round within reach are in one round and name the same proposer |
| ConciliumRounds.SameQuorum | conciliums/conciliumPoS.js:56-59 | two objects of one definition have the same quorum |
| ConciliumRounds.SoleMember | conciliums/conciliumPoS.js:127-132 | a single member weighs one, which is a quorum unless a greater one was given |
| Voting.Majority | node/bftConsensus.js:211-238 | a value iff some content is reported with at least the quorum: the first report of it, whatever the order of the tally |
| Voting.MajorityUnique | node/bftConsensus.js:211-238 | for a quorum above half of all weight the outcome is determined |
| Voting.TallyReports | node/bftConsensus.js:212-228 | for every content reported, and no other, its exact weight and its first report |
| Voting.Consensus | node/bftConsensus.js:179-184 | a value iff some content is confirmed by a quorum of rows, and then of that content |
| Voting.AgreedIff | node/bftConsensus.js:179-238 | a content is agreed on iff there are witnesses of quorum weight from each of whom witnesses of quorum weight relay it |
| Voting.QuorumsMeet | node/bftConsensus.js:237 | two sets of at least quorum weight share a member |
| Voting.DisagreementNeedsTwoStories | node/bftConsensus.js:172-238 | nodes that agree on different contents share a witness confirmed at both, and about each such witness somebody told them different things |
| Voting.ConsistentNodesAgree | node/bftConsensus.js:172-238 | nodes that hear consistent reports agree on the same content |
| Voting.AgreedUnique | node/bftConsensus.js:179-184 | no two contents are agreed on |
| Voting.BallotsUnique | node/bftConsensus.js:538-541 | the outcome of the ballots about all witnesses is determined |
| Bft.BftConsensus.constructor | node/bftConsensus.js:26-56 | starts in ROUND_CHANGE with empty views and initialised rounds |
| Bft.BftConsensus.AddViewOfNodeWithAddr | node/bftConsensus.js:162-167 | changes exactly one entry of the matrix |
| Bft.BftConsensus.ResetState | node/bftConsensus.js:143-150 | keeps the old matrix aside and starts an empty one |
| Bft.BftConsensus.DecidesIff | node/bftConsensus.js:172-185 | what a node goes by is what a quorum agrees on, unless it is the only witness, given a quorum of more than one |
| Bft.SoleWitnessOverrules | node/bftConsensus.js:174-176 | a sole witness given a quorum of two goes by its own view, though no quorum agrees on anything |
| Bft.BftConsensus.RunConsensus | node/bftConsensus.js:172-185 | the content the node goes by, if there is one: that of a quorum of rows, or the own view of a sole witness |
| Bft.BftConsensus.GetSignaturesForBlock | node/bftConsensus.js:532-559 | the signatures of the ballots for the block iff they make up the quorum |
| Bft.BftConsensus.AgreementSigns | node/bftConsensus.js:532-559 | votes that a quorum agrees on and that carry signatures recovering to the witnesses they come from make up the quorum with them |
| Bft.BftConsensus.SignedIsCommitted | node/bftConsensus.js:532-559 | signatures that make up the quorum are of different members, are accepted, and a quorum agrees on the block |
| Bft.AcceptedEverywhere | node/node.js:1722-1742 | signatures that are good at one node are accepted with any other object of the same definition |
| Bft.CommitsAccepted | node/node.js:1722-1742 | every block a node ever committed is accepted by any node of the concilium |
| Bft.VerifyBlockSignatures | node/node.js:1722-1742 | accepts iff all signers are members and their weights, counted once for every signature, reach the quorum |
| Bft.GatheredIsSigned | node/node.js:1729-1737 | the weight counted is at least that of the members who signed, and just that iff nobody signed twice |
| Bft.AcceptedIffSigned | node/node.js:1722-1742 | members of quorum weight who signed are accepted; signatures of different signers are accepted iff these are members of quorum weight |
| Bft.RepeatedSignatureCounts | node/node.js:1729-1737 | one of three members with one signature there twice is accepted for a quorum of two |
| Bft.GatherSignatures | node/bftConsensus.js:536-558 | the signatures of exactly the votes for the block, if their weight reaches the quorum |
| Bft.SignersDiffer | node/bftConsensus.js:538-553 | the gathered signatures are of different members, in their order |
| Bft.SameWeight | node/bftConsensus.js:538-553 | whoever counts them by recovering the signers finds the same weight |
| Bft.BftConsensus.NextRound | node/bftConsensus.js:459-471 | back to ROUND_CHANGE without a block, in the next round or at the start of a new sequence, telling the others the new round |
| Bft.BftConsensus.ShouldPublish | node/bftConsensus.js:479-481 | true iff the current round is ours to propose in |
| Bft.BftConsensus.RoundChangeHandler | node/bftConsensus.js:372-387 | with an agreed round follows it, waits for its block and creates it iff it is our turn; else starts over |
| Bft.BftConsensus.BlockStateHandler | node/bftConsensus.js:398-404 | a valid block moves on to voting in the same round, none to the next round |
| Bft.BftConsensus.ProcessValidBlock | node/bftConsensus.js:248-266 | only when waiting for a block: hold it and vote for it |
| Bft.BftConsensus.InvalidBlock | node/bftConsensus.js:268-279 | only when waiting for a block: next round and a vote against |
| Bft.BftConsensus.VoteStateHandler | node/bftConsensus.js:416-450 | agreed on a vote for the block held: commits it with the signatures of the ballots iff they make up the quorum, else the next round; another block is not committed |
| Bft.BftConsensus.StateChange | node/bftConsensus.js:327-358 | the outcome of each state and each agreed content, exactly; timeouts start a new round |
| Bft.BftConsensus.ProcessMessage | node/bftConsensus.js:88-136 | moves on iff the report makes the node go by some content, and then just as the change of state for it says; every commit ever sent keeps its matrix |
| Bft.CommitsAgree | node/bftConsensus.js:416-434 | two nodes of one concilium commit the same block if the reports they committed it on are consistent |
| MessageAssembly.ReadsBack | network/serializer.js:35-38 | a length is read back from its varint, whatever follows |
| MessageAssembly.NegativeReadsBack | network/serializer.js:35-38 | a negative length is read back from the ten bytes that encode it |
| MessageAssembly.PrefixDecides | network/serializer.js:35-38 | bytes after a whole prefix do not change what is read |
| MessageAssembly.EncodedIsMessage | network/serializer.js:22-29 | a length-prefixed payload is one whole message |
| MessageAssembly.NegativeLengths | network/messageAssembler.js:16-29 | a length of -1 yields a message of four bytes, one of -5 throws |
| MessageAssembly.Copy | network/messageAssembler.js:24-24 | copies into the buffer at its place and changes nothing else |
| MessageAssembly.MessageAssembler.StartMessage | network/messageAssembler.js:16-45 | the messages of a chunk that starts one, and what is left of it in the buffer |
| MessageAssembly.MessageAssembler.ContinueMessage | network/messageAssembler.js:46-71 | the same for a chunk that continues a message |
| MessageAssembly.MessageAssembler.RestOfChunk | network/messageAssembler.js:29-39 | a finished message and those of the rest of the chunk |
| MessageAssembly.MessageAssembler.ExtractMessages | network/messageAssembler.js:14-72 | returns the whole messages that the bytes at hand and the chunk make up, keeps the rest, is done iff there is none, and throws iff a prefix is cut or announces no bytes |
| MessageAssembly.Receive | network/ipv6Connection.js:54-74 | feeding chunks one after the other |
| MessageAssembly.SplitInTwo | network/messageAssembler.js:14-72 | splitting a stream in two parts, one after the other, is splitting it at once |
| MessageAssembly.FeedIsSplit | network/messageAssembler.js:14-72 | chunks get through iff wherever one ends a whole prefix has arrived and the message it announces has a length, and then give the pieces of the stream |
| MessageAssembly.CutInside | network/messageAssembler.js:14-72 | after whole messages a chunk gets through iff it ends before the next one or after its prefix |
| MessageAssembly.CutPrefixThrows | network/messageAssembler.js:14-18 | a message of two bytes comes out at once, and not in two chunks that cut its prefix |
| MessageAssembly.ChunksDoNotMatter | network/messageAssembler.js:5-72 | however a stream of messages is cut, the messages come out in order and what is left is its end |
| Wallet.WalletIndex.WalletWriteNewUtxosBatch | storage/persistentStorage.js:738-763 | adds a record per pair under a new key and keeps all others |
| Wallet.WalletIndex.WalletPairs | storage/persistentStorage.js:790-797 | the addresses of the wallet that a UTXO pays |
| Wallet.WalletIndex.WalletCheckUtxos | storage/persistentStorage.js:786-800 | every address of the wallet is covered for these UTXOs, no record is lost |
| Wallet.WalletIndex.ApplyPatch | storage/persistentStorage.js:442-458 | writes the patch and keeps all covered addresses covered |
| Wallet.WalletIndex.SearchRecords | storage/persistentStorage.js:813-832 | each UTXO that a record leads to, once, and exactly the records that can go: the others lead to UTXOs of the address, each to its own |
| Wallet.WalletIndex.WalletListUnspent | storage/persistentStorage.js:807-836 | for a covered address exactly what a scan of the table finds, each UTXO once; afterwards one record for each of them, and every covered address still covered |
| Wallet.WalletIndex.WalletWatchAddress | storage/persistentStorage.js:838-847 | appends an address unless it is watched |
| Wallet.WalletIndex.WalletReIndex | storage/persistentStorage.js:867-900 | afterwards all addresses of the wallet are covered |
| Mempools.Mempool.CalcSize | node/mempool.js:287-293 | the number of transactions that are not local |
| Mempools.Mempool.CalcSizeOf | node/mempool.js:295-303 | the number of transactions of the given conciliums |
| Mempools.ShareError | node/mempool.js:319 | the share of a map is its proportion of what is to go, rounded to the nearest integer, halves up |
| Mempools.PurgedShares | node/mempool.js:313-324 | what goes from all maps together misses the target by at most half a transaction per map |
| Mempools.PurgedIsTrimmed | node/mempool.js:313-324 | purging misses its target by at most half a transaction per map, takes only the oldest, and nothing if the target is not exceeded |
| Mempools.Mempool.PurgeMaps | node/mempool.js:313-324 | every selected map loses exactly its share, oldest first |
| Mempools.LimitedAll | node/mempool.js:107-112 | without preferred conciliums two thirds of all stay, but for half a transaction per map |
| Mempools.LimitedOthers | node/mempool.js:88-94 | preferred conciliums within the limit keep everything and the pool is as large as the limit, but for half a transaction per map |
| Mempools.LimitedPreferred | node/mempool.js:95-106 | preferred conciliums above the limit: the others are emptied, and the preferred ones kept whole or trimmed to two thirds of all |
| Mempools.Mempool.LimitConstraints | node/mempool.js:78-113 | exactly the pool brought back to its limit |
| Mempools.LimitedKeeps | node/mempool.js:78-113 | only oldest transactions go, and from a pool within its bound the limit is kept but for half a transaction per map |
| Mempools.Mempool.AddTx | node/mempool.js:132-145 | after making room, exactly so, a transaction is added as the newest iff it is unknown; with k maps and k + 2 within the limit the size stays within the limit, k/2 and one |
| Mempools.Mempool.HasTx | node/mempool.js:115-124 | known iff local, bad or waiting |
| Mempools.Mempool.EnsureConciliumTxns | node/mempool.js:266-268 | a map for the concilium, the others unchanged |
| GetBlocks.SendLevel | node/node.js:607-633 | one level, up to the limit, and the next one without known or sent blocks |
| GetBlocks.Search | node/node.js:592-635 | terminates; only reached blocks are sent, all of them if that is below the limit; whole levels, but for the one that goes past the limit |
| GetBlocks.PastLimitIff | node/node.js:592-635 | one more than the limit is sent iff some level starts below the limit and would end above it |
| GetBlocks.StarPassesLimit | node/node.js:592-635 | a genesis block with 302 children is such a graph |
| GetBlocks.GetBlocksFromLastKnown | node/node.js:568-638 | blocks reached from known ones through unknown ones, one higher at a time: all of these, or whole levels up to the limit, or one more than the limit; the genesis block for strangers |
| GetBlocks.AllReached | node/node.js:2341-2363 | if every height is one more than that of the highest parent, everything is reached from the genesis block |
| GetBlocks.StrangersGetAll | node/node.js:576-590 | so a peer that knows no block is sent the whole graph, if that is below the limit |

## Left out

- Contracts: their execution, nested calls, receipts, and the contract and receipt parts of patches and merges, whose ties between levels depend on the order.
- Genesis execution, which creates outputs without spending any.
- Best-effort merging for the choice of parents (node/pendingBlocksManager.js:220-243 with a list to fill): it keeps what merges first.
- The cache over storage (storage/storageWithCache.js), which is never invalidated.
- Parents of surviving blocks: no claim that all of them are pending or final, since rolling back drops all that lies under a bad tip, even if it is shared with a good one.
- Restoring pending blocks after a restart, the record of last applied blocks, unwinding of transactions into the mempool, and the patch of local transactions.
- The queues of blocks to execute and to request, mutexes and the interleaving of asynchronous steps: an arrival is atomic.
- LevelDB, protobuf decoding of messages other than their length, hashing, recovery of signatures, and timers.
- Bft.BftConsensus.ProcessMessage: the contents and order of messages to other witnesses beyond round changes, votes and commits are not modelled, nor are the timers that call for a step.
- Bft.VerifyBlockSignatures: the definition of the concilium is a parameter; looking it up, and refusing an unknown one, is not modelled.
- ConciliumRounds.Concilium.constructor: stake conciliums without members and the explicit setting of a round-robin quorum after construction are left out; a given quorum at or below one half is allowed but excluded from the results on agreement.
- Fairness.ServedByStakeIff: stated for stakes the greatest common divisor turns into whole units; when the divisor is replaced by a million or a thousand, shares need not be whole and exact service is not claimed.
- PatchDb.PatchDB.Merge: the states of contracts and receipts are no part of the merged value.
- NodeProcess.Node.ProcessFinalityResults: the record of last applied blocks and the return of unwound transactions to the mempool are not modelled.
- Conservation.BlockConserves: a paying coinbase that is in the history the block is executed on is not covered; the program puts a random output into each to make its hash unique (structures/block.js:176-177).
- Execution.ExecBlockRefines: the same, and so in Ledger.CoinbaseExtends, Execution.CoinbaseRepresents, NodeRun.ExecuteRefines, Finalisation.ExecutionConserves and BlockBuilding.FinishedBlockExecutes.
- NodeRun.RunKeeps: the same, for a block not seen before whose paying coinbase is in the history it is executed on.
- MessageAssembly.MessageAssembler.ExtractMessages: after a failure nothing is said about the assembler, and buffers are never too large to allocate.
- Mempools.Mempool.CalcSizeOf: the program loops over the preferred set, the model over the maps with a membership check.
- Mempool persistence of local transactions, purging of outdated ones, and choosing transactions for a block.
- Wallet.WalletIndex.WalletWriteNewUtxosBatch: the counter grows without the wrap-around of its 32-bit record on disk, and is not reloaded.
- GetBlocks.GetBlocksFromLastKnown: the order in which children are listed is arbitrary but fixed by the graph.
- Peers, transport, RPC, accounts, configuration and message classes: plumbing.
