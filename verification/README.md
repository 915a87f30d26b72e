# Verified models of CBox consensus and accounting

CBox emulates blockchain validators. A node is a pipeline of stages (transaction validation, block
management, dissemination, decision, commit) that exchange messages over queues. This project
models the stages' logic in Dafny, with the threads replaced by atomic steps and FIFO queues, and
proves what holds in every state they can reach.

`dafny verify dfyconfig.toml` covers the whole project.

## What is proved

**Bitcoin.** The chain manager never replays a chain. It keeps the unspent outputs of its tail and
moves to a longer chain through a set of outputs to add and one to remove. In every reachable state
that set is the replay of the active chain from genesis. A move succeeds exactly when the whole
candidate chain replays, and is all or nothing. What replaying means is said without it too: the
unspent outputs are those created and not spent since. What one node mines, a peer with the same
parent chain accepts and follows. Every transaction the manager took in is in its
queue, in the block under construction or on the chain, in one of them, once. The pipeline from the
manager over the decision stage to the load generator commits heights that climb by at most one,
commits all but the newest `commit_depth` blocks, and, if no reorganisation discards more than
these, commits exactly the blocks 1, 2, 3, ... of the active chain for good.

**Blizzard and Avalanche.** A successful vote gives one chit to each pending ancestor and to
nothing else. A query closes at its k-th ballot, with votes for exactly the transactions that enough
of the ballots accept. In Blizzard the round count of a conflict set is the sum of its members' confidence,
the subtraction in the acceptance rule is the rivals' total, rivals accepted in turn are beta2
ahead of all earlier ones together, and in every conflict-free run everything is accepted at its beta1-th
chit and committed after its inputs. In Avalanche the counter of a conflict set is the longest run of chits at the end of
its history, and in every run a transaction is accepted exactly when that history demands it: without
rivals and pending parents at its beta1-th chit in a row.

**Transaction validation.** Whatever the order and batching of arrivals, the pool is the least
fixpoint of the acceptance rule over the received transactions, emitted parents first, once each.
Nobody spends what belongs to others.

**Avalanche proposals and the pacemaker.** Proposed blocks never repeat a transaction and never
propose it before its parents; exactly what waits for a stuck or stranded transaction is never
proposed; permissions to propose are conserved around three stages.

**Chain replication.** Any number of nodes over a network that loses, reorders and repeats
messages: the head commits blocks 1, 2, 3, ..., every node has found each of them valid, no node
handles a block twice, and no assertion fails.

**Virtual cores.** Any interleaving of lock-free acquires and releases keeps the packed count right
and accounts for exactly the core time used; free cores are handed out, and all can be in use at once.

## Hypotheses

- Ids identify transactions and blocks. A block hash is new when it is mined and its ancestors have
  a lower `rank`; the genesis hash is 0.
- The inputs of a transaction are distinct, and the two outputs of a Send are not the same key. The
  Bitcoin load generator guarantees both (`copycat_flowgen/src/bitcoin.rs`, lines 150-164).
- Transactions that spend nothing occur at most once on a chain path. Grants bypass the
  double-spend check, so nothing in the manager enforces this; `Ledger.RepeatedGrantBreaksReorg`
  shows that the undo/redo patch is wrong without it. The exact conditions, without this hypothesis,
  are `RepeatedGrants.UndoExactIff` for undoing, `RepeatedRedo.ReorgFaithfulIff` for following the
  replay after every transaction of the new branch, and `RepeatedRedo.ReorgEndsIff` for ending with
  its outputs, which is less: a patch may go wrong in between and come right again. For Sends the hypothesis is proved, not assumed (`Ledger.ReplayNeverRepeats`).
- Validated Avalanche transactions reach block management after their parents, which is what
  `TxnValidation.Validator.Validate` guarantees of its output. Votes for a block have its length.
- Values, heights and counters are natural numbers; channels between stages do not fail.

## Where the code differs from what one might expect

- `prepare_new_block` of the Bitcoin manager may never return (`AssemblyFate.AssemblyMayNeverEnd`). If no
  two pending transactions want the same output, it does not exactly if the least closure of
  transactions that can be spent is not the whole queue and still fits into the block
  (`AssemblyFate.NeverEndsIff`). In any queue of n transactions the outcome is decided after
  1 + 2 + ... + n passes (`BlockAssembly.AssemblyTerminates`).
- A payment to oneself with change loses the change, because the output is valued as the payment
  (`Values.SelfChangeLosesValue`). Value is conserved if and only if the chain has none
  (`ChainState.ChainConservesValue`).
- Not every pooled Avalanche transaction gets proposed. One recorded when some but not all of its
  parents are pending gets stuck: its counter is set to the number of all parents
  (`AvalancheProgress.RecordedButNeverProposed`). A reply that was not requested strands the
  newcomers it brings: their entries in the frontier are dropped
  (`AvalancheProgress.UnrequestedReplyStrands`). Batching leaves pending exactly what waits for a
  stuck or a stranded transaction (`AvalancheProgress.PendingForeverIff`). A stuck one stays stuck
  whatever happens; a stranded one is rescued by a peer's block that mentions it.
- A chain replication node alone on its chain never commits, since only a tail that is not the head
  acknowledges (`ChainProtocol.LoneNodeNeverCommits`); with two nodes or more some run commits
  (`ChainProgress.CommitsPossibleIff`).
- The Bitcoin manager's tail need not end the longest valid chain: it tries only the highest block
  that a new block connects (`RejectedBest.TailMissesLongest`). It does as long as every connected
  chain replays (`BitcoinNode.TailIsLongest`), and a step loses it exactly if the best newly connected
  block fails while another one would have been longer (`LongestChain.LongestStep`).

## Model

| member | source | states |
|---|---|---|
| `Ledger.ReplayNeverRepeats` | src/stage/consensus/block_management/bitcoin/basic.rs:646-667 | a chain that passes the double-spend check repeats no transaction, given only that input-less ones are not repeated |
| `Ledger.SpentForever` | src/stage/consensus/block_management/bitcoin/basic.rs:646-667 | outputs spent on a replayable chain are never unspent again later on it |
| `Ledger.OutputsFresh` | src/stage/consensus/block_management/bitcoin/basic.rs:683-716 | outputs are absent from the unspent set when a chain creates them |
| `Ledger.SpendAllExact` | src/stage/consensus/block_management/bitcoin/basic.rs:646-667 | spending a list of keys through the two sets succeeds exactly when they are distinct and all unspent, and removes exactly them |
| `Ledger.UndoRefinesReplay` | src/stage/consensus/block_management/bitcoin/basic.rs:569-625 | undoing a stretch of the chain through the two sets yields the replay of what is before it |
| `Ledger.RedoRefinesReplay` | src/stage/consensus/block_management/bitcoin/basic.rs:630-724 | redoing a stretch succeeds exactly when the chain with it replays, and yields that replay |
| `Ledger.ReorgRefinesReplay` | src/stage/consensus/block_management/bitcoin/basic.rs:569-739 | undo and redo through a delta succeed if and only if the candidate chain replays from genesis, with the same unspent set |
| `RepeatedGrants.UndoExactIff` | src/stage/consensus/block_management/bitcoin/basic.rs:569-625 | without any hypothesis on repetitions: undoing gives back the replay of what is before if and only if no output unspent there is created on the undone part while unspent, or created there and still unspent at its end |
| `RepeatedGrants.UndoBits` | src/stage/consensus/block_management/bitcoin/basic.rs:573-613 | what the two sets hold of an output after undoing: to be added if it was first spent, to be removed if a creation was not followed by its spending |
| `RepeatedRedo.FaithfulIff` | src/stage/consensus/block_management/bitcoin/basic.rs:630-724 | redoing agrees with the replay after every transaction if and only if it slips on no output: spends one that is there twice, or creates one that is removed in vain |
| `RepeatedRedo.ReorgFaithfulIff` | src/stage/consensus/block_management/bitcoin/basic.rs:569-739 | without any hypothesis on repetitions: exactly when a reorganisation through the two sets follows the replay, verdict and outputs, after every transaction of the new branch |
| `RepeatedRedo.ReorgEndsIff` | src/stage/consensus/block_management/bitcoin/basic.rs:630-739 | if both accept the new branch, patch and replay end with the same outputs if and only if for each output the last transaction that touches it does not miss, and an untouched one is restored |
| `Ledger.RepeatedGrantBreaksReorg` | src/stage/consensus/block_management/bitcoin/basic.rs:607-613 | a repeated Grant on a concrete chain makes the patched set differ from the replay |
| `Spending.ReplaysIff` | src/stage/consensus/block_management/bitcoin/basic.rs:637-716 | a chain replays if and only if each payment on it has a script that succeeds, names no input twice and spends outputs that an earlier transaction created and none has spent since |
| `Spending.UnspentIff` | src/stage/consensus/block_management/bitcoin/basic.rs:646-716 | the outputs kept are exactly those created and not spent since; a Grant creates its receiver's, a Send its receiver's unless the payment is 0 and its sender's unless the change is 0 |
| `Spending.UtxoIsUnspent` | src/stage/consensus/block_management/bitcoin/basic.rs:727-739 | in every state of the manager the active chain is admissible throughout, and the unspent set holds exactly its unspent outputs |
| `Values.ValidIff` | src/stage/consensus/block_management/bitcoin/basic.rs:126-193 | the running total with its refusals accepts a Send if and only if each input is known and was paid to the sender or is a Send by it, and the shares (the payment for the receiver, the change for the other party) sum up to what it pays out |
| `Values.SpentByOwner` | src/stage/consensus/block_management/bitcoin/basic.rs:151-160 | a Grant is spent by its receiver only, a Send by its receiver or its sender only |
| `Values.OneInputIff` | src/stage/consensus/block_management/bitcoin/basic.rs:151-184 | a Send with one input is valid if and only if it pays out the input's payment to its receiver, or its change to its sender |
| `Values.BalancedGrows` | src/stage/consensus/block_management/bitcoin/basic.rs:126-193 | pooling a transaction that passes validation keeps all pooled transactions owned and balanced |
| `Values.ReplayConserves` | src/stage/consensus/block_management/bitcoin/basic.rs:126-193 | unspent value plus lost change equals granted value on every replayable chain of valid transactions |
| `Values.SelfChangeLosesValue` | src/stage/consensus/block_management/bitcoin/basic.rs:162-184 | a balanced payment to oneself that keeps all as change destroys the value |
| `BlockTree.HeightIsDistance` | src/stage/consensus/block_management/bitcoin/basic.rs:445-507 | a pooled block's height is its distance from genesis if all ancestors are pooled, and 0 exactly otherwise |
| `BlockTree.OrphanParent` | src/stage/consensus/block_management/bitcoin/basic.rs:474-487 | the parent of a height-0 block is missing or itself of height 0, so the ancestor walk never reaches genesis |
| `BlockTree.AddConnected` | src/stage/consensus/block_management/bitcoin/basic.rs:445-461 | adding a block with a known height leaves only its waiting children unsettled |
| `BlockTree.AddOrphan` | src/stage/consensus/block_management/bitcoin/basic.rs:460-472 | filing a block of unknown height under its parent keeps: height 0 exactly when filed |
| `BlockTree.ReconnectedTrans` | src/stage/consensus/block_management/bitcoin/basic.rs:85-103 | combining the results of two reconnected subtrees keeps: newly connected and of maximal height |
| `Reorg.WalkBack` | src/stage/consensus/block_management/bitcoin/basic.rs:523-543 | walking a longer chain back to the length of the other one collects exactly its end, and every lookup succeeds |
| `Reorg.FindFork` | src/stage/consensus/block_management/bitcoin/basic.rs:517-567 | the two walks stop at the lowest common ancestor and return exactly the parts after it; no unwrap or height assertion fails |
| `Reorg.ForkUnique` | src/stage/consensus/block_management/bitcoin/basic.rs:523-567 | the place where two chains part is the length of their longest common prefix |
| `Reorg.UndoOne` | src/stage/consensus/block_management/bitcoin/basic.rs:576-621 | the branches for one transaction compute the delta function |
| `Reorg.UndoBlock` | src/stage/consensus/block_management/bitcoin/basic.rs:573-625 | a block is undone last transaction first, and all its ids are collected |
| `Reorg.UndoChain` | src/stage/consensus/block_management/bitcoin/basic.rs:569-625 | the loop over the old chain undoes exactly the transactions after the fork |
| `Reorg.RedoOne` | src/stage/consensus/block_management/bitcoin/basic.rs:637-716 | one transaction is redone or rejected as the delta function says |
| `Reorg.RedoBlock` | src/stage/consensus/block_management/bitcoin/basic.rs:635-724 | a block is redone in order; rejection of any transaction rejects it |
| `Reorg.RedoChain` | src/stage/consensus/block_management/bitcoin/basic.rs:630-725 | the new chain is redone in order, and ids move between the undone and the applied set |
| `Reorg.MoveAllExact` | src/stage/consensus/block_management/bitcoin/basic.rs:718-724 | after the loop the two id sets are the differences of undone and redone ids |
| `ChainState.RecordKeeps` | src/stage/consensus/block_management/bitcoin/basic.rs:198-212 | recording a new transaction keeps the whole invariant |
| `ChainState.AdmitKeeps` | src/stage/consensus/block_management/bitcoin/basic.rs:221-296 | moving a spendable transaction into the block, or rotating the queue, keeps the invariant |
| `ChainState.MineKeeps` | src/stage/consensus/block_management/bitcoin/basic.rs:332-383 | mining keeps the invariant: the patched unspent set is the replay of the extended chain |
| `ChainState.PoolKeeps` | src/stage/consensus/block_management/bitcoin/basic.rs:422-440 | pooling a peer's transaction keeps the invariant |
| `ChainState.GrowKeeps` | src/stage/consensus/block_management/bitcoin/basic.rs:445-507 | growing the block tree keeps the invariant and the active chain |
| `ChainState.ReorgVerdict` | src/stage/consensus/block_management/bitcoin/basic.rs:523-725 | in a reachable state the candidate is accepted exactly when its whole chain replays |
| `ChainState.ReorgKeeps` | src/stage/consensus/block_management/bitcoin/basic.rs:727-744 | adopting the candidate keeps the invariant, and what the manager holds only gains the new chain's transactions |
| `ChainState.ReorgMoves` | src/stage/consensus/block_management/bitcoin/basic.rs:718-744 | which transactions return to the queue and which leave it |
| `ChainState.PlacedOnce` | src/stage/consensus/block_management/bitcoin/basic.rs:205-210 | every transaction the manager holds occurs exactly once over queue, block under construction and chain |
| `ChainState.ChainConservesValue` | src/stage/consensus/block_management/bitcoin/basic.rs:126-193 | with a balanced pool the unspent value plus lost change equals the chain's grants; equality without loss if and only if no payment gives its sender change from itself |
| `ChainState.AssembledBlockReplays` | src/stage/consensus/block_management/bitcoin/basic.rs:221-296 | the block under construction replays on the unspent set of its parent |
| `BlockAssembly.StuckForever` | src/stage/consensus/block_management/bitcoin/basic.rs:221-296 | once there is room and nothing pending can be spent, no number of passes ends the loop |
| `BlockAssembly.AssemblyTerminates` | src/stage/consensus/block_management/bitcoin/basic.rs:221-296 | for any queue of n transactions the outcome is decided after 1 + ... + n passes: ended, or stuck for good |
| `BlockAssembly.DeadInputBlocksAssembly` | src/stage/consensus/block_management/bitcoin/basic.rs:227-282 | a pending transaction with an input nothing provides stays queued for any number of passes, so only a full block ends the loop |
| `AssemblyFate.DeadInputNeverEnds` | src/stage/consensus/block_management/bitcoin/basic.rs:227-282 | with an input nothing provides and a queue that cannot fill the block, the loop never ends |
| `AssemblyFate.AssemblyMayNeverEnd` | src/stage/consensus/block_management/bitcoin/basic.rs:221-296 | a concrete reachable queue on which the loop never ends |
| `AssemblyFate.NeverEndsIff` | src/stage/consensus/block_management/bitcoin/basic.rs:221-296 | if no two pending transactions want the same output: the loop never ends if and only if the least set of transactions enabled by the outputs there are and by each other is not the whole queue and still fits into the block |
| `BlockAssembly.PassHeld` | src/stage/consensus/block_management/bitcoin/basic.rs:227-291 | a pass moves a transaction within what the manager holds |
| `BlockAssembly.PassesHeld` | src/stage/consensus/block_management/bitcoin/basic.rs:221-296 | so do any number of passes |
| `BitcoinBlockManagement.BlockManager.constructor` | src/stage/consensus/block_management/bitcoin/basic.rs:48-74 | the empty manager satisfies the invariant |
| `BitcoinBlockManagement.BlockManager.RecordNewTxn` | src/stage/consensus/block_management/bitcoin/basic.rs:198-212 | new transactions are pooled and queue at the end, duplicates change nothing; the invariant holds if inputs and output keys are distinct |
| `BitcoinBlockManagement.BlockManager.ValidateTxn` | src/stage/consensus/block_management/bitcoin/basic.rs:126-193 | true if and only if it is a Grant, or each input is known and was paid to the sender or is a Send by it, and the payments and changes due to the sender sum up to what it pays out |
| `BitcoinBlockManagement.BlockManager.CanSpend` | src/stage/consensus/block_management/bitcoin/basic.rs:232-267 | true exactly if the script succeeds and each input is unspent or created by the block under construction, and not spent by it |
| `BitcoinBlockManagement.BlockManager.TryFirstPending` | src/stage/consensus/block_management/bitcoin/basic.rs:221-296 | one pass of the loop: the first pending transaction joins the block, with its size, if it can be spent now, and goes to the end of the queue otherwise; the block size stays the sum of its transactions |
| `BitcoinBlockManagement.BlockManager.PrepareNewBlock` | src/stage/consensus/block_management/bitcoin/basic.rs:214-313 | the state after the given number of passes, why the loop ended, and that the manager holds what it held |
| `BitcoinBlockManagement.BlockManager.GetNewBlock` | src/stage/consensus/block_management/bitcoin/basic.rs:332-383 | the chain gains exactly one block: on the tail, with the transactions under construction in order, a valid nonce and Merkle root and this node as proposer; the invariant holds, and a longest chain stays longest |
| `MinedBlocks.MinedIsSound` | src/stage/consensus/block_management/bitcoin/basic.rs:332-440 | a mined block passes every check of any manager that lacks it and has its transactions |
| `MinedBlocks.ConnectsOnlyItself` | src/stage/consensus/block_management/bitcoin/basic.rs:502-507 | a block that no pooled block waits for connects nothing but itself |
| `MinedBlocks.PeerFollows` | src/stage/consensus/block_management/bitcoin/basic.rs:332-749 | one node mines and another validates: a peer with the parent chain and the transactions pools the block at its height, and moves to the miner's chain, with the same unspent set, if and only if its own chain was not longer than the parent chain |
| `BitcoinBlockManagement.BlockManager.UpdateOrphansAndReturnTail` | src/stage/consensus/block_management/bitcoin/basic.rs:85-103 | terminates, gives all waiting descendants their heights and returns one of maximal height |
| `BitcoinBlockManagement.BlockManager.PoolTxns` | src/stage/consensus/block_management/bitcoin/basic.rs:422-440 | succeeds if and only if each transaction is known when its turn comes or spends rightfully what is known then, and then pools them all |
| `ChainState.TxnsValidIff` | src/stage/consensus/block_management/bitcoin/basic.rs:422-440 | the transactions of a block are taken if and only if each is known when its turn comes, or spends rightfully what is known then |
| `ChainState.AddTxnsIs` | src/stage/consensus/block_management/bitcoin/basic.rs:422-440 | the pool gains exactly the ids of the block's transactions, and what it has stays |
| `BitcoinBlockManagement.BlockManager.FindMissingAncestor` | src/stage/consensus/block_management/bitcoin/basic.rs:474-487 | returns an ancestor that is not pooled and not genesis |
| `BitcoinBlockManagement.BlockManager.PoolBlock` | src/stage/consensus/block_management/bitcoin/basic.rs:444-507 | a missing ancestor is requested exactly if the block has no height; otherwise the best newly connected block is found |
| `BitcoinBlockManagement.BlockManager.TryAdopt` | src/stage/consensus/block_management/bitcoin/basic.rs:517-748 | the chain moves exactly if the candidate is longer and replays; what waited keeps its order before what was under construction and what the old branch returns; nothing changes otherwise |
| `BitcoinBlockManagement.BlockManager.PoolAndAdopt` | src/stage/consensus/block_management/bitcoin/basic.rs:444-748 | the two together for a block whose transactions are pooled: moved exactly if the best newly connected chain is longer and replays, unmoved otherwise |
| `BitcoinBlockManagement.RetainNot` | src/stage/consensus/block_management/bitcoin/basic.rs:743-744 | keeps exactly the queue entries that are not dropped, in order |
| `BitcoinBlockManagement.Enumerate` | src/stage/consensus/block_management/bitcoin/basic.rs:742-742 | the undone ids are appended in some order, each once |
| `BitcoinBlockManagement.BlockManager.ValidateBlock` | src/stage/consensus/block_management/bitcoin/basic.rs:385-749 | when a block is pooled (never without a valid nonce and Merkle root), when an ancestor is requested, when the chain moves; all or nothing; the result is the new chain after the lowest common ancestor; exactly when a longest chain stays longest |
| `LongestChain.LongestStep` | src/stage/consensus/block_management/bitcoin/basic.rs:504-739 | a longest tail stays longest if and only if the best newly connected block replays or no other newly connected block that does is higher than the tail |
| `LongestChain.PeerLongest` | src/stage/consensus/block_management/bitcoin/basic.rs:385-749 | the same for every outcome of a peer's block |
| `LongestChain.MineLongest` | src/stage/consensus/block_management/bitcoin/basic.rs:332-383 | mining extends a longest chain |
| `LongestChain.PeerKeepsLongest` | src/stage/consensus/block_management/bitcoin/basic.rs:385-749 | if every connected chain replays, the tail is longest; a peer's block keeps this |
| `RejectedBest.ChildFirst` | src/stage/consensus/block_management/bitcoin/basic.rs:463-501 | a double-spending block that arrives before its parent waits as an orphan |
| `RejectedBest.TailMissesLongest` | src/stage/consensus/block_management/bitcoin/basic.rs:504-663 | a concrete run after which a valid chain longer than the tail's is pooled |
| `BitcoinDecision.AttachUnique` | src/stage/consensus/decide/bitcoin/basic.rs:47-64 | a tail attaches to a chain at one place only |
| `BitcoinDecision.Decision.constructor` | src/stage/consensus/decide/bitcoin/basic.rs:27-38 | nothing followed, nothing committed |
| `BitcoinDecision.Decision.Prune` | src/stage/consensus/decide/bitcoin/basic.rs:66-94 | drops exactly the waiting blocks above the attachment point; neither panic can happen |
| `BitcoinDecision.Decision.Extend` | src/stage/consensus/decide/bitcoin/basic.rs:96-102 | the tail is pooled at consecutive heights and queued |
| `BitcoinDecision.Decision.NewTail` | src/stage/consensus/decide/bitcoin/basic.rs:42-112 | the followed chain is the old one up to the fork plus the tail; commits are unchanged |
| `BitcoinDecision.Decision.NextToCommit` | src/stage/consensus/decide/bitcoin/basic.rs:114-137 | commits the oldest waiting block of the followed chain at its height and credits its proposer |
| `BitcoinDecision.ReadyIff` | src/stage/consensus/decide/bitcoin/basic.rs:114-121 | in every valid state a block may be committed if and only if more than `commit_len` blocks of the followed chain are not committed |
| `BitcoinDecision.Decision.CommitAll` | src/stage/consensus/decide/bitcoin/basic.rs:114-137 | from every valid state, committing while ready commits the blocks in order and leaves exactly the newest `commit_len` blocks waiting, or all if there are fewer |
| `BitcoinNode.ChainInfo.TxnCommitted` | copycat_flowgen/src/bitcoin.rs:227-233 | the table holds the counts of the commits that no later commit replaced |
| `BitcoinNode.ChainInfo.NumCommitted` | copycat_flowgen/src/bitcoin.rs:249-266 | every height up to the chain length is in the table, and the sum is over the surviving commits |
| `BitcoinNode.ChainInfo.constructor` | copycat_flowgen/src/bitcoin.rs:220-224 | the empty table |
| `BitcoinNode.Node.constructor` | src/stage/consensus/decide/mod.rs:82-93 | empty stages joined by empty channels |
| `BitcoinNode.Node.RecordTxn` | src/stage/consensus/block_management/mod.rs:131-160 | recording in the pipeline: only pool and queue of the manager change, and what it holds does not shrink |
| `BitcoinNode.Node.Prepare` | src/stage/consensus/block_management/mod.rs:162-177 | assembling in the pipeline leaves chain, unspent set and what the manager holds alone |
| `BitcoinNode.Node.PeerBlock` | src/stage/consensus/block_management/mod.rs:311-357 | a moved chain is sent on as the tail after the fork; the channel still leads to the manager's chain, and what the manager holds does not shrink |
| `BitcoinNode.Node.Propose` | src/stage/consensus/block_management/mod.rs:180-215 | a mined block is sent on as a tail of one: on the manager's tail, with its transactions under construction, a valid nonce and Merkle root |
| `BitcoinNode.Node.DeliverTail` | src/stage/consensus/decide/mod.rs:105-133 | the decision stage's chain grows, and the rest of the channel still leads to the manager's chain |
| `BitcoinNode.Node.CommitBlock` | src/stage/consensus/decide/mod.rs:135-170 | possible exactly when more than the commit depth of blocks is uncommitted; the next commit is the next block of the followed chain |
| `BitcoinNode.Node.ReportCommit` | copycat_flowgen/src/bitcoin.rs:227-233 | in every run the generator's assertion on heights holds |
| `BitcoinNode.BuriedIsFinal` | src/stage/consensus/decide/bitcoin/basic.rs:42-137 | if all tails on their way are shallow, what is buried deep enough is on the final chain |
| `BitcoinNode.CommitsSurvive` | copycat_flowgen/src/bitcoin.rs:227-257 | commits at heights 1, 2, 3, ... replace nothing in the table |
| `BitcoinNode.CommittedIsFinal` | src/stage/consensus/decide/bitcoin/basic.rs:42-137 | if no reorganisation of the manager's chain ever discarded more than the commit depth, the commits are the blocks 1, 2, 3, ... of its present chain |
| `BitcoinNode.ShallowSnoc` | src/stage/consensus/decide/bitcoin/basic.rs:42-112 | a shallow reorganisation of the manager's chain puts a shallow tail into the channel |
| `BitcoinNode.TailIsLongest` | src/stage/consensus/block_management/bitcoin/basic.rs:504-748 | in every run, as long as every connected chain replays, no connected block is higher than the tail |
| `TxnValidation.PoolIsLeastFixpoint` | src/stage/txn_validation/avalanche/basic.rs:28-163 | the pool is exactly the least set closed under: Grant, or a Send of accepted inputs that were paid to its sender or sent by it, worth what it pays out |
| `TxnValidation.PoolIsFixpoint` | src/stage/txn_validation/avalanche/basic.rs:28-163 | a received transaction is accepted if and only if it spends accepted transactions rightfully |
| `TxnValidation.PoolOwned` | src/stage/txn_validation/avalanche/basic.rs:110-152 | whatever was accepted spends only what its sender received or has left as change |
| `TxnValidation.OrderIrrelevant` | src/stage/txn_validation/avalanche/basic.rs:28-163 | the same transactions received in any order and batching give the same pool |
| `TxnValidation.Validator.constructor` | src/stage/txn_validation/avalanche/basic.rs:20-26 | the empty stage satisfies the invariant |
| `TxnValidation.Validator.ValidateTxn` | src/stage/txn_validation/avalanche/basic.rs:85-163 | lists exactly the missing inputs, or else decides who may spend what: valid if and only if each input was paid to the sender or is a Send by it, and its shares sum up to the outputs |
| `TxnValidation.Validator.MissingInputs` | src/stage/txn_validation/avalanche/basic.rs:93-108 | exactly the inputs that are not pooled |
| `TxnValidation.Validator.CheckValue` | src/stage/txn_validation/avalanche/basic.rs:110-152 | true if and only if each input was paid to the sender or is a Send by it, and the payments and changes due to the sender sum up to what it pays out |
| `TxnValidation.Validator.FileUnderAll` | src/stage/txn_validation/avalanche/basic.rs:52-65 | a transaction with missing inputs is filed under each of them |
| `TxnValidation.Validator.ValidateInner` | src/stage/txn_validation/bitcoin/basic.rs:27-82 | the recursion terminates, and its output extends the log of accepted transactions, parents first, each once |
| `TxnValidation.Validator.TakeOne` | src/stage/txn_validation/avalanche/basic.rs:174-176 | one delivered transaction, with all that it completes |
| `TxnValidation.Validator.Validate` | src/stage/txn_validation/avalanche/basic.rs:168-179 | after each batch the pool is the least fixpoint over all received transactions: accepted is exactly what spends accepted transactions of its own sender and is balanced; every emission is a delivery, of now or before, with its own source |
| `Blizzard.NonePending` | src/stage/consensus/decide/avalanche/blizzard.rs:293-300 | true exactly if no parent is pending |
| `Blizzard.VoteChits` | src/stage/consensus/decide/avalanche/blizzard.rs:212-324 | a successful vote gives one chit to each pending ancestor-or-self in the DAG before it, and none else |
| `BlizzardSafety.AgainstIsRivals` | src/stage/consensus/decide/avalanche/blizzard.rs:277-288 | rounds minus confidence is the rivals' confidence, so the subtraction cannot underflow |
| `BlizzardSafety.AcceptedConfidence` | src/stage/consensus/decide/avalanche/blizzard.rs:293-319 | an accepted transaction exceeds all rivals' chits by the threshold that applies to it |
| `BlizzardSafety.AcceptedIff` | src/stage/consensus/decide/avalanche/blizzard.rs:293-319 | a chit accepts if and only if: without rivals and pending parents the confidence reaches beta1, and otherwise it reaches beta2 plus all rivals' chits |
| `BlizzardSafety.ContestedIff` | src/stage/consensus/decide/avalanche/blizzard.rs:277-291 | the conflict flags are set exactly if somebody else wants one of the inputs |
| `BlizzardSafety.ChitKeeps` | src/stage/consensus/decide/avalanche/blizzard.rs:233-291 | a chit keeps: rounds are the members' confidence in sum, and `pref` has most |
| `BlizzardSafety.ChitSafe` | src/stage/consensus/decide/avalanche/blizzard.rs:212-324 | a chit keeps the distance between accepted rivals |
| `BlizzardSafety.VisitSafe` | src/stage/consensus/decide/avalanche/blizzard.rs:212-324 | so does a whole vote over the DAG |
| `BlizzardSafety.RecordSafe` | src/stage/consensus/decide/avalanche/blizzard.rs:436-472 | so does recording a transaction |
| `BlizzardSafety.LaterRivalAhead` | src/stage/consensus/decide/avalanche/blizzard.rs:278-319 | a rival accepted later is beta2 ahead of all rivals accepted earlier together |
| `BlizzardSafety.AcceptedFrozen` | src/stage/consensus/decide/avalanche/blizzard.rs:222-225 | votes do not change the confidence of accepted transactions |
| `BlizzardSafety.ChitVerdict` | src/stage/consensus/decide/avalanche/blizzard.rs:293-319 | without rivals a chit accepts exactly at beta1, with all parents accepted |
| `BlizzardSafety.VoteSteady` | src/stage/consensus/decide/avalanche/blizzard.rs:212-324 | one vote keeps a conflict-free state: accepted at exactly beta1 chits, each after its parents (a step of `BlizzardRun.ConflictFreeRun`) |
| `BlizzardSafety.RecordSteady` | src/stage/consensus/decide/avalanche/blizzard.rs:436-472 | recording an uncontested transaction with known parents keeps it (a step of `BlizzardRun.ConflictFreeRun`) |
| `BlizzardDecision.VoteAllSteady` | src/stage/consensus/decide/avalanche/blizzard.rs:326-362 | so do the votes of a whole block, whatever they are (a step of `BlizzardRun.ConflictFreeRun`) |
| `BlizzardRun.RecordAllGood` | src/stage/consensus/decide/avalanche/blizzard.rs:405-515 | so does recording a whole block of a run in which nobody shares an output and parents come first |
| `BlizzardRun.RunGood` | src/stage/consensus/decide/avalanche/blizzard.rs:179-593 | every state of such a run, from the empty stage on, is steady |
| `BlizzardRun.CommitsOrdered` | src/stage/consensus/decide/avalanche/blizzard.rs:311-321 | every input of a committed payment stands earlier in the commit sequence, from which no-ops are dropped |
| `BlizzardRun.ConflictFreeRun` | src/stage/consensus/decide/avalanche/blizzard.rs:212-362 | in every state the stage reaches in a conflict-free run, whatever the votes and timeouts: pending exactly until the beta1-th chit, never more chits, and inputs committed before the payments that spend them |
| `BlizzardDecision.Decision.constructor` | src/stage/consensus/decide/avalanche/blizzard.rs:75-119 | the empty stage satisfies the invariants; no queries, votes, timers or commits |
| `BlizzardDecision.Decision.UpdateConflictSets` | src/stage/consensus/decide/avalanche/blizzard.rs:243-291 | the loop over the inputs bumps each conflict set and sums what went to rivals; the preference moves exactly if the transaction has overtaken the preferred one |
| `BlizzardDecision.Decision.GiveChit` | src/stage/consensus/decide/avalanche/blizzard.rs:233-324 | one chit; the transaction leaves the DAG if and only if its confidence reaches beta1 without rivals and pending parents, or else beta2 plus all rivals' chits |
| `BlizzardDecision.Decision.HandleVotesHelper` | src/stage/consensus/decide/avalanche/blizzard.rs:212-324 | the recursion computes the visit function and terminates; the result lists what is accepted, without no-ops |
| `BlizzardDecision.Decision.HandOut` | src/stage/consensus/decide/avalanche/blizzard.rs:337-354 | the votes of a block take effect in block order |
| `BlizzardDecision.Decision.TakeQuery` | src/stage/consensus/decide/avalanche/blizzard.rs:327-336 | an open query has votes of its length, which count its ballots; it leaves the pool and is finished |
| `BlizzardDecision.Decision.QueueCommit` | src/stage/consensus/decide/avalanche/blizzard.rs:356-359 | one commit entry and one feedback message |
| `BlizzardDecision.Decision.HandleVotes` | src/stage/consensus/decide/avalanche/blizzard.rs:326-362 | an open query is closed with chits for what enough of its ballots accept, one commit entry and one feedback; anything else changes nothing |
| `BlizzardDecision.Decision.TakeEffect` | src/stage/consensus/decide/avalanche/blizzard.rs:327-354 | the ballots of the query take effect: votes for exactly the transactions that at least the threshold of them accept; exactly the newly accepted ones are listed |
| `BlizzardDecision.Decision.RecordVotes` | src/stage/consensus/decide/avalanche/blizzard.rs:179-209 | the tally is the number of ballots, and per transaction the number of ballots that accept it; before the k-th ballot nothing is decided, and the k-th closes the query with votes for exactly the transactions that at least the threshold of ballots accept |
| `Ballots.TallySnoc` | src/stage/consensus/decide/avalanche/blizzard.rs:191-202 | counting one more ballot keeps: received is the number of ballots, and each accepted count the number of ballots that accept that transaction |
| `Ballots.CountsElect` | src/stage/consensus/decide/avalanche/blizzard.rs:337-354 | comparing the counts with the threshold votes, in block order, for exactly the transactions that at least that many ballots accept |
| `BlizzardDecision.Decision.RecordTxns` | src/stage/consensus/decide/avalanche/blizzard.rs:401-515 | new transactions of a block are recorded in order, placeholders are not; the invariants hold if inputs are distinct |
| `BlizzardDecision.Decision.RecordOne` | src/stage/consensus/decide/avalanche/blizzard.rs:414-502 | a new transaction enters the DAG and its conflict sets, and waits for its inputs or the parents of a no-op |
| `BlizzardDecision.Decision.NewTail` | src/stage/consensus/decide/avalanche/blizzard.rs:367-558 | a peer's block only records; an own block opens one query, which the node's own ballot closes exactly if it is the k-th, with votes for what enough ballots accept |
| `BlizzardDecision.Decision.OpenOwn` | src/stage/consensus/decide/avalanche/blizzard.rs:529-534 | the query of an own block is opened and the node's own ballot counted with those that came earlier |
| `BlizzardDecision.Decision.StartQuery` | src/stage/consensus/decide/avalanche/blizzard.rs:529-534 | an own block becomes an open query with a timer; ballots that came earlier still count |
| `BlizzardDecision.Decision.HandleTimeout` | src/stage/consensus/decide/avalanche/blizzard.rs:585-593 | the first timer belongs to an own query: an open one is closed with votes for what enough of the ballots at hand accept, a finished one is only taken from the queue |
| `BlizzardDecision.OwnQueriesSplit` | src/stage/consensus/decide/avalanche/blizzard.rs:326-362 | own queries are the open ones and those fed back, once each |
| `BlizzardDecision.NeverCommittedTwice` | src/stage/consensus/decide/avalanche/blizzard.rs:212-362 | over a whole run exactly the transactions that left the DAG and are not no-ops are committed, and none twice |
| `AvalancheStreaks.StreakIsLongest` | src/stage/consensus/decide/avalanche/basic.rs:277-282 | the streak is the longest suffix of the history made of chits for one transaction |
| `AvalancheStreaks.WinEarns` | src/stage/consensus/decide/avalanche/basic.rs:248-293 | the counters reach n exactly if the latest n events on every input are chits for the transaction; a conflict flag means a rival was seen |
| `AvalancheStreaks.AcceptedExactly` | src/stage/consensus/decide/avalanche/basic.rs:298-326 | a chit accepts if and only if it completes a streak of beta1 on every input when no rival was seen and no parent is pending, of beta2 otherwise |
| `AvalancheStreaks.WinKeeps` | src/stage/consensus/decide/avalanche/basic.rs:233-326 | a chit keeps: counters are the streaks of the history, every acceptance was earned, none happens twice |
| `AvalancheStreaks.LoseKeeps` | src/stage/consensus/decide/avalanche/basic.rs:358-393 | so does the reset after a failed vote |
| `AvalancheStreaks.EnterKeeps` | src/stage/consensus/decide/avalanche/basic.rs:454-514 | so does recording a transaction |
| `AvalancheStreaks.LaterRivalStartsOver` | src/stage/consensus/decide/avalanche/basic.rs:250-311 | a rival accepted later won beta2 chits in a row on the shared input after the earlier acceptance |
| `AvalancheRun.LeavesIff` | src/stage/consensus/decide/avalanche/basic.rs:298-315 | at a chit a transaction leaves the DAG if and only if it completes beta1 chits in a row on every input when no rival was seen and no parent is pending, and beta2 otherwise |
| `AvalancheRun.WinTimely` | src/stage/consensus/decide/avalanche/basic.rs:233-326 | a chit keeps: every chit so far was answered by an acceptance exactly if the history up to it demanded one, and accepted transactions get no more |
| `AvalancheRun.LoseTimely` | src/stage/consensus/decide/avalanche/basic.rs:358-393 | so does the reset after a failed vote |
| `AvalancheRun.EnterTimely` | src/stage/consensus/decide/avalanche/basic.rs:454-514 | so does recording a transaction |
| `AvalancheRun.PendingUntilEarned` | src/stage/consensus/decide/avalanche/basic.rs:213-329 | in every reachable state a transaction is pending if and only if none of its chits completed a streak of beta1 without rivals and pending parents, or of beta2 |
| `AvalancheRun.UncontestedRun` | src/stage/consensus/decide/avalanche/basic.rs:303-309 | early commitment: without rivals and pending parents a payment is pending exactly until it won beta1 chits in a row, and a transaction without inputs exactly until it won beta1 (one chit at least) |
| `AvalancheDecision.WalkIsAncestry` | src/stage/consensus/decide/avalanche/basic.rs:218-231 | the transactions reached by the recursion are exactly the pending ancestors in the DAG before the vote |
| `AvalancheDecision.SweepDone` | src/stage/consensus/decide/avalanche/basic.rs:361-373 | the transactions reached by the worklist are exactly the pending ancestors |
| `AvalancheDecision.NeverReportedTwice` | src/stage/consensus/decide/avalanche/basic.rs:315-326 | over a whole run no transaction is reported twice |
| `AvalancheDecision.Decision.constructor` | src/stage/consensus/decide/avalanche/basic.rs:76-120 | the empty stage satisfies the invariant |
| `AvalancheDecision.Decision.UpdateConflictSets` | src/stage/consensus/decide/avalanche/basic.rs:244-296 | the loop over the inputs advances each streak and returns the lowest; the preference moves exactly if the transaction has overtaken the preferred one |
| `AvalancheDecision.Decision.GiveChit` | src/stage/consensus/decide/avalanche/basic.rs:233-328 | one chit; the transaction leaves the DAG if and only if the history shows beta1 chits in a row on every input without rivals and pending parents, or else beta2 |
| `AvalancheDecision.Decision.HandleVotesHelper` | src/stage/consensus/decide/avalanche/basic.rs:213-329 | the recursion terminates by the unvisited part of the DAG and reaches each pending ancestor once |
| `AvalancheDecision.Decision.VoteFor` | src/stage/consensus/decide/avalanche/basic.rs:348-357 | confidence rises by one for each pending ancestor-or-self and for nothing else |
| `AvalancheDecision.Decision.ClearCounts` | src/stage/consensus/decide/avalanche/basic.rs:375-392 | the counters of exactly the transaction's inputs are reset |
| `AvalancheDecision.Decision.VoteAgainst` | src/stage/consensus/decide/avalanche/basic.rs:358-393 | the streaks of exactly the pending ancestors-or-self are reset, once each |
| `AvalancheDecision.Decision.HandOut` | src/stage/consensus/decide/avalanche/basic.rs:342-395 | the votes of a block take effect in order: for each transaction chits for exactly its pending ancestors at that moment if its votes reach the threshold, resets of exactly these otherwise; the report lists what is accepted |
| `AvalancheDecision.Decision.RecordOne` | src/stage/consensus/decide/avalanche/basic.rs:446-545 | a new transaction enters the DAG and its conflict sets, and waits for its inputs or the parents of a no-op |
| `AvalancheBatching.JoinKeeps` | src/stage/consensus/block_management/avalanche/basic.rs:185-209 | a newcomer keeps the order invariants and everybody's difference between counter and pending parents |
| `AvalancheBatching.NoUnderflow` | src/stage/consensus/block_management/avalanche/basic.rs:230-242 | the counter of a released child is positive |
| `AvalancheBatching.LeaveKeeps` | src/stage/consensus/block_management/avalanche/basic.rs:225-245 | taking a transaction without pending parents keeps the order invariants and everybody's difference |
| `AvalancheBatching.IdleMeansBlocked` | src/stage/consensus/block_management/avalanche/basic.rs:214-248 | with an empty frontier, whatever is pending waits, directly or through pending parents, for a stuck or a stranded transaction |
| `AvalancheBlockManagement.AdvanceKeeps` | src/stage/consensus/block_management/avalanche/basic.rs:220-245 | a step of the batching loop keeps the invariants, and exactly the same transactions are stuck and stranded |
| `AvalancheBlockManagement.AdvanceWaits` | src/stage/consensus/block_management/avalanche/basic.rs:220-245 | who waits for a stuck or stranded transaction still does after a step |
| `AvalancheBlockManagement.GrowsBlocked` | src/stage/consensus/block_management/avalanche/basic.rs:318-405 | transactions of a peer's block change nobody else's state, and get stuck only if they repeat an input |
| `AvalancheBlockManagement.GrowsAndPush` | src/stage/consensus/block_management/avalanche/basic.rs:411-515 | queueing the free transactions of a peer's block rescues exactly the stranded ones that it mentions |
| `AvalancheBlockManagement.RecordStuck` | src/stage/consensus/block_management/avalanche/basic.rs:191-209 | recording makes the newcomer stuck if and only if some but not all of its parents are pending |
| `AvalancheProgress.RecordedButNeverProposed` | src/stage/consensus/block_management/avalanche/basic.rs:199-209 | a concrete run after which a recorded transaction is stuck and never proposed |
| `AvalancheProgress.PendingForeverIff` | src/stage/consensus/block_management/avalanche/basic.rs:214-248 | however long batching goes on, a transaction stays pending if and only if it waits for a stuck or a stranded one |
| `AvalancheProgress.UnrequestedReplyStrands` | src/stage/consensus/block_management/avalanche/basic.rs:441-449 | a concrete run in which nothing is stuck and two transactions are never proposed: an unrequested reply strands a grant, and its child waits for it |
| `AvalancheBlockManagement.ProposalsOrdered` | src/stage/consensus/block_management/avalanche/basic.rs:214-291 | in every state the proposed transactions are distinct and each comes after its inputs |
| `AvalancheBlockManagement.BlockManagement.constructor` | src/stage/consensus/block_management/avalanche/basic.rs:56-80 | the empty stage satisfies the invariant |
| `AvalancheBlockManagement.BlockManagement.LinkParents` | src/stage/consensus/block_management/avalanche/basic.rs:191-197 | every pending parent learns of the child, and occurrences are counted |
| `AvalancheBlockManagement.BlockManagement.RecordNewTxn` | src/stage/consensus/block_management/avalanche/basic.rs:166-212 | duplicates change nothing; otherwise queued at the end exactly if no input is pending, exactly who is stuck, nobody newly stranded, and who waited for a stuck one still does |
| `AvalancheBlockManagement.BlockManagement.ReleaseChildren` | src/stage/consensus/block_management/avalanche/basic.rs:230-242 | each pending child counts one parent less without underflow, and exactly those that reach 0 are queued |
| `AvalancheBlockManagement.BlockManagement.TakeNext` | src/stage/consensus/block_management/avalanche/basic.rs:220-245 | one step of the loop; a stale frontier entry is skipped |
| `AvalancheBlockManagement.BlockManagement.PrepareNewBlock` | src/stage/consensus/block_management/avalanche/basic.rs:214-248 | terminates with a full batch or an empty frontier; exactly the same transactions are stuck and stranded |
| `AvalancheBlockManagement.BlockManagement.GetNewBlock` | src/stage/consensus/block_management/avalanche/basic.rs:267-291 | proposes the batch under the next number and spends one permission; no lookup fails |
| `AvalancheBlockManagement.BlockManagement.AdmitTxn` | src/stage/consensus/block_management/avalanche/basic.rs:365-387 | a peer's transaction joins with its pending parents counted and is not stuck |
| `AvalancheBlockManagement.BlockManagement.Missing` | src/stage/consensus/block_management/avalanche/basic.rs:95-108 | exactly the inputs that are not pooled |
| `AvalancheBlockManagement.BlockManagement.HandlePmakerMsg` | src/stage/consensus/block_management/avalanche/basic.rs:530-534 | one more permission |
| `AvalancheBlockManagement.BlockManagement.CheckEntry` | src/stage/consensus/block_management/avalanche/basic.rs:318-405 | an entry is kept and, if new, pooled because it is valid, replaced by a placeholder because it is invalid with all inputs known, or postponed because inputs are missing |
| `AvalancheBlockManagement.BlockManagement.FirstPass` | src/stage/consensus/block_management/avalanche/basic.rs:310-408 | every transaction of the block is pooled or marked for a second look because an input was missing; whatever is new in the pool spends rightfully |
| `AvalancheBlockManagement.BlockManagement.Requeue` | src/stage/consensus/block_management/avalanche/basic.rs:512-515 | the block's free transactions go to the front of the frontier in their order |
| `AvalancheBlockManagement.BlockManagement.Recheck` | src/stage/consensus/block_management/avalanche/basic.rs:452-503 | after the second look every transaction is pooled, only invalid ones were replaced, and whatever is new in the pool spends rightfully |
| `AvalancheBlockManagement.BlockManagement.ValidateBlock` | src/stage/consensus/block_management/avalanche/basic.rs:293-528 | what is emitted is the proposer's block, fully pooled, with placeholders for invalid transactions only; newcomers spend rightfully; which blocks wait afterwards, and who is stuck or stranded, for each outcome; an unexpected reply strands exactly the newcomers without counted parents |
| `AvalancheNode.Node.constructor` | src/stage/pacemaker/fixed_inflight_blk.rs:13-20 | all permissions start at the pacemaker |
| `AvalancheNode.FixedInflightPacemaker.constructor` | src/stage/pacemaker/fixed_inflight_blk.rs:13-20 | the quota starts at the limit |
| `AvalancheNode.FixedInflightPacemaker.GetProposeMsg` | src/stage/pacemaker/fixed_inflight_blk.rs:24-34 | one permission is handed out, only if there is one |
| `AvalancheNode.FixedInflightPacemaker.HandleFeedback` | src/stage/pacemaker/fixed_inflight_blk.rs:35-38 | one permission returns |
| `AvalancheNode.Node.RecordTxn` | src/stage/consensus/block_management/mod.rs:131-160 | recording moves no permission |
| `AvalancheNode.Node.Prepare` | src/stage/consensus/block_management/mod.rs:162-177 | batching moves no permission |
| `AvalancheNode.Node.CheckPeerBlock` | src/stage/consensus/block_management/mod.rs:311-357 | checking a peer's block moves no permission |
| `AvalancheNode.Node.PeerBlock` | src/stage/consensus/decide/mod.rs:105-133 | a peer's block opens no query and moves no permission |
| `AvalancheNode.Node.PacemakerProposes` | src/stage/pacemaker/fixed_inflight_blk.rs:24-34 | a permission moves from the pacemaker to the channel |
| `AvalancheNode.Node.ManagerTakesPermission` | src/stage/consensus/block_management/avalanche/basic.rs:530-534 | a permission moves from the channel to the manager |
| `AvalancheNode.Node.Propose` | src/stage/consensus/block_management/avalanche/basic.rs:267-291 | a permission becomes a block in the pipe with a new number |
| `AvalancheNode.Node.Deliver` | src/stage/consensus/decide/avalanche/blizzard.rs:367-558 | a block in the pipe becomes a query, possibly finished at once |
| `AvalancheNode.Node.PeerVotes` | src/stage/consensus/decide/avalanche/blizzard.rs:179-209 | votes move permissions only from open queries to feedback |
| `AvalancheNode.Node.Timeout` | src/stage/consensus/decide/avalanche/blizzard.rs:585-593 | so do timeouts |
| `AvalancheNode.Node.Feedback` | src/stage/pacemaker/fixed_inflight_blk.rs:35-38 | feedback returns a permission to the pacemaker |
| `AvalancheNode.QuotaConserved` | src/stage/pacemaker/fixed_inflight_blk.rs:24-38 | pacemaker quota, messages, manager quota, blocks in the pipe, open queries and feedback under way always sum to the limit |
| `AvalancheNode.FinishedOnce` | src/stage/consensus/decide/avalanche/blizzard.rs:326-362 | each own block is in the pipe, queried or finished, in one of them only, and finished at most once |
| `ChainStages.ValidateOrder` | src/config.rs:175-200 | the resulting order has each node exactly once; a valid order is kept as a prefix, an invalid one replaced by the sorted nodes |
| `ChainStages.CheckOrder` | src/config.rs:176-186 | valid exactly if every entry is a node and none repeats |
| `ChainStages.Append` | src/config.rs:192-198 | the missing nodes are appended, once each |
| `ChainStages.Sorted` | src/config.rs:187-191 | the nodes in ascending order |
| `ChainStages.FindLink` | src/stage/consensus/block_dissemination/linear.rs:18-44 | the search returns the neighbours of the node's one position |
| `ChainStages.FillSettles` | src/stage/consensus/block_management/chain_replication.rs:64-77 | batching stops at the first prefix that reaches the block size, or at the end of the pool |
| `ChainStages.SettledUnique` | src/stage/consensus/block_management/chain_replication.rs:64-77 | there is one such batch only, however often the loop ran |
| `ChainStages.CutSnug` | src/stage/consensus/block_management/chain_replication.rs:90-107 | a proposed block reaches the block size and no shorter prefix of it does; nothing is lost from the pool |
| `ChainStages.BlockManagement.constructor` | src/stage/consensus/block_management/chain_replication.rs:28-40 | an empty pool, block number 1, head if first in the order |
| `ChainStages.BlockManagement.RecordNewTxn` | src/stage/consensus/block_management/chain_replication.rs:45-57 | the head appends to its pool, others ignore |
| `ChainStages.BlockManagement.PrepareNewBlock` | src/stage/consensus/block_management/chain_replication.rs:59-80 | the loop computes the settled batch |
| `ChainStages.BlockManagement.GetNewBlock` | src/stage/consensus/block_management/chain_replication.rs:90-107 | the batch is drained into a block with the next number |
| `ChainStages.Decision.constructor` | src/stage/consensus/decide/chain_replication.rs:41-68 | the role by position, and commits start at 1 |
| `ChainStages.Decision.NewTail` | src/stage/consensus/decide/chain_replication.rs:73-110 | the head keeps the block, the tail acknowledges it to the head |
| `ChainStages.Decision.HandlePeerMsg` | src/stage/consensus/decide/chain_replication.rs:139-150 | an acknowledged block in flight becomes ready, others are ignored |
| `ChainStages.Decision.NextToCommit` | src/stage/consensus/decide/chain_replication.rs:121-128 | the next number is committed with its transactions |
| `ChainProtocol.InitInv` | src/stage/consensus/decide/chain_replication.rs:41-68 | the initial system satisfies the protocol invariant |
| `ChainProtocol.SubmitInv` | src/stage/consensus/block_management/chain_replication.rs:45-57 | recording a transaction at any node keeps it |
| `ChainProtocol.PrepareInv` | src/stage/consensus/block_management/chain_replication.rs:59-80 | so does batching |
| `ChainProtocol.ProposeInv` | src/stage/consensus/block_management/chain_replication.rs:90-107 | a proposal keeps the protocol invariant |
| `ChainProtocol.ReceiveBlockInv` | src/stage/consensus/block_management/mod.rs:217-247 | so does any delivery of a block, late or repeated |
| `ChainProtocol.ReceiveAckInv` | src/stage/consensus/decide/chain_replication.rs:139-150 | so does any delivery of an acknowledgement; its assertions hold |
| `ChainProtocol.CheckInv` | src/stage/consensus/block_management/mod.rs:249-338 | so does the end of a transaction check, in any order, with either result |
| `ChainProtocol.SendInv` | src/stage/consensus/block_dissemination/linear.rs:48-60 | so does passing a block on; the assertion on the sender holds |
| `ChainProtocol.DecideInv` | src/stage/consensus/decide/chain_replication.rs:73-110 | so does the decision stage's handling of a block |
| `ChainProtocol.CommitInv` | src/stage/consensus/decide/chain_replication.rs:111-128 | so does a commit; its unwrap cannot fail |
| `ChainProtocol.CommitReadyIff` | src/stage/consensus/decide/chain_replication.rs:111-128 | in every state of the protocol the stage is ready if and only if a commit step of its node commits the next block in flight |
| `ChainProtocol.ActInv` | src/stage/consensus/decide/chain_replication.rs:73-148 | every step of every node keeps the invariant |
| `ChainProtocol.RunInv` | src/stage/consensus/decide/chain_replication.rs:73-148 | the invariant holds after every sequence of steps, messages being lost, reordered and repeated at will |
| `ChainProtocol.ChainReplicationIsSafe` | src/stage/consensus/decide/chain_replication.rs:73-148 | in every run: no assertion fails, commits are 1, 2, 3, ..., every node has found each committed block valid, committed transactions are a prefix of the recorded ones |
| `ChainProtocol.CommittedWasChecked` | src/stage/consensus/block_management/mod.rs:249-338 | a block is committed only after a check at every other node of the chain has found it valid |
| `ChainOnce.DecidedOnce` | src/stage/consensus/block_management/mod.rs:217-247 | however often messages are repeated, no block reaches the decision stage of a node twice |
| `ChainProtocol.ProposalsAreSnug` | src/stage/consensus/block_management/chain_replication.rs:45-107 | in every run proposals and pool partition the recorded transactions; each block reaches the block size and no shorter prefix of it does |
| `ChainProtocol.LoneNodeNeverCommits` | src/stage/consensus/decide/chain_replication.rs:85-110 | a single node commits nothing in any run |
| `ChainProgress.OneFurther` | src/stage/consensus/block_dissemination/linear.rs:48-60 | three steps of the next node carry a block one position further |
| `ChainProgress.CommitsPossibleIff` | src/stage/consensus/decide/chain_replication.rs:73-148 | some run commits if and only if the chain has two nodes or more |
| `VCores.Unpack` | src/vcores.rs:69-71 | packing time and count in one word loses neither |
| `VCores.LockedIsArea` | src/vcores.rs:299-335 | the lock-based version reads exactly the core time used, counted instant by instant |
| `VCores.ExchangeKeeps` | src/vcores.rs:66-80 | a successful exchange closes the same window as a step of the lock-based version |
| `VCores.StepInv` | src/vcores.rs:62-140 | every atomic step of every thread keeps the accounting invariant |
| `VCores.RunInv` | src/vcores.rs:62-140 | the invariant holds in every state of every interleaving |
| `VCores.AccountingIsExact` | src/vcores.rs:62-153 | in every interleaving the count is the number of cores in use and within the limit, and total plus windows not yet added is the core time used; at rest the total is the lock-based one |
| `VCores.IdleGetsCore` | src/vcores.rs:62-91 | in every reachable state with a free permit an idle thread holds a core after five steps of its own |
| `VCores.CoreIsGivenBack` | src/vcores.rs:120-140 | a thread that holds a core is idle again after five steps of its own, and its permit is free |
| `VCores.AllCoresInUse` | src/vcores.rs:62-91 | some run lets as many threads hold a core at once as there are cores |

## Left out

- Voting: `is_preferred`, `is_strongly_preferred` and the preference cache; votes are arbitrary. The
  cache does not always agree with the uncached recursion, because `pref` is overwritten before the
  sweep reads it.
- Incentive transactions, signatures, hashing, Merkle trees and proof-of-work timing; validity of a
  script, a Merkle root and a nonce are flags.
- BitcoinBlockManagement.BlockManager.PrepareNewBlock: takes a limit on the number of passes, because
  the loop of the original may not terminate; the result `Working` means that it would still loop.
- BitcoinBlockManagement.BlockManager.ValidateBlock: requires a block that keeps the hypotheses (hashes
  acyclic, ids injective, no repeated Grant on a path, distinct output keys), because the invariant
  fails otherwise; what the patch does under repeated Grants is `RepeatedRedo.ReorgFaithfulIff`.
- BitcoinNode.Node.PeerBlock: requires the same.
- MinedBlocks.PeerFollows: requires that no block of the peer waits for the mined one; otherwise the best
  block that it connects decides (`LongestChain.LongestStep`).
- BitcoinBlockManagement.BlockManager.RecordNewTxn: keeps the invariant only for distinct inputs and output keys.
- BitcoinNode.Node.RecordTxn: keeps the invariant only for the same transactions.
- BlizzardDecision.Decision.RecordTxns: keeps the invariants only if no payment repeats an input, since a
  repeated input is counted as a rival of its own.
- BlizzardDecision.Decision.NewTail: requires payments without repeated inputs and votes of the block's length.
- AvalancheNode.Node.Propose: requires that no pooled payment repeats an input.
- AvalancheNode.Node.PeerBlock: requires that no payment of the block repeats an input.
- AvalancheDecision.Decision.RecordOne: keeps the invariant only if a payment does not repeat an input.
- RepeatedGrants.UndoExactIff: requires distinct output keys per transaction and no transaction that spends
  its own output.
- AssemblyFate.NeverEndsIff: requires that no two pending transactions want the same output; otherwise the
  outcome depends on the order of the queue, and `BlockAssembly.AssemblyTerminates` decides it.
- BitcoinDecision.Decision.NewTail: requires that the tail attaches to the chain told so far; the
  node model shows that every tail in the channel does.
- BlizzardDecision.Decision.RecordVotes: requires that votes for a block have its length, which the
  original asserts.
- VCores.AccountingIsExact: integer time instead of 32-bit floating point, and no bound on time;
  concurrent readings of `get_utilization`, which may miss windows not yet added.
- ChainProtocol.ChainReplicationIsSafe: safety only; acknowledgements that reach the head before its
  own decision stage has the block are dropped, so a run may stop committing.
- Query bookkeeping of the basic Avalanche decision stage: it is that of `BlizzardDecision.Decision`,
  which is modelled; `AvalancheDecision` models chits, streaks and resets.
- AvalancheBlockManagement.BlockManagement.ValidateBlock: answers to block requests and the messages
  that request missing transactions are not modelled, only what their arrival does. A reply that was
  not requested drops the frontier entries collected so far, as in the original.
- The eager Bitcoin manager (`eager.rs`), whose block validation is not written.
- Vote-no variants, dummy stages, gossip, broadcast and sampling dissemination, the commit stage and
  the time queue, which would only add easy members.
- Threads, delays, metrics, reports, the mailbox and the messenger.
- Overflow of 64-bit values and counters.
- Liveness: eventual commits and proposals.
