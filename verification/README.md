# Proof-of-work ledger node: chain state, consensus arithmetic, scripts and codecs in Dafny

This project models the core of a Go node for a proof-of-work ledger with unspent outputs, and
proves properties of the model. The model follows the code: the same branches, constants, error
exits and, where the code ignores an error, the same ignorance.

`dafny verify dfyconfig.toml` checks everything.

## What is modelled

| modules | subject |
|---|---|
| `Types`, `Ledger` | blocks and transactions as values; the ledger as a plain replay of blocks |
| `UnspentIndex`, `OwnerIndex`, `TransactionIndex`, `Storage` | the chain store: its tables, the persist and rollback code of both unspent indexes, the class `ChainStore` |
| `Compact`, `MedianTime`, `Difficulty`, `Merkle` | compact targets, work, median time, retargeting, Merkle roots |
| `TxValidator`, `BlockValidator`, `Conservation` | checks of transactions and blocks; totals of unspent value |
| `BlockTree`, `OrphanPool`, `Chain`, `Genesis` | the block tree, reorganisation, the orphan pool, the class `Blockchain`, its first block |
| `Mining`, `Counterexamples` | transactions and blocks under the hashes of their contents; inputs that pass the checks and do not do what one would expect |
| `PlainBlocks`, `RefusedBranch`, `FullPool`, `Backdated` | runs and branches that do not end as one would expect |
| `Vm`, `Scripts` | the stack machine, script building, signature checks, validation of programs |
| `Serialization`, `TransactionCodec`, `BlockCodec`, `Layout`, `Identity` | byte formats, round trips, the place of every field, and what hashes of them identify |
| `Framing`, `Sm3`, `Lucas` | message framing, SM3 buffering and padding, the Lucas ladder |

`Chain.Blockchain.Valid` is the central invariant. It joins the tree of nodes, the main-chain
flags, the side-chain cache, the store, the accumulated work and the orphan pool. `Run` shows
that any sequence of submitted blocks keeps it.

## Hypotheses

They are `requires` clauses, collected in `Chain.Submittable` and in the constructor of
`Blockchain`:

- A block hash identifies the parent hash and a transaction hash identifies the outputs.
  `Identity.RunIsSubmittable` derives both, for everything that is submitted to a node, from a
  collision-free hash function and well-formed byte forms.
- No output is spent by two transactions of one block. The block checks do not establish this, as
  `Counterexamples.DoubleSpendPasses` shows. `Storage.ChainStore.Persist` shows that the two unspent
  indexes agree exactly when it holds.
- A transaction has at most 65536 outputs, the range of the 16-bit output numbers of one index.
  `TransactionCodec.SizeLimitsOutputs` relates this to the size limit.
- A block with a zero parent hash does not claim height 0. The code would go on with a node that has
  no parent and dereference it.
- The first block fits the empty ledger and has a possible target. `Genesis` shows this of the block
  that the code starts with, on all three networks.

The pair hash of the Merkle tree is collision-free where a lemma says so.

`Counterexamples`, `RefusedBranch` and `FullPool` take the hash of transactions and headers as a
parameter. It is collision-free, and in the runs it is never zero, which stands for no parent;
`PlainBlocks.SomeProper` shows that there are such functions. Every transaction and block in them
carries the hash of its contents.

## Where the code does not do what it seems to

- Persisting ignores the errors of its steps. With two spends of one output in a block, one index
  is updated and the other is not.
- The balance of a transaction is computed modulo 2^64, so outputs that exceed the inputs by more
  than 2^63 can pass the check. `Conservation.FeeAtLeast` says exactly when a fee is paid, and
  `Counterexamples.WrapAroundRaisesTotal` gives the transaction.
- A reorganisation that meets a block that does not fit stops half way. The store is then still
  the replay of the best path, but that path may have less work than another one, even than the
  valid one that was given up. `Chain.Blockchain.ConnectBestChain` says exactly when, and
  `RefusedBranch.HeavierBranchRefused` gives the run.
- The target changes at height 1 on the public networks, because the first block does not carry
  the limit that the second one must carry (`Difficulty.ChangesOnlyAtRetarget`).
- A period whose last block is dated before its first one counts as a long one, because the
  difference of the timestamps wraps around. `Difficulty.BackwardsPeriod` says exactly what the
  target becomes, and `Backdated.FastPeriodRaises` gives the branch.
- Coinbase maturity is counted from the lock time of the coinbase, which no check ties to its
  height, and the subtraction wraps around. `Ledger.CoinbaseSpendable` says exactly when an output
  can be spent, and `Counterexamples.SpendableAtOnce` gives a coinbase that need not mature.
- The orphan pool can exceed its limit: the block remembered as the oldest is not forgotten when it
  is accepted. `Chain.Blockchain.AddOrphanBlock` says exactly when, and `FullPool.PoolExceedsLimit`
  gives the run.
- An output locked by one key is unlocked by an empty parameter. The check of a signature reports a
  fault without an error when the stack holds the key alone, such a fault is dropped, and the key
  that is left counts as true. `Scripts.SignatureUnlocked` says exactly what unlocks such an output.
- The closing loop of the Lucas ladder multiplies the first result by the modulus where the other
  loops reduce by it.
- A header with a wrong magic number makes the node drop everything received with it
  (`Framing.OtherMagicDropsAll`).
- The script builder writes a four-byte length with the least significant byte first and the stack
  machine reads it the other way round (`Scripts.PushRoundTrip`).
- An empty byte string at the very end of a stream cannot be read. Transactions are read back all
  the same, because the only place where this can happen ignores the error.
- The documentation of the multiple-signature operation mentions an extra value that is removed
  from the stack. The code removes none.

## Model

| member | source | states |
|---|---|---|
| `Chain.Blockchain.Run` | core/ledger/blockchain.go:950-1019 | For every sequence of submitted blocks, with any forks, orphans, rejections and refused reorganisations, the whole invariant `Valid` holds afterwards: store equals replay, flags and cache match the best path, best branch is the heaviest (unless an attach was refused), both orphan maps agree. If every call succeeds, none was refused, and no pooled block has its parent in the tree if none had before. Every block that is taken is backed by the hash it came with. |
| `Chain.Blockchain.StoreIsReplay` | core/ledger/blockchain.go:577-773 | In every such state the tables hold exactly the ledger replayed from genesis along the path to the best node, and the two unspent indexes describe the same outputs. |
| `Chain.Blockchain.TotalsConserved` | core/ledger/txValidator.go:215-234 | In every such state the unspent total of every asset is what coinbases issued less the summed differences of the other transactions, and every block on the path passed the balance check. If no check on the path wrapped around below, the total is at most what coinbases issued. |
| `Chain.Blockchain.UnspentHasValue` | core/ledger/txValidator.go:215-220 | In every such state only coinbases have unspent outputs without value. |
| `Chain.Blockchain.BranchesAccepted` | core/ledger/blockValidator.go:108-152 | In every such state the branch of every node, on the main chain or not, obeys the difficulty, height and time rules at every block, and its median time never decreases. |
| `Genesis.NewBlockchainWithGenesisBlock` | core/ledger/blockchain.go:74-93 | On each network, a node that starts with the block of the code satisfies the invariant, with that block as root and best node. |
| `Genesis.GenesisConnects` | core/ledger/block.go:171-240 | The first block, a coinbase and the registration of the token, fits the empty ledger. |
| `Genesis.SeedsHashed` | core/ledger/block.go:171-240 | The first block and its transactions under the hashes of their contents; with a collision-free hash the two transactions have different ones. |
| `Genesis.GenesisSupply` | core/ledger/block.go:207-219 | After the first block 33 million tokens are unspent, and nothing of any other asset. |
| `Genesis.NetTargets` | common/config/config.go:22-54 | The target of the first block and the first target after it are possible ones on every network. |
| `Chain.Blockchain.BestHasMostWork` | core/ledger/blockchain.go:850-944 | While no reorganisation was refused, the best node beats every indexed node: more work, or as much and made earlier. Which new nodes are refused is fixed before the call (`Refusable`, see `ConnectBestChain`). Every other node on the best path has strictly less work, refused or not. |
| `RefusedBranch.HeavierBranchRefused` | core/ledger/blockchain.go:623-693 | A run of submitted blocks from the genesis block of the main network, all under the hashes of their contents for any collision-free hash function: two blocks, then three beside them of which the second holds the transaction of the first. The last block is heavier and not valid. It is refused, and the node is left on a block with less work than the former best one, whose branch is valid and known. |
| `PlainBlocks.PlainPasses` | core/ledger/blockValidator.go:22-106 | A block with nothing but a coinbase passes the sanity check on every ledger, whether or not it repeats a transaction. |
| `RefusedBranch.RepeatedRefused` | core/ledger/txValidator.go:69-77 | A branch whose second block holds a transaction of the first is not a valid chain, nor is any extension of it. |
| `PlainBlocks.NumbersApart` | core/ledger/blockdata.go:123-130 | Blocks of a run that differ in their nonces have different hashes. |
| `PlainBlocks.MarkedApart` | core/transaction/transaction.go:354-362 | Coinbases of a run and the transactions of the first block have different hashes, because their contents differ. |
| `PlainBlocks.SomeProper` | core/transaction/transaction.go:354-362 | There are hash functions as the runs assume them. |
| `Chain.WorkIncreases` | core/ledger/blockchain.go:345-356 | Work strictly increases from parent to child, because every admitted target counts for positive work. |
| `Chain.WorkAlongPath` | core/ledger/blockchain.go:827-832 | Every proper ancestor of a node has strictly less accumulated work. |
| `Chain.Blockchain.constructor` | core/store/ChainStore/ChainStore.go:163-244 | Persisting a first block that fits the empty ledger establishes the invariant with its node as root and best node. |
| `Chain.Blockchain.ConnectBlock` | core/ledger/blockchain.go:734-773 | Succeeds exactly when the block names the best node as parent and all its transactions fit the ledger; then the node is the best one and the invariant holds; otherwise nothing changes. |
| `Chain.Blockchain.CheckContexts` | core/ledger/blockchain.go:735-740 | True exactly when every transaction of the block fits the ledger before the block. |
| `Chain.Blockchain.DisconnectBlock` | core/ledger/blockchain.go:697-730 | Never fails on the best node: the store goes back to the ledger of the parent, the block goes to the cache, the flag is cleared. |
| `Chain.NewBranch` | core/ledger/blockchain.go:589-595 | The walk up from a node stops at the last node shared with the best path and collects exactly the nodes above it, in order. |
| `Chain.OldBranch` | core/ledger/blockchain.go:606-611 | The walk down the best path collects exactly the nodes above the fork, from the end downwards. |
| `Chain.Blockchain.GetReorganizeNodes` | core/ledger/blockchain.go:577-614 | Both lists for a node: the paths agree up to the fork, and no attached node is on the best path. |
| `Chain.Blockchain.Detach` | core/ledger/blockchain.go:656-666 | Every block to detach can be read back from the store, and detaching all of them ends at the fork with store, flags and cache right. |
| `Chain.Blockchain.AttachNext` | core/ledger/blockchain.go:670-676 | One block goes from the cache to the main chain, or is refused because its transactions do not fit, and then stays cached. |
| `Chain.Blockchain.Attach` | core/ledger/blockchain.go:669-677 | Succeeds exactly when the branch of the last node is a valid chain. Otherwise the best chain ends at the last node on that branch up to which it is one, with less work than the new node. |
| `Chain.Blockchain.InCache` | core/ledger/blockchain.go:625-631 | True exactly when every node to attach has a cached block. |
| `Chain.AllCached` | core/ledger/blockchain.go:625-631 | Every node to attach has its block in the cache, so that the error for a missing block cannot occur. |
| `Chain.BestBlockStored` | core/ledger/blockchain.go:658-661 | The last block of the best path is read back from the store as it was. |
| `Chain.Blockchain.ReorganizeChain` | core/ledger/blockchain.go:623-693 | Succeeds exactly when the branch of the new node is a valid chain, and then ends with it as best node. Otherwise it ends at the last node on its path up to which the branch is valid, with less work than the new node. Index and nodes are untouched. |
| `Chain.Blockchain.ExtendBest` | core/ledger/blockchain.go:854-877 | A block on top of the best node becomes the best node exactly when its branch is a valid chain, and is then heavier than all others if its parent was; otherwise nothing changes. |
| `Chain.Blockchain.AddSide` | core/ledger/blockchain.go:884-890 | A block beside the best path is indexed and cached, off the main chain; the heaviest node is still the best one or is the new one. |
| `Chain.Blockchain.ConnectBestChain` | core/ledger/blockchain.go:850-944 | Fork choice, all of it fixed before the call: a node neither on top of the best one nor heavier stays aside; any other one becomes best if its branch is a valid chain; a heavier one whose branch is not is refused. Started with the heaviest node as best one, it ends so exactly when the new node is not refused. |
| `Chain.Blockchain.BlockExists` | core/ledger/blockchain.go:775-785 | True exactly for indexed hashes: the store knows no block that the index does not. |
| `Chain.Blockchain.GetPrevNodeFromBlock` | core/ledger/blockchain.go:516-538 | No parent for a zero hash, the indexed node for a known one, an error otherwise. |
| `Chain.PowCheckBlockContext` | core/ledger/blockValidator.go:108-152 | True exactly when there is no parent, or the block carries the required target, is later than the median of its parent branch, and all its transactions after the coinbase are final. |
| `Chain.Blockchain.MaybeAcceptBlock` | core/ledger/blockchain.go:787-848 | A node is made exactly when the parent is known, the height is one more, and target, time and finality fit; its work is that of the parent plus its own, and the fork choice decides as in `ConnectBestChain`. Otherwise nothing changes. |
| `Chain.SanityGivesBlockSane` | core/ledger/blockValidator.go:22-106 | What the context-free checks establish about a submitted block is what the tree requires of its nodes, whichever store state they were made in. |
| `Chain.Blockchain.RemoveOrphanBlock` | core/ledger/blockchain.go:190-213 | The block of that hash leaves both maps and no other does; a stale entry changes nothing. |
| `Chain.Blockchain.ExpireOrphans` | core/ledger/blockchain.go:216-224 | Exactly the expired blocks leave the pool, and the block remembered as the oldest is forgotten exactly when it is one of them. |
| `Chain.Blockchain.UpdateOldest` | core/ledger/blockchain.go:226-230 | No pooled block expires before the chosen one; the remembered block stays chosen when that holds of it, even if it is no longer pooled. |
| `Chain.Blockchain.MakeRoom` | core/ledger/blockchain.go:216-235 | The expired blocks leave. If the pool is full then, one more does, the oldest or the one remembered as such, unless the remembered block left the pool earlier and no pooled one expires before it: then none does. |
| `Chain.Blockchain.AddOrphanBlock` | core/ledger/blockchain.go:215-254 | The block is in both maps afterwards with an hour to live, and nothing else entered them. Whatever the size of the pool, it is afterwards that of the unexpired blocks, plus one exactly if those are below the limit or the remembered oldest block had left: a pool over its limit stays so until blocks expire. |
| `FullPool.PoolExceedsLimit` | core/ledger/blockchain.go:160-254 | A run of submitted blocks with a limit of two that ends with three blocks in the pool. |
| `OrphanPool.AddedSize` | core/ledger/blockchain.go:215-254 | The size of the pool after a block is added, for every pool. |
| `OrphanPool.StaysAnHour` | core/ledger/blockchain.go:216-246 | A pooled block stays for an hour to the second, unless it leaves in another way. |
| `Chain.Blockchain.SubmitFirst` | core/ledger/blockchain.go:169-182 | The first pooled child of a block leaves the pool, is submitted, and is indexed if accepted. The block remembered as the oldest stays the same, also when it is this one. |
| `Chain.Blockchain.SubmitChildren` | core/ledger/blockchain.go:168-185 | Without an error no child of the block is left in the pool, and the submitted ones are queued in order. |
| `Chain.Blockchain.ProcessOrphans` | core/ledger/blockchain.go:160-188 | Terminates; submits each pooled block only after its parent; without an error what left the pool is exactly the set of pooled transitive descendants of the hash. |
| `Chain.Blockchain.AcceptAndFollow` | core/ledger/blockchain.go:1000-1018 | A block on top of a known one becomes a node exactly when it fits; its pooled descendants follow, parents first and all of them without an error; if none follows, the outcome is that of `ConnectBestChain`. Afterwards no pooled block has its parent in the tree if none had before. The block remembered as the oldest stays the same. |
| `Chain.Blockchain.ProcessBlock` | core/ledger/blockchain.go:950-1019 | Every outcome keeps the invariant and is fixed before the call: nothing changes for a known block or one that fails the checks of a block on its own; a block without a known parent is pooled; any other one goes the way of `AcceptAndFollow`. Of every block that is pooled or gets a node, the credited work times one more than its hash is at most 2^256. |
| `OrphanPool.Remove` | core/ledger/blockchain.go:194-212 | Removing by hash keeps both maps in agreement, without duplicates or empty lists. |
| `OrphanPool.CutOut` | core/ledger/blockchain.go:198-207 | The loop cuts exactly the blocks of the hash out of a list. |
| `OrphanPool.Add` | core/ledger/blockchain.go:242-251 | Adding a new block keeps both maps in agreement. |
| `OrphanPool.PoolWithout` | core/ledger/blockchain.go:190-213 | The two maps without one hash index the same blocks, including the deletion of a list that became empty. |
| `OrphanPool.SubmittedExactly` | core/ledger/blockchain.go:160-188 | A parents-first order after which no child is left consists of exactly the transitive descendants. |
| `Storage.ChainStore.Persist` | core/store/ChainStore/ChainStore.go:641-654 | Afterwards the two unspent indexes agree if and only if no output is spent by two transactions of the block; then the tables hold the ledger after the block. Errors of the single steps are ignored, as in the code. |
| `Storage.DoubleSpendChangesCoins` | core/store/ChainStore/ChainData.go:125-221 | A block in which two transactions spend one output makes the index that is written differ from the one that is not. |
| `Counterexamples.DoubleSpendPasses` | core/ledger/blockValidator.go:22-152 | Whatever output can be spent, a block with two transactions that pay it to two owners, under the hashes of their contents, passes every modelled check: of the block on its own, of its header, and of each transaction. |
| `Counterexamples.PaidApart` | core/transaction/transaction.go:107-152 | The two transactions have different hashes for every collision-free hash function, because they pay different owners. |
| `Storage.ChainStore.Rollback` | core/store/ChainStore/ChainStore.go:621-639 | From the tables after a block it restores the tables of the ledger before it, every key family. |
| `Storage.ChainStore.PersistAndRollback` | core/store/ChainStore/ChainStore.go:621-654 | Rollback after persist restores every key family, up to the order inside unspent lists, including keys deleted when a list became empty. |
| `Storage.MatchesUnique` | core/store/ChainStore/ChainData.go:125-465 | A ledger determines its tables up to the order inside the unspent lists. |
| `Storage.MatchesAgree` | core/store/ChainStore/ChainData.go:125-465 | Tables that hold a ledger have unspent indexes that list the same outputs. |
| `Storage.EntryMatchesTransaction` | core/store/ChainStore/ChainData.go:125-221 | Owner, asset, value and height of every entry of the index by owner are those of the stored transaction, and its output index is in range. |
| `Storage.StoredIsRebuilt` | core/store/ChainStore/ChainStore.go:539-574 | A stored block with a valid root is rebuilt from the trimmed block and the stored transactions. |
| `Storage.ChainIsRebuilt` | core/store/ChainStore/ChainStore.go:539-574 | Every block of the chain that the tables hold can be read back. |
| `Storage.TakenBack` | core/store/ChainStore/ChainData.go:43-123 | The deletions of a rollback leave headers, height table, transactions, assets and current block as before the block. |
| `Storage.ChainStore.GetBlock` | core/store/ChainStore/ChainStore.go:539-574 | Returns the block that the stored parts amount to, and nothing when a part is missing. |
| `Storage.ChainStore.ContainsUnspent` | core/store/ChainStore/ChainStore.go:816-835 | True exactly for the outputs that are coins of the ledger. |
| `Storage.ChainStore.GetUnspent` | core/store/ChainStore/ChainStore.go:803-814 | Returns an output exactly when it is unspent, and the lookup is in range. |
| `Storage.ChainStore.IsDoubleSpend` | core/store/ChainStore/ChainStore.go:262-290 | True exactly when some input does not name a coin. |
| `Storage.ChainStore.SaveBlock` | core/store/ChainStore/ChainStore.go:691-731 | A block above the current height that fits gives the store of the ledger after it; any other one changes nothing. |
| `Storage.ChainStore.RollbackBlock` | core/store/ChainStore/ChainStore.go:708-715 | Rolling back the last block by its hash gives the store of the ledger before it. |
| `Storage.ChainStore.PersistTransactions` | core/store/ChainStore/ChainData.go:309-323 | Every transaction is stored with its height and every registered asset under its hash. |
| `Storage.ChainStore.RollbackTransactions` | core/store/ChainStore/ChainData.go:325-338 | Transactions and assets of the block are deleted. |
| `Storage.ChainStore.PersistUnspendUTXOs` | core/store/ChainStore/ChainData.go:125-221 | Succeeds exactly when the spends are disjoint, and then lists the coins after the block; otherwise nothing is written. |
| `Storage.ChainStore.PersistUnspend` | core/store/ChainStore/ChainData.go:366-417 | Always succeeds and lists the coins after the block. |
| `Storage.ChainStore.RollbackUnspendUTXOs` | core/store/ChainStore/ChainData.go:223-307 | Always succeeds and lists the coins before the block. |
| `Storage.ChainStore.RollbackUnspend` | core/store/ChainStore/ChainData.go:419-465 | Lists the coins before the block. |
| `OwnerIndex.UtxosApplyTxs` | core/store/ChainStore/ChainData.go:129-205 | The loop over the transactions: success exactly for disjoint spends, and then the pending lists describe the coins after them. |
| `OwnerIndex.SpendInputs` | core/store/ChainStore/ChainData.go:164-204 | Succeeds exactly when every input names a coin; then those coins are gone from the lists. |
| `OwnerIndex.AddOutputs` | core/store/ChainStore/ChainData.go:134-163 | The outputs of a transaction join the lists of their owners. |
| `OwnerIndex.SwapOut` | core/store/ChainStore/ChainData.go:190-202 | Swap-remove takes out exactly the entry looked for, or reports that it is missing. |
| `OwnerIndex.UtxosUndoTxs` | core/store/ChainStore/ChainData.go:226-292 | Taking back the transactions in block order restores the coins before the block. |
| `OwnerIndex.UnlistOutputs` | core/store/ChainStore/ChainData.go:230-260 | Exactly the outputs of the transaction leave the lists. |
| `OwnerIndex.RelistInputs` | core/store/ChainStore/ChainData.go:262-291 | Exactly the spent outputs return to the lists, read back from the stored transactions. |
| `TransactionIndex.UnspentApplyTxs` | core/store/ChainStore/ChainData.go:369-401 | The loop over the transactions: the pending index lists describe the coins after them. |
| `TransactionIndex.TakeIndex` | core/store/ChainStore/ChainData.go:379-399 | Swap-remove of one output index. |
| `TransactionIndex.UnspentUndoTxs` | core/store/ChainStore/ChainData.go:422-449 | Deleting the lists of the block and re-appending the spent indexes restores the coins before it. |
| `TransactionIndex.Contains` | core/store/ChainStore/ChainStore.go:816-835 | The search finds an output index exactly when the output is a coin. |
| `TransactionIndex.SomeMissing` | core/store/ChainStore/ChainStore.go:262-290 | The nested search reports a missing output exactly when one is not a coin. |
| `UnspentIndex.FlushLists` | core/store/ChainStore/ChainData.go:403-414 | Lists that became empty are deleted, all others are put. |
| `UnspentIndex.AgreeIff` | core/store/ChainStore/ChainData.go:125-417 | Two indexes agree exactly when the coin sets behind them have the same outputs. |
| `Ledger.ReplaySound` | core/store/ChainStore/ChainData.go:25-123 | In the replay of every valid chain each coin is an output of a stored transaction and says what that output says; height and tip are those of the last block. |
| `Ledger.UndoApply` | core/store/ChainStore/ChainData.go:223-307 | Applying the transactions of a block and taking them back, in the same order, gives the coins back. |
| `Ledger.NextToUndo` | core/store/ChainStore/ChainData.go:226-291 | While a block is taken back, the next outputs to remove are still listed and the next ones to restore are not. |
| `Ledger.ChainHeaders` | core/store/ChainStore/ChainData.go:25-41 | The stored headers are exactly those of the blocks of the chain. |
| `Ledger.ChainHeights` | core/store/ChainStore/ChainData.go:58-74 | The height table names the blocks of the chain in order. |
| `Ledger.ChainStored` | core/store/ChainStore/ChainStore.go:513-537 | Every block of the chain is stored, each of its transactions with its height, and each asset they register. |
| `Ledger.MatureMeans` | core/ledger/txValidator.go:97-108 | The wrapped 32-bit comparison: passed exactly when the lock time is at least 100 below the height, or above it by at most 2^32 - 100. |
| `Ledger.CoinbaseSpendable` | core/ledger/txValidator.go:95-108 | Exactly when an unspent coinbase output can be spent: it has value and its lock time is passed by 100 or wraps around. It takes a hundred blocks when the lock time is the height of its block. |
| `Ledger.MaturesInTime` | core/ledger/txValidator.go:97-108 | From the height of a coinbase on, it matures after a hundred blocks, no fewer and no more, exactly when its lock time is that height. |
| `Counterexamples.SpendableAtOnce` | core/ledger/txValidator.go:97-108 | A block whose coinbase has a lock time one above its height passes every modelled check, and the output can be spent in the next block. |
| `TxValidator.CheckTransactionContext` | core/ledger/txValidator.go:69-111 | No error exactly when the hash is new and every input names a positive coin that is mature if it is a coinbase output; the error for an unknown referenced transaction cannot occur. |
| `TxValidator.CheckTransactionInput` | core/ledger/txValidator.go:114-147 | True exactly for one null reference in a coinbase, and for distinct non-null references otherwise. |
| `TxValidator.CheckTransactionOutput` | core/ledger/txValidator.go:149-176 | True exactly when a coinbase has two outputs or more, all of the token and one to the foundation, and any other transaction has an output. |
| `TxValidator.MergeValues` | core/transaction/transaction.go:423-451 | Per asset, the sum of the values in 64-bit arithmetic, for exactly the assets that occur. |
| `TxValidator.GetReference` | core/transaction/transaction.go:380-398 | The referenced outputs input by input, or an error when one is missing. |
| `TxValidator.GetTransactionResults` | core/transaction/transaction.go:400-421 | Per asset that occurs, the wrapped difference of inputs and outputs. |
| `TxValidator.CheckTransactionBalance` | core/ledger/txValidator.go:215-234 | True exactly when all outputs are positive and every difference is at least the minimum fee. |
| `BlockValidator.PowCheckBlockSanity` | core/ledger/blockValidator.go:22-106 | True exactly when work, coinbase position, Merkle root, distinct hashes and the inputs, outputs and balance of all transactions are right, and the flag for the checks that are not modelled is set. A block that passes is backed: the credited work times one more than its hash is at most 2^256. |
| `BlockValidator.WorkIsBacked` | core/ledger/blockValidator.go:155-180 | A hash that passes makes the credited work likely: work times one more than the hash is at most 2^256. |
| `BlockValidator.LastPassingHash` | core/ledger/blockValidator.go:155-180 | For an admissible target the hash equal to it passes, the next one does not, and every hash below a passing one passes. For any other target none does. |
| `BlockValidator.NoWorkNoBlock` | core/ledger/blockValidator.go:163-177 | A hash of 2^255 or more passes on no network, whatever target the block claims. |
| `BlockValidator.SaneSpends` | core/ledger/txValidator.go:114-147 | Every transaction of a block that passes, other than the coinbase and registrations, spends something and never the null reference. |
| `Chain.SaneBlockIssues` | core/ledger/txValidator.go:149-176 | A block that passes issues the token only, by its first transaction only, and has an output to the foundation. |
| `BlockValidator.DuplicateCheck` | core/ledger/blockValidator.go:87-97 | True exactly for distinct transaction hashes. |
| `BlockValidator.CoinBaseCheck` | core/ledger/blockValidator.go:61-72 | True exactly when the first transaction and no other is a coinbase. |
| `BlockValidator.IsFinalizedTransaction` | core/ledger/blockValidator.go:182-203 | True exactly when the lock time is zero or passed, or all sequence numbers are maximal. |
| `BlockValidator.FinalAfterLockTime` | core/ledger/blockValidator.go:182-203 | A final transaction stays final; one with a lock time becomes final one block after it, or at once when all its sequence numbers are 65535. |
| `BlockValidator.SaneRootDeterminesTransactions` | core/ledger/blockValidator.go:74-97 | Two blocks of equal tree depth that pass the checks and have the same root have the same transaction hashes: the duplicate check supplies what the tree lacks. |
| `Conservation.TotalOfChain` | core/transaction/transaction.go:380-451 | Along every valid chain the unspent total of an asset is coinbase outputs less the differences of the other transactions. |
| `Conservation.TotalAfterTx` | core/store/ChainStore/ChainData.go:125-221 | One transaction changes the total by what it puts out less what it takes in. |
| `Conservation.FeeAtLeast` | core/ledger/txValidator.go:215-234 | A transaction that passes the check gives up nothing of an asset it does not mention; of one it mentions it gives up at least the minimum exactly when the exact difference is not below -2^63. |
| `Conservation.RaisesOnUnderflow` | core/ledger/txValidator.go:215-234 | Within a block, a transaction other than the coinbase leaves the total of an asset no higher than before exactly when its difference is not below -2^63. |
| `Conservation.OnlyCoinbasesIssue` | core/ledger/txValidator.go:215-234 | No block raises the total of an asset by more than its coinbase issues, as long as no difference is below -2^63. |
| `Conservation.NoMoreThanIssued` | core/ledger/txValidator.go:215-234 | The same along every valid chain: no more is unspent than coinbases issued. |
| `Counterexamples.WrapAroundRaisesTotal` | core/transaction/transaction.go:400-451 | Whatever output of less than 2^63 can be spent, a block with a transaction that spends it and pays out four times 2^62 passes every modelled check and raises the total by 2^64 less what was spent. |
| `Conservation.BalanceCarries` | core/ledger/txValidator.go:215-234 | The balance check made against one store state keeps its meaning in every other one. |
| `Conservation.UnspentPositive` | core/ledger/txValidator.go:215-220 | Along a chain whose transactions pass the check, only coinbases leave unspent outputs without value. |
| `Merkle.NewMerkleTree` | crypto/merkleTree.go:39-58 | The built tree has the computed root and the least depth. Every inner node carries the hash of its children, left before right, all leaves are on one level, and from left to right they start with the given hashes in their order and then only repeat nodes of odd levels. |
| `Merkle.RootFromTop` | crypto/merkleTree.go:39-111 | The root is the hash of the list filled up to a power of two, taken from the top down: the hash of the left half and of the right half, in this order. |
| `Merkle.HashOfLeaves` | crypto/merkleTree.go:72-100 | A tree whose nodes carry the hashes of their children has the hash of its leaves in order, however it was built. |
| `Merkle.RootOfThree` | crypto/merkleTree.go:72-100 | Root of [a, b, c]: h(h(a, b), h(c, c)). |
| `Merkle.RootOfTwo` | crypto/merkleTree.go:72-82 | Root of [a, b]: h(a, b). |
| `Merkle.DepthBounds` | crypto/merkleTree.go:44-49 | The depth is the least that leaves room for the hashes. |
| `Merkle.LevelUp` | crypto/merkleTree.go:72-100 | One level up: node j has nodes 2j and 2j+1 as its left and right child, with the last node of an odd level paired with itself, and carries the hash of the two. |
| `Merkle.RootDeterminesList` | crypto/merkleTree.go:39-111 | Duplicate-free lists of equal depth and equal root are equal. |
| `Merkle.SameRootIff` | crypto/merkleTree.go:39-111 | Without the depth premise: two duplicate-free lists share their root exactly when the shallower one is a level of the deeper tree. |
| `Merkle.RootDeterminesLeaves` | crypto/merkleTree.go:39-111 | When no leaf is the hash of a pair, the root alone determines the list. |
| `Merkle.DuplicateLeavesRoot` | crypto/merkleTree.go:72-100 | Without the duplicate check the root is not enough: a doubled last hash gives the same root at the same depth. |
| `Compact.GreatestNotAbove` | core/ledger/difficulty.go:85-121 | Decoding an encoded number gives the greatest number with a compact form that is not above it. |
| `Compact.RelativeError` | core/ledger/difficulty.go:85-121 | Less than one part in 2^15 is lost. |
| `Compact.RoundingMonotone` | core/ledger/difficulty.go:85-121 | Rounding to the compact form keeps the order. |
| `Compact.EncodeDecode` | core/ledger/difficulty.go:135-161 | Encoding after decoding is the identity on canonical codes. |
| `Compact.EncodingIsCanonical` | core/ledger/difficulty.go:85-121 | The encoder produces only canonical codes. |
| `Compact.DecodeEncode` | core/ledger/difficulty.go:85-161 | Decoding an encoded number gives it with all but its leading bytes cleared. |
| `Compact.DecodedValue` | core/ledger/difficulty.go:135-161 | A code stands for mantissa * 256^(exponent - 3), rounded down to a whole number, with its sign. |
| `Compact.KnownCodes` | core/ledger/difficulty.go:135-161 | Codes and the numbers they stand for, with a sign and with cut-off fractions. |
| `Compact.WorkPositive` | core/ledger/blockchain.go:345-356 | Every target that the proof-of-work check admits counts for positive work. |
| `Compact.WorkIsExpectedHashes` | core/ledger/blockchain.go:344-356 | The work is the greatest w with w * (target + 1) <= 2^256. |
| `Compact.LowerTargetMoreWork` | core/ledger/blockchain.go:344-356 | A lower target counts for at least as much work. |
| `Difficulty.NetsAreValid` | common/config/config.go:22-54 | The parameters of the three networks satisfy what the rules assume; the two public ones retarget every 720 and 10 blocks by a factor of at most 4. |
| `Difficulty.ChangesOnlyAtRetarget` | core/ledger/difficulty.go:22-32 | Along every accepted branch, on every network, the target of a block that is not at a retarget height is that of its parent, exactly when the block is above height 1 or the first block carries the limit. |
| `Difficulty.FirstTarget` | core/ledger/difficulty.go:23-25 | The block on top of the first one carries the limit, whatever the first one carries. |
| `Difficulty.GenesisTargetChanges` | core/ledger/block.go:171-180 | With the target of the code's first block, the target changes at height 1 on both public networks. |
| `Difficulty.ConstantWithinPeriod` | core/ledger/difficulty.go:22-32 | Two blocks without a retarget height between them have the same target, exactly when the lower one is not the first block or that one carries the limit. |
| `Difficulty.RetargetedFrom` | core/ledger/difficulty.go:34-73 | At a retarget height the target comes from the parent and the block one period before, exactly. What that function of the timespan is, the next rows state. |
| `Difficulty.NewTargetMonotone` | core/ledger/difficulty.go:46-67 | A longer period never gives a lower target. |
| `Difficulty.ScaledByTimespan` | core/ledger/difficulty.go:55-67 | Within the factor the target is the old one times the timespan divided by the timespan aimed at, rounded down and cut off at the limit. |
| `Difficulty.DividedByFactor` | core/ledger/difficulty.go:49-50 | A shorter period divides the target by the factor. |
| `Difficulty.MultipliedByFactor` | core/ledger/difficulty.go:51-53 | A longer one multiplies it by the factor, up to the limit. |
| `Difficulty.KeptByTimespan` | core/ledger/difficulty.go:55-67 | A period as long as aimed at keeps the target. |
| `Difficulty.MainNetPeriods` | common/config/config.go:22-32 | On the main network an hour for a period quarters the target, a day keeps it and a week multiplies it by four. |
| `Difficulty.RetargetDirection` | core/ledger/difficulty.go:34-73 | At a retarget height of every accepted branch: a period that did not take longer than aimed at never raises the target, and one that did not take less never lowers it, not even by rounding to the compact form. |
| `Difficulty.BackwardsPeriod` | core/ledger/difficulty.go:47-53 | By the timestamps themselves: the difference counts as it is when the last block is not dated before the first; otherwise it wraps around and the target is multiplied by the factor, up to the limit. |
| `Backdated.FastPeriodRaises` | core/ledger/difficulty.go:47-53 | A branch of the test network that all rules accept, in which ten blocks that took ten seconds, where a hundred are aimed at, multiply the target by four. |
| `Difficulty.RetargetBounds` | core/ledger/difficulty.go:46-73 | There the new target is at most the factor times the old one, at most the limit, and at least the old one divided by the factor up to flooring and compact rounding, even when the timestamp difference wraps around. |
| `Difficulty.ExtendBranch` | core/ledger/blockValidator.go:108-132 | A header that passes the contextual checks keeps the branch accepted. |
| `Difficulty.AcceptedTimes` | core/ledger/blockValidator.go:125-132 | Along an accepted branch every timestamp exceeds the median before it. |
| `MedianTime.MedianNeverDecreases` | core/ledger/blockchain.go:1199-1215 | The median of past times never decreases along an accepted branch, including windows shorter than 11 blocks. |
| `MedianTime.LaterTimeKeepsMedian` | core/ledger/blockchain.go:1199-1215 | A timestamp above the median does not lower it, whether the window grows or slides. |
| `MedianTime.MedianPermuted` | core/ledger/blockchain.go:1209-1214 | The median does not depend on the order in which the window was collected. |
| `MedianTime.MedianOfEleven` | core/ledger/blockchain.go:1199-1215 | What the median is, by counting: a number is not above it exactly when at most half, rounded down, of the last eleven timestamps are below the number. |
| `MedianTime.MedianBelow` | core/ledger/blockchain.go:1199-1215 | A time after all those of a branch is after their median. |
| `BlockTree.CalcPastMedianTime` | core/ledger/blockchain.go:1199-1215 | The walk over at most 11 ancestors computes the median of the last timestamps of the branch. |
| `BlockTree.FirstOfPeriod` | core/ledger/difficulty.go:36-44 | The walk back reaches the block of the given height on the branch and never runs off it. |
| `BlockTree.CalcNextRequiredDifficulty` | core/ledger/difficulty.go:21-83 | The node walk computes the target that the branch requires. |
| `BlockTree.PathParents` | core/ledger/blockchain.go:283-296 | The path of a node is a chain of parent links from the root, and every prefix of it is the path of the node there. |
| `Lucas.FastLucasSequence` | crypto/encode.go:41-123 | The second result is V(k) mod p for every k >= 1; the first is U(k) mod p for odd k, and for even k a multiple of p, right exactly when p divides U(k). |
| `Lucas.Addition` | crypto/encode.go:52-89 | X(m+n) = X(m)V(n) - q^n X(m-n) for every sequence of the recurrence. |
| `Lucas.Doubling` | crypto/encode.go:52-89 | The four doubling rules that the ladder uses, against the recursive definitions. |
| `Lucas.LadderOne` | crypto/encode.go:56-71 | A bit 1 takes the five variables from index m to 2m + 1. |
| `Lucas.LadderZero` | crypto/encode.go:72-88 | A bit 0 takes the five variables from index m to 2m. |
| `Lucas.LadderLast` | crypto/encode.go:91-107 | The last bit 1 before the trailing zeros. |
| `Lucas.TailStep` | crypto/encode.go:109-121 | A trailing zero doubles the index of V and of the power. |
| `Lucas.CloseLadder` | crypto/encode.go:109-123 | The closing loop ends at V(k). |
| `Lucas.GetLowestSetBit` | crypto/encode.go:33-38 | The index of the lowest set bit. |
| `Lucas.EvenFirstResult` | crypto/encode.go:109-112 | The result for p = 7, parameters 3 and 1 and k = 2 is not U(2) modulo 7. |
| `Framing.Link.UnpackNodeBuf` | net/node/link.go:38-84 | One chunk, on any buffered state, hands off exactly the messages that one-shot parsing of buffer and chunk finds, and keeps exactly its remainder; a bad header drops the rest. |
| `Framing.Link.Receive` | net/node/link.go:86-108 | For every stream of messages followed by the beginning of another and every way to cut it, exactly these messages are handed off in order and exactly the beginning is kept. |
| `Framing.Link.ReceiveMessages` | net/node/link.go:86-108 | The same for messages as a sender writes them, of any commands and payloads, and any proper beginning of another one. |
| `Framing.HeaderRead` | net/message/message.go:23-29 | A receiver finds magic number, command, length and checksum where the sender wrote them. |
| `Framing.FrameIff` | net/message/message.go:245-256 | A written header and a payload are a message exactly when the magic number is right and the length written is that of the payload. |
| `Framing.OtherMagicDropsAll` | net/node/link.go:55-61 | After a header with another magic number everything received with it is lost, good messages too. |
| `Framing.ParseSplit` | net/node/link.go:38-84 | Parsing may stop after any clean part of a stream and go on with what was left over. |
| `Framing.ParseFrames` | net/node/link.go:38-84 | One-shot parsing of concatenated messages and a partial one finds just these. |
| `Sm3.Digest.Write` | crypto/sm3/sm3.go:53-74 | After any write the object holds the concatenation: whole blocks folded into the state, the rest in the buffer, the length modulo 2^64. |
| `Sm3.Digest.CheckSum` | crypto/sm3/sm3.go:82-113 | The digest is the fold of the compression function over the padded message, and the check that nothing is buffered cannot fail. |
| `Sm3.Digest.Sum` | crypto/sm3/sm3.go:76-80 | The digest so far, without changing the object. |
| `Sm3.SumOfWrites` | crypto/sm3/sm3.go:53-120 | Any sequence of writes gives the digest of the concatenated message. |
| `Sm3.SumOf` | crypto/sm3/sm3.go:115-120 | The one-shot digest. |
| `Sm3.IndexIsLength` | crypto/sm3/sm3.go:53-74 | The buffer index is always the length counter modulo 64. |
| `Sm3.PaddedWhole` | crypto/sm3/sm3.go:82-96 | The padded message consists of whole blocks. |
| `Sm3.PaddedInjective` | crypto/sm3/sm3.go:82-96 | Messages whose length in bits fits in 64 bits are determined by their padded form. |
| `Sm3.PaddedBytes` | crypto/sm3/sm3.go:82-96 | The padded message byte by byte: the message, 0x80, zeros, and the number of bits in the last eight bytes, most significant first. It is as short as whole blocks allow. |
| `Sm3.DigestWord` | crypto/sm3/sm3.go:104-110 | Four bytes of the digest denote a word of the state, the most significant byte first. |
| `Sm3.Digest.BlockGeneric` | crypto/sm3/sm3block.go:7-56 | The block loop folds the compression function over whole blocks. |
| `Serialization.VarUintRound` | common/serialization/serialize.go:68-127 | A variable-length number is read back and leaves what follows it. |
| `Serialization.VarUintBytes` | common/serialization/serialize.go:68-91 | The bytes of a variable-length number: the shortest of the four forms, 1, 3, 5 or 9 bytes. |
| `Serialization.UintBytes` | common/serialization/serialize.go:190-257 | The bytes of 16-bit and 32-bit numbers, the least significant first. |
| `Serialization.LittleEndianAt` | common/serialization/serialize.go:190-257 | Byte k of a number of any width. |
| `Serialization.VarBytesRound` | common/serialization/serialize.go:129-160 | A byte string is read back unless it is empty and at the very end of the stream, where reading fails. |
| `Serialization.UintRound` | common/serialization/serialize.go:190-257 | A fixed-width number is read back. |
| `Serialization.ListRound` | core/transaction/transaction.go:217-230 | A counted list is read back when its elements are. |
| `Serialization.WriteList` | core/transaction/transaction.go:118-126 | The writing loop produces the counted list. |
| `Serialization.ReadList` | core/transaction/transaction.go:217-230 | The reading loop computes the decoded list, or the error of the first element that fails. |
| `Serialization.ToByteArray` | common/common.go:122-130 | The bytes of a list of 16-bit numbers. |
| `Serialization.GetUint16Array` | common/common.go:105-120 | An error exactly for odd lengths, else the decoded numbers. |
| `Serialization.Uint16Round` | common/common.go:105-130 | Lists of 16-bit numbers come back from their bytes. |
| `Layout.Uint16ListBytes` | common/common.go:122-130 | A list of 16-bit numbers by position, the low byte first. |
| `TransactionCodec.TransactionRound` | core/transaction/transaction.go:83-268 | For every well-formed transaction and every suffix, decoding the encoding gives the transaction and leaves the suffix. |
| `TransactionCodec.UniquelyDecodable` | core/transaction/transaction.go:107-152 | No unsigned encoding followed by anything is another one followed by something else. |
| `TransactionCodec.HashIdentifies` | core/transaction/transaction.go:354-362 | With a collision-free hash, equal transaction hashes mean equal transactions up to the programs. |
| `TransactionCodec.UnsignedRound` | core/transaction/transaction.go:180-268 | The unsigned form is read back without the programs. |
| `TransactionCodec.PayloadRound` | core/transaction/payload/RegisterAsset.go:24-53 | Payloads of every type but deployments are read back. |
| `TransactionCodec.AttributeRound` | core/transaction/txAttribute.go:43-71 | Attributes are read back when something follows them. |
| `TransactionCodec.InputRound` | core/transaction/utxoTxInput.go:22-50 | Inputs are read back. |
| `TransactionCodec.OutputRound` | core/transaction/txOutput.go:14-24 | Outputs are read back. |
| `TransactionCodec.ProgramRound` | core/contract/program/Program.go:19-47 | Programs are read back, even an empty one at the end of the stream, because the error is ignored. |
| `TransactionCodec.SizeLimitsOutputs` | core/transaction/transaction.go:270-277 | An encoded transaction has at least 60 bytes per output, so a size limit bounds the outputs. |
| `TransactionCodec.Serialize` | core/transaction/transaction.go:83-105 | Writes the encoding. |
| `TransactionCodec.Deserialize` | core/transaction/transaction.go:155-178 | Computes the decoding. |
| `TransactionCodec.WriteThenRead` | core/transaction/transaction.go:83-178 | Reading what was written gives the transaction and leaves the rest of the stream. |
| `Layout.InputBytes` | core/transaction/utxoTxInput.go:22-26 | An input is 32 bytes of transaction hash, 2 of output number, 4 of sequence number. |
| `Layout.OutputBytes` | core/transaction/txOutput.go:14-18 | An output is 32 bytes of asset, 8 of value in two's complement, 20 of owner. |
| `Layout.AttributeBytes` | core/transaction/txAttribute.go:43-54 | Which usages have data, and the bytes of an attribute. |
| `Layout.ProgramBytes` | core/contract/program/Program.go:19-29 | In a program the parameter comes before the code. |
| `Layout.PayloadBytes` | core/transaction/transaction.go:107-118 | The numbers of the transaction types, and the order of the fields of their payloads. |
| `Layout.TransferBytes` | core/transaction/transaction.go:107-152 | What the hash of a transfer covers, part by part and in which order. |
| `Layout.TransferInput` | core/transaction/transaction.go:128-138 | The bytes that input k of a transfer is at. |
| `Layout.TransferOutput` | core/transaction/transaction.go:139-148 | The bytes that output k of a transfer is at. |
| `Layout.TokenBytes` | core/ledger/block.go:185-201 | All bytes that the hash of the registered token covers. |
| `Layout.EndOfStream` | core/transaction/transaction.go:155-268 | At the end of a stream inputs, attributes and transactions are errors, while outputs and programs come out empty. |
| `Layout.UnknownUsage` | core/transaction/txAttribute.go:56-64 | An attribute with an unknown usage is an error. |
| `BlockCodec.HeaderRound` | core/ledger/blockdata.go:30-110 | A header is read back, given an auxiliary proof of work that its reader delimits. |
| `BlockCodec.BlockRound` | core/ledger/block.go:40-81 | A written block is read back if and only if its root is that of its transactions. |
| `BlockCodec.TrimmedRound` | core/ledger/block.go:83-125 | The stored trimmed form is read back if and only if the root is valid. |
| `Layout.HeaderBytes` | core/ledger/blockdata.go:38-49 | The 84 bytes that the hash of a block covers, field by field. |
| `Layout.WholeHeaderBytes` | core/ledger/blockdata.go:30-34 | The auxiliary proof of work and the mark 1 follow the header. |
| `Layout.TrimmedBytes` | core/ledger/block.go:83-96 | The trimmed form by position: header, number of transactions, their hashes in order. |
| `Layout.BlockBytes` | core/ledger/block.go:40-51 | A whole block by position: header, number of transactions, the transactions in order. |
| `Identity.HashesIdentifyOutputs` | core/transaction/transaction.go:354-362 | With a collision-free hash, the transactions of any run agree with one assignment of outputs to hashes, which is what the chain assumes of them. |
| `Identity.HashIdentifiesParent` | core/ledger/blockdata.go:123-130 | With a collision-free hash, a block hash identifies the parent hash. |
| `Identity.BlocksIdentified` | core/ledger/blockdata.go:123-130 | With a collision-free hash, one assignment of parents and outputs to hashes fits every block of a list. |
| `Identity.RunIsSubmittable` | core/transaction/transaction.go:354-362 | With a collision-free hash, what a run of well-formed blocks still has to satisfy is exactly: no output spent twice in a block, at most 65536 outputs, no second block without a parent at height 0. |
| `Vm.GreedyIsSigned` | vm/func_crypto.go:73-98 | Success of the greedy search means that the signatures are valid under distinct keys. |
| `Vm.SignedIsGreedy` | vm/func_crypto.go:73-98 | When no signature is valid under two different keys, every such matching makes the search succeed. |
| `Vm.ExecutionEngine.MatchSignatures` | vm/func_crypto.go:72-98 | The nested loops with key removal compute the greedy search. |
| `Vm.ExecutionEngine.OpCheckMultiSig` | vm/func_crypto.go:37-104 | Every error exit and the result, tied to the stack and the operation count before. |
| `Vm.ExecutionEngine.OpCheckSig` | vm/func_crypto.go:23-35 | Pushes the verdict, or does nothing when the stack has fewer than two items. |
| `Vm.ExecutionEngine.ExecuteOp` | vm/execution_engine.go:144-169 | One operation, including the refusal of non-pushing operations in parameters, the step limit, and a return that does nothing. What a script that may only push can do, the next rows state. |
| `Vm.PushOnlyRefuses` | vm/execution_engine.go:145-147 | In a parameter every operation above the pushing ones, other than a return, faults. |
| `Vm.PushOnlyAdds` | vm/execution_engine.go:144-169 | A parameter only adds items to the stack: which ones, and in how many steps, depends neither on the stack nor on which signatures are valid. |
| `Vm.PushOnlySteps` | vm/execution_engine.go:129-134 | What was on the stack stays below, and every item takes a step. |
| `Vm.ExecutionEngine.StepInto` | vm/execution_engine.go:115-142 | Runs the script loaded last to its end or to a fault, or halts when none is left. |
| `Vm.ExecutionEngine.Execute` | vm/execution_engine.go:105-113 | Runs all loaded scripts, each on the stack the one before it left. |
| `Scripts.ProgramBuilder.PushData` | core/contract/program/ProgramBuilder.go:44-67 | Appends the pushing operation for the data. |
| `Scripts.ProgramBuilder.PushNumber` | core/contract/program/ProgramBuilder.go:28-42 | Appends the pushing operation for the number. |
| `Scripts.PushedData` | core/contract/program/ProgramBuilder.go:44-67 | Executing what the builder wrote pushes exactly the data, for 1 to 65535 bytes. |
| `Scripts.PushRoundTrip` | core/contract/program/ProgramBuilder.go:44-67 | Executing what the builder wrote pushes exactly the data, if and only if there is some and its length has at most 16 bits or reads the same with its four bytes reversed. |
| `Scripts.LongPushMisread` | vm/func_pushdata.go:29-30 | Of 65536 bytes written by the builder only 256 are pushed. |
| `Scripts.RunPushNumber` | core/contract/program/ProgramBuilder.go:28-42 | Executing a pushed number leaves an item of that value. |
| `Scripts.CreateMultiSigRedeemScript` | core/contract/contractBuilder.go:73-95 | A script exactly for 1 <= m <= n <= 24, over the keys in sorted order. |
| `Scripts.MultiSigScriptBytes` | core/contract/contractBuilder.go:73-95 | The bytes of the script for m of n keys by position: the number m, each key after 0x21, the number n, 0xAE. |
| `Scripts.CreateSignatureRedeemScript` | core/contract/contractBuilder.go:39-48 | The script for one key. |
| `Scripts.SignatureScriptBytes` | core/contract/contractBuilder.go:39-48 | The script for one key is 35 bytes: 0x21, the 33 bytes of the key, 0xAC. |
| `Scripts.MultiSigRun` | core/validation/validation.go:33-52 | The script for m of n keys after m pushed 64-byte signatures halts within the step limit with one item: the verdict of the greedy search. |
| `Scripts.MultiSigMeaning` | vm/func_crypto.go:37-104 | True implies a matching of signatures to distinct keys; the converse holds when no signature is valid under two different keys. |
| `Scripts.MultiSigAccepted` | core/validation/validation.go:13-55 | The validator accepts only if the signatures match distinct keys of the script, and exactly then when no signature is valid under two different keys. |
| `Scripts.MultiSigUnlocked` | core/validation/validation.go:13-55 | For every parameter byte string: an output locked by m of n keys is unlocked exactly when the parameter pushes m items, within the step limit, that the greedy search matches to keys. |
| `Scripts.MultiSigNeedsKeys` | core/validation/validation.go:13-55 | For every parameter byte string: unlocking implies that the pushed items are signatures of m distinct keys, and the converse holds when no signature is valid under two keys. |
| `Scripts.SignatureRun` | core/validation/validation.go:33-52 | The script for one key after one pushed 64-byte signature halts with the verdict of the check. |
| `Scripts.SignatureUnlocked` | core/validation/validation.go:13-55 | For every parameter byte string: an output locked by one key is unlocked exactly when the parameter pushes, within the step limit, one item that is a signature of the key, or pushes nothing and the key has a byte that is not zero. |
| `Scripts.UnlockedWithoutSignature` | vm/func_crypto.go:23-26 | The empty parameter unlocks an output locked by one key exactly when the key has a byte that is not zero, as every compressed key has. |
| `Scripts.SignatureNeedsKey` | vm/execution_engine.go:144-169 | Of the parameters that unlock an output locked by one key, exactly those that push something, or all of them for a key of zeros, hold a signature of it. |
| `Scripts.NoOperationInParameter` | vm/execution_engine.go:145-147 | No output is unlocked by a parameter in which an operation follows the pushes, whatever the script is. |
| `Scripts.ParameterIsData` | vm/execution_engine.go:144-169 | The items of a parameter are the same whichever signatures are valid. |
| `Scripts.CutPush` | vm/utils/vm_reader.go:24-31 | A parameter cut off in the middle of a push pushes all the same, with zeros for what is missing. |
| `Scripts.RunAndCheck` | core/validation/validation.go:33-52 | True exactly when the run halts with a single true item. |
| `Scripts.VerifySignableData` | core/validation/validation.go:13-55 | True exactly when every program hashes to the expected hash and is accepted. |

## Left out

- Pruning of nodes and reloading them from the store: all nodes stay in memory, so every fork point is known.
- The index of nodes by parent hash: only pruning and reloading use it.
- Locks, goroutines, the task channel, events and logging: the store is a map with an atomic batch, and its tasks run at once.
- Several clock readings within one call: there is one, given as a parameter.
- The median time kept beside the best node, and the adjusted network time.
- 32-bit wrap-around of heights: heights are unbounded. Timestamps, lock times and coinbase maturity do wrap as in the code.
- BlockValidator.PowCheckBlockSanity: block size, number of transactions, clock, auxiliary proof-of-work structure, asset precision, payload and script checks are one flag. Asset precision reads the registered assets and the script check reads the referenced outputs, so the flag is arbitrary at every call: nothing that is proved depends on it. `Scripts` models the script check on its own.
- Chain.Blockchain.GetPrevNodeFromBlock: a parent that is in the store but not in the index would be reloaded; without pruning there is none.
- Chain.Blockchain.ConnectBestChain: the search for the fork point that is only logged.
- BlockCodec.BlockRound: says nothing about a stream whose transactions cannot be decoded, where the code goes on with the fields read so far.
- TransactionCodec.TransactionRound: deployment payloads are not decoded.
- TransactionCodec.Deserialize: the stream is a byte sequence that is passed on, with the end-of-stream behaviour of a byte reader; other readers may accept an empty read at the end.
- BlockCodec.HeaderRound: the structure of the auxiliary proof of work; its reader is a parameter.
- Sm3.Digest.BlockGeneric: the rounds of the compression function; it is a parameter.
- Scripts.CreateMultiSigRedeemScript: sorting in place of the caller's slice; the keys are values, and the elliptic-curve encoding is a given byte string.
- Vm.ExecutionEngine.ExecuteOp: operations that standard scripts do not use, among them flow control and interoperation, count as unassigned; a return is modelled only while fewer than two scripts wait, as in validation.
- Recognition of standard scripts by their bytes.
- Negative numbers in the compact encoder.
- Lucas.FastLucasSequence: the square root that uses it.
- Signature, SHA-256 and curve primitives: parameters.
- Block subsidy and its split, the transaction pool, wallet, header-first synchronisation, servers and command line.
