# chain33: a verified model

This project models three connected parts of chain33 in Dafny and proves what they promise.

**Blocks.** `BlockChain` is the machine of `blockchain/process.go`: blocks arrive in any order, orphans wait in a
pool, accepted blocks become nodes of a tree, and the best chain is extended or reorganised. Four structures move
together: the tree index, the view of the best chain, the database with its add/delete log, and the orphan pool. The
invariant `Ready` says that they agree with each other and that the tip is the heaviest known one; every call of
`ProcessBlock` keeps it, also where an execution fails part-way through a reorganisation. `Convergence` draws one
conclusion: the order of arrival does not matter. `Restarts` draws three more: what a node leaves in its database, even
when it ends in a panic, describes one branch, and the next node starts on it or is refused for its log; a restarted node
does not panic until something has to be evicted; and restarted nodes converge too. The block cache and the
synchronisation task stand beside it.

**Transactions.** `Executor` is the transaction executor over the layered `StateDB`: fees outside, execution inside an
in-memory transaction, groups all or nothing. It refines a fold over one plain map (`ExecutionSpec.dfy`), and the fold is
proved faithful: the receipts tell exactly how the state changed. `ExecutionLaws.dfy` says what each step decides, in terms
of checks, drivers and permissions alone. The system plugins follow, with the law that deleting a block undoes adding it, so
that the local records depend on the current chain only, and with the records themselves (`LocalRecords.dfy`).

**Accounts.** `AccountDB` holds main accounts and the accounts inside contracts, in int64 arithmetic over one store. Every
operation is a check and a list of postings (`Ledger.dfy`); solvency of contracts, conservation of coins and the absence
of wrap-around follow for every run, and on the good ledgers of these runs each operation does to each account what its name
says (`LedgerEffects.dfy`). The keys of the store and the multi-version configuration complete the picture.

Modelling decisions:

- The hash of a block is the block itself, wrapped (`Blocks.Hash`), so hashes are collision-free and parent links
  acyclic. The work of a block is an arbitrary natural number.
- Executing a block is an oracle that may answer differently each time; `faulted` records that it has failed. `Panic` and
  `Panicked` stand for a nil dereference, an index out of range or an explicit panic.
- A database batch is one atomic step. Each exported operation is one critical section of its lock.
- Checks and drivers of the executor are arbitrary functions of the transaction, the visible state and a call counter.
  A driver's run is a sequence of reads and writes that ends in a receipt or an error.
- Values are stored decoded. Keys of the ledger and of the local database are datatypes; `LedgerKeys` shows that the
  ledger's byte keys keep them apart.
- Amounts, fees and counts are int64: `Int64s.Wrap` is applied where the original adds or subtracts. Heights are unbounded.
- Size limits (view, index, orphan pool, cache) are parameters.

Where code and comments disagree the code is followed: positions in the address index are height times 100000 plus index
although one comment says 10000, and `DelBlock` of the block store returns -1 because the sequence is assigned to a
shadowed variable.

Some statements are exact conditions rather than plain laws, because the plain law is false of the code:

- A nil value in a receipt does not delete a stored key (`NilIsNoDeletion`); `TxFaithful` and `GroupFaithful` say of
  every step, and `ListFaithful` of the whole list, exactly when the receipts are still faithful.
- Solvency fails when a contract pays from its main account (`ContractPays`); `StepGood` gives the exact condition for
  a step and `RunGoodIff` for a run.
- The undo law fails when a record of the block existed before; `UndoIff` and `BlockUndoIff` are equivalences. On a
  chain this happens exactly when two blocks share a hash (`FreshIff`), and then a record is lost (`RecordLost`). A block
  that repeats a transaction hash is normally refused before the plugins run (`CheckTxDup`, util/util.go:251), so the
  ordinary case is a common short hash under quickIndex.
- The orphan pool exceeds its limit by one when the orphan recorded as oldest has left it (`AddOrphanBlock`,
  `OverTheLimit`), and it evicts a new orphan when the recorded one has left and come back (`NewestEvicted`).
- The range of `genPrefixEdge` holds too many keys when the last byte is 0xff and none when all are (`RangeExact`,
  `RangeCovers`).
- Two accounts can share a key (`ColonClash`), for two contract addresses exactly when one extends the other behind a
  colon (`ClashIff`).
- Connecting a block panics exactly when its fork with the best chain is lost (`ConnectBestChain`). This happens to
  every block whose branch leaves the main chain below the view and, until the index evicts a node, to no other
  (`ForkLostBelowView`); `SecondTree` shows how a node gets there, and `RestartAndServe` when it does not.
- The start-up check refuses a log that ends with a delete, and a changed recording setting
  (`IsRecordBlockSequenceValid`); a failed reorganisation leaves such a log exactly when its first block did not execute
  (`ReorganizeAndRestart`).
- Queue and maps of the block cache come apart exactly when a block is cached that shares a height or a hash with a
  cached one (`CacheBlock`). A transaction that two cached blocks share is forgotten when one of them leaves, and no
  other transaction is (`CacheBlock`, `DelBlockFromCache`, `ForgottenTx`).

## Model

| member | source | states |
|---|---|---|
| `BlockIndexes.BlockNode.Ancestor` | blockchain/blockindex.go:83-94 | walks the parent pointers to the node at the asked height; null above, below, and where a pointer was cut |
| `BlockIndexes.ChainStep` | blockchain/blockindex.go:83-94 | a parent chain descends one height per step, follows the pointers and ends where one is missing |
| `BlockIndexes.ChainBlock` | blockchain/blockindex.go:83-94 | the node of a parent chain at height k carries the block of the ancestry at k |
| `BlockIndexes.BlockIndex.LookupNode` | blockchain/blockindex.go:114-124 | finds the queued node with the hash, and null means there is none |
| `BlockIndexes.BlockIndex.AddNode` | blockchain/blockindex.go:126-141 | map and queue keep finding the same nodes; over the limit exactly the oldest node leaves and loses its parent pointer |
| `ChainViews.ChainView.NodeByHeight` | blockchain/chainview.go:130-141 | the map lookup is the queue entry at that height; the pre-genesis node is never found |
| `ChainViews.ChainView.Contains` | blockchain/chainview.go:161-163 | true exactly for the nodes of the view at height 0 or more |
| `ChainViews.ChainView.SetTip` | blockchain/chainview.go:62-82 | a child of the tip is pushed and the window is kept; any other node changes nothing |
| `ChainViews.ChainView.DelTip` | blockchain/chainview.go:91-105 | removing the tip leaves the rest of the queue and its map |
| `ChainViews.ChainView.FindFork` | blockchain/chainview.go:191-207 | the first node of the parent chain that the view contains, null when there is none |
| `BlockStores.BlockStore.DbMaybeStoreBlock` | blockchain/blockstore.go:827-906 | files the block with the work of its whole ancestry as total difficulty; refuses exactly when the parent has none |
| `BlockStores.TdWritten` | blockchain/blockstore.go:873-899 | own work plus the stored parent value is the sum of work over the ancestry |
| `BlockStores.LoggedAdd` | blockchain/blockstore.go:551-558 | after an add entry the log replays to the longer chain, its length counts the deletes, and hash pointers lead to adds |
| `BlockStores.LoggedDel` | blockchain/blockstore.go:580-587 | after a delete entry the log replays to the shorter chain, with the same counts |
| `BlockStores.HoldsPush` | blockchain/blockstore.go:492-561 | hash-to-height, height-to-hash and headers stay total on 0..last, inverse, and empty elsewhere when a block is put on top |
| `BlockStores.HoldsPop` | blockchain/blockstore.go:564-591 | and when the top block is removed |
| `BlockStores.BlockStore.SaveBlock` | blockchain/blockstore.go:492-561 | the batch describes the chain with the block on top, in height keys and log |
| `BlockStores.BlockStore.DelBlock` | blockchain/blockstore.go:564-591 | the batch describes the chain without the block; the returned sequence is -1 because the variable is shadowed |
| `BlockStores.BlockStore.WriteConnected` | blockchain/process.go:332-380 | one batch takes the database from the chain to the chain with the block, total difficulties unchanged in value |
| `BlockStores.BlockStore.WriteDisconnected` | blockchain/process.go:420-442 | one batch takes the database from the chain with the block back to the chain |
| `BlockStores.StartState` | blockchain/blockstore.go:1122-1163 | the last log entry names the tip exactly when it is an add |
| `BlockStores.BlockStore.IsRecordBlockSequenceValid` | blockchain/blockstore.go:1122-1163 | for a database written with the log on or off and a node with the log on or off: with the setting unchanged the start is refused exactly for a log that ends with a delete, with the log switched on exactly over a chain, with the log switched off exactly over log entries |
| `BlockStores.EmptyLog` | blockchain/blockstore.go:1122-1163 | a log without entries that describes a chain is no log at all, and the chain is empty |
| `BlockStores.AcceptedDescribes` | blockchain/blockstore.go:1122-1163 | an accepted database describes its chain under the present setting too, whichever it was written with |
| `OrphanPools.OrphanPool.DropHash` | blockchain/orphanpool.go:108-119 | the in-place loop removes every orphan with the hash and keeps the order of the others |
| `OrphanPools.OrphanPool.RemoveOrphanBlock` | blockchain/orphanpool.go:100-125 | both maps keep holding the same orphans, each once under its parent, without empty lists |
| `OrphanPools.RemoveKeeps` | blockchain/orphanpool.go:100-125 | removing a hash from both maps keeps them consistent |
| `OrphanPools.AddKeeps` | blockchain/orphanpool.go:162-175 | adding a new hash to both maps keeps them consistent |
| `OrphanPools.OrphanPool.DropExpired` | blockchain/orphanpool.go:140-152 | exactly the expired orphans leave; a recorded oldest orphan exists whenever the pool is not empty |
| `OrphanPools.OrphanPool.AddOrphanBlock` | blockchain/orphanpool.go:133-176 | expired orphans and at most one more leave, the block enters, and no nil is dereferenced; from a full pool the recorded orphan leaves if nothing in the pool expires before it, and otherwise the pooled orphan that expires first; the pool exceeds its limit, by one, if and only if it still did so after the expired ones left, or was full and the orphan recorded as oldest had left it before without a later one replacing the record |
| `OrphanPools.OrphanPool.MakeRoom` | blockchain/orphanpool.go:140-159 | what leaves before the block enters: the expired orphans and, from a full pool, one more unless the record is stale |
| `OrphanPools.SeenAll` | blockchain/orphanpool.go:140-152 | after the loop the record is the old one or a pooled orphan that expires earlier, and it names no pooled orphan exactly when the old record was stale |
| `OrphanPools.OverTheLimit` | blockchain/orphanpool.go:133-176 | a run after which a pool with a limit of two holds three orphans |
| `OrphanPools.NewestEvicted` | blockchain/orphanpool.go:133-176 | a run in which a full pool loses one of its newest orphans: the record of an expired orphan outlived it, and the same block has come back since |
| `OrphanPools.OrphanPool.ChildInPool` | blockchain/orphanpool.go:186-193 | a child found under a parent hash is a pooled orphan of that parent |
| `OrphanPools.OrphanPool.NoChildren` | blockchain/orphanpool.go:179-184 | a count of 0 means that no pooled orphan has that parent |
| `ChainStates.FitsAdd` | blockchain/process.go:171-220 | index, view, database and pool still fit together after a node was added, even when the index evicts its oldest node |
| `ChainStates.FitsConnect` | blockchain/process.go:284-409 | and after a block was connected |
| `ChainStates.FitsDisconnect` | blockchain/process.go:412-478 | and after the tip was disconnected |
| `Reorganizations.CollectAttach` | blockchain/process.go:486-490 | the first loop collects the new branch above the fork, lowest node first |
| `Reorganizations.CollectDetach` | blockchain/process.go:492-495 | the second loop collects the parent chain of the tip above the fork, tip first |
| `Reorganizations.AttachPath` | blockchain/process.go:481-497 | the attach list is the path of linked nodes from the fork to the new node |
| `Reorganizations.DetachFront` | blockchain/process.go:481-497 | the detach list is the view above the fork, tip first, unless an evicted node has lost its pointer |
| `Reorganizations.ForkIsHighestCommon` | blockchain/chainview.go:191-207 | the fork that is found is the highest common ancestor of new node and tip |
| `Reorganizations.NoSharedBlock` | blockchain/chainview.go:191-207 | above the fork the two branches share no block |
| `Reorganizations.ViewBlock` | blockchain/chainview.go:62-105 | every view node is the node of the main-chain block at its height |
| `HeaviestChain.Extended` | blockchain/process.go:223-236 | extending the heaviest tip gives the heaviest tip |
| `HeaviestChain.Switched` | blockchain/process.go:250-281 | a switch to more work gives the heaviest tip of the same tree |
| `HeaviestChain.OtherGenesis` | blockchain/process.go:223-281 | a second genesis block starts a tree of its own that does not compete with the tip |
| `HeaviestChain.ForkLostBelowView` | blockchain/process.go:255-263 | a node whose branch leaves the main chain below the view never finds a fork; until the index evicts a node every other one does, in new and in restarted nodes |
| `HeaviestChain.MeetsView` | blockchain/chainview.go:191-207 | while parent chains reach the bottom of the view, a branch that holds the main-chain block there meets the view |
| `HeaviestChain.KeepsSharedPart` | blockchain/process.go:509-577 | wherever a failed reorganisation stops, the tip keeps every block that it shared with the node to connect |
| `HeaviestChain.PreGenesisTip` | blockchain/process.go:240-245 | as long as no execution has failed, a tip without total difficulty is the parent of every node that arrives, so that error needs a failed execution |
| `Reorganizations.ForkLostIff` | blockchain/process.go:250-263 | the fork is lost exactly when the search finds none and the branch is light, or when it is heavy and the way to the fork is cut |
| `ChainViews.FirstSharedIs` | blockchain/chainview.go:191-207 | the first node of a parent chain inside the view is determined by chain and view |
| `BlockChains.BlockChain.constructor` | blockchain/chain.go:431-444 | a node with an empty database starts sound, with the pre-genesis node as tip |
| `BlockStores.BlockStore.Load` | blockchain/blockstore.go:113-154 | height and last block read from a database agree with the chain it describes, whichever recording setting it was written with |
| `BlockChains.BlockChain.Restart` | blockchain/chain.go:431-470 | on a database that describes a branch the node starts in agreement with it, with the top of the branch as heaviest tip; the index holds exactly the last initBlockNum + 1 blocks, or as many of them as it has room for, and so does the view; everything indexed shares the first loaded block, and unless the index is too small all parent pointers are there |
| `BlockChains.BlockChain.RoomyRestarted` | blockchain/chain.go:431-470 | so the restarted node has room for whatever the index can still take |
| `HeaviestChain.LoadedTogether` | blockchain/chain.go:431-470 | everything loaded shares the first loaded block with the tip |
| `HeaviestChain.LoadedKeys` | blockchain/chain.go:445-468 | an index that holds one node per height, lowest first, holds exactly the blocks of the branch from its lowest height on |
| `BlockChains.BlockChain.LoadHeader` | blockchain/chain.go:451-461 | the next header becomes an indexed node below the last one, and all structures still fit |
| `BlockChains.BlockChain.LoadNode` | blockchain/chain.go:450-468 | after each height the known nodes are nodes of the recorded branch up to that height, where the tip is |
| `HeaviestChain.LoadedHeaviest` | blockchain/chain.go:431-470 | with one branch known its top is the heaviest node |
| `Restarts.InitBlockChain` | blockchain/chain.go:246-282 | every recorded database, whichever recording setting it was written with, restarts to a sound node on exactly the recorded chain, with exactly its last initBlockNum + 1 blocks, or as many as fit, in index and view; or it is refused exactly for a log that ends with a delete, a log switched on over a chain or one switched off over entries |
| `Restarts.HandleAndRestart` | blockchain/chain.go:246-282 | whatever a sound node does with a block, down to a panic, leaves a database for which this holds, in both directions; without a panic the recorded branch is that of its tip |
| `Restarts.OneBranch` | blockchain/blockstore.go:492-591 | a database describes one branch only |
| `Restarts.ReorganizeAndRestart` | blockchain/blockstore.go:1122-1163 | after a reorganisation that failed on an execution the next start is accepted exactly when the first block of the new branch had executed |
| `Restarts.SecondTree` | blockchain/process.go:223-281 | a second genesis block is refused for its missing parent difficulty but stays indexed, and its child then ends in a panic, for every node that has a chain and still knows the pre-genesis node |
| `Restarts.Serve` | blockchain/process.go:24-281 | for any sequence of blocks, whether they execute or not, while the index holds everything and the view does not rise above a height k: no panic over blocks that leave the chain above k, and over no block at all if everything indexed does |
| `Restarts.RestartAndServe` | blockchain/process.go:24-281 | so a restarted node never panics, whatever arrives, while view and index hold all that was loaded and delivered; and in a view that has begun to slide it does not panic over blocks that leave the recorded chain above the bottom of the view |
| `BlockChains.BlockChain.ConnectBlock` | blockchain/process.go:284-409 | succeeds exactly on a child of the tip that executes; then view, database, log and caches describe the longer chain, and an error changes neither view nor database |
| `BlockChains.BlockChain.DisconnectBlock` | blockchain/process.go:412-478 | takes the tip off view and database; ends in a nil dereference exactly when the pointer was cut or the view is used up |
| `BlockChains.BlockChain.GetReorganizeNodes` | blockchain/process.go:481-497 | the two lists are the two parent chains cut at the fork |
| `BlockChains.BlockChain.LoadBlocks` | blockchain/process.go:509-534 | the loaded blocks belong to the listed nodes one by one |
| `BlockChains.BlockChain.DetachAll` | blockchain/process.go:537-546 | succeeds exactly when the view reaches an intact fork, and then the fork is the tip |
| `BlockChains.BlockChain.AttachAll` | blockchain/process.go:549-558 | succeeds exactly when all blocks execute in turn, and wherever it stops view and database agree |
| `BlockChains.BlockChain.ReorganizeChain` | blockchain/process.go:509-577 | panics exactly without an intact fork and succeeds exactly with one and when all blocks execute; a failed execution leaves view, database and log in agreement at the fork or part-way up the new branch, at the fork exactly when the first block failed, and the log ends with a delete exactly then |
| `BlockChains.BlockChain.ConnectBestChain` | blockchain/process.go:223-281 | keeps the tip heaviest among the known nodes of its tree; work never shrinks and equal work never displaces the tip; panics exactly when the fork is lost, and each of the two missing-difficulty errors has its exact condition |
| `BlockChains.BlockChain.AddNewNode` | blockchain/process.go:200-205 | the node is indexed below its parent and all structures still fit |
| `BlockChains.BlockChain.MaybeAcceptBlock` | blockchain/process.go:171-220 | refuses exactly unknown parents and wrong heights without a trace; otherwise files, indexes and connects; a block whose branch leaves the main chain below the view ends in a panic, and until the index evicts a node only such a block does; a second genesis block is refused but stays indexed |
| `BlockChains.BlockChain.StoreNode` | blockchain/process.go:192-205 | filing never fails here; the block is filed, its node is indexed and the tip is heaviest among all others |
| `BlockChains.BlockChain.LostIff` | blockchain/process.go:223-263 | connecting a node whose branch leaves the main chain below the view has no fork to go back to; until the index evicts a node any other has one |
| `BlockChains.BlockChain.ForeignAstray` | blockchain/process.go:223-263 | a block of another tree leaves the main chain below any view |
| `BlockChains.BlockChain.TakeChild` | blockchain/process.go:141-165 | one pooled child is accepted and put on the work list |
| `BlockChains.BlockChain.ProcessChildren` | blockchain/process.go:141-165 | every pooled child of the hash is taken and put on the work list |
| `BlockChains.BlockChain.ProcessOrphans` | blockchain/process.go:128-168 | afterwards no pooled orphan has an indexed parent, if that was so before but for the hash; what leaves the pool is indexed |
| `BlockChains.BlockChain.ParkOrphan` | blockchain/process.go:74-89 | the orphan enters the pool with its expiration, index, view and database untouched |
| `BlockChains.BlockChain.AcceptAndFollow` | blockchain/process.go:91-105 | the block and the orphans waiting for it are accepted, nothing is lost; the answer is true exactly when the block extends the old tip or carries more total work |
| `BlockChains.BlockChain.ProcessBlock` | blockchain/process.go:24-105 | every run keeps all structures in agreement and the tip heaviest; a known block is refused without a trace, a block with unknown parent is pooled, one whose parent is not indexed or not one height below is refused without a trace, any other is accepted with its waiting orphans; of an accepted block isMainChain is true exactly when it extends the old tip or carries more total work; a block whose branch leaves the main chain below the view ends in a panic if and only if it is new and its parent is indexed; a block that leaves it above a height k does not, nor do the orphans behind it, while the index evicts nothing and the view does not rise above k |
| `BlockChains.BlockChain.ExistsIff` | blockchain/process.go:108-125 | a block exists exactly if it is indexed or on the main chain, and so does a parent; for a block at height 0 exactly if the parent hash is the zero hash |
| `BlockChains.BlockChain.HealthyKnown` | blockchain/process.go:108-125 | while nothing was evicted a block above the base that exists is an indexed one |
| `Convergence.NextIsWelcome` | blockchain/process.go:24-105 | within the limits there is always room for the next delivery |
| `Convergence.DeliverAgain` | blockchain/process.go:24-36 | a repeated block is refused and takes no room |
| `Convergence.Indexed` | blockchain/process.go:128-168 | when no pooled orphan has an indexed parent, a set that is parent-closed above what was there is indexed completely |
| `Convergence.TipIsHeaviest` | blockchain/process.go:223-281 | the heaviest tip of one tree carries the most work of all that is indexed |
| `Convergence.Deliver` | blockchain/process.go:24-105 | one delivery keeps: indexed and pooled blocks together are what was there and what was delivered; the tip gives way to more work only |
| `Convergence.Run` | blockchain/process.go:24-168 | any sequence of deliveries, with repetitions, to a new or a restarted node loses nothing |
| `Convergence.AllDelivered` | blockchain/process.go:24-168 | after a set that is parent-closed above what was there the pool is empty, every block is indexed and the tip has the most work of all |
| `Convergence.Converge` | blockchain/process.go:24-281 | two nodes that receive the same parent-closed set in any two orders end with tips of the same greatest work, and with the same tip if one block has more work than all others |
| `Restarts.RestartedDelivered` | blockchain/process.go:24-281 | a restarted node starts with exactly the loaded blocks indexed, in one tree, and is ready for blocks above any block of its view |
| `Restarts.RestartAndSync` | blockchain/process.go:24-281 | a restarted node that receives, in any order and with repetitions, a set that is parent-closed above what it loaded ends with an empty pool, exactly the loaded and delivered blocks indexed and a tip of the most work of them all, the recorded tip among them; the recorded tip stays on the chain unless there is more work elsewhere |
| `Restarts.NoHeavier` | blockchain/process.go:223-281 | what one restarted node has is no heavier than the tip of another that has its recorded tip and its deliveries |
| `Restarts.RestartAndConverge` | blockchain/process.go:24-281 | two nodes that restart on different databases, each of which then has the recorded tip and the deliveries of the other, end with tips of the same work, and with the same tip if no other block is as heavy |
| `BlockCaches.BlockCache.CacheBlock` | blockchain/cache.go:71-91 | for any block: queue, height map and hash map go on holding the same at most cacheSize blocks if and only if height and hash are new; the transaction set stays exact if and only if the block that leaves shares no transaction with one that stays, and otherwise misses exactly those; the next height continues a run of heights |
| `BlockCaches.CachedIff` | blockchain/cache.go:71-91 | both maps find exactly the queued blocks after entering a block that is not queued yet, and perhaps dropping the front, if and only if its height and its hash are new |
| `BlockCaches.BlockCache.DelBlockFromCache` | blockchain/cache.go:94-109 | for any height, exactly the block of that height leaves queue and maps, the others keep their order; the transaction set stays exact if and only if it shares no transaction with another cached block, and otherwise misses exactly those; at the top height a run of heights stays one |
| `BlockCaches.BlockCache.CheckcacheBlock` | blockchain/cache.go:38-49 | finds the cached block of the height and moves it to the back of the queue; nothing else changes |
| `BlockCaches.BlockCache.GetCacheBlock` | blockchain/cache.go:52-60 | finds the cached block with the hash, and nothing means there is none |
| `BlockCaches.BlockCache.HasCacheTx` | blockchain/cache.go:63-68 | true for transactions of cached blocks only, and for all of them while the set is exact; false exactly for the missed ones and those of no cached block |
| `BlockCaches.AddIff` | blockchain/cache.go:111-119 | entering a block keeps the maps exact if and only if its height and its hash are new |
| `BlockCaches.RemoveMapped` | blockchain/cache.go:121-127 | removing a block keeps the maps exact |
| `BlockCaches.RemoveTxs` | blockchain/cache.go:121-127 | afterwards the set misses what it missed before and the transactions that the removed block shares with one that stays |
| `BlockCaches.RemoveTxsIff` | blockchain/cache.go:121-127 | so an exact set stays exact if and only if no block that stays shares a transaction with the removed one |
| `BlockCaches.ForgottenTx` | blockchain/cache.go:63-127 | for any two blocks of different heights and hashes with a common transaction: cached together, with one of them deleted, the cache does not find the transaction although the other block is still cached |
| `Tasks.Task.Start` | blockchain/task.go:81-99 | starts an idle task on a non-empty range, and refuses otherwise without a trace |
| `Tasks.Task.Done` | blockchain/task.go:102-113 | start stays the least unreported height; the report that completes the range stops the run and launches the callback once |
| `Tasks.Task.DoneInRange` | blockchain/task.go:135-156 | the frontier moves over everything reported |
| `Tasks.Task.Cancel` | blockchain/task.go:128-133 | stops the run without a callback |
| `Tasks.Task.Handle` | blockchain/task.go:81-156 | for any sequence of reports, cancels and timeouts the callback runs once if the reports before the first stop cover the range and never otherwise |
| `Tasks.BeforeHaltPush` | blockchain/task.go:115-133 | an event after a stop, or a stop itself, adds nothing to what counts |
| `Tasks.CoversIff` | blockchain/task.go:81-156 | the reports before the first stop cover the range exactly if some beginning of the events without a stop does |
| `StateDBs.StateDB.Begin` | executor/statedb.go:71-77 | opens an empty transaction layer, the view is unchanged |
| `StateDBs.StateDB.Rollback` | executor/statedb.go:80-101 | the view is again what it was below the transaction |
| `StateDBs.StateDB.Commit` | executor/statedb.go:85-95 | the view stays and becomes the base |
| `StateDBs.StateDB.Get` | executor/statedb.go:104-150 | returns the view’s value; filling the cache changes neither view nor base |
| `StateDBs.StateDB.Set` | executor/statedb.go:177-198 | writes the top layer; the view changes as written unless a nil value meets a lower layer that holds the key, and then it does not |
| `StateDBs.LayeredIff` | executor/statedb.go:192-198 | reading through the layers shows what the writes say if and only if no erased key is held below |
| `StateDBs.OverlayForget` | executor/execenv.go:398-405 | what lay under the written keys before does not matter |
| `StateDBs.LastWrite` | executor/statedb.go:176-197 | after a list of writes a key holds what its last write says |
| `ExecutionSpecs.FeeCharged` | executor/execenv.go:101-113 | the fee comes off the balance of the sender, which stays non-negative, and off nothing else |
| `ExecutionSpecs.CommittedIff` | executor/execenv.go:361-407 | fee below and receipt above give the old view overlaid by the receipt if and only if the receipt erases no key of the charged state |
| `ExecutionSpecs.NilIsNoDeletion` | executor/execenv.go:361-407 | a transaction whose receipt writes nil under a stored key succeeds and leaves the old value visible |
| `ExecutionSpecs.TxFaithful` | executor/execenv.go:490-531 | a single transaction gives one receipt, or a refusal without change; the receipt tells the change of the state if and only if it erases no key of the charged state |
| `ExecutionSpecs.GroupFaithful` | executor/execenv.go:256-311 | a group gives one receipt per member; together they tell the change of the state if and only if they erase no key of the charged state |
| `ExecutionSpecs.GroupAtomic` | executor/execenv.go:256-311 | the writes of all members, the fee first, lie on the charged state, or the state is the charged one and the only writes are the fee of the first member |
| `ExecutionSpecs.ItemFaithful` | executor/executor.go:250-303 | every step of the list, refusals included, is told by its receipts |
| `ExecutionSpecs.ListFaithful` | executor/executor.go:250-303 | one receipt per transaction; the final state is the initial one overlaid by all receipts in order if and only if no key that they erase is in it; no key ever leaves the state |
| `ExecutionSpecs.TellsConcat` | executor/executor.go:250-303 | states told by receipts up to erased keys compose over the list |
| `ExecutionLaws.VerdictIs` | executor/execenv.go:361-438 | a run succeeds if and only if the driver returns, every key it has set is in its receipt, every key of the receipt is allowed and the local execution has no objection; the error in every other case |
| `ExecutionLaws.TxOutcome` | executor/execenv.go:490-531 | a charged transaction that succeeds overlays the charged state by the receipt of the fee followed by that of the driver; one that fails leaves the charged state and the receipt of the fee with an error log, or aborts the list |
| `ExecutionLaws.ForbiddenTx` | executor/execenv.go:425-438 | a forbidden key in the receipt leaves the charged state, with the fee as the only write |
| `ExecutionLaws.TxRefused` | executor/execenv.go:490-508 | a transaction that fails its check or cannot pay changes nothing |
| `ExecutionLaws.MembersRun` | executor/execenv.go:273-305 | the members run in order, each on what those before it wrote, until the first that fails; the receipt of each is that of its driver, for the first one behind that of the fee |
| `ExecutionLaws.GroupRefused` | executor/execenv.go:256-265 | a group that fails its check or cannot pay changes nothing |
| `ExecutionLaws.GroupOutcome` | executor/execenv.go:256-311 | a charged group takes effect if and only if every member succeeds; otherwise the state is the charged one, the fee the only write, the first member that fails has an error log and every other receipt is cleared |
| `ExecutionLaws.ForbiddenMember` | executor/execenv.go:256-311 | a forbidden key in the receipt of any member leaves the charged state, with the fee as the only write |
| `ExecutionLaws.RefusedIff` | executor/executor.go:250-290 | a transaction starts alone, or as the head of a group of 2 to 20 that is supported and lies within the list; which error it gets otherwise |
| `ExecutionLaws.ItemOutcome` | executor/executor.go:248-302 | what the list does at each position: the next index grows by the transactions that were executed, and a refused item leaves state and index and one error receipt for each of its transactions |
| `Executors.Executor.ProcessFee` | executor/execenv.go:101-122 | takes the fee or reports exactly the missing balance |
| `Executors.Executor.ExecFee` | executor/execenv.go:328-349 | the fee is due exactly when the check passes and the driver is not free, and fails exactly when the balance is short or unreadable; without a fee the view is unchanged, with one it is overlaid by the fee receipt |
| `Executors.Executor.RunDriver` | executor/execenv.go:208-232 | the calls of a driver change only noted keys, and only in the transaction layer |
| `Executors.Executor.CheckKV` | executor/execenv.go:409-423 | accepts exactly when every written key is a key of the receipt |
| `Executors.Executor.CheckKeyAllow` | executor/execenv.go:425-438 | accepts exactly when every key of the receipt is allowed |
| `Executors.Executor.ExecTxOne` | executor/execenv.go:361-407 | succeeds if and only if the driver returns, its receipt shows every key it has set and holds allowed keys only, and the local execution has no objection, and otherwise names the first thing amiss; on success the transaction layer is overlaid by the fee and the receipt, on failure the receipt gains an error log only |
| `Executors.Executor.ExecTx` | executor/execenv.go:490-531 | layers, begin, commit and rollback refine the specified step on one map |
| `Executors.Executor.ExecMembers` | executor/execenv.go:273-305 | the member loop refines the specified run of the members |
| `Executors.Executor.ExecTxGroup` | executor/execenv.go:256-311 | the group refines the specified group step |
| `Executors.Executor.Reset` | executor/execenv.go:293-299 | clears the receipts before the failed member |
| `Executors.Executor.ProcExecTxList` | executor/executor.go:224-304 | the list refines the fold over one map, gives one receipt per transaction, and the receipts tell the final state, with nil values if and only if no erased key is in it |
| `Ledgers.SumPost` | account/execaccount.go:67-328 | without wrap-around every total changes by the net of the postings |
| `Ledgers.OpFits` | account/execaccount.go:67-262 | on a good ledger no int64 addition of a successful operation wraps |
| `Ledgers.Exact` | account/account.go:101-111 | on amounts in range the int64 comparisons are the mathematical ones |
| `Ledgers.Covered` | account/execaccount.go:14-25 | an account inside a contract is covered by its main balance, and that by the main total |
| `Ledgers.NetInside` | account/execaccount.go:67-96 | what enters the books of a contract also enters its main account; only a payer loses more |
| `Ledgers.StepGood` | account/execaccount.go:67-328 | a successful operation changes the main total by what it issues, wraps nowhere, and keeps solvency if and only if a paying contract can cover its books |
| `Ledgers.ContractPays` | account/account.go:114-146 | a contract that pays away coins of its users becomes insolvent |
| `Ledgers.RunGood` | account/execaccount.go:67-328 | over every run in which contracts pay only what they can, contracts stay solvent, no amount is negative and the main total is the initial one plus issued minus burned |
| `Ledgers.RunGoodIff` | account/execaccount.go:67-328 | the ledger is good after every step of a run if and only if no contract pays more than it can |
| `Ledgers.RunFromEmpty` | account/execaccount.go:67-328 | from the empty store, with no contract paying, the main total is what was issued minus what was burned |
| `LedgerEffects.TransferEffect` | account/account.go:101-146 | on a good ledger, accepted exactly for a valid amount that the sender has and another receiver, with the error otherwise; then the main balances move by the amount and no other account changes |
| `LedgerEffects.TransferToExecEffect` | account/execaccount.go:67-78 | the same into a contract: main balances move and the balance of the sender inside the contract grows |
| `LedgerEffects.TransferWithdrawEffect` | account/execaccount.go:81-96 | and out of it |
| `LedgerEffects.ExecFrozenEffect` | account/execaccount.go:99-122 | accepted exactly when the balance inside the contract is there, and then it moves to the frozen amount of the same account; no other account changes |
| `LedgerEffects.ExecActiveEffect` | account/execaccount.go:125-147 | and back |
| `LedgerEffects.ExecTransferEffect` | account/execaccount.go:150-183 | from balance to balance inside a contract, exactly when it is there; no other account changes |
| `LedgerEffects.ExecTransferFrozenEffect` | account/execaccount.go:186-219 | from the frozen amount of the sender to the balance of the receiver, exactly when it is there; no other account changes |
| `LedgerEffects.ExecIssueCoinsEffect` | account/execaccount.go:244-262 | exactly the mining contracts may issue a valid amount; their main balance grows by it and no other account changes |
| `LedgerEffects.ExecDepositFrozenEffect` | account/execaccount.go:227-241 | the same, and the frozen amount of the address inside the contract grows |
| `LedgerEffects.MintEffect` | account/account.go:445-466 | accepted exactly for a valid amount within the token limit; the main balance grows by it and no other account changes |
| `LedgerEffects.BurnEffect` | account/account.go:483-503 | accepted exactly for a valid amount that is there; the main balance shrinks by it and no other account changes |
| `LedgerEffects.GenesisInitEffect` | account/genesis.go:20-34 | accepted exactly within the token limit; the main balance grows by the amount and no other account changes |
| `LedgerEffects.GenesisInitExecEffect` | account/genesis.go:37-58 | the same, and the balance of the address inside the contract grows |
| `AccountDBs.AccountDB.SaveKVSet` | account/account.go:204-211 | the store is overlaid by the list |
| `AccountDBs.AccountDB.Transfer` | account/account.go:114-146 | error, store and receipt are those of the two postings |
| `AccountDBs.AccountDB.DepositBalance` | account/account.go:148-170 | adds to the main account, or refuses the amount |
| `AccountDBs.AccountDB.Mint` | account/account.go:445-466 | error, store and receipt are those of the posting |
| `AccountDBs.AccountDB.Burn` | account/account.go:483-503 | error, store and receipt are those of the posting |
| `AccountDBs.AccountDB.SafeAdd` | account/genesis.go:12-17 | for non-negative arguments it is the sum, refused exactly beyond the token limit |
| `AccountDBs.AccountDB.ExecFrozen` | account/execaccount.go:99-122 | balance to frozen amount of one account |
| `AccountDBs.AccountDB.ExecActive` | account/execaccount.go:125-147 | frozen amount back to balance |
| `AccountDBs.AccountDB.ExecTransfer` | account/execaccount.go:150-183 | balance to balance inside a contract |
| `AccountDBs.AccountDB.ExecTransferFrozen` | account/execaccount.go:186-219 | frozen amount to the balance of another account |
| `AccountDBs.AccountDB.ExecDeposit` | account/execaccount.go:285-304 | adds to the balance inside a contract, or names the error |
| `AccountDBs.AccountDB.DepositFrozen` | account/execaccount.go:264-282 | adds to the frozen amount inside a contract, or names the error |
| `AccountDBs.AccountDB.ExecWithdraw` | account/execaccount.go:307-328 | takes from the balance inside a contract, or names the error |
| `AccountDBs.AccountDB.TransferToExec` | account/execaccount.go:67-78 | the three postings of a deposit; the panic is unreachable |
| `AccountDBs.AccountDB.TransferWithdraw` | account/execaccount.go:81-96 | the three postings of a withdrawal; the panic is unreachable |
| `AccountDBs.AccountDB.ExecIssueCoins` | account/execaccount.go:244-262 | only mining contracts may issue, and then the main account grows |
| `AccountDBs.AccountDB.ExecDepositFrozen` | account/execaccount.go:227-241 | issues to the contract and freezes inside it |
| `AccountDBs.AccountDB.GenesisInit` | account/genesis.go:20-34 | error, store and receipt are those of the posting |
| `AccountDBs.AccountDB.GenesisInitExec` | account/genesis.go:37-58 | both postings, or a panic that leaves the first one |
| `LedgerKeys.AssetOf` | account/account.go:49-62 | a key determines execer, symbol and the rest |
| `LedgerKeys.AccountKeyInjective` | account/account.go:244-253 | account keys of different assets or addresses differ |
| `LedgerKeys.ExecAccountKeyInjective` | account/execaccount.go:57-64 | contract addresses without a colon never clash: the key determines asset, contract and address |
| `LedgerKeys.ExecKeysEqual` | account/execaccount.go:57-64 | exec-account keys are equal if and only if the assets are and contract address, colon and address read as the same string |
| `LedgerKeys.ClashIff` | account/execaccount.go:57-64 | two contract addresses can share the key of an account if and only if one of them extends the other behind a colon |
| `LedgerKeys.Clash` | account/execaccount.go:57-64 | and then these accounts do |
| `LedgerKeys.FamiliesApart` | account/execaccount.go:57-64 | no account key is an exec-account key, for addresses without a dash |
| `LedgerKeys.FamiliesMeet` | account/execaccount.go:57-64 | an account key is also an exec-account key if and only if the address starts with exec- and has a colon behind it |
| `LedgerKeys.ColonClash` | account/execaccount.go:57-64 | an input for which two accounts share a key |
| `LedgerKeys.GenPrefixEdge` | account/account.go:426-442 | increments the last byte below 0xff and keeps the bytes behind it |
| `LedgerKeys.RangeCovers` | account/account.go:426-442 | the range holds every key with the prefix if and only if some byte is below 0xff |
| `LedgerKeys.RangeExact` | account/account.go:426-442 | the range holds exactly those keys if and only if the last byte is below 0xff |
| `LocalIndexes.UndoIff` | executor/plugin_addrindex.go:25-87 | adding entries and deleting matching ones is observably nothing if and only if no record was there before |
| `LocalIndexes.AddedCounts` | executor/plugin_addrindex.go:117-138 | a count grows by the number of its entries, in int64 arithmetic |
| `LocalHistories.AnyOrder` | executor/executor.go:341-366 | the order in which the plugins run does not matter |
| `LocalHistories.BlockUndoIff` | executor/executor.go:382-430 | deleting a block undoes adding it if and only if its records were new |
| `LocalHistories.RegularFresh` | executor/plugin_txindex.go:94-99 | on a chain without repeated hashes every record of a block is new to the chain below |
| `LocalHistories.FreshIff` | executor/plugin_txindex.go:26-99 | with transaction index and fees enabled, every block of a chain brings only new records if and only if no two blocks share a block hash, a transaction hash or an indexed short hash |
| `LocalHistories.RecordLost` | executor/plugin_txindex.go:26-99 | after any run, connecting and disconnecting a block that shares such a hash with a block of the chain deletes the record of that block |
| `LocalHistories.RunCurrent` | blockchain/blockstore.go:617-653 | after any run of connected and disconnected blocks the records are those of the current chain |
| `LocalHistories.HistoryIndependent` | blockchain/blockstore.go:617-653 | two runs that end with the same chain leave the same observable records |
| `LocalHistories.TotalFees` | executor/plugin_fee.go:43-57 | the fee record of every block holds the fees and transactions of its whole ancestry |
| `LocalHistories.RunTotalFees` | executor/plugin_fee.go:43-57 | so does the record that any run of connected and disconnected blocks has left |
| `LocalRecords.AddrRecords` | executor/plugin_addrindex.go:25-55 | after a block was added, under an address and a position, with or without direction, there is the transaction of the block at that position if the address sends it, or receives it, and otherwise what was there |
| `LocalRecords.AddrCounts` | executor/plugin_addrindex.go:117-138 | the count of an address grows by the transactions it sends plus those it receives |
| `LocalRecords.TxRecords` | executor/plugin_txindex.go:26-99 | under the hash of a transaction of the block there are height, position, transaction and receipt, and under any other hash what was there |
| `LocalRecords.ShortRecords` | executor/plugin_txindex.go:51-75 | under quickIndex exactly the first eight bytes of its transaction hashes are marked in addition |
| `LocalRecords.RunCounts` | executor/plugin_addrindex.go:25-138 | after any run every address is counted as often as it sends or receives on the current chain |
| `LocalRecords.RunAddrRecords` | executor/plugin_addrindex.go:25-87 | after any run there is under an address and a position the transaction at that position of the current chain if it has the address, and nothing otherwise |
| `LocalRecords.RunTxRecords` | executor/plugin_txindex.go:26-99 | after any run there is under the hash of a transaction of the current chain its height, position and receipt |
| `Plugins.StoreBatch` | blockchain/blockstore.go:617-653 | nil deletes, anything else is set, in order |
| `Plugins.TracksBump` | executor/plugin_addrindex.go:117-138 | the list with one more count record does to the stored records what the entries with one more count do, and the counts in memory go on agreeing with it |
| `Plugins.PluginExecutor.IndexAddr` | executor/plugin_addrindex.go:33-42 | the records of one address; the list does what the entries do |
| `Plugins.PluginExecutor.AddrIndexLocal` | executor/plugin_addrindex.go:25-87 | the list of the address index does what its entries do, for adding and deleting |
| `Plugins.PluginExecutor.TxIndexLocal` | executor/plugin_txindex.go:26-67 | the list of the transaction index does what its entries do |
| `Plugins.PluginExecutor.FeeLocal` | executor/plugin_fee.go:21-61 | the list writes the new total, or deletes it |
| `Plugins.PluginExecutor.ProcExecAddBlock` | executor/executor.go:341-366 | the returned list adds the entries of the block and memory follows, whatever the order of the plugins |
| `Plugins.PluginExecutor.ProcExecDelBlock` | executor/executor.go:416-433 | the returned list deletes the entries of the block |
| `MultiVersions.ListsExtended` | types/config_mver.go:107-126 | one more version in its list: the list knows the versions seen so far and this one, and at one height the greatest fork name stays |
| `MultiVersions.BuiltStep` | types/config_mver.go:68-99 | after one more key the lists know exactly the versions seen so far, with the greatest name per height |
| `MultiVersions.MVersion.UpdateFork` | types/config_mver.go:68-105 | in any order of the keys, and when run again, the lists know all versions and are sorted |
| `MultiVersions.BackToKey` | types/config_mver.go:135-142 | the key built from prefix, fork name and suffix is the data key of that fork |
| `MultiVersions.GetForkName` | types/config_mver.go:128-146 | the version with the greatest activation height up to the height, ties to the greatest name, or the plain key when there is none |
| `MultiVersions.InForceUnique` | types/config_mver.go:128-146 | at most one version is in force |
| `MultiVersions.VersionOf` | types/config_mver.go:72-90 | a name between prefix and suffix stands for the fork of that name, and only if there is none for the fork with the part before it and a dot in front |
| `MultiVersions.InForceIs` | types/config_mver.go:68-146 | which version is in force, told by names, fork heights and fork names alone |
| `MultiVersions.MVersion.Get` | types/config_mver.go:50-65 | the value of the version in force, or of the plain key |

## Left out

- Blocks.Hash: real hashing and the decoding of difficulty bits into work.
- BlockIndexes.BlockNode: parent pointers are entries of a map in the index instead of fields of the node; two nodes of one block stay different objects.
- BlockChains.BlockChain.ConnectBlock: the branch for blocks of pid "self", whose hash changes on execution; feeding the block cache, the synchronisation task and the subscribers; transaction records, which `Plugins` models apart.
- BlockChains.BlockChain.ConnectBestChain: the parachain path, where sequence numbers come from outside, and recording faulty peers.
- BlockChains.BlockChain.ProcessBlock: broadcasting, the closed flag, and database write failures.
- Restarts.RestartAndServe: in the original a restart loads one block more than the view holds when the chain is longer than 10240 blocks, so the first loaded block leaves the view at once and only the second half of the statement applies.
- BlockChains.BlockChain.Restart: loaded nodes carry pid "self" in the original, so connecting one of them again after a restart would take the "self" branch left out at ConnectBlock; filling the block cache, database versions, and the quick-index migration of NewBlockStore.
- BlockIndexes.BlockIndex.AddNode: UpdateNode and DelNode, which only the "self" path and the parachain path use.
- OrphanPools.OrphanPool.AddOrphanBlock: the clock is read once per call.
- OrphanPools: GetOrphanRoot and RemoveOrphanBlock2, which the modelled paths do not use.
- Convergence.Converge: two runs share their limits, all blocks execute, and all deliveries fall into one expiration period of 600 seconds; with evictions or expiry the law does not hold.
- Restarts.RestartAndSync: under the same conditions, for blocks that leave the recorded chain inside the view; a reorganisation back onto loaded nodes takes the "self" branch left out at ConnectBlock.
- BlockCaches.BlockCache.DelBlockFromCache: from a cache whose maps and queue hold the same blocks; the panic of the debug build on a gap.
- Tasks.Task: the timer is a stop at an arbitrary moment; the callback is counted, not run.
- StateDBs.StateDB.Get: reading through MVCC versions, and errors of the store.
- Executors.Executor.ExecTx: the genesis block, and heights before the forks ForkExecRollback, ForkStateDBSet and ForkResetTx0.
- Executors.Executor.ExecTxOne: receipts are values, so copyReceipt is the identity; execLocalSameTime may fail but does not write the state.
- ExecutionSpecs.ListFaithful: nothing is claimed when an API-environment error or a panic ends the list.
- LedgerEffects.GenesisInitExecEffect: for a valid deposit; one that panics after its first posting is described by GenesisInitExec.
- AccountDBs.AccountDB: receipts list the saved accounts; log types and previous values are not modelled. Undecodable accounts, which panic, are excluded by typing.
- LocalHistories.RunCurrent: the records of mvcc, of the statistics plugin and of the contracts' own local execution.
- Plugins.PluginExecutor: keys are datatypes per prefix, and a record always decodes; assets in address records are left out.
- MultiVersions.MVersion: keys are lists of dot-free parts, so that splitting and joining is the identity; the list of forks is a parameter.
- Networking, RPC, queues, mempool, consensus, wallet, cryptography, protobuf encoding and logging.
