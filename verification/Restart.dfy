/** Starting a node on an existing database (InitBlockChain in blockchain/chain.go). */
module Restarts {
  import opened Options
  import opened Blocks
  import opened BlockIndexes
  import opened ChainViews
  import opened BlockStores
  import opened OrphanPools
  import opened Reorganizations
  import opened ChainStates
  import opened HeaviestChain
  import opened BlockChains
  import opened Convergence

  /** Every database that a node leaves behind, even when it ends in a panic, lets the next node start
      on exactly the recorded chain, unless its log ends with a delete or the recording of the log was
      switched on over a chain or off over a log. */
  method InitBlockChain(viewLimit: nat, indexLimit: nat, maxOrphanBlocks: nat, initBlockNum: nat,
                        isRecordBlockSequence: bool, db: Db, execute: (Block, nat) -> bool, ghost h: Hash,
                        ghost written: bool)
    returns (chain: BlockChain?)
    requires 1 <= viewLimit && 1 <= indexLimit && 1 <= maxOrphanBlocks && Recorded(db, h, written)
    ensures Dense(db.log)
    ensures chain == null <==> !Accepted(db.log, Branch(h), written, isRecordBlockSequence)
    ensures chain != null ==>
      && fresh(chain) && chain.Ready() && !chain.faulted && chain.orphanPool.orphans == map[]
      && chain.blockStore.db == db && chain.blockStore.isRecordBlockSequence == isRecordBlockSequence
      && chain.Sum().tip == h && chain.index.limit == indexLimit && chain.bestChain.limit == viewLimit
      && chain.orphanPool.maxOrphanBlocks == maxOrphanBlocks && chain.execute == execute
      && fresh(chain.index) && fresh(chain.bestChain) && fresh(chain.orphanPool) && fresh(chain.blockStore)
    ensures chain != null && h.Of? ==>
      var n := |Branch(h)|;
      var start := Max(0, n - 1 - initBlockNum);
      && chain.index.index.Keys == (set j: nat | Max(n - 1 - initBlockNum, n - indexLimit) <= j < n :: Of(Branch(h)[j]))
      && |chain.bestChain.queue| == n - Max(start, n - viewLimit)
      && chain.Kept(start, n) && Together(chain.Sum(), start)
  {
    hide BlockChain.Ready, BlockStore.Valid, BlockStore.Reads, Describes, WellFormed, Branch, Dense, Accepted,
         BlockChain.Kept, Together, Max;
    var store := new BlockStore.Load(isRecordBlockSequence, db, Branch(h), written);
    var ok := store.IsRecordBlockSequenceValid(Branch(h), written);
    if !ok {
      return null;
    }
    chain := new BlockChain.Restart(viewLimit, indexLimit, maxOrphanBlocks, initBlockNum, store, execute, h);
  }

  /** What a block handled by a sound node leaves in the database describes one branch, also when the node
      went down over it; the next node starts on this branch or is refused for the log.  Unless the node
      went down it is the branch of its tip. */
  method HandleAndRestart(node: BlockChain, block: Block, now: int, ghost g: Block, viewLimit: nat, indexLimit: nat,
                          maxOrphanBlocks: nat, initBlockNum: nat, isRecordBlockSequence: bool)
    returns (err: Option<Error>, chain: BlockChain?, ghost h: Hash)
    requires node.Ready() && 1 <= viewLimit && 1 <= indexLimit && 1 <= maxOrphanBlocks
    modifies node, node.index, node.bestChain, node.blockStore, node.orphanPool
    ensures Recorded(node.blockStore.db, h, node.blockStore.isRecordBlockSequence) && Dense(node.blockStore.db.log)
    ensures err != Some(Panic) ==> h == node.Sum().tip
    ensures chain == null <==>
      !Accepted(node.blockStore.db.log, Branch(h), node.blockStore.isRecordBlockSequence, isRecordBlockSequence)
    ensures chain != null ==>
      chain.Ready() && chain.blockStore.db == node.blockStore.db && chain.Sum().tip == h
  {
    hide BlockChain.Ready, BlockChain.DatabaseOk, BlockChain.Snap, BlockChain.AllGood, BlockChain.Welcome,
         BlockChain.Roomy, BlockChain.RoomFor, BlockChain.Safe, BlockChain.Astray, Settled, Advances, Accepted,
         Dense, Recorded, Together, BlockChain.Kept;
    var isMainChain, isOrphan;
    isMainChain, isOrphan, err := node.ProcessBlock(block, now, g, 0);
    if err != Some(Panic) {
      ReadyDatabase(node);
    }
    h := RecordedBranch(node);
    if err != Some(Panic) {
      OneBranch(node.blockStore.db, h, node.bestChain.queue[0].hash, node.blockStore.isRecordBlockSequence);
    }
    chain := InitBlockChain(viewLimit, indexLimit, maxOrphanBlocks, initBlockNum, isRecordBlockSequence,
                            node.blockStore.db, node.execute, h, node.blockStore.isRecordBlockSequence);
  }

  /** A node that stops over a reorganisation, because a block of the new branch did not execute, is
      started again exactly if the first of these blocks did. */
  method ReorganizeAndRestart(chain: BlockChain, detach: seq<BlockNode>, attach: seq<BlockNode>, ghost node: BlockNode,
                              ghost fork: BlockNode?, viewLimit: nat, indexLimit: nat, maxOrphanBlocks: nat,
                              initBlockNum: nat)
    returns (err: Option<Error>, chain': BlockChain?)
    requires chain.Sound() && node in chain.index.parents && !InView(node, chain.bestChain.queue)
    requires ReorgLists(chain.Snap(), node, fork, detach, attach) && detach != []
    requires chain.blockStore.isRecordBlockSequence && 1 <= viewLimit && 1 <= indexLimit && 1 <= maxOrphanBlocks
    modifies chain, chain.blockStore, chain.bestChain
    ensures err == Some(ExecFailed) ==>
      attach != [] && (chain' != null <==> chain.Executes(attach[0].hash, old(chain.execCalls)))
    ensures chain' != null ==> chain'.Ready() && chain'.blockStore.db == chain.blockStore.db
  {
    hide BlockChain.Sound, BlockChain.Ready, BlockChain.DatabaseOk, BlockChain.Snap, ReorgLists, InView, Describes,
         WellFormed, Branch, Dense, BlockChain.Executes, LastType, EndsWithAdd;
    err := chain.ReorganizeChain(detach, attach, node, fork);
    ghost var h := RecordedBranch(chain);
    DescribedLog(chain.blockStore.db, Branch(h), true);
    LastTypeIs(chain.blockStore.db.log);
    chain' := InitBlockChain(viewLimit, indexLimit, maxOrphanBlocks, initBlockNum, true, chain.blockStore.db,
                             chain.execute, h, true);
  }

  /** A child of a second genesis block brings down every node that has a chain, still knows the
      pre-genesis node and has not seen the two blocks: the first is refused but stays in the index. */
  method SecondTree(node: BlockChain, second: Block, child: Block, now: int, ghost g: Block)
    returns (err: Option<Error>, err': Option<Error>)
    requires node.Ready() && node.SecondGenesis(second) && child.parentHash == Of(second) && child.height == 1
    requires Of(second) !in node.orphanPool.orphans && Of(child) !in node.orphanPool.orphans
    requires !node.BlockExists(Of(second)) && !node.BlockExists(Of(child))
    modifies node, node.index, node.bestChain, node.blockStore, node.orphanPool
    ensures err == Some(ParentTdNoExist) && err' == Some(Panic)
  {
    hide BlockChain.Ready, BlockChain.Snap, BlockChain.AllGood, BlockChain.Welcome, BlockChain.Roomy,
         BlockChain.RoomFor, BlockChain.Safe, BlockChain.Astray, Settled, Advances, SameGenesis, Together, WellFormed;
    node.OtherTree(second, child);
    WellFormedChild(second, child);
    var isMainChain, isOrphan;
    isMainChain, isOrphan, err := node.ProcessBlock(second, now, g, 0);
    if Of(child) in node.blockStore.db.heights.hashToHeight {
      node.OnChain(Of(child));
    }
    node.ForeignAstray(child);
    isMainChain, isOrphan, err' := node.ProcessBlock(child, now, g, 0);
  }

  lemma WellFormedChild(genesis: Block, child: Block)
    requires genesis.height == 0 && genesis.parentHash == ZERO_HASH && child.parentHash == Of(genesis)
    requires child.height == 1
    ensures WellFormed(Of(child))
  {
    assert WellFormed(Of(genesis));
  }

  lemma ReadyDatabase(node: BlockChain)
    requires node.Ready()
    ensures node.DatabaseOk() && node.bestChain.queue != []
    ensures Recorded(node.blockStore.db, node.bestChain.queue[0].hash, node.blockStore.isRecordBlockSequence)
  {
    node.TipChain();
    TipFacts(node.Snap());
  }

  /** A database describes one branch only. */
  lemma OneBranch(db: Db, h: Hash, h': Hash, record: bool)
    requires Recorded(db, h, record) && Recorded(db, h', record)
    ensures h == h'
  {
    TopOfBranch(h);
    TopOfBranch(h');
    assert forall i | 0 <= i < |Branch(h)| :: db.heights.headers[i] == Branch(h)[i] == Branch(h')[i];
    assert Branch(h) == Branch(h');
  }

  lemma RecordedBranch(node: BlockChain) returns (h: Hash)
    requires node.DatabaseOk()
    ensures Recorded(node.blockStore.db, h, node.blockStore.isRecordBlockSequence)
  {
    h :| Recorded(node.blockStore.db, h, node.blockStore.isRecordBlockSequence);
  }

  // What a restarted node can take.

  /** Nothing astray can come of the block: its branch holds the block of the chain at height `k`, and so does
      the branch of `base`; or everything indexed does, and then the block does too or has no parent there. */
  ghost predicate Harmless(s: Summary, block: Block, base: Hash, k: nat) {
    Together(s, k) || (SharesAt(base, s.tip, k) && SharesAt(Of(block), base, k))
  }

  lemma HarmlessIsSafe(node: BlockChain, block: Block, base: Hash, k: nat)
    requires Harmless(node.Sum(), block, base, k)
    ensures node.Safe(block, k)
    ensures !Together(node.Sum(), k) ==> SharesAt(Of(block), node.Sum().tip, k)
  {
    if Together(node.Sum(), k) {
      if block.parentHash in node.index.index {
        SharesChild(block, node.Sum().tip, k);
      }
    } else {
      SharesTrans(Of(block), base, node.Sum().tip, k);
    }
  }

  lemma HarmlessAfter(a: Summary, b: Summary, block: Block, next: Block, base: Hash, k: nat)
    requires Harmless(a, block, base, k) && Harmless(a, next, base, k) && (Together(a, k) ==> Together(b, k))
    requires SharesAt(Of(block), a.tip, k) ==> SharesAt(a.tip, b.tip, k)
    ensures Harmless(b, next, base, k)
  {}

  lemma RoomForOneMore(node: BlockChain, block: Block, all: set<Hash>, k: nat)
    requires node.Ready() && Held(node) <= all && |all| <= node.index.limit
    requires Of(block) in all && Of(block) !in Held(node) && block.height < k + node.bestChain.limit
    ensures node.RoomFor(block, k)
  {
    hide BlockChain.Ready;
    HeldSize(node);
    FewerKeys(Held(node) + {Of(block)}, all);
  }

  method ServeOne(node: BlockChain, block: Block, now: int, ghost g: Block, ghost k: nat, ghost all: set<Hash>,
                  ghost base: Hash)
    returns (err: Option<Error>)
    requires node.Ready() && node.Roomy(k) && Harmless(node.Sum(), block, base, k)
    requires Held(node) <= all && |all| <= node.index.limit && Of(block) in all
    requires block.height < k + node.bestChain.limit
    modifies node, node.index, node.bestChain, node.blockStore, node.orphanPool
    ensures err != Some(Panic) && node.Ready() && node.Roomy(k) && Held(node) <= all
    ensures forall next | Harmless(old(node.Sum()), next, base, k) :: Harmless(node.Sum(), next, base, k)
  {
    hide BlockChain.Ready, BlockChain.AllGood, BlockChain.Welcome, BlockChain.RoomFor, BlockChain.Safe,
         BlockChain.Astray, Settled, Advances, Together, BlockChain.ParentExists, Harmless, SharesAt;
    HarmlessIsSafe(node, block, base, k);
    if Of(block) !in Held(node) {
      RoomForOneMore(node, block, all, k);
    }
    var isMainChain, isOrphan;
    ghost var s, a := node.Snap(), node.Sum();
    isMainChain, isOrphan, err := node.ProcessBlock(block, now, g, k);
    forall next | Harmless(a, next, base, k)
      ensures Harmless(node.Sum(), next, base, k)
    {
      if node.Snap() != s {
        HarmlessAfter(a, node.Sum(), block, next, base, k);
      }
      SameTipHarmless(a, node.Sum(), next, base, k);
    }
  }

  lemma SameTipHarmless(a: Summary, b: Summary, block: Block, base: Hash, k: nat)
    ensures Harmless(a, block, base, k) && a.tip == b.tip && a.indexed == b.indexed ==> Harmless(b, block, base, k)
  {}

  /** Blocks in any order, whether they execute or not: as long as the index holds them all and the view does
      not rise above height `k`, the node does not panic over blocks that leave its chain above `k`; if it
      holds nothing else, it does not panic over any block at all. */
  method Serve(node: BlockChain, deliveries: seq<Delivery>, ghost g: Block, ghost k: nat, ghost base: Hash)
    returns (errs: seq<Option<Error>>)
    requires node.Ready() && node.Roomy(k)
    requires forall d | d in deliveries :: Harmless(node.Sum(), d.block, base, k)
    requires |Held(node) + Known(deliveries)| <= node.index.limit
    requires forall d | d in deliveries :: d.block.height < k + node.bestChain.limit
    modifies node, node.index, node.bestChain, node.blockStore, node.orphanPool
    ensures node.Ready() && node.Roomy(k) && |errs| == |deliveries| && Some(Panic) !in errs
  {
    hide BlockChain.Ready, BlockChain.Roomy, Harmless, Held;
    ghost var all := Held(node) + Known(deliveries);
    errs := [];
    for i := 0 to |deliveries|
      invariant node.Ready() && node.Roomy(k) && Held(node) <= all
      invariant forall d | d in deliveries :: Harmless(node.Sum(), d.block, base, k)
      invariant |errs| == i && Some(Panic) !in errs
    {
      assert deliveries[i] in deliveries;
      var err := ServeOne(node, deliveries[i].block, deliveries[i].now, g, k, all, base);
      errs := errs + [err];
    }
  }

  /** A restarted node, as long as the index holds everything and the view does not rise above `k`: with
      `k` where loading began it never panics, whatever arrives; with a higher `k` it does not panic over
      blocks that leave the recorded chain above `k`. */
  method RestartAndServe(viewLimit: nat, indexLimit: nat, maxOrphanBlocks: nat, initBlockNum: nat,
                         isRecordBlockSequence: bool, db: Db, execute: (Block, nat) -> bool, ghost h: Hash,
                         deliveries: seq<Delivery>, ghost g: Block, ghost k: nat)
    returns (chain: BlockChain?, errs: seq<Option<Error>>)
    requires 1 <= viewLimit && 1 <= maxOrphanBlocks && h.Of? && Recorded(db, h, isRecordBlockSequence)
    requires var start := Max(0, |Branch(h)| - 1 - initBlockNum);
      && Max(start, |Branch(h)| - viewLimit) <= k < |Branch(h)|
      && |Branch(h)| - start + |Known(deliveries)| <= indexLimit
      && (k == start || forall d | d in deliveries :: SharesAt(Of(d.block), h, k))
    requires forall d | d in deliveries :: d.block.height < k + viewLimit
    ensures chain != null ==> chain.Ready() && |errs| == |deliveries| && Some(Panic) !in errs
  {
    hide BlockChain.Ready, Together, Recorded, Accepted, Known, SharesAt, Branch, BlockChain.Kept, BlockChain.Roomy,
         Harmless, Dense, Held;
    ghost var start := Max(0, |Branch(h)| - 1 - initBlockNum);
    errs := [];
    chain := InitBlockChain(viewLimit, indexLimit, maxOrphanBlocks, initBlockNum, isRecordBlockSequence, db, execute,
                            h, isRecordBlockSequence);
    if chain == null {
      return;
    }
    chain.RoomyRestarted(start, |Branch(h)|, k);
    HeldSize(chain);
    FewTogether(Held(chain), Known(deliveries));
    forall d | d in deliveries
      ensures Harmless(chain.Sum(), d.block, h, k)
    {
      HarmlessNow(chain.Sum(), d.block, h, k, start);
    }
    errs := Serve(chain, deliveries, g, k, h);
  }

  lemma HarmlessNow(s: Summary, block: Block, h: Hash, k: nat, start: nat)
    requires Together(s, start) && s.tip == h && (k == start || SharesAt(Of(block), h, k))
    ensures Harmless(s, block, h, k)
  {
    if k != start {
      SharesSelf(Of(block), h, k);
    }
  }

  lemma FewTogether(a: set<Hash>, b: set<Hash>)
    ensures |a + b| <= |a| + |b|
  {
    assert a + b == a + (b - a);
    FewerKeys(b - a, b);
  }

  // Convergence after a restart.

  lemma LoadedTree(parents: map<BlockNode, BlockNode?>, index: map<Hash, BlockNode>, queue: seq<BlockNode>, s: Summary,
                   start: nat, k: nat)
    requires TreeFits(parents, queue) && Indexes(index, queue) && Anchored(parents, queue, start)
    requires Together(s, start) && s.indexed == index.Keys && start <= k < |Branch(s.tip)|
    ensures AllFrom(parents, Branch(s.tip)[k])
  {
    BranchPrefix(s.tip, k);
    hide Branch, WellFormed, Linked;
    forall n | n in parents && n.hash.Of?
      ensures SameGenesis(n.hash, Of(Branch(s.tip)[k]))
    {
      NodeIndexed(parents, index, queue, start, n);
      SharesBelow(n.hash, s.tip, start, 0);
    }
  }

  lemma NodeIndexed(parents: map<BlockNode, BlockNode?>, index: map<Hash, BlockNode>, queue: seq<BlockNode>,
                    start: nat, n: BlockNode)
    requires TreeFits(parents, queue) && Indexes(index, queue) && Anchored(parents, queue, start)
    requires n in parents && n.hash.Of?
    ensures n.hash in index
  {
    BranchLength(n.hash);
    assert n in queue;
  }

  lemma ReadyTree(chain: BlockChain)
    requires chain.Ready()
    ensures TreeFits(chain.index.parents, chain.index.queue) && Indexes(chain.index.index, chain.index.queue)
  {}

  /** A restarted node is ready for the blocks above any block of its view. */
  lemma RestartedDelivered(chain: BlockChain, deliveries: seq<Delivery>, h: Hash, start: nat, k: nat, time: int)
    requires chain.Ready() && !chain.faulted && (forall b, n :: chain.execute(b, n)) && chain.Sum().tip == h && h.Of?
    requires chain.orphanPool.orphans == map[] && chain.Kept(start, |Branch(h)|) && Together(chain.Sum(), start)
    requires chain.index.index.Keys == Loaded(h, start) && |Branch(h)| - start <= chain.index.limit
    requires Max(start, |Branch(h)| - chain.bestChain.limit) <= k < |Branch(h)|
    ensures Delivered(chain, deliveries, 0, Loaded(h, start), Branch(h)[k], k, time)
  {
    hide BlockChain.Ready, Branch, Together, AllFrom, Anchored, TreeFits, Indexes;
    chain.RoomyRestarted(start, |Branch(h)|, k);
    ReadyTree(chain);
    LoadedTree(chain.index.parents, chain.index.index, chain.index.queue, chain.Sum(), start, k);
    assert Of(Branch(h)[k]) in Loaded(h, start);
  }

  /** The blocks come from above the block of the branch at height `k`, which is in the view of a restarted
      node, with their parents unless these were loaded, and there is room for all of them. */
  ghost predicate Deliverable(deliveries: seq<Delivery>, h: Hash, start: nat, k: nat, viewLimit: nat, indexLimit: nat,
                              maxOrphanBlocks: nat, time: int) {
    && Max(start, |Branch(h)| - viewLimit) <= k < |Branch(h)| <= start + indexLimit
    && Admissible(deliveries, Branch(h)[k], k, viewLimit, time)
    && Room(deliveries, Loaded(h, start), indexLimit, maxOrphanBlocks)
    && ParentClosed(Known(deliveries), Loaded(h, start))
  }

  /** A restarted node that receives a set of blocks in any order, with repetitions, which is parent-closed
      above what was loaded, ends with all of it indexed and a tip of the greatest work of the set and the
      recorded chain; the recorded tip stays on the chain unless there is more work elsewhere. */
  method RestartAndSync(viewLimit: nat, indexLimit: nat, maxOrphanBlocks: nat, initBlockNum: nat,
                        isRecordBlockSequence: bool, db: Db, execute: (Block, nat) -> bool, ghost h: Hash,
                        deliveries: seq<Delivery>, ghost k: nat, ghost time: int)
    returns (chain: BlockChain?)
    requires 1 <= viewLimit && 1 <= maxOrphanBlocks && h.Of? && Recorded(db, h, isRecordBlockSequence)
    requires forall b, n :: execute(b, n)
    requires var start := Max(0, |Branch(h)| - 1 - initBlockNum);
      Deliverable(deliveries, h, start, k, viewLimit, indexLimit, maxOrphanBlocks, time)
    ensures Dense(db.log)
    ensures chain == null <==> !Accepted(db.log, Branch(h), isRecordBlockSequence, isRecordBlockSequence)
    ensures chain != null ==>
      var hashes := Loaded(h, Max(0, |Branch(h)| - 1 - initBlockNum)) + Known(deliveries);
      && fresh(chain) && chain.Ready() && chain.orphanPool.orphans == map[] && chain.index.index.Keys == hashes
      && MostWork(chain.Sum().tip, hashes) && Advances(h, chain.Sum().tip)
  {
    hide BlockChain.Ready, Delivered, Admissible, Recorded, Accepted, Known, Branch, Loaded, BlockChain.Kept, Together,
         Dense, Advances, MostWork, ParentClosed, Room;
    ghost var start := Max(0, |Branch(h)| - 1 - initBlockNum);
    chain := InitBlockChain(viewLimit, indexLimit, maxOrphanBlocks, initBlockNum, isRecordBlockSequence, db, execute,
                            h, isRecordBlockSequence);
    if chain == null {
      return;
    }
    LoadedIs(h, |Branch(h)| - 1 - initBlockNum, |Branch(h)| - indexLimit);
    RestartedDelivered(chain, deliveries, h, start, k, time);
    Run(chain, deliveries, Loaded(h, start), Branch(h)[k], k, time);
    AllDelivered(chain, deliveries, Loaded(h, start), Branch(h)[k], k, time);
    AllReal(h, start, deliveries);
  }

  lemma AllReal(h: Hash, start: nat, deliveries: seq<Delivery>)
    requires start < |Branch(h)|
    ensures var hashes := Loaded(h, start) + Known(deliveries); hashes != {} && hashes - {ZERO_HASH} == hashes
  {
    assert Of(Branch(h)[start]) in Loaded(h, start);
  }

  lemma {:induction false} LoadedWork(h: Hash, start: nat, x: Hash)
    requires x in Loaded(h, start)
    ensures TotalWork(x) <= TotalWork(h)
  {
    var j: nat :| start <= j < |Branch(h)| && x == Of(Branch(h)[j]);
    BranchPrefix(h, j);
    SumWorkMonotone(Branch(h), j + 1);
  }

  /** What one node has is no heavier than the tip of another that has received it. */
  lemma NoHeavier(tip: Hash, tip': Hash, h: Hash, start: nat, known: set<Hash>, hashes: set<Hash>)
    requires MostWork(tip, Loaded(h, start) + known) && MostWork(tip', hashes) && known + {h} <= hashes
    ensures TotalWork(tip) <= TotalWork(tip')
  {
    hide TotalWork, Loaded;
    if tip in Loaded(h, start) {
      LoadedWork(h, start, tip);
    }
  }

  /** If nothing else that a node has is as heavy as its tip, another node which has received no more and is
      as heavy has the same tip. */
  lemma SameTip(tip: Hash, tip': Hash, h: Hash, start: nat, known: set<Hash>, hashes: set<Hash>)
    requires OnlyHeaviest(tip, hashes) && tip' in Loaded(h, start) + known && known + {h} <= hashes
    requires TotalWork(tip') == TotalWork(tip) >= TotalWork(h) && Advances(h, tip')
    ensures tip' == tip
  {
    if tip' in Loaded(h, start) {
      var j: nat :| start <= j < |Branch(h)| && tip' == Of(Branch(h)[j]);
      LoadedWork(h, start, tip');
      BranchPrefix(h, j);
      assert Branch(h)[|Branch(h)| - 1] == h.block;
    }
  }

  lemma MostInSet(tip: Hash, hashes: set<Hash>)
    requires MostWork(tip, hashes)
    ensures tip in hashes && forall x | x in hashes :: TotalWork(x) <= TotalWork(tip)
  {}

  ghost predicate OnlyHeaviest(tip: Hash, hashes: set<Hash>) {
    forall x | x in hashes && TotalWork(x) == TotalWork(tip) :: x == tip
  }

  /** Two nodes that restart on databases of their own, each of which then has the recorded tip of the other
      and all that the other receives, loaded or delivered in some order, end with tips of the same work; if
      no other block of theirs carries as much, with the same tip. */
  method RestartAndConverge(viewLimit: nat, indexLimit: nat, maxOrphanBlocks: nat, initBlockNum: nat,
                            isRecordBlockSequence: bool, execute: (Block, nat) -> bool, db: Db, ghost h: Hash,
                            deliveries: seq<Delivery>, ghost k: nat, db': Db, ghost h': Hash,
                            deliveries': seq<Delivery>, ghost k': nat, ghost time: int)
    returns (chain: BlockChain?, chain': BlockChain?)
    requires 1 <= viewLimit && 1 <= maxOrphanBlocks && forall b, n :: execute(b, n)
    requires h.Of? && Recorded(db, h, isRecordBlockSequence) && h'.Of? && Recorded(db', h', isRecordBlockSequence)
    requires var start := Max(0, |Branch(h)| - 1 - initBlockNum);
      var start' := Max(0, |Branch(h')| - 1 - initBlockNum);
      && Deliverable(deliveries, h, start, k, viewLimit, indexLimit, maxOrphanBlocks, time)
      && Deliverable(deliveries', h', start', k', viewLimit, indexLimit, maxOrphanBlocks, time)
      && Known(deliveries) + {h} <= Loaded(h', start') + Known(deliveries')
      && Known(deliveries') + {h'} <= Loaded(h, start) + Known(deliveries)
    ensures chain != null && chain' != null ==>
      && chain.Ready() && chain'.Ready() && TotalWork(chain.Sum().tip) == TotalWork(chain'.Sum().tip)
      && (OnlyHeaviest(chain.Sum().tip, chain.index.index.Keys) ==> chain'.Sum().tip == chain.Sum().tip)
  {
    hide BlockChain.Ready, Deliverable, Recorded, Accepted, Known, Branch, Loaded, Dense, Advances, MostWork, TotalWork,
         OnlyHeaviest;
    ghost var start := Max(0, |Branch(h)| - 1 - initBlockNum);
    ghost var start' := Max(0, |Branch(h')| - 1 - initBlockNum);
    chain := RestartAndSync(viewLimit, indexLimit, maxOrphanBlocks, initBlockNum, isRecordBlockSequence, db, execute,
                            h, deliveries, k, time);
    chain' := RestartAndSync(viewLimit, indexLimit, maxOrphanBlocks, initBlockNum, isRecordBlockSequence, db', execute,
                             h', deliveries', k', time);
    if chain != null && chain' != null {
      ghost var hashes := Loaded(h, start) + Known(deliveries);
      ghost var hashes' := Loaded(h', start') + Known(deliveries');
      NoHeavier(chain.Sum().tip, chain'.Sum().tip, h, start, Known(deliveries), hashes');
      NoHeavier(chain'.Sum().tip, chain.Sum().tip, h', start', Known(deliveries'), hashes);
      MostInSet(chain'.Sum().tip, hashes');
      MostInSet(chain.Sum().tip, hashes);
      if OnlyHeaviest(chain.Sum().tip, hashes) {
        SameTip(chain.Sum().tip, chain'.Sum().tip, h', start', Known(deliveries'), hashes);
      }
    }
  }
}
