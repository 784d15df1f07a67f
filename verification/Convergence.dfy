/** Every order in which the blocks of a tree may arrive leads to a chain of greatest work. */
module Convergence {
  import opened Blocks
  import opened BlockIndexes
  import opened ChainViews
  import opened BlockStores
  import opened OrphanPools
  import opened ChainStates
  import opened HeaviestChain
  import opened BlockChains

  /** A block and the time at which it arrives. */
  datatype Delivery = Delivery(block: Block, now: int)

  ghost function Known(deliveries: seq<Delivery>): set<Hash> {
    set d | d in deliveries :: Of(d.block)
  }

  /** Well-formed blocks above the block `g` at height `k` that fit the view and arrive before the first of
      them could expire in the orphan pool. */
  ghost predicate Admissible(deliveries: seq<Delivery>, g: Block, k: nat, viewLimit: nat, start: int) {
    forall d | d in deliveries ::
      && WellFormed(Of(d.block)) && FromBase(Of(d.block), g, k) && d.block.height < k + viewLimit
      && start <= d.now <= start + ORPHAN_EXPIRATION_TIME
  }

  /** Index and pool can hold every block besides those that are there; a repeated block takes no further
      room. */
  ghost predicate Room(deliveries: seq<Delivery>, seed: set<Hash>, indexLimit: nat, maxOrphanBlocks: nat) {
    |seed + Known(deliveries)| <= indexLimit && |Known(deliveries)| <= maxOrphanBlocks
  }

  /** With every block that is not there comes its parent, unless that is there. */
  ghost predicate ParentClosed(hashes: set<Hash>, seed: set<Hash>) {
    forall h | h in hashes && h !in seed :: h.Of? && h.block.parentHash in hashes + seed
  }

  /** No hash of the set carries more work. */
  ghost predicate MostWork(tip: Hash, hashes: set<Hash>) {
    tip in hashes && forall h | h in hashes :: TotalWork(h) <= TotalWork(tip)
  }

  /** A block that is neither there nor among the first `i` deliveries makes larger sets. */
  lemma KnownBefore(deliveries: seq<Delivery>, seed: set<Hash>, i: nat)
    requires i < |deliveries| && Of(deliveries[i].block) !in seed + Known(deliveries[..i])
    ensures |Known(deliveries[..i])| < |Known(deliveries)|
    ensures |seed + Known(deliveries[..i])| < |seed + Known(deliveries)|
  {
    var h := Of(deliveries[i].block);
    FewerKeys(Known(deliveries[..i]) + {h}, Known(deliveries));
    FewerKeys(seed + Known(deliveries[..i]) + {h}, seed + Known(deliveries));
  }

  lemma KnownStep(deliveries: seq<Delivery>, i: nat)
    requires i < |deliveries|
    ensures Known(deliveries[..i + 1]) == Known(deliveries[..i]) + {Of(deliveries[i].block)}
  {
    assert deliveries[..i + 1] == deliveries[..i] + [deliveries[i]];
  }

  lemma {:induction false} QueueSize(index: map<Hash, BlockNode>, queue: seq<BlockNode>)
    requires Indexes(index, queue)
    ensures |queue| == |index.Keys|
    decreases |queue|
  {
    if queue == [] {
      assert index.Keys == {};
    } else {
      IndexesDrop(index, queue);
      QueueSize(index - {queue[0].hash}, queue[1..]);
      assert index.Keys == (index - {queue[0].hash}).Keys + {queue[0].hash};
    }
  }

  ghost function Held(chain: BlockChain): set<Hash>
    reads chain.index, chain.orphanPool
  {
    chain.index.index.Keys + chain.orphanPool.orphans.Keys
  }

  lemma PoolApart(chain: BlockChain)
    requires chain.Ready()
    ensures chain.orphanPool.orphans.Keys !! chain.index.index.Keys
    ensures Indexes(chain.index.index, chain.index.queue)
  {}

  /** Index and pool are disjoint, so together they hold each block once. */
  lemma HeldSize(chain: BlockChain)
    requires chain.Ready()
    ensures |Held(chain)| == |chain.index.queue| + |chain.orphanPool.orphans|
  {
    hide BlockChain.Ready, Indexes;
    PoolApart(chain);
    QueueSize(chain.index.index, chain.index.queue);
  }

  /** What is pooled was delivered. */
  lemma FewPooled(chain: BlockChain, seed: set<Hash>, known: set<Hash>)
    requires chain.Ready() && Held(chain) == seed + known && seed <= chain.index.index.Keys
    ensures |chain.orphanPool.orphans| <= |known|
  {
    hide BlockChain.Ready, Indexes;
    PoolApart(chain);
    FewerKeys(chain.orphanPool.orphans.Keys, known);
  }

  /** In a settled state nothing of a parent-closed set is left in the pool. */
  lemma {:induction false} Indexed(s: Summary, seed: set<Hash>, hashes: set<Hash>, h: Hash)
    requires Settled(s, {}) && s.indexed + s.orphans.Keys == seed + hashes && seed <= s.indexed
    requires ParentClosed(hashes, seed) && h in seed + hashes
    requires forall k | k in s.orphans :: k == Of(s.orphans[k].block)
    ensures h in s.indexed
    decreases h
  {
    if h !in seed {
      Indexed(s, seed, hashes, h.block.parentHash);
    }
    assert forall k | k in s.orphans :: s.orphans[k].block == k.block;
  }

  lemma TipIsIndexed(s: Snapshot, h: Hash)
    requires Fits(s) && Indexes(s.index, s.queue) && Complete(s) && Heaviest(s.parents, s.view[0], {})
    requires h in s.index && h.Of?
    ensures s.view[0].hash.Of? && s.view[0].hash in s.index
  {
    hide SameGenesis, TotalWork, HeightOf;
    var tip := s.view[0];
    TipFacts(s);
    assert s.index[h] in s.queue && tip in s.view;
    if tip.hash.Of? {
      BranchLength(tip.hash);
      assert tip in s.queue;
    }
  }

  /** The heaviest tip of a chain carries the most work of all that is indexed. */
  lemma TipIsHeaviest(s: Snapshot, g: Block)
    requires Fits(s) && Indexes(s.index, s.queue) && Complete(s) && Heaviest(s.parents, s.view[0], {})
    requires AllFrom(s.parents, g) && s.index.Keys - {ZERO_HASH} != {}
    ensures MostWork(s.view[0].hash, s.index.Keys - {ZERO_HASH})
  {
    hide Branch, Anchored, StoreFits, PoolFits;
    var tip := s.view[0];
    forall h | h in s.index && h != ZERO_HASH
      ensures h.Of?
    {
      assert s.index[h] in s.queue;
      WellFormedReal(h);
    }
    var h :| h in s.index.Keys - {ZERO_HASH};
    TipIsIndexed(s, h);
    forall h | h in s.index && h != ZERO_HASH
      ensures TotalWork(h) <= TotalWork(tip.hash)
    {
      assert s.index[h] in s.queue && s.index[tip.hash] in s.queue;
    }
  }

  lemma WellFormedReal(h: Hash)
    requires WellFormed(h) && h != ZERO_HASH
    ensures h.Of?
  {}

  /** The orphans of a ready chain sit under their own hash. */
  lemma PoolOf(chain: BlockChain)
    requires chain.Ready()
    ensures forall h | h in chain.orphanPool.orphans :: h == Of(chain.orphanPool.orphans[h].block)
  {}

  /** Every pooled block will live at least until the last delivery. */
  ghost predicate Lasting(orphans: map<Hash, OrphanBlock>, start: int) {
    forall h | h in orphans :: start + ORPHAN_EXPIRATION_TIME <= orphans[h].expiration
  }

  /** What holds after the first `i` deliveries to a node that had indexed `seed`. */
  ghost predicate Delivered(chain: BlockChain, deliveries: seq<Delivery>, i: nat, seed: set<Hash>, g: Block, k: nat,
                            start: int)
    requires i <= |deliveries|
    reads chain, chain.index, chain.bestChain, chain.blockStore, chain.orphanPool
  {
    && chain.Ready() && chain.AllGood(g, k) && Settled(chain.Sum(), {}) && Lasting(chain.orphanPool.orphans, start)
    && seed <= chain.index.index.Keys
    && Held(chain) == seed + Known(deliveries[..i])
  }

  lemma NextIsWelcome(chain: BlockChain, deliveries: seq<Delivery>, i: nat, seed: set<Hash>, g: Block, k: nat,
                      start: int)
    requires i < |deliveries| && Delivered(chain, deliveries, i, seed, g, k, start)
    requires Of(deliveries[i].block) !in seed + Known(deliveries[..i])
    requires Admissible(deliveries, g, k, chain.bestChain.limit, start)
    requires Room(deliveries, seed, chain.index.limit, chain.orphanPool.maxOrphanBlocks)
    ensures chain.Welcome(deliveries[i].block, deliveries[i].now, g, k) && WellFormed(Of(deliveries[i].block))
  {
    hide BlockChain.Ready, BlockChain.AllGood, WellFormed, FromBase, Settled, Held, Known;
    HeldSize(chain);
    FewPooled(chain, seed, Known(deliveries[..i]));
    KnownBefore(deliveries, seed, i);
    assert deliveries[i] in deliveries;
  }

  /** Pooling a block at a time after `start` makes it last long enough. */
  lemma LastingStep(orphans: map<Hash, OrphanBlock>, orphans': map<Hash, OrphanBlock>, now: int, start: int)
    requires Lasting(orphans, start) && start <= now
    requires forall h | h in orphans' :: if h in orphans then orphans'[h] == orphans[h]
                                         else orphans'[h].expiration == now + ORPHAN_EXPIRATION_TIME
    ensures Lasting(orphans', start)
  {}

  lemma NotFaulted(chain: BlockChain, g: Block, k: nat)
    requires chain.AllGood(g, k)
    ensures !chain.faulted && chain.bestChain.queue != []
  {}

  /** A block that arrives for the first time. */
  method DeliverNew(chain: BlockChain, deliveries: seq<Delivery>, i: nat, ghost seed: set<Hash>, ghost g: Block,
                    ghost k: nat, ghost start: int)
    requires i < |deliveries| && Delivered(chain, deliveries, i, seed, g, k, start)
    requires Of(deliveries[i].block) !in seed + Known(deliveries[..i])
    requires Admissible(deliveries, g, k, chain.bestChain.limit, start)
    requires Room(deliveries, seed, chain.index.limit, chain.orphanPool.maxOrphanBlocks)
    modifies chain, chain.index, chain.bestChain, chain.blockStore, chain.orphanPool
    ensures Delivered(chain, deliveries, i + 1, seed, g, k, start)
    ensures Advances(old(chain.Sum()).tip, chain.Sum().tip)
  {
    hide BlockChain.Ready, BlockChain.AllGood, BlockChain.Welcome, Settled, WellFormed, BlockChain.Snap, Advances,
         FromBase, BlockChain.BlockExists, BlockChain.ParentExists, Lasting, Known, BlockChain.Roomy,
         BlockChain.RoomFor, BlockChain.Safe, BlockChain.Astray, Together, SharesAt;
    NextIsWelcome(chain, deliveries, i, seed, g, k, start);
    NotFaulted(chain, g, k);
    KnownStep(deliveries, i);
    ghost var orphans := chain.orphanPool.orphans;
    assert deliveries[i] in deliveries;
    var isMainChain, isOrphan, err;
    isMainChain, isOrphan, err := chain.ProcessBlock(deliveries[i].block, deliveries[i].now, g, k);
    LastingStep(orphans, chain.orphanPool.orphans, deliveries[i].now, start);
    NotFaulted(chain, g, k);
  }

  /** A block that is known already is refused and changes nothing. */
  method DeliverAgain(chain: BlockChain, deliveries: seq<Delivery>, i: nat, ghost seed: set<Hash>, ghost g: Block,
                      ghost k: nat, ghost start: int)
    requires i < |deliveries| && Delivered(chain, deliveries, i, seed, g, k, start)
    requires Of(deliveries[i].block) in seed + Known(deliveries[..i])
    modifies chain, chain.index, chain.bestChain, chain.blockStore, chain.orphanPool
    ensures Delivered(chain, deliveries, i + 1, seed, g, k, start)
    ensures Advances(old(chain.Sum()).tip, chain.Sum().tip)
  {
    hide BlockChain.Ready, BlockChain.Welcome, Settled, WellFormed, Advances, BlockChain.ParentExists, Lasting, Known,
         BlockChain.Roomy, BlockChain.RoomFor, BlockChain.Safe, BlockChain.Astray, Together, SharesAt, AllFrom,
         PoolHasRoom, Anchored, LowOf, Based;
    KnownStep(deliveries, i);
    ghost var s := chain.Snap();
    var isMainChain, isOrphan, err;
    isMainChain, isOrphan, err := chain.ProcessBlock(deliveries[i].block, deliveries[i].now, g, k);
    assert chain.Snap() == s;
    AdvancesRefl(chain.Sum().tip);
  }

  /** A block above the base is known exactly when it is indexed or pooled. */
  lemma KnownIff(chain: BlockChain, deliveries: seq<Delivery>, i: nat, seed: set<Hash>, g: Block, k: nat, start: int)
    requires i < |deliveries| && Delivered(chain, deliveries, i, seed, g, k, start)
    requires Admissible(deliveries, g, k, chain.bestChain.limit, start)
    ensures var h := Of(deliveries[i].block);
      chain.BlockExists(h) || h in chain.orphanPool.orphans <==> h in seed + Known(deliveries[..i])
  {
    hide BlockChain.Sound, Settled, Heaviest, AllFrom, Anchored, LowOf, Known, WellFormed, PoolHasRoom, FromBase;
    var h := Of(deliveries[i].block);
    assert deliveries[i] in deliveries;
    if chain.BlockExists(h) {
      chain.KnownIndexed(h, g, k);
    }
  }

  method Deliver(chain: BlockChain, deliveries: seq<Delivery>, i: nat, ghost seed: set<Hash>, ghost g: Block,
                 ghost k: nat, ghost start: int)
    requires i < |deliveries| && Delivered(chain, deliveries, i, seed, g, k, start)
    requires Admissible(deliveries, g, k, chain.bestChain.limit, start)
    requires Room(deliveries, seed, chain.index.limit, chain.orphanPool.maxOrphanBlocks)
    modifies chain, chain.index, chain.bestChain, chain.blockStore, chain.orphanPool
    ensures Delivered(chain, deliveries, i + 1, seed, g, k, start)
    ensures Advances(old(chain.Sum()).tip, chain.Sum().tip)
  {
    hide Delivered, Admissible, Room, Known, BlockChain.BlockExists, Advances;
    KnownIff(chain, deliveries, i, seed, g, k, start);
    var h := Of(deliveries[i].block);
    if chain.BlockExists(h) || chain.orphanPool.IsKnownOrphan(h) {
      DeliverAgain(chain, deliveries, i, seed, g, k, start);
    } else {
      DeliverNew(chain, deliveries, i, seed, g, k, start);
    }
  }

  /** Delivers the blocks one by one. */
  method Run(chain: BlockChain, deliveries: seq<Delivery>, ghost seed: set<Hash>, ghost g: Block, ghost k: nat,
             ghost start: int)
    requires Delivered(chain, deliveries, 0, seed, g, k, start)
    requires Admissible(deliveries, g, k, chain.bestChain.limit, start)
    requires Room(deliveries, seed, chain.index.limit, chain.orphanPool.maxOrphanBlocks)
    modifies chain, chain.index, chain.bestChain, chain.blockStore, chain.orphanPool
    ensures Delivered(chain, deliveries, |deliveries|, seed, g, k, start)
    ensures Advances(old(chain.Sum()).tip, chain.Sum().tip)
  {
    hide Delivered, Admissible, Advances;
    AdvancesRefl(chain.Sum().tip);
    for i := 0 to |deliveries|
      invariant Delivered(chain, deliveries, i, seed, g, k, start)
      invariant Advances(old(chain.Sum()).tip, chain.Sum().tip)
    {
      ghost var tip := chain.Sum().tip;
      Deliver(chain, deliveries, i, seed, g, k, start);
      AdvancesTrans(old(chain.Sum()).tip, tip, chain.Sum().tip);
    }
  }

  lemma NothingYet(chain: BlockChain, deliveries: seq<Delivery>, g: Block, start: int)
    requires chain.Ready() && !chain.faulted && (forall b, n :: chain.execute(b, n))
    requires chain.orphanPool.orphans == map[] && |chain.index.queue| == 1 <= chain.index.limit
    requires chain.bestChain.queue != [] && chain.bestChain.queue[0].hash == ZERO_HASH
    requires chain.bestChain.queue[0].height == -1
    requires chain.index.parents == map[chain.bestChain.queue[0] := null]
    requires chain.index.index == map[ZERO_HASH := chain.bestChain.queue[0]]
    ensures Delivered(chain, deliveries, 0, {ZERO_HASH}, g, 0, start)
  {
    hide BlockChain.Ready;
  }

  /** Once every block of a parent-closed set has arrived, all of them are indexed and the tip carries the
      most work, of them and of what was there before. */
  lemma AllDelivered(chain: BlockChain, deliveries: seq<Delivery>, seed: set<Hash>, g: Block, k: nat, start: int)
    requires Delivered(chain, deliveries, |deliveries|, seed, g, k, start) && ParentClosed(Known(deliveries), seed)
    ensures chain.Ready() && chain.orphanPool.orphans == map[]
    ensures chain.index.index.Keys == seed + Known(deliveries)
    ensures var hashes := seed + Known(deliveries) - {ZERO_HASH}; hashes != {} ==> MostWork(chain.Sum().tip, hashes)
  {
    hide Fits, Heaviest, Settled, MostWork, BlockStore.Valid, Indexes, AllFrom, Anchored, LowOf, PoolHasRoom, Based;
    assert deliveries[..|deliveries|] == deliveries;
    var hashes := Known(deliveries);
    PoolOf(chain);
    forall h | h in hashes
      ensures h in chain.index.index
    {
      Indexed(chain.Sum(), seed, hashes, h);
    }
    PoolApart(chain);
    assert chain.orphanPool.orphans.Keys == {};
    if seed + hashes - {ZERO_HASH} != {} {
      TipIsHeaviest(chain.Snap(), g);
    }
  }

  /** A new node that receives the blocks above a genesis block in any order, with repetitions. */
  method Sync(deliveries: seq<Delivery>, viewLimit: nat, indexLimit: nat, maxOrphanBlocks: nat,
              isRecordBlockSequence: bool, execute: (Block, nat) -> bool, ghost g: Block, ghost start: int)
    returns (chain: BlockChain)
    requires 1 <= viewLimit && 1 <= maxOrphanBlocks && Room(deliveries, {ZERO_HASH}, indexLimit, maxOrphanBlocks)
    requires Admissible(deliveries, g, 0, viewLimit, start) && forall b, n :: execute(b, n)
    ensures fresh(chain) && Delivered(chain, deliveries, |deliveries|, {ZERO_HASH}, g, 0, start)
  {
    hide BlockChain.Ready, Delivered, Admissible;
    FewerKeys({ZERO_HASH}, {ZERO_HASH} + Known(deliveries));
    chain := new BlockChain(viewLimit, indexLimit, maxOrphanBlocks, isRecordBlockSequence, execute);
    NothingYet(chain, deliveries, g, start);
    Run(chain, deliveries, {ZERO_HASH}, g, 0, start);
  }

  /** Two nodes that receive the same parent-closed set of blocks, each in its own order and with its
      own repetitions, end with tips of the same, greatest, total work; if one block carries more work
      than all others, it is the tip of both. */
  method Converge(deliveries: seq<Delivery>, deliveries': seq<Delivery>, viewLimit: nat, indexLimit: nat,
                  maxOrphanBlocks: nat, execute: (Block, nat) -> bool, ghost g: Block, ghost start: int)
    returns (tip: Hash, tip': Hash)
    requires 1 <= viewLimit && Room(deliveries, {ZERO_HASH}, indexLimit, maxOrphanBlocks)
    requires Admissible(deliveries, g, 0, viewLimit, start) && Admissible(deliveries', g, 0, viewLimit, start)
    requires forall b, n :: execute(b, n)
    requires deliveries != [] && Known(deliveries) == Known(deliveries')
    requires ParentClosed(Known(deliveries), {ZERO_HASH})
    ensures MostWork(tip, Known(deliveries)) && MostWork(tip', Known(deliveries))
    ensures TotalWork(tip) == TotalWork(tip')
    ensures (forall h | h in Known(deliveries) && TotalWork(h) == TotalWork(tip) :: h == tip) ==> tip' == tip
  {
    hide Delivered, Admissible, BlockChain.Ready;
    assert Of(deliveries[0].block) in Known(deliveries');
    assert {ZERO_HASH} + Known(deliveries) - {ZERO_HASH} == Known(deliveries);
    var chain := Sync(deliveries, viewLimit, indexLimit, maxOrphanBlocks, true, execute, g, start);
    AllDelivered(chain, deliveries, {ZERO_HASH}, g, 0, start);
    tip := chain.TipHash();
    var chain' := Sync(deliveries', viewLimit, indexLimit, maxOrphanBlocks, true, execute, g, start);
    AllDelivered(chain', deliveries', {ZERO_HASH}, g, 0, start);
    tip' := chain'.TipHash();
  }
}
