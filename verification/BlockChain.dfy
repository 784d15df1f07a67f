/** blockchain/process.go: accepting blocks, connecting and disconnecting them, and reorganising
    the best chain. */
module BlockChains {
  import opened Options
  import opened Blocks
  import opened BlockIndexes
  import opened ChainViews
  import opened BlockStores
  import opened OrphanPools
  import opened ChainStates
  import opened Reorganizations
  import opened HeaviestChain

  /** `Panic` stands for a nil dereference or an index out of range: the process ends there. */
  datatype Error =
    | BlockExist
    | ParentBlockNoExist
    | BlockHeightNoMatch
    | HashNotExist
    | ParentTdNoExist
    | BlockHashNoMatch
    | ExecFailed
    | Panic

  class BlockChain {
    const index: BlockIndex
    const bestChain: ChainView
    const blockStore: BlockStore
    const orphanPool: OrphanPool
    /** The outcome of executing a block, call by call: it may change between calls. */
    const execute: (Block, nat) -> bool
    var execCalls: nat

    /** An execution has failed. */
    ghost var faulted: bool

    ghost function Snap(): Snapshot
      reads index, bestChain, blockStore, orphanPool
    {
      Snapshot(index.parents, index.index, index.queue, bestChain.queue, blockStore.db, orphanPool.orphans)
    }

    /** Each structure is consistent, they fit together, and the database, the cached height and the
        cached last block describe the branch of the tip. */
    ghost predicate Sound()
      reads index, bestChain, blockStore, orphanPool
    {
      && index.Valid() && bestChain.Valid() && orphanPool.Valid()
      && bestChain.queue != [] && Fits(Snap())
      && blockStore.Valid(MainChain(bestChain.queue))
    }

    /** A sound chain whose tip is the heaviest one, unless an execution has failed. */
    ghost predicate Ready()
      reads this`faulted, index, bestChain, blockStore, orphanPool
    {
      Sound() && (!faulted ==> Heaviest(index.parents, bestChain.queue[0], {}))
    }

    /** The block of the hash executes as number `k`. */
    predicate Executes(h: Hash, k: nat) {
      h.Of? && execute(h.block, k)
    }

    /** The blocks of the nodes execute one after the other, the first as number `k`. */
    ghost predicate AllExecute(nodes: seq<BlockNode>, k: nat) {
      forall i | 0 <= i < |nodes| :: Executes(nodes[i].hash, k + i)
    }

    ghost function Sum(): Summary
      reads this`faulted, index, bestChain, orphanPool
    {
      Summary(if bestChain.queue == [] then ZERO_HASH else bestChain.queue[0].hash, faulted, orphanPool.orphans,
              index.index.Keys)
    }

    /** Executions succeed, the index has evicted nothing, the view reaches down to height `k`, and all
        blocks descend from the block `g` there. */
    ghost predicate Healthy(g: Block, k: nat)
      reads this`faulted, index, bestChain
    {
      && !faulted && (forall b, n :: execute(b, n))
      && Uncut() && bestChain.Low() <= k && AllFrom(index.parents, g) && Based(index.index.Keys, g, k)
      && bestChain.queue != [] && TipAbove(bestChain.queue[0].hash, g, k)
    }

    /** There is room for the block, and it descends from `g`. */
    ghost predicate Fitting(block: Block, g: Block, k: nat)
      reads index
    {
      FromBase(Of(block), g, k) && |index.queue| < index.limit && block.height < k + bestChain.limit
    }

    /** The block belongs to another tree than the tip. */
    ghost predicate Foreign(block: Block)
      reads bestChain
    {
      && bestChain.queue != [] && bestChain.queue[0].hash.Of? && block.parentHash.Of?
      && !SameGenesis(Of(block), bestChain.queue[0].hash)
    }

    /** The block starts another tree although there is a chain already. */
    ghost predicate SecondGenesis(block: Block)
      reads index, bestChain
    {
      && bestChain.queue != [] && bestChain.queue[0].hash.Of?
      && block.height == 0 && block.parentHash == ZERO_HASH && ZERO_HASH in index.index
    }

    /** The branch of the block leaves the main chain below the view. */
    ghost predicate Astray(block: Block)
      reads bestChain
    {
      && bestChain.queue != [] && bestChain.queue[0].hash.Of? && block.parentHash.Of?
      && !SharesAt(Of(block), bestChain.queue[0].hash, bestChain.Low())
    }

    /** The index has evicted nothing, so parent chains reach down to the bottom of the view. */
    ghost predicate Uncut()
      reads index, bestChain
    {
      Anchored(index.parents, index.queue, bestChain.Low())
    }

    /** The index will evict nothing when the pooled blocks are accepted, and the view will not rise
        above height `k`. */
    ghost predicate Roomy(k: nat)
      reads index, bestChain, orphanPool
    {
      && Uncut() && bestChain.Low() <= k
      && Spacious(|index.queue|, orphanPool.orphans, index.limit, bestChain.limit, k)
    }

    /** There is room for the block in the index, and connecting it lifts the view no higher than `k`,
        above which its branch leaves the main chain. */
    ghost predicate RoomAbove(block: Block, k: nat)
      reads index, bestChain
    {
      && Uncut() && |index.queue| < index.limit && bestChain.Low() <= k && block.height < k + bestChain.limit
      && Safe(block, k)
    }

    /** The same for one more block. */
    ghost predicate RoomFor(block: Block, k: nat)
      reads index, orphanPool
    {
      |index.queue| + |orphanPool.orphans| < index.limit && block.height < k + bestChain.limit
    }

    /** If the parent of the block is indexed, its branch leaves the main chain above height `k`; before
        there is a chain, any branch does. */
    ghost predicate Safe(block: Block, k: nat)
      reads index, bestChain
    {
      bestChain.queue != [] && block.parentHash in index.index ==>
        || SharesAt(Of(block), bestChain.queue[0].hash, k)
        || (k == 0 && !(bestChain.queue[0].hash.Of? && block.parentHash.Of?))
    }

    /** The database describes some well-formed branch, whatever became of the memory structures. */
    ghost predicate DatabaseOk()
      reads blockStore
    {
      exists h: Hash :: Recorded(blockStore.db, h, blockStore.isRecordBlockSequence)
    }

    /** A node with an empty database: view and index hold the pre-genesis node. */
    constructor (viewLimit: nat, indexLimit: nat, maxOrphanBlocks: nat, isRecordBlockSequence: bool,
                 execute: (Block, nat) -> bool)
      requires 1 <= viewLimit && 1 <= indexLimit && 1 <= maxOrphanBlocks
      ensures Ready() && !faulted && orphanPool.orphans == map[]
      ensures fresh(index) && fresh(bestChain) && fresh(blockStore) && fresh(orphanPool)
      ensures bestChain.limit == viewLimit && index.limit == indexLimit
      ensures orphanPool.maxOrphanBlocks == maxOrphanBlocks
      ensures blockStore.isRecordBlockSequence == isRecordBlockSequence && this.execute == execute
      ensures |bestChain.queue| == 1 && bestChain.queue[0].hash == ZERO_HASH && bestChain.queue[0].height == -1
      ensures index.queue == bestChain.queue && index.parents == map[bestChain.queue[0] := null]
      ensures index.index == map[ZERO_HASH := bestChain.queue[0]]
    {
      hide BlockStore.Valid, OrphanPool.Valid, ChainView.Valid, BlockIndex.Valid, Fits;
      var node := new BlockNode.PreGenesis();
      index := new BlockIndex(indexLimit);
      bestChain := new ChainView(node, viewLimit);
      blockStore := new BlockStore(isRecordBlockSequence);
      orphanPool := new OrphanPool(maxOrphanBlocks);
      this.execute := execute;
      execCalls := 0;
      faulted := false;
      new;
      ghost var dropped := index.AddNode(node, null);
      assert index.queue == [node] && index.index == map[ZERO_HASH := node];
      FitsInitially(Snap(), node);
    }

    /** Part-way through a restart: the known nodes are nodes of the branch of `h` up to height `k`, where
        the tip is. */
    ghost predicate Loading(h: Hash, k: int)
      reads index, bestChain, blockStore, orphanPool
    {
      && index.Valid() && bestChain.Valid() && orphanPool.Valid() && orphanPool.orphans == map[]
      && bestChain.queue != [] && Fits(Snap()) && blockStore.Valid(Branch(h))
      && LoadedTo(Snap(), h, k)
    }

    /** The heights from `start` to below `next` are loaded: index and view hold the last nodes that they
        have room for, and as long as the index has room for all of them their pointers are there. */
    ghost predicate Kept(start: nat, next: int)
      reads index, bestChain
    {
      && LoadedFrom(index.parents, start)
      && start <= bestChain.Low() <= Max(start, next - bestChain.limit)
      && InOrder(index.queue, Max(start, next - index.limit), next)
      && (next - start <= index.limit ==> Anchored(index.parents, index.queue, start))
    }

    /** The index holds the last blocks of the branch, as many as it has room for and at most initBlockNum + 1,
        and so does the view. */
    ghost predicate Restarted(h: Hash, initBlockNum: nat)
      reads this`faulted, index, bestChain, orphanPool
    {
      var n := |Branch(h)|;
      var start := Max(0, n - 1 - initBlockNum);
      && index.index.Keys == (set j: nat | Max(n - 1 - initBlockNum, n - index.limit) <= j < n :: Of(Branch(h)[j]))
      && |bestChain.queue| == n - Max(start, n - bestChain.limit)
      && Kept(start, n) && Together(Sum(), start)
    }

    /** InitIndexAndBestView: a node that restarts on a database which describes the branch of `h` knows
        the last blocks of that branch and nothing else. */
    constructor Restart(viewLimit: nat, indexLimit: nat, maxOrphanBlocks: nat, initBlockNum: nat, store: BlockStore,
                        execute: (Block, nat) -> bool, ghost h: Hash)
      requires 1 <= viewLimit && 1 <= indexLimit && 1 <= maxOrphanBlocks
      requires WellFormed(h) && store.Valid(Branch(h))
      ensures Ready() && !faulted && orphanPool.orphans == map[] && blockStore == store && this.execute == execute
      ensures fresh(index) && fresh(bestChain) && fresh(orphanPool)
      ensures bestChain.queue != [] && bestChain.queue[0].hash == h
      ensures index.limit == indexLimit && bestChain.limit == viewLimit
      ensures orphanPool.maxOrphanBlocks == maxOrphanBlocks
      ensures h.Of? ==> Restarted(h, initBlockNum)
    {
      hide BlockStore.DbValid, OrphanPool.Valid, ChainView.Valid, BlockIndex.Valid, Fits, Heaviest, WellFormed,
           Branch, BlockChain.Restarted;
      var curheight := store.height;
      var start := if curheight >= initBlockNum then curheight - initBlockNum else 0;
      var node;
      if curheight == -1 {
        node := new BlockNode.PreGenesis();
      } else {
        store.HeaderAt(Branch(h), start);
        node := new BlockNode(store.db.heights.headers[start]);
      }
      index := new BlockIndex(indexLimit);
      bestChain := new ChainView(node, viewLimit);
      blockStore := store;
      orphanPool := new OrphanPool(maxOrphanBlocks);
      this.execute := execute;
      execCalls := 0;
      faulted := false;
      new;
      InitIndex(node, start, h, initBlockNum);
    }

    /** The rest of InitIndexAndBestView, once the view holds its first node. */
    method InitIndex(node: BlockNode, start: nat, ghost h: Hash, ghost initBlockNum: nat)
      requires WellFormed(h) && blockStore.Valid(Branch(h)) && bestChain.Valid() && bestChain.queue == [node]
      requires index.Valid() && index.queue == [] && index.index == map[] && index.parents == map[]
      requires orphanPool.Valid() && orphanPool.orphans == map[]
      requires if blockStore.height == -1 then node.hash == ZERO_HASH && node.height == -1
               else start == Max(0, blockStore.height - initBlockNum) && start < |Branch(h)|
                    && node.hash == Of(Branch(h)[start]) && node.height == start
                    && node.work == Branch(h)[start].work
      modifies index, bestChain
      ensures Sound() && Heaviest(index.parents, bestChain.queue[0], {})
      ensures bestChain.queue != [] && bestChain.queue[0].hash == h && orphanPool.orphans == map[]
      ensures h.Of? ==> Restarted(h, initBlockNum)
    {
      hide BlockStore.DbValid, OrphanPool.Valid, ChainView.Valid, Indexes, Fits, Heaviest, LoadedTo, WellFormed,
           Branch, BlockChain.Loading, BlockChain.Sound, BlockChain.Kept, BlockChain.Restarted;
      ghost var dropped := index.AddNode(node, null);
      assert index.queue == [node] && index.index == map[node.hash := node];
      if blockStore.height == -1 {
        NothingStored(node, h);
      } else {
        BranchLink(h, start);
        FirstLoaded(node, h, start);
        FirstKept(node, start);
        LoadNodes(start, h);
        LoadingHeight(h, |Branch(h)| - 1);
        AllLoaded(h, start);
        AllInOrder(h, start, initBlockNum);
      }
    }

    /** The loop over the remaining heights. */
    method LoadNodes(start: nat, ghost h: Hash)
      requires WellFormed(h) && start < |Branch(h)| && Loading(h, start) && Kept(start, start + 1)
      modifies index, bestChain
      ensures Loading(h, |Branch(h)| - 1) && Kept(start, |Branch(h)|)
    {
      hide BlockChain.Loading, WellFormed, Branch, BlockChain.Kept;
      LoadingHeight(h, start);
      var height := start + 1;
      while height <= blockStore.height
        invariant start < height <= |Branch(h)| == blockStore.height + 1
        invariant Loading(h, height - 1) && Kept(start, height)
        decreases blockStore.height - height
      {
        LoadNode(height, h, start);
        height := height + 1;
      }
    }

    /** Creates the node of the block at a height and makes it the tip. */
    method LoadNode(height: nat, ghost h: Hash, ghost start: nat)
      requires WellFormed(h) && start < height < |Branch(h)| && Loading(h, height - 1) && Kept(start, height)
      modifies index, bestChain
      ensures Loading(h, height) && Kept(start, height + 1)
    {
      hide OrphanPool.Valid, BlockStore.DbValid, BlockIndex.Valid, ChainView.Valid, Fits, LoadedTo, WellFormed,
           Branch, Indexes, Window, Anchored, LowOf, InOrder;
      ghost var s := Snap();
      var prevNode := bestChain.Tip();
      var node, header := LoadHeader(height, prevNode, h);
      ghost var s' := Snap();
      bestChain.SetTip(node, index.parents[node]);
      FitsTip(s', Snap(), node, header);
      LoadedStep(s, Snap(), h, height, node);
      InOrderStep(s.queue, index.queue, start, height, index.limit, node);
      if height + 1 - start <= index.limit {
        AnchoredAdd(s.parents, s.queue, start, node, prevNode);
      }
    }

    /** The part of the loop that reads the header and indexes its node. */
    method LoadHeader(height: nat, prevNode: BlockNode, ghost h: Hash) returns (node: BlockNode, header: Block)
      requires WellFormed(h) && 0 < height < |Branch(h)| && Loading(h, height - 1) && prevNode == bestChain.queue[0]
      modifies index
      ensures index.Valid() && Indexes(index.index, index.queue) && Fits(Snap())
      ensures header == Branch(h)[height] && node.hash == Of(header) && node.height == height == prevNode.height + 1
      ensures node in index.queue && index.parents.Keys == old(index.parents.Keys) + {node}
      ensures index.parents[node] == prevNode && Follows(node, prevNode, index.parents)
      ensures Of(header) in blockStore.db.heights.hashToHeight && header.height == height
      ensures blockStore.db.heights.hashToHeight[Of(header)] == height
      ensures 1 <= index.limit
      ensures var q := old(index.queue); index.queue == (if |q| < index.limit then q else q[1..]) + [node]
      ensures old(|index.queue|) < index.limit ==> index.parents == old(index.parents)[node := prevNode]
    {
      hide OrphanPool.Valid, BlockStore.DbValid, BlockIndex.Valid, ChainView.Valid, Fits, LoadedTo, WellFormed,
           Branch, Indexes;
      ghost var s := Snap();
      index.ValidIndexes();
      blockStore.HeaderAt(Branch(h), height);
      BranchLink(h, height);
      LoadedFresh(s, h, height, prevNode);
      if s.queue != [] {
        QueuedKnown(s, s.queue[0]);
      }
      header := blockStore.db.heights.headers[height];
      node := new BlockNode(header);
      ghost var dropped := index.AddNode(node, prevNode);
      index.ValidIndexes();
      FitsAdd(s, Snap(), node, header, dropped);
    }

    /** Executes the block and, on success, writes it to the database and makes its node the tip. */
    method ConnectBlock(node: BlockNode, block: Block) returns (err: Option<Error>)
      requires Sound()
      requires node in index.queue && node.hash == Of(block)
      requires block.parentHash == bestChain.queue[0].hash ==>
        node in index.parents && index.parents[node] == bestChain.queue[0]
      modifies this`execCalls, this`faulted, blockStore, bestChain
      ensures Sound()
      ensures err == Some(BlockHashNoMatch) <==> block.parentHash != old(bestChain.queue[0].hash)
      ensures err == None || err == Some(BlockHashNoMatch) || err == Some(ExecFailed)
      ensures err != None ==> bestChain.queue == old(bestChain.queue) && blockStore.db == old(blockStore.db)
      ensures err == None ==> bestChain.queue == Window([node] + old(bestChain.queue), bestChain.limit)
      ensures err == None ==> bestChain.queue[0] == node && faulted == old(faulted) && execute(block, old(execCalls))
      ensures err == None ==> execCalls == old(execCalls) + 1
      ensures err == Some(ExecFailed) ==> faulted && !execute(block, old(execCalls))
      ensures err == None && blockStore.isRecordBlockSequence ==> LastType(blockStore.db.log) == Some(AddBlock)
      ensures old(bestChain.Low()) <= bestChain.Low() <=
        Max(old(bestChain.Low()), node.height + 1 - bestChain.limit)
    {
      hide Fits, Branch, WellFormed, HeightOf, TopHash, Stored, ChainView.Valid, BlockStore.Valid, OrphanPool.Valid,
           Indexes, Window, LowOf;
      LiveFacts(Snap(), node, block);
      TipFacts(Snap());
      if block.parentHash != bestChain.Tip().hash {
        return Some(BlockHashNoMatch);
      }
      var executed := execute(block, execCalls);
      execCalls := execCalls + 1;
      if !executed {
        faulted := true;
        return Some(ExecFailed);
      }
      ghost var s := Snap();
      var written := blockStore.WriteConnected(block, MainChain(bestChain.queue));
      if !written {
        return Some(HashNotExist);
      }
      bestChain.SetTip(node, index.parents[node]);
      FitsConnect(s, Snap(), node, block);
      return None;
    }

    /** Takes the tip off the database and the view.  It ends in a nil dereference when the node has
        lost its parent pointer or was the last one in the view. */
    method DisconnectBlock(node: BlockNode, block: Block) returns (err: Option<Error>)
      requires Sound()
      requires node.hash == Of(block)
      requires node in index.parents && (node.hash == bestChain.queue[0].hash ==> node == bestChain.queue[0])
      modifies blockStore, bestChain
      ensures DatabaseOk()
      ensures err == Some(BlockHashNoMatch) <==> node.hash != old(bestChain.queue[0].hash)
      ensures err == Some(BlockHashNoMatch) ==> Sound()
      ensures err == None || err == Some(BlockHashNoMatch) || err == Some(Panic)
      ensures err == Some(Panic) <==>
        node == old(bestChain.queue[0]) && (index.parents[node] == null || |old(bestChain.queue)| == 1)
      ensures err == None ==> bestChain.queue == old(bestChain.queue)[1..]
      ensures err == None && bestChain.queue[0].hash.Of? ==> Sound()
      ensures err == None && blockStore.isRecordBlockSequence ==> LastType(blockStore.db.log) == Some(DelBlock)
      ensures err == None ==> bestChain.Low() == old(bestChain.Low())
    {
      hide Fits, Branch, WellFormed, HeightOf, TopHash, Stored, ChainView.Valid, BlockStore.DbValid,
           OrphanPool.Valid, Indexes, BlockChain.DatabaseOk, LowOf;
      TipFacts(Snap());
      if node.hash != bestChain.Tip().hash {
        TipChain();
        return Some(BlockHashNoMatch);
      }
      ghost var s := Snap();
      ghost var rest := Branch(block.parentHash);
      DisconnectFacts(s, block);
      blockStore.WriteDisconnected(block, rest);
      DatabaseHolds(block.parentHash);
      bestChain.DelTip(node);
      if index.parents[node] == null || bestChain.Tip() == null {
        return Some(Panic);
      }
      FitsDisconnect(s, Snap());
      assert bestChain.queue[0].hash.Of? ==> rest != [] by { NonEmptyBranch(bestChain.queue[0].hash); }
      return None;
    }

    /** The nodes to detach, tip first, and to attach, lowest first, to make `node` the tip. */
    method GetReorganizeNodes(node: BlockNode)
      returns (detach: seq<BlockNode>, attach: seq<BlockNode>, fork: BlockNode?)
      requires Sound() && node in index.parents
      ensures ReorgLists(Snap(), node, fork, detach, attach)
    {
      hide Fits, Linked, ParentChain, FirstShared, CutAt, ChainView.Valid, BlockStore.Valid, OrphanPool.Valid,
           BlockIndex.Valid;
      TipFacts(Snap());
      fork := bestChain.FindFork(node, index.parents);
      attach := CollectAttach(node, fork, index.parents);
      detach := CollectDetach(bestChain.Tip(), fork, index.parents);
    }

    /** Loads the blocks of some nodes; a node without a stored block is passed over. */
    method LoadBlocks(nodes: seq<BlockNode>) returns (blocks: seq<Block>)
      requires forall n | n in nodes && n.hash.Of? :: n.hash in blockStore.db.blocks
      requires forall h | h in blockStore.db.blocks :: h == Of(blockStore.db.blocks[h])
      ensures (forall i | 0 <= i < |nodes| - 1 :: nodes[i].hash.Of?) ==> Aligned(nodes, blocks)
    {
      blocks := [];
      for k := 0 to |nodes|
        invariant (forall i | 0 <= i < k - 1 :: nodes[i].hash.Of?) ==> Aligned(nodes[..k], blocks)
      {
        var block := blockStore.LoadBlockByHash(nodes[k].hash);
        if block.Some? {
          blocks := blocks + [block.value];
        }
      }
      assert nodes[..|nodes|] == nodes;
    }

    /** Disconnects the listed nodes.  This succeeds exactly when there is a fork inside the view and
        no view node above it has lost its parent pointer; then the fork is the tip. */
    method DetachAll(detach: seq<BlockNode>, detachBlocks: seq<Block>, ghost node: BlockNode,
                     ghost fork: BlockNode?, ghost attach: seq<BlockNode>) returns (err: Option<Error>)
      requires Sound() && node in index.parents && ReorgLists(Snap(), node, fork, detach, attach)
      requires Aligned(detach, detachBlocks)
      modifies blockStore, bestChain
      ensures DatabaseOk()
      ensures err == None || err == Some(Panic)
      ensures err == None <==> old(Intact(Snap(), fork))
      ensures err == None ==> Sound() && bestChain.queue[0] == fork
      ensures err == None && detach != [] && blockStore.isRecordBlockSequence ==>
        LastType(blockStore.db.log) == Some(DelBlock)
      ensures err == None ==> bestChain.Low() == old(bestChain.Low())
    {
      hide Fits, BlockIndex.Valid, ChainView.Valid, BlockStore.DbValid, OrphanPool.Valid, MainChain, ReorgLists,
           Intact, Descending, BlockChain.DatabaseOk, LowOf;
      ghost var s := Snap();
      bestChain.QueueDescends();
      TipChain();
      for i := 0 to |detach|
        invariant DatabaseOk()
        invariant i < |s.view| && i <= |detachBlocks| && bestChain.queue == s.view[i..]
        invariant Sound() || (i < |detach| && detach[i].hash.Raw?)
        invariant forall j | 0 <= j < i :: detach[j] in s.parents && s.parents[detach[j]] != null
        invariant i > 0 && blockStore.isRecordBlockSequence ==> LastType(blockStore.db.log) == Some(DelBlock)
        invariant bestChain.Low() == old(bestChain.Low())
      {
        DetachStep(s, node, fork, detach, attach, i);
        if i >= |detachBlocks| {
          return Some(Panic);
        }
        err := DisconnectBlock(detach[i], detachBlocks[i]);
        if err != None {
          return;
        }
      }
      DetachDone(s, node, fork, detach, attach);
      err := None;
    }

    /** Connects a path of nodes that starts at the tip. */
    method AttachAll(attach: seq<BlockNode>, attachBlocks: seq<Block>, ghost top: int) returns (err: Option<Error>)
      requires Sound() && IsPath(Snap(), bestChain.queue[0], attach) && forall n | n in attach :: n.height <= top
      requires |attachBlocks| == |attach| && forall i | 0 <= i < |attach| :: attach[i].hash == Of(attachBlocks[i])
      modifies this`execCalls, this`faulted, blockStore, bestChain
      ensures Sound()
      ensures err == None ==> bestChain.queue[0] == attach[|attach| - 1] && faulted == old(faulted)
      ensures err != None ==> err == Some(ExecFailed) && faulted
      ensures err == None <==> AllExecute(attach, old(execCalls))
      ensures err != None ==>
        || (attach != [] && bestChain.queue[0] == old(bestChain.queue[0]) && blockStore.db == old(blockStore.db)
            && !Executes(attach[0].hash, old(execCalls)))
        || (bestChain.queue[0] in attach[..|attach| - 1] && Executes(attach[0].hash, old(execCalls))
            && (blockStore.isRecordBlockSequence ==> LastType(blockStore.db.log) == Some(AddBlock)))
      ensures (forall b, k :: execute(b, k)) ==> err == None
      ensures old(bestChain.Low()) <= bestChain.Low() <= Max(old(bestChain.Low()), top + 1 - bestChain.limit)
    {
      hide Fits, BlockIndex.Valid, ChainView.Valid, BlockStore.Valid, OrphanPool.Valid, Window, MainChain,
           LowOf;
      ghost var s := Snap();
      ghost var fork := bestChain.queue[0];
      for i := 0 to |attach|
        invariant Sound()
        invariant bestChain.queue[0] == if i == 0 then fork else attach[i - 1]
        invariant faulted == old(faulted) && (i == 0 ==> blockStore.db == old(blockStore.db))
        invariant execCalls == old(execCalls) + i
        invariant forall j | 0 <= j < i :: Executes(attach[j].hash, old(execCalls) + j)
        invariant i > 0 && blockStore.isRecordBlockSequence ==> LastType(blockStore.db.log) == Some(AddBlock)
        invariant old(bestChain.Low()) <= bestChain.Low() <= Max(old(bestChain.Low()), top + 1 - bestChain.limit)
      {
        assert attach[i] in attach;
        assert OnPath(s, fork, attach, i);
        PathStep(Snap(), attach[i], attachBlocks[i]);
        err := ConnectBlock(attach[i], attachBlocks[i]);
        if err != None {
          assert i > 0 ==> attach[i - 1] in attach[..|attach| - 1];
          return;
        }
      }
      err := None;
    }

    /** Moves the best chain from its tip to `node`.  It ends in a panic exactly when the view no
        longer reaches an intact fork, and otherwise fails only where an execution fails; the guards
        of connectBlock and disconnectBlock never trip.  After a failure the chain ends at the fork or
        part-way up the new branch, and the log ends with a delete exactly in the first case. */
    method ReorganizeChain(detach: seq<BlockNode>, attach: seq<BlockNode>, ghost node: BlockNode,
                           ghost fork: BlockNode?)
      returns (err: Option<Error>)
      requires Sound() && node in index.parents && !InView(node, bestChain.queue)
      requires ReorgLists(Snap(), node, fork, detach, attach)
      modifies this`execCalls, this`faulted, blockStore, bestChain
      ensures DatabaseOk()
      ensures err == None || err == Some(ExecFailed) || err == Some(Panic)
      ensures err == Some(Panic) <==> !old(Intact(Snap(), fork))
      ensures err != Some(Panic) ==> Sound()
      ensures err == None ==> bestChain.queue[0] == node && fork != null
      ensures if err == Some(ExecFailed) then faulted else faulted == old(faulted)
      ensures err == None <==> old(Intact(Snap(), fork)) && AllExecute(attach, old(execCalls))
      ensures err == Some(ExecFailed) ==>
        && attach != [] && (bestChain.queue[0] == fork || bestChain.queue[0] in attach[..|attach| - 1])
        && (bestChain.queue[0] == fork <==> !Executes(attach[0].hash, old(execCalls)))
      ensures err == Some(ExecFailed) && detach != [] && blockStore.isRecordBlockSequence ==>
        (LastType(blockStore.db.log) == Some(DelBlock) <==> bestChain.queue[0] == fork)
      ensures (forall b, k :: execute(b, k)) ==> err != Some(ExecFailed)
      ensures err != Some(Panic) ==>
        && fork != null && Branch(fork.hash) <= Branch(bestChain.queue[0].hash)
        && old(bestChain.Low()) <= bestChain.Low() <= Max(old(bestChain.Low()), node.height + 1 - bestChain.limit)
    {
      hide Fits, BlockIndex.Valid, ChainView.Valid, BlockStore.DbValid, OrphanPool.Valid, MainChain, ReorgLists,
           Aligned, Intact, IsPath, InView, BlockChain.DatabaseOk, BlockChain.Executes,
           BlockChain.AllExecute, LastType, LowOf, Branch;
      ghost var s := Snap();
      ListsLoadable(s, node, fork, detach, attach);
      StoreFaithful();
      Loadable(s, detach);
      Loadable(s, attach);
      var detachBlocks := LoadBlocks(detach);
      var attachBlocks := LoadBlocks(attach);
      err := DetachAll(detach, detachBlocks, node, fork, attach);
      if err != None {
        return;
      }
      assert fork != null;
      AttachIsPath(s, node, fork, detach, attach);
      PathFrame(s, Snap(), fork, attach);
      AttachAbove(s, node, fork, detach, attach);
      AlignedAll(attach, attachBlocks);
      AllButLast(attach);
      err := AttachAll(attach, attachBlocks, node.height);
      TipChain();
      ghost var tip := bestChain.queue[0];
      assert tip in attach[..|attach| - 1] ==> tip in attach && tip != fork;
    }

    /** Extends the tip, leaves the node on a side branch, or reorganises when its branch carries
        more work than the tip. */
    method ConnectBestChain(node: BlockNode, block: Block) returns (isMainChain: bool, err: Option<Error>)
      requires Sound() && node in index.queue && node.hash == Of(block)
      requires Of(block) !in blockStore.db.heights.hashToHeight
      requires block.parentHash.Of? ==> Stored(blockStore.db, block.parentHash)
      requires node in index.parents && index.parents[node] != null
      requires block.parentHash == bestChain.queue[0].hash ==> index.parents[node] == bestChain.queue[0]
      requires !faulted ==> Heaviest(index.parents, bestChain.queue[0], {node})
      modifies this`execCalls, this`faulted, blockStore, bestChain
      ensures DatabaseOk()
      ensures err != Some(Panic) ==> Sound()
      ensures old(faulted) ==> faulted
      ensures err != Some(Panic) && !faulted ==>
        && Heaviest(index.parents, bestChain.queue[0], {})
        && Advances(old(bestChain.queue[0].hash), bestChain.queue[0].hash)
      ensures isMainChain ==> err == None && bestChain.queue[0] == node
      ensures err == None ==>
        (isMainChain <==> block.parentHash == old(bestChain.queue[0].hash)
                          || TotalWork(Of(block)) > TotalWork(old(bestChain.queue[0].hash)))
      ensures (err == None && !isMainChain) || err == Some(ParentTdNoExist) ==> bestChain.queue == old(bestChain.queue)
      ensures err == None || err == Some(HashNotExist) || err == Some(ParentTdNoExist) || err == Some(ExecFailed)
              || err == Some(Panic)
      ensures err == Some(HashNotExist) <==>
        block.parentHash != old(bestChain.queue[0].hash) && old(bestChain.queue[0].hash).Raw?
      ensures err == Some(ParentTdNoExist) <==>
        && block.parentHash != old(bestChain.queue[0].hash) && old(bestChain.queue[0].hash).Of?
        && block.parentHash.Raw?
      ensures err == Some(Panic) <==> old(ForkLost(Snap(), node))
      ensures if err == Some(ExecFailed) then faulted else faulted == old(faulted)
      ensures err == None ==>
        && SameGenesis(Of(block), bestChain.queue[0].hash)
        && (old(bestChain.queue[0].hash).Of? ==> SameGenesis(old(bestChain.queue[0].hash), bestChain.queue[0].hash))
      ensures (forall b, k :: execute(b, k)) ==> err != Some(ExecFailed)
      ensures err != Some(Panic) ==>
        && KeepsShared(Of(block), old(bestChain.queue[0].hash), bestChain.queue[0].hash)
        && old(bestChain.Low()) <= bestChain.Low() <= Max(old(bestChain.Low()), node.height + 1 - bestChain.limit)
    {
      hide Fits, BlockIndex.Valid, ChainView.Valid, BlockStore.DbValid, OrphanPool.Valid, MainChain, ReorgLists,
           Intact, InView, Heaviest, Advances, SameGenesis, FirstShared, WellFormed, HeightOf, Stored, TotalWork,
           Descending, HighestCommon, Window, BlockChain.DatabaseOk, ForkLost, LowOf, KeepsShared,
           Branch;
      ghost var s := Snap();
      ghost var tip := bestChain.queue[0];
      TipChain();
      NotForkLost(s, node, block);
      KeepsSharedIf(node.hash, tip.hash);
      if block.parentHash == bestChain.Tip().hash {
        Extended(index.parents, tip, node, block);
        ChildInTree(block);
        err := ConnectBlock(node, block);
        TipChain();
        return err == None, err;
      }
      NodeFacts(node, block);
      AdvancesRefl(tip.hash);
      var tiptd := blockStore.GetTdByBlockHash(bestChain.Tip().hash);
      if tiptd.None? {
        if !faulted {
          PreGenesisTip(index.parents, tip, node, block);
        }
        return false, Some(HashNotExist);
      }
      var parenttd := blockStore.GetTdByBlockHash(block.parentHash);
      if parenttd.None? {
        return false, Some(ParentTdNoExist);
      }
      var blocktd := node.work + parenttd.value;
      if blocktd <= tiptd.value {
        SideBranch(index.parents, tip, node);
        var fork := bestChain.FindFork(node, index.parents);
        ForkFacts(node, fork);
        ForkLostIff(s, node, block, fork);
        if fork == null {
          return false, Some(Panic);
        }
        SharedGenesis(fork.hash, node.hash, tip.hash);
        return false, None;
      }
      var detachNodes, attachNodes, fork := GetReorganizeNodes(node);
      ListsFork(s, node, fork, detachNodes, attachNodes);
      ForkFacts(node, fork);
      ForkLostIff(s, node, block, fork);
      if fork != null {
        Switched(index.parents, tip, node, fork);
        SharedGenesis(fork.hash, node.hash, tip.hash);
      }
      err := ReorganizeChain(detachNodes, attachNodes, node, fork);
      if err != Some(Panic) {
        KeepsSharedPart(node.hash, tip.hash, bestChain.queue[0].hash, fork.hash);
      }
      return err == None, err;
    }

    /** Creates the node of an accepted block below its parent and adds it to the index. */
    method AddNewNode(block: Block, prevNode: BlockNode) returns (node: BlockNode)
      requires Sound() && WellFormed(Of(block)) && Stored(blockStore.db, Of(block))
      requires Of(block) !in index.index && Of(block) !in orphanPool.orphans
      requires Of(block) !in blockStore.db.heights.hashToHeight
      requires prevNode in index.queue && prevNode.hash == block.parentHash
      modifies index
      ensures Sound() && node !in old(index.parents) && index.parents.Keys == old(index.parents.Keys) + {node}
      ensures node in index.queue && node.hash == Of(block) && node.height == block.height
      ensures index.parents[node] == prevNode
      ensures index.index.Keys <= old(index.index.Keys) + {Of(block)}
      ensures old(|index.queue|) < index.limit ==>
        && index.queue == old(index.queue) + [node] && index.index == old(index.index)[Of(block) := node]
        && index.parents == old(index.parents)[node := prevNode]
    {
      hide Fits, BlockIndex.Valid, Indexes, ChainView.Valid, BlockStore.Valid, OrphanPool.Valid, WellFormed, Stored;
      NewHash(block);
      index.ValidIndexes();
      ghost var s := Snap();
      QueuedKnown(s, prevNode);
      QueuedKnown(s, s.queue[0]);
      node := new BlockNode(block);
      ghost var dropped := index.AddNode(node, prevNode);
      assert dropped <= s.parents.Keys && index.parents.Keys == s.parents.Keys + {node};
      index.ValidIndexes();
      FitsAdd(s, Snap(), node, block, dropped);
    }

    /** Files a block whose parent is indexed, indexes it and connects it to the best chain. */
    method MaybeAcceptBlock(block: Block, ghost g: Block, ghost k: nat)
      returns (isMainChain: bool, err: Option<Error>)
      requires Ready()
      requires Of(block) !in index.index && Of(block) !in orphanPool.orphans
      requires Of(block) !in blockStore.db.heights.hashToHeight
      modifies this, index, bestChain, blockStore
      ensures err != Some(BlockExist)
      ensures if err == Some(Panic) then DatabaseOk() else Ready() && Progress(old(Sum()), Sum())
      ensures err == Some(ParentBlockNoExist) <==> block.parentHash !in old(index.index)
      ensures err == Some(BlockHeightNoMatch) <==>
        block.parentHash in old(index.index) && block.height != old(index.index)[block.parentHash].height + 1
      ensures err == Some(ParentBlockNoExist) || err == Some(BlockHeightNoMatch) ==>
        Snap() == old(Snap())
      ensures err == None ==>
        bestChain.queue != [] && bestChain.queue[0].hash == if isMainChain then Of(block) else old(Sum()).tip
      ensures err == None ==>
        && (isMainChain <==> block.parentHash == old(Sum()).tip || TotalWork(Of(block)) > TotalWork(old(Sum()).tip))
        && SameGenesis(Of(block), Sum().tip)
        && (old(Sum()).tip.Of? ==> SameGenesis(old(Sum()).tip, Sum().tip))
      ensures old(SecondGenesis(block)) ==> err == Some(ParentTdNoExist) && OnlyIndexed(old(Sum()), Sum(), Of(block))
      ensures old(Astray(block)) && block.parentHash in old(index.index) ==>
        err == Some(Panic) || block.height != old(index.index)[block.parentHash].height + 1
      ensures err == Some(Panic) && old(Uncut()) && old(|index.queue|) < index.limit ==> old(Astray(block))
      ensures old(RoomAbove(block, k)) ==>
        && err != Some(Panic) && Uncut() && bestChain.Low() <= k && |index.queue| <= old(|index.queue|) + 1
        && (err == None ==> SharesAt(Of(block), Sum().tip, k))
        && (SharesAt(Of(block), old(Sum()).tip, k) ==>
              SharesAt(Of(block), Sum().tip, k) && SharesAt(old(Sum()).tip, Sum().tip, k))
        && (Together(old(Sum()), k) ==> Together(Sum(), k))
      ensures index.index.Keys <= old(index.index.Keys) + {Of(block)}
      ensures old(Healthy(g, k)) && old(Fitting(block, g, k)) && block.parentHash in old(index.index)
              && block.height == old(index.index)[block.parentHash].height + 1
              ==> err == None && Healthy(g, k) && |index.queue| == old(|index.queue|) + 1
                  && index.index.Keys == old(index.index.Keys) + {Of(block)}
    {
      hide Fits, Indexes, ChainView.Valid, BlockStore.Valid, OrphanPool.Valid, MainChain, Heaviest, Stored, Advances,
           BlockChain.Healthy, BlockChain.Fitting, Progress, SameGenesis, BlockChain.Astray, BlockChain.Uncut,
           ChainView.Low, KeepsShared, SharesAt, Together, BlockChain.Safe;
      ghost var a := Sum();
      if SharesAt(Of(block), a.tip, k) {
        SharesSelf(Of(block), a.tip, k);
      }
      AdvancesRefl(bestChain.queue[0].hash);
      ProgressIf(Sum(), Sum());
      isMainChain := false;
      var prevNode := index.LookupNode(block.parentHash);
      if prevNode == null {
        return false, Some(ParentBlockNoExist);
      }
      QueuedHeight(prevNode);
      if block.height != prevNode.height + 1 {
        return false, Some(BlockHeightNoMatch);
      }
      ghost var above := RoomAbove(block, k);
      if above {
        SafeNotAstray(block, k);
      }
      isMainChain, err := AcceptBelow(block, prevNode, g, k);
      if above {
        StillShared(a, Sum(), block, k);
      }
    }

    /** The part of maybeAcceptBlock that follows its two checks. */
    method AcceptBelow(block: Block, prevNode: BlockNode, ghost g: Block, ghost k: nat)
      returns (isMainChain: bool, err: Option<Error>)
      requires Ready()
      requires Of(block) !in index.index && Of(block) !in orphanPool.orphans
      requires Of(block) !in blockStore.db.heights.hashToHeight
      requires prevNode in index.queue && prevNode.hash == block.parentHash && block.height == prevNode.height + 1
      modifies this, index, bestChain, blockStore
      ensures err != Some(BlockExist)
      ensures if err == Some(Panic) then DatabaseOk() else Ready() && Progress(old(Sum()), Sum())
      ensures err != Some(ParentBlockNoExist) && err != Some(BlockHeightNoMatch)
      ensures err == None ==>
        bestChain.queue != [] && bestChain.queue[0].hash == if isMainChain then Of(block) else old(Sum()).tip
      ensures err == None ==>
        && (isMainChain <==> block.parentHash == old(Sum()).tip || TotalWork(Of(block)) > TotalWork(old(Sum()).tip))
        && SameGenesis(Of(block), Sum().tip)
        && (old(Sum()).tip.Of? ==> SameGenesis(old(Sum()).tip, Sum().tip))
      ensures old(Astray(block)) ==> err == Some(Panic)
      ensures err == Some(ParentTdNoExist) <==> old(Sum()).tip.Of? && block.parentHash.Raw?
      ensures err == Some(ParentTdNoExist) ==> OnlyIndexed(old(Sum()), Sum(), Of(block))
      ensures old(Uncut()) && old(|index.queue|) < index.limit ==>
        && (err == Some(Panic) ==> old(Astray(block)))
        && (err != Some(Panic) ==> Uncut() && |index.queue| == old(|index.queue|) + 1)
      ensures err != Some(Panic) ==>
        && KeepsShared(Of(block), old(Sum()).tip, Sum().tip)
        && bestChain.Low() <= Max(old(bestChain.Low()), block.height + 1 - bestChain.limit)
      ensures index.index.Keys <= old(index.index.Keys) + {Of(block)}
      ensures old(Healthy(g, k)) && old(Fitting(block, g, k)) ==>
        err == None && Healthy(g, k) && |index.queue| == old(|index.queue|) + 1
        && index.index.Keys == old(index.index.Keys) + {Of(block)}
    {
      hide BlockChain.Sound, Heaviest, Stored, SameGenesis, Progress, WellFormed, BlockChain.DatabaseOk,
           BlockChain.Astray, BlockChain.Uncut, BlockChain.Healthy, BlockChain.Fitting, ChainView.Low, KeepsShared,
           BlockChain.Ready;
      ghost var a := Sum();
      var stored, newNode;
      ghost var healthy;
      stored, newNode, healthy := StoreAndIndex(block, prevNode, g, k);
      if !stored {
        return false, Some(HashNotExist);
      }
      ghost var b := Sum();
      isMainChain, err := ConnectNew(newNode, block, g, k);
      if err != Some(Panic) {
        ProgressFrom(a, b, Sum());
      }
    }

    /** Connects a node that was just indexed. */
    method ConnectNew(node: BlockNode, block: Block, ghost g: Block, ghost k: nat)
      returns (isMainChain: bool, err: Option<Error>)
      requires Sound() && node in index.queue && node.hash == Of(block)
      requires Of(block) !in blockStore.db.heights.hashToHeight
      requires block.parentHash.Of? ==> Stored(blockStore.db, block.parentHash)
      requires node in index.parents && index.parents[node] != null
      requires block.parentHash == bestChain.queue[0].hash ==> index.parents[node] == bestChain.queue[0]
      requires !faulted ==> Heaviest(index.parents, bestChain.queue[0], {node})
      modifies this`execCalls, this`faulted, blockStore, bestChain
      ensures if err == Some(Panic) then DatabaseOk() else Ready() && Progress(old(Sum()), Sum())
      ensures err != Some(BlockExist) && err != Some(ParentBlockNoExist) && err != Some(BlockHeightNoMatch)
      ensures err == None ==>
        && bestChain.queue != []
        && bestChain.queue[0].hash == (if isMainChain then Of(block) else old(Sum()).tip)
        && (isMainChain <==> block.parentHash == old(Sum()).tip || TotalWork(Of(block)) > TotalWork(old(Sum()).tip))
        && SameGenesis(Of(block), Sum().tip)
        && (old(Sum()).tip.Of? ==> SameGenesis(old(Sum()).tip, Sum().tip))
      ensures err == Some(ParentTdNoExist) <==> old(Sum()).tip.Of? && block.parentHash.Raw?
      ensures err == Some(ParentTdNoExist) ==> Sum() == old(Sum())
      ensures old(Astray(block)) ==> err == Some(Panic)
      ensures old(Uncut()) ==> (err == Some(Panic) ==> old(Astray(block))) && (err != Some(Panic) ==> Uncut())
      ensures err != Some(Panic) ==>
        && KeepsShared(Of(block), old(Sum()).tip, Sum().tip)
        && bestChain.Low() <= Max(old(bestChain.Low()), node.height + 1 - bestChain.limit)
      ensures old(Healthy(g, k)) && node.height < k + bestChain.limit && FromBase(node.hash, g, k)
              && old(block.parentHash == bestChain.queue[0].hash || SharesAt(node.hash, bestChain.queue[0].hash, k))
              ==> err == None && Healthy(g, k)
    {
      hide BlockChain.Sound, Heaviest, Advances, Stored, AllFrom, FromBase, SameGenesis, Progress,
           BlockChain.DatabaseOk, BlockChain.Astray, ForkLost, Anchored, LowOf, KeepsShared;
      TipChain();
      LostIff(node, block);
      HealthyTree(node, block, g, k);
      ghost var low := bestChain.Low();
      isMainChain, err := ConnectBestChain(node, block);
      if err != Some(Panic) {
        TipChain();
        ProgressIf(old(Sum()), Sum());
        if old(Uncut()) {
          AnchoredUp(index.parents, index.queue, low, bestChain.Low());
        }
      }
    }

    /** The part of maybeAcceptBlock that files the block and creates its node. */
    method StoreNode(block: Block, prevNode: BlockNode) returns (ok: bool, node: BlockNode)
      requires Ready()
      requires Of(block) !in index.index && Of(block) !in orphanPool.orphans
      requires Of(block) !in blockStore.db.heights.hashToHeight
      requires prevNode in index.queue && prevNode.hash == block.parentHash && block.height == prevNode.height + 1
      modifies index, blockStore`db
      ensures ok && Sound() && index.parents.Keys == old(index.parents.Keys) + {node}
      ensures node in index.queue && node.hash == Of(block) && node.height == block.height
      ensures index.parents[node] == prevNode && prevNode in old(index.parents)
      ensures block.parentHash == bestChain.queue[0].hash ==> prevNode == bestChain.queue[0]
      ensures Of(block) !in blockStore.db.heights.hashToHeight
      ensures block.parentHash.Of? ==> Stored(blockStore.db, block.parentHash)
      ensures !faulted ==> Heaviest(index.parents, bestChain.queue[0], {node})
      ensures Of(block) in index.index && index.index.Keys <= old(index.index.Keys) + {Of(block)}
      ensures old(|index.queue|) < index.limit ==>
        && index.queue == old(index.queue) + [node] && index.index == old(index.index)[Of(block) := node]
        && index.parents == old(index.parents)[node := prevNode]
    {
      hide Fits, Indexes, ChainView.Valid, BlockStore.DbValid, OrphanPool.Valid, MainChain, Heaviest, WellFormed,
           TotalWork;
      node := prevNode;
      ParentFacts(prevNode, block);
      ghost var s := Snap();
      ok := blockStore.DbMaybeStoreBlock(block, MainChain(bestChain.queue));
      if !ok {
        return;
      }
      FitsStore(s, blockStore.db);
      node := AddNewNode(block, prevNode);
      HeaviestBut(s.parents, index.parents, bestChain.queue[0], node);
      Indexed(node);
    }

    /** StoreNode, and what it keeps of a chain from which nothing was evicted. */
    method StoreAndIndex(block: Block, prevNode: BlockNode, ghost g: Block, ghost k: nat)
      returns (ok: bool, node: BlockNode, ghost healthy: bool)
      requires Ready()
      requires Of(block) !in index.index && Of(block) !in orphanPool.orphans
      requires Of(block) !in blockStore.db.heights.hashToHeight
      requires prevNode in index.queue && prevNode.hash == block.parentHash && block.height == prevNode.height + 1
      modifies index, blockStore`db
      ensures ok && Sound() && node in index.parents && index.parents[node] == prevNode
      ensures block.parentHash == bestChain.queue[0].hash ==> prevNode == bestChain.queue[0]
      ensures node in index.queue && node.hash == Of(block) && node.height == block.height
      ensures Of(block) !in blockStore.db.heights.hashToHeight
      ensures block.parentHash.Of? ==> Stored(blockStore.db, block.parentHash)
      ensures !faulted ==> Heaviest(index.parents, bestChain.queue[0], {node})
      ensures Of(block) in index.index && index.index.Keys <= old(index.index.Keys) + {Of(block)}
      ensures old(Uncut()) && old(|index.queue|) < index.limit ==> Uncut() && |index.queue| == old(|index.queue|) + 1
      ensures healthy == (old(Healthy(g, k)) && old(Fitting(block, g, k)))
      ensures healthy ==>
        && |index.queue| == old(|index.queue|) + 1 && index.index.Keys == old(index.index.Keys) + {Of(block)}
        && node.height < k + bestChain.limit && FromBase(node.hash, g, k) && Healthy(g, k)
        && (block.parentHash == bestChain.queue[0].hash || SharesAt(node.hash, bestChain.queue[0].hash, k))
    {
      hide BlockChain.Sound, Heaviest, AllFrom, FromBase, SameGenesis, Anchored, Stored, ChainView.Low;
      healthy := Healthy(g, k) && Fitting(block, g, k);
      TipKnown();
      ghost var parents, queue := index.parents, index.queue;
      ok, node := StoreNode(block, prevNode);
      if old(Uncut()) {
        AnchoredAdd(parents, queue, bestChain.Low(), node, prevNode);
      }
      if healthy {
        OneTree(parents, bestChain.queue[0], g, k, block, prevNode);
        AllFromAdd(parents, index.parents, node, g, k);
      }
    }

    ghost predicate PoolFitting(g: Block, k: nat)
      reads orphanPool, index
    {
      PoolHasRoom(|index.queue|, orphanPool.orphans, index.limit, bestChain.limit, g, k)
    }

    /** Takes an orphan out of the pool; on a healthy chain there is room for it in the index. */
    method Unpool(orphan: OrphanBlock, ghost g: Block, ghost k: nat) returns (ghost healthy: bool)
      requires Ready() && InPool(orphanPool.orphans, orphan)
      modifies orphanPool
      ensures Ready() && orphanPool.orphans == old(orphanPool.orphans) - {Of(orphan.block)}
      ensures Of(orphan.block) !in index.index && Of(orphan.block) !in blockStore.db.heights.hashToHeight
      ensures healthy == (old(AllGood(g, k)) && orphan.block.parentHash in index.index)
      ensures healthy ==>
        && Healthy(g, k) && Fitting(orphan.block, g, k)
        && orphan.block.height == index.index[orphan.block.parentHash].height + 1
        && PoolHasRoom(|index.queue| + 1, orphanPool.orphans, index.limit, bestChain.limit, g, k)
      ensures old(Roomy(k)) && SharesAt(orphan.block.parentHash, Sum().tip, k) ==>
        && RoomAbove(orphan.block, k) && SharesAt(Of(orphan.block), Sum().tip, k)
        && Spacious(|index.queue| + 1, orphanPool.orphans, index.limit, bestChain.limit, k)
    {
      hide Fits, BlockIndex.Valid, ChainView.Valid, BlockStore.Valid, OrphanPool.Valid, MainChain, Heaviest,
           BlockChain.AllGood, PoolHasRoom, AllFrom, FromBase, Anchored, Spacious, SharesAt,
           ChainView.Low;
      ghost var s := Snap();
      if Roomy(k) && SharesAt(orphan.block.parentHash, Sum().tip, k) {
        SharesChild(orphan.block, Sum().tip, k);
        SpaciousTake(|index.queue|, orphanPool.orphans, index.limit, bestChain.limit, k, Of(orphan.block));
      }
      healthy := AllGood(g, k) && orphan.block.parentHash in index.index;
      OrphanFacts(orphan, g, k);
      orphanPool.TakeOrphan(orphan);
      FitsUnpool(s, orphanPool.orphans);
    }

    /** Takes an orphan out of the pool and tries to accept it. */
    method AcceptOrphan(orphan: OrphanBlock, ghost g: Block, ghost k: nat) returns (err: Option<Error>)
      requires Ready() && InPool(orphanPool.orphans, orphan)
      modifies this, index, bestChain, blockStore, orphanPool
      ensures err != Some(BlockExist)
      ensures if err == Some(Panic) then DatabaseOk() else Ready() && Progress(old(Sum()), Sum())
      ensures orphanPool.orphans == old(orphanPool.orphans) - {Of(orphan.block)}
      ensures index.index.Keys <= old(index.index.Keys) + {Of(orphan.block)}
      ensures old(AllGood(g, k)) && orphan.block.parentHash in old(index.index) ==>
        err == None && AllGood(g, k) && Conserved(old(Sum()), Sum())
      ensures old(Roomy(k)) && SharesAt(orphan.block.parentHash, old(Sum()).tip, k) ==>
        && err != Some(Panic) && Roomy(k)
        && SharesAt(Of(orphan.block), Sum().tip, k) && SharesAt(old(Sum()).tip, Sum().tip, k)
    {
      hide BlockChain.Ready, BlockChain.Healthy, BlockChain.Fitting, BlockChain.AllGood, PoolHasRoom, Progress,
           Conserved, BlockChain.Uncut, SharesAt, Spacious, ChainView.Low, BlockChain.Roomy, BlockChain.RoomAbove,
           SameGenesis, Together, BlockChain.Astray, BlockChain.SecondGenesis, OnlyIndexed;
      ghost var a, used := Sum(), |index.queue|;
      ghost var roomy := Roomy(k) && SharesAt(orphan.block.parentHash, a.tip, k);
      ghost var healthy := Unpool(orphan, g, k);
      ghost var rest := orphanPool.orphans;
      assert roomy ==> RoomAbove(orphan.block, k) && Spacious(used + 1, rest, index.limit, bestChain.limit, k);
      var isMainChain: bool;
      isMainChain, err := MaybeAcceptBlock(orphan.block, g, k);
      if roomy {
        RoomyLeft(used, k);
      }
      if err != Some(Panic) {
        ProgressTake(a, Sum(), Of(orphan.block));
      }
      if healthy {
        ConservedTake(a, Sum(), Of(orphan.block));
        GoodAfter(used, g, k);
      }
    }

    /** Executions succeed and there is room for everything in the pool. */
    ghost predicate AllGood(g: Block, k: nat)
      reads this`faulted, index, bestChain, orphanPool
    {
      Healthy(g, k) && PoolFitting(g, k)
    }

    /** Accepts one pooled child of `hash` and appends it to the work list. */
    method TakeChild(hash: Hash, orphan: OrphanBlock, work: seq<Hash>, ghost a: Summary, ghost first: seq<Hash>,
                     ghost g: Block, ghost k: nat)
      returns (work': seq<Hash>, err: Option<Error>)
      requires Ready() && InPool(orphanPool.orphans, orphan) && orphan.block.parentHash == hash
      requires ChildrenTaken(a, first, Sum(), work, hash)
      modifies this, index, bestChain, blockStore, orphanPool
      ensures err != Some(BlockExist)
      ensures if err == Some(Panic) then DatabaseOk() else Ready() && Progress(a, Sum())
      ensures |orphanPool.orphans| < old(|orphanPool.orphans|)
      ensures err == None ==> ChildrenTaken(a, first, Sum(), work', hash)
      ensures old(AllGood(g, k)) && hash in old(index.index) && WorkIndexed(a, old(Sum()), work) ==>
        err == None && AllGood(g, k) && hash in index.index && WorkIndexed(a, Sum(), work')
      ensures err != Some(Panic) ==> NoMore(old(Sum()), Sum())
      ensures old(Roomy(k)) && SharesAt(hash, old(Sum()).tip, k) && AllShare(work, old(Sum()).tip, k) ==>
        && err != Some(Panic) && Roomy(k) && SharesAt(hash, Sum().tip, k) && SharesAt(old(Sum()).tip, Sum().tip, k)
        && (err == None ==> AllShare(work', Sum().tip, k)) && (Together(old(Sum()), k) ==> Together(Sum(), k))
    {
      hide Fits, BlockChain.Ready, BlockChain.AllGood, Progress, Conserved, Settled, ChildrenTaken, WorkIndexed,
           BlockChain.Roomy, SharesAt, AllShare, Together;
      ghost var b := Sum();
      ghost var good := AllGood(g, k) && hash in index.index && WorkIndexed(a, b, work);
      ghost var roomy := Roomy(k) && SharesAt(hash, b.tip, k) && AllShare(work, b.tip, k);
      work' := work;
      SmallerMap(b.orphans, Of(orphan.block));
      AllTaken(a, first, b, work, hash);
      err := AcceptOrphan(orphan, g, k);
      if err == Some(Panic) {
        return;
      }
      if roomy {
        SharesTrans(hash, b.tip, Sum().tip, k);
        TogetherStep(b, Sum(), Of(orphan.block), k);
      }
      ProgressTrans(a, b, Sum());
      if err != None {
        return;
      }
      ChildTaken(a, first, b, work, Sum(), hash, Of(orphan.block));
      if good {
        WorkIndexedStep(a, b, Sum(), work, Of(orphan.block));
      }
      if roomy {
        AllShareStep(work, b.tip, Sum().tip, Of(orphan.block), k);
      }
      work' := work' + [Of(orphan.block)];
    }

    /** Accepts the pooled children of `hash` and appends each of them to the work list. */
    method ProcessChildren(hash: Hash, work: seq<Hash>, ghost g: Block, ghost k: nat)
      returns (work': seq<Hash>, err: Option<Error>)
      requires Ready()
      modifies this, index, bestChain, blockStore, orphanPool
      ensures err != Some(BlockExist)
      ensures if err == Some(Panic) then DatabaseOk() else Ready() && Progress(old(Sum()), Sum())
      ensures err == None ==> |orphanPool.orphans| + |work'| == old(|orphanPool.orphans|) + |work| && |work| <= |work'|
      ensures err == None && Settled(old(Sum()), Members(work) + {hash}) ==> Settled(Sum(), Members(work'))
      ensures old(AllGood(g, k)) && hash in old(index.index) && WorkIndexed(old(Sum()), old(Sum()), work) ==>
        err == None && AllGood(g, k) && WorkIndexed(old(Sum()), Sum(), work')
      ensures err != Some(Panic) ==> NoMore(old(Sum()), Sum())
      ensures old(Roomy(k)) && SharesAt(hash, old(Sum()).tip, k) && AllShare(work, old(Sum()).tip, k) ==>
        && err != Some(Panic) && Roomy(k) && SharesAt(old(Sum()).tip, Sum().tip, k)
        && (err == None ==> AllShare(work', Sum().tip, k)) && (Together(old(Sum()), k) ==> Together(Sum(), k))
    {
      hide Fits, BlockChain.Ready, OrphanPool.Valid, BlockChain.AllGood, Progress, Conserved, Settled, ChildrenTaken,
           WorkIndexed, BlockChain.Roomy, SharesAt, AllShare, Together;
      ghost var a := Sum();
      ghost var good := AllGood(g, k) && hash in index.index && WorkIndexed(a, a, work);
      ghost var roomy := Roomy(k) && SharesAt(hash, a.tip, k) && AllShare(work, a.tip, k);
      if roomy {
        SharesSelf(hash, a.tip, k);
      }
      NoneTaken(a, work, hash);
      work' := work;
      var count := orphanPool.GetChildOrphanCount(hash);
      var i: int := 0;
      while i < count
        invariant Ready() && ChildrenTaken(a, work, Sum(), work', hash)
        invariant good ==> AllGood(g, k) && hash in index.index && WorkIndexed(a, Sum(), work')
        invariant NoMore(a, Sum())
        invariant roomy ==>
          && Roomy(k) && SharesAt(hash, Sum().tip, k) && AllShare(work', Sum().tip, k)
          && SharesAt(a.tip, Sum().tip, k) && (Together(a, k) ==> Together(Sum(), k))
        invariant 0 <= i && (i > 0 || count == 0 ==> orphanPool.GetChildOrphanCount(hash) == 0)
        decreases |orphanPool.orphans|, count - i
      {
        var orphan := orphanPool.GetChildOrphan(hash, i);
        if orphan.None? {
          i := i + 1;
          continue;
        }
        ReadyPool();
        orphanPool.ChildInPool(hash, i);
        i := i - 1;
        ghost var b := Sum();
        work', err := TakeChild(hash, orphan.value, work', a, work, g, k);
        if roomy {
          SharesTrans(a.tip, b.tip, Sum().tip, k);
        }
        if err != None {
          return;
        }
        i := i + 1;
      }
      ReadyPool();
      orphanPool.NoChildren(hash);
      AllTaken(a, work, Sum(), work', hash);
      err := None;
    }

    /** Works through the orphans that were waiting, directly or indirectly, for `hash`. */
    method ProcessOrphans(hash: Hash, ghost g: Block, ghost k: nat) returns (err: Option<Error>)
      requires Ready()
      modifies this, index, bestChain, blockStore, orphanPool
      ensures err != Some(BlockExist)
      ensures if err == Some(Panic) then DatabaseOk() else Ready() && Progress(old(Sum()), Sum())
      ensures err == None && Settled(old(Sum()), {hash}) ==> Settled(Sum(), {})
      ensures old(AllGood(g, k)) && hash in old(index.index) ==>
        err == None && AllGood(g, k) && Conserved(old(Sum()), Sum())
      ensures err != Some(Panic) ==> NoMore(old(Sum()), Sum())
      ensures old(Roomy(k)) && SharesAt(hash, old(Sum()).tip, k) ==>
        && err != Some(Panic) && Roomy(k) && SharesAt(old(Sum()).tip, Sum().tip, k)
        && (Together(old(Sum()), k) ==> Together(Sum(), k))
    {
      hide BlockChain.Ready, BlockChain.AllGood, Progress, Settled, WorkIndexed, Members, BlockChain.Roomy,
           SharesAt, AllShare, Together;
      ghost var a := Sum();
      ghost var roomy := Roomy(k) && SharesAt(hash, a.tip, k);
      ghost var good := AllGood(g, k) && hash in index.index;
      ConservedRefl(a);
      var processHashes := [hash];
      FirstWork(a, hash);
      if roomy {
        OneShares(hash, a.tip, k);
        SharesSelf(hash, a.tip, k);
      }
      while |processHashes| > 0
        invariant Ready() && Progress(a, Sum())
        invariant Settled(a, {hash}) ==> Settled(Sum(), Members(processHashes))
        invariant good ==> AllGood(g, k) && WorkIndexed(a, Sum(), processHashes)
        invariant NoMore(a, Sum())
        invariant roomy ==>
          && Roomy(k) && AllShare(processHashes, Sum().tip, k) && SharesAt(a.tip, Sum().tip, k)
          && (Together(a, k) ==> Together(Sum(), k))
        decreases |orphanPool.orphans| + |processHashes|
      {
        ghost var b, work := Sum(), processHashes;
        WorkPop(a, b, work);
        if roomy {
          AllSharePop(work, b.tip, k);
        }
        var processHash := processHashes[0];
        processHashes := processHashes[1..];
        processHashes, err := ProcessChildren(processHash, processHashes, g, k);
        if roomy {
          SharesTrans(a.tip, b.tip, Sum().tip, k);
        }
        if err == Some(Panic) {
          return;
        }
        ProgressTrans(a, b, Sum());
        if err != None {
          return;
        }
        if good {
          WorkTrans(a, b, Sum(), work, processHashes);
        }
      }
      LastWork(a, Sum(), processHashes);
      err := None;
    }

    /** The block is indexed, or its header is stored and it is on the main chain. */
    predicate BlockExists(hash: Hash)
      reads index, blockStore
    {
      index.HaveBlock(hash) || (hash in blockStore.db.blocks && hash in blockStore.db.heights.hashToHeight)
    }

    predicate ParentExists(block: Block)
      reads index, blockStore
    {
      if block.height == 0 then block.parentHash == ZERO_HASH else BlockExists(block.parentHash)
    }

    /** A block exists exactly if it is indexed or on the main chain; and its parent exists exactly if that is
        so of the parent or, for a block at height 0, if the parent hash is the zero hash. */
    lemma ExistsIff(block: Block)
      requires Ready()
      ensures BlockExists(Of(block)) <==> Of(block) in index.index || block in Branch(Sum().tip)
      ensures block.height == 0 ==> (ParentExists(block) <==> block.parentHash == ZERO_HASH)
      ensures block.height != 0 ==>
        (ParentExists(block) <==>
         block.parentHash in index.index || (block.parentHash.Of? && block.parentHash.block in Branch(Sum().tip)))
    {
      hide OrphanPool.Valid, Heaviest, Logged, Faithful, Fits, Branch;
      ExistsAt(Of(block));
      ExistsAt(block.parentHash);
    }

    lemma ExistsAt(h: Hash)
      requires Ready()
      ensures BlockExists(h) <==> h in index.index || (h.Of? && h.block in Branch(Sum().tip))
    {
      hide OrphanPool.Valid, Heaviest, Logged, Faithful, Branch, TreeFits, ViewFits, StoreFits, PoolFits;
      var chain := Branch(Sum().tip);
      if h.Of? && h.block in chain {
        var i :| 0 <= i < |chain| && chain[i] == h.block;
        assert Stored(blockStore.db, Of(chain[i]));
      }
    }

    /** The block does no harm to a healthy chain: it is well formed, descends from `g`, there is room
        for it in index, view and pool, and no pooled orphan has expired. */
    ghost predicate Welcome(block: Block, now: int, g: Block, k: nat)
      reads index, orphanPool
    {
      && WellFormed(Of(block)) && FromBase(Of(block), g, k) && block.height < k + bestChain.limit
      && |index.queue| + |orphanPool.orphans| < index.limit && |orphanPool.orphans| < orphanPool.maxOrphanBlocks
      && forall h | h in orphanPool.orphans :: now <= orphanPool.orphans[h].expiration
    }

    method Pool(block: Block, now: int)
      requires Ready() && Of(block) !in orphanPool.orphans && Of(block) !in index.index
      requires Of(block) !in blockStore.db.heights.hashToHeight
      modifies orphanPool
      ensures Ready() && Parked(old(orphanPool.orphans), orphanPool.orphans, block, now)
      ensures old(|orphanPool.orphans|) < orphanPool.maxOrphanBlocks ==>
        orphanPool.orphans ==
        Unexpired(old(orphanPool.orphans), now)[Of(block) := OrphanBlock(block, now + ORPHAN_EXPIRATION_TIME)]
    {
      hide Fits, BlockIndex.Valid, ChainView.Valid, BlockStore.Valid, OrphanPool.Valid, MainChain, Heaviest,
           Unexpired, Parked;
      ghost var s := Snap();
      orphanPool.Park(block, now);
      FitsPool(s, orphanPool.orphans, Of(block));
    }

    /** Pooling a block leaves room for it. */
    method PoolWithRoom(block: Block, now: int, ghost k: nat)
      requires Ready() && Of(block) !in orphanPool.orphans && Of(block) !in index.index
      requires Of(block) !in blockStore.db.heights.hashToHeight
      modifies orphanPool
      ensures Ready() && Parked(old(orphanPool.orphans), orphanPool.orphans, block, now)
      ensures old(|orphanPool.orphans|) < orphanPool.maxOrphanBlocks ==>
        orphanPool.orphans ==
        Unexpired(old(orphanPool.orphans), now)[Of(block) := OrphanBlock(block, now + ORPHAN_EXPIRATION_TIME)]
      ensures old(Roomy(k)) && old(RoomFor(block, k)) ==> Roomy(k)
    {
      hide BlockChain.Ready, Unexpired, Parked, Anchored, Spacious, LowOf;
      ghost var before := orphanPool.orphans;
      ghost var roomy := Roomy(k) && RoomFor(block, k);
      Pool(block, now);
      if roomy {
        SpaciousPark(|index.queue|, before, orphanPool.orphans, index.limit, bestChain.limit, k, block, now);
      }
    }

    /** Puts a block with unknown parent into the pool. */
    method ParkOrphan(block: Block, now: int, ghost g: Block, ghost k: nat)
      requires Ready() && !BlockExists(Of(block)) && Of(block) !in orphanPool.orphans && !ParentExists(block)
      modifies orphanPool
      ensures Ready() && Parked(old(orphanPool.orphans), orphanPool.orphans, block, now)
      ensures WellFormed(Of(block)) && Settled(old(Sum()), {}) ==> Settled(Sum(), {})
      ensures old(AllGood(g, k)) && old(Welcome(block, now, g, k)) ==>
        AllGood(g, k) && orphanPool.orphans.Keys == old(orphanPool.orphans.Keys) + {Of(block)}
      ensures old(Roomy(k)) && old(RoomFor(block, k)) ==> Roomy(k)
    {
      hide BlockChain.Ready, OrphanPool.Valid, BlockChain.AllGood, BlockChain.Welcome, BlockChain.BlockExists,
           BlockChain.ParentExists, Settled, WellFormed, BlockChain.Roomy, BlockChain.RoomFor;
      NotOnChain(Of(block));
      ReadyPool();
      ghost var a := Sum();
      ghost var good := AllGood(g, k) && Welcome(block, now, g, k);
      if WellFormed(Of(block)) {
        UnknownParent(block);
      }
      if good {
        RoomToPark(block, now, g, k);
      }
      PoolWithRoom(block, now, k);
      if WellFormed(Of(block)) && Settled(a, {}) {
        SettledPark(a, Sum(), block);
      }
      if good {
        GoodParked(g, k);
      }
    }

    /** On a healthy chain a block above the base exists only as an indexed node. */
    lemma KnownIndexed(h: Hash, g: Block, k: nat)
      requires Sound() && Healthy(g, k) && BlockExists(h) && FromBase(h, g, k)
      ensures h in index.index
    {
      hide OrphanPool.Valid, Heaviest, AllFrom, Anchored, Stored;
      if h !in index.index {
        var s := Snap();
        var j := blockStore.db.heights.hashToHeight[h];
        TipFacts(s);
        BranchLink(s.view[0].hash, j);
        assert |Branch(h)| == j + 1;
        MainChainIndexed(s, j);
      }
    }

    lemma ParentIndexed(block: Block, g: Block, k: nat)
      requires Ready() && Healthy(g, k) && WellFormed(Of(block)) && FromBase(Of(block), g, k) && ParentExists(block)
      requires Of(block) !in index.index
      ensures block.parentHash in index.index && block.height == index.index[block.parentHash].height + 1
    {
      hide BlockChain.Sound, Heaviest, AllFrom, BlockChain.Uncut, ChainView.Low;
      ParentFromBase(block, g, k);
      if block.height > k {
        KnownIndexed(block.parentHash, g, k);
      }
      ParentHeight(block);
    }

    /** Accepts a block whose parent exists; the orphans that waited for it are left in the pool. */
    method AcceptNew(block: Block, now: int, ghost g: Block, ghost k: nat)
      returns (isMainChain: bool, err: Option<Error>)
      requires Ready() && !BlockExists(Of(block)) && Of(block) !in orphanPool.orphans && ParentExists(block)
      modifies this, index, bestChain, blockStore
      ensures err != Some(BlockExist)
      ensures if err == Some(Panic) then DatabaseOk() else Ready() && Progress(old(Sum()), Sum())
      ensures err == None ==>
        && Sum().tip == (if isMainChain then Of(block) else old(Sum()).tip)
        && (isMainChain <==> block.parentHash == old(Sum()).tip || TotalWork(Of(block)) > TotalWork(old(Sum()).tip))
      ensures index.index.Keys <= old(index.index.Keys) + {Of(block)}
      ensures old(SecondGenesis(block)) ==> err == Some(ParentTdNoExist) && OnlyIndexed(old(Sum()), Sum(), Of(block))
      ensures WellFormed(Of(block)) && old(Astray(block)) && block.parentHash in old(index.index) ==>
        err == Some(Panic)
      ensures block.parentHash !in old(index.index) ==> err == Some(ParentBlockNoExist)
      ensures block.parentHash in old(index.index) && block.height != old(index.index)[block.parentHash].height + 1 ==>
        err == Some(BlockHeightNoMatch)
      ensures err == Some(ParentBlockNoExist) || err == Some(BlockHeightNoMatch) ==> Snap() == old(Snap())
      ensures old(Roomy(k)) && old(RoomFor(block, k)) && old(Safe(block, k)) ==>
        && err != Some(Panic) && Roomy(k) && (err == None ==> SharesAt(Of(block), Sum().tip, k))
        && (SharesAt(Of(block), old(Sum()).tip, k) ==> SharesAt(old(Sum()).tip, Sum().tip, k))
        && (Together(old(Sum()), k) ==> Together(Sum(), k))
      ensures old(AllGood(g, k)) && old(Welcome(block, now, g, k)) ==>
        err == None && AllGood(g, k) && index.index.Keys == old(index.index.Keys) + {Of(block)}
    {
      hide BlockChain.Ready, BlockChain.Healthy, BlockChain.Fitting, BlockChain.AllGood, BlockChain.Welcome,
           PoolHasRoom, Progress, BlockChain.BlockExists, BlockChain.ParentExists, BlockChain.Uncut, Spacious,
           ChainView.Low, BlockChain.Astray, WellFormed, SharesAt, SameGenesis, Together, BlockChain.Safe,
           BlockChain.SecondGenesis, OnlyIndexed;
      NotOnChain(Of(block));
      ghost var used := |index.queue|;
      ghost var roomy := Roomy(k) && RoomFor(block, k) && Safe(block, k);
      ghost var good := AllGood(g, k) && Welcome(block, now, g, k);
      if good {
        GoodBefore(block, now, g, k);
      }
      if WellFormed(Of(block)) && block.parentHash in index.index {
        ParentHeight(block);
      }
      isMainChain, err := MaybeAcceptBlock(block, g, k);
      if roomy {
        RoomyAfter(used, k);
      }
      if good {
        GoodAfter(used, g, k);
      }
    }

    /** Accepts a block whose parent exists and then the orphans that waited for it. */
    method AcceptAndFollow(block: Block, now: int, ghost g: Block, ghost k: nat)
      returns (isMainChain: bool, err: Option<Error>)
      requires Ready() && !BlockExists(Of(block)) && Of(block) !in orphanPool.orphans && ParentExists(block)
      modifies this, index, bestChain, blockStore, orphanPool
      ensures err != Some(BlockExist)
      ensures if err == Some(Panic) then DatabaseOk() else Ready() && Progress(old(Sum()), Sum())
      ensures isMainChain ==> err == None
      ensures err == None ==>
        && (isMainChain <==> block.parentHash == old(Sum()).tip || TotalWork(Of(block)) > TotalWork(old(Sum()).tip))
        && (!faulted ==> Advances(if isMainChain then Of(block) else old(Sum()).tip, Sum().tip))
      ensures old(SecondGenesis(block)) ==> err == Some(ParentTdNoExist) && OnlyIndexed(old(Sum()), Sum(), Of(block))
      ensures WellFormed(Of(block)) && old(Astray(block)) && block.parentHash in old(index.index) ==>
        err == Some(Panic)
      ensures block.parentHash !in old(index.index) ==> err == Some(ParentBlockNoExist) && Snap() == old(Snap())
      ensures block.parentHash in old(index.index) && block.height != old(index.index)[block.parentHash].height + 1 ==>
        err == Some(BlockHeightNoMatch) && Snap() == old(Snap())
      ensures err != Some(Panic) ==>
        Sum().indexed + Sum().orphans.Keys <= old(Sum()).indexed + old(Sum()).orphans.Keys + {Of(block)}
      ensures old(Roomy(k)) && old(RoomFor(block, k)) && old(Safe(block, k)) ==>
        && err != Some(Panic) && Roomy(k) && (Together(old(Sum()), k) ==> Together(Sum(), k))
        && (SharesAt(Of(block), old(Sum()).tip, k) ==> SharesAt(old(Sum()).tip, Sum().tip, k))
      ensures err == None && Settled(old(Sum()), {}) ==> Settled(Sum(), {})
      ensures old(AllGood(g, k)) && old(Welcome(block, now, g, k)) ==>
        && err == None && AllGood(g, k) && old(index.index.Keys) <= index.index.Keys
        && index.index.Keys + orphanPool.orphans.Keys == old(index.index.Keys + orphanPool.orphans.Keys) + {Of(block)}
    {
      hide BlockChain.Ready, BlockChain.AllGood, BlockChain.Welcome, Settled, Progress, Conserved,
           BlockChain.BlockExists, BlockChain.ParentExists, BlockChain.Roomy, BlockChain.RoomFor, BlockChain.Safe,
           SharesAt, BlockChain.Astray, WellFormed, Together, TotalWork, Advances;
      ghost var a := Sum();
      ghost var good := AllGood(g, k) && Welcome(block, now, g, k);
      isMainChain, err := AcceptNew(block, now, g, k);
      if err != None {
        return false, err;
      }
      ghost var b := Sum();
      err := ProcessOrphans(Of(block), g, k);
      if SharesAt(a.tip, b.tip, k) && SharesAt(b.tip, Sum().tip, k) {
        SharesTrans(a.tip, b.tip, Sum().tip, k);
      }
      if err == Some(Panic) {
        return false, err;
      }
      ProgressTip(b, Sum());
      ProgressTrans(a, b, Sum());
      if Settled(a, {}) {
        SettledAfter(a, b, Of(block));
      }
      if good {
        ConservedAfter(a, b, Sum(), Of(block));
      }
      isMainChain := isMainChain && err == None;
    }

    /** Handles a block received from a peer: refuses a known block, parks one whose parent is unknown,
        and accepts any other together with the orphans that waited for it.  The answer `isMainChain` is about
        the block alone: it extends the tip or outweighs it. */
    method ProcessBlock(block: Block, now: int, ghost g: Block, ghost k: nat)
      returns (isMainChain: bool, isOrphan: bool, err: Option<Error>)
      requires Ready()
      modifies this, index, bestChain, blockStore, orphanPool
      ensures if err == Some(Panic) then DatabaseOk() else Ready()
      ensures err == Some(BlockExist) <==> old(BlockExists(Of(block)) || Of(block) in orphanPool.orphans)
      ensures err == Some(BlockExist) ==> Snap() == old(Snap()) && faulted == old(faulted)
      ensures isOrphan <==>
        old(!BlockExists(Of(block)) && Of(block) !in orphanPool.orphans && !ParentExists(block))
      ensures err != Some(BlockExist) && !isOrphan ==>
        && (block.parentHash !in old(index.index) ==> err == Some(ParentBlockNoExist) && Snap() == old(Snap()))
        && (block.parentHash in old(index.index) && block.height != old(index.index)[block.parentHash].height + 1 ==>
              err == Some(BlockHeightNoMatch) && Snap() == old(Snap()))
      ensures isMainChain ==> !isOrphan && err == None
      ensures err == None && !isOrphan ==>
        && (isMainChain <==> block.parentHash == old(bestChain.queue[0].hash)
                             || TotalWork(Of(block)) > TotalWork(old(bestChain.queue[0].hash)))
        && (!faulted ==>
              Advances(if isMainChain then Of(block) else old(bestChain.queue[0].hash), bestChain.queue[0].hash))
      ensures old(SecondGenesis(block) && !BlockExists(Of(block)) && Of(block) !in orphanPool.orphans) ==>
        err == Some(ParentTdNoExist) && OnlyIndexed(old(Sum()), Sum(), Of(block))
      ensures err == Some(Panic) ==> block.parentHash in old(index.index)
      ensures WellFormed(Of(block)) && old(Astray(block)) ==>
        (err == Some(Panic) <==>
         old(!BlockExists(Of(block)) && Of(block) !in orphanPool.orphans && block.parentHash in index.index))
      ensures old(Roomy(k)) && old(RoomFor(block, k)) && old(Safe(block, k)) ==>
        && err != Some(Panic) && Roomy(k) && (Together(old(Sum()), k) ==> Together(Sum(), k))
        && (SharesAt(Of(block), old(Sum()).tip, k) ==> SharesAt(old(Sum()).tip, Sum().tip, k))
      ensures err != Some(Panic) ==>
        Sum().indexed + Sum().orphans.Keys <= old(Sum()).indexed + old(Sum()).orphans.Keys + {Of(block)}
      ensures isOrphan ==> err == None && Of(block) in orphanPool.orphans
                           && Snap().(orphans := map[]) == old(Snap()).(orphans := map[])
      ensures err != Some(Panic) && old(faulted) ==> faulted
      ensures err != Some(Panic) && !faulted ==> Advances(old(bestChain.queue[0].hash), bestChain.queue[0].hash)
      ensures (err == None || err == Some(BlockExist)) && WellFormed(Of(block)) && Settled(old(Sum()), {}) ==>
        Settled(Sum(), {})
      ensures old(AllGood(g, k)) && old(Welcome(block, now, g, k)) ==>
        && (err == None || err == Some(BlockExist)) && AllGood(g, k) && old(index.index.Keys) <= index.index.Keys
        && index.index.Keys + orphanPool.orphans.Keys == old(index.index.Keys + orphanPool.orphans.Keys) + {Of(block)}
        && forall h | h in orphanPool.orphans && h !in old(orphanPool.orphans) ::
             orphanPool.orphans[h].expiration == now + ORPHAN_EXPIRATION_TIME
      ensures forall h | h in orphanPool.orphans && h in old(orphanPool.orphans) ::
        err != Some(Panic) ==> orphanPool.orphans[h] == old(orphanPool.orphans)[h]
    {
      hide Fits, BlockIndex.Valid, ChainView.Valid, BlockStore.Valid, OrphanPool.Valid, MainChain, Heaviest,
           Advances, BlockChain.AllGood, BlockChain.Welcome, Settled, WellFormed, BlockChain.Astray, TotalWork,
           BlockChain.Roomy, BlockChain.RoomFor, BlockChain.Safe, Together, SharesAt;
      if SharesAt(Of(block), Sum().tip, k) {
        SharesSelf(Of(block), Sum().tip, k);
      }
      AdvancesRefl(bestChain.queue[0].hash);
      isMainChain, isOrphan := false, false;
      if BlockExists(Of(block)) {
        HealthyKnown(block, now, g, k);
        return false, false, Some(BlockExist);
      }
      if orphanPool.IsKnownOrphan(Of(block)) {
        return false, false, Some(BlockExist);
      }
      if !ParentExists(block) {
        ghost var a := Sum();
        if WellFormed(Of(block)) {
          UnknownParent(block);
        }
        ParkOrphan(block, now, g, k);
        if Together(a, k) {
          TogetherFrame(a, Sum(), k);
        }
        return false, true, None;
      }
      isMainChain, err := AcceptAndFollow(block, now, g, k);
    }

    lemma HealthyKnown(block: Block, now: int, g: Block, k: nat)
      requires Sound() && BlockExists(Of(block))
      ensures AllGood(g, k) && Welcome(block, now, g, k) ==> Of(block) in index.index
    {
      hide BlockChain.Sound, Heaviest, AllFrom, BlockChain.Uncut, PoolHasRoom, BlockChain.BlockExists;
      if AllGood(g, k) && Welcome(block, now, g, k) {
        KnownIndexed(Of(block), g, k);
      }
    }

    lemma GoodBefore(block: Block, now: int, g: Block, k: nat)
      requires Ready() && AllGood(g, k) && Welcome(block, now, g, k) && ParentExists(block)
      requires Of(block) !in index.index
      ensures Healthy(g, k) && Fitting(block, g, k) && block.parentHash in index.index
      ensures block.height == index.index[block.parentHash].height + 1
      ensures PoolHasRoom(|index.queue| + 1, orphanPool.orphans, index.limit, bestChain.limit, g, k)
    {
      ParentIndexed(block, g, k);
      RoomForNext(|index.queue|, orphanPool.orphans, index.limit, bestChain.limit, g, k);
    }

    lemma GoodParked(g: Block, k: nat)
      requires Healthy(g, k) && PoolHasRoom(|index.queue|, orphanPool.orphans, index.limit, bestChain.limit, g, k)
      ensures AllGood(g, k)
    {}

    lemma GoodAfter(used: nat, g: Block, k: nat)
      requires Healthy(g, k) && |index.queue| == used + 1
      requires PoolHasRoom(used + 1, orphanPool.orphans, index.limit, bestChain.limit, g, k)
      ensures AllGood(g, k)
    {}

    lemma NotOnChain(hash: Hash)
      requires Ready() && !BlockExists(hash)
      ensures hash !in index.index && hash !in blockStore.db.heights.hashToHeight
    {}

    lemma RoomToPark(block: Block, now: int, g: Block, k: nat)
      requires AllGood(g, k) && Welcome(block, now, g, k) && Of(block) !in orphanPool.orphans
      ensures var o := OrphanBlock(block, now + ORPHAN_EXPIRATION_TIME);
        && |orphanPool.orphans| < orphanPool.maxOrphanBlocks && Unexpired(orphanPool.orphans, now) == orphanPool.orphans
        && Healthy(g, k)
        && PoolHasRoom(|index.queue|, orphanPool.orphans[Of(block) := o], index.limit, bestChain.limit, g, k)
    {
      var o := OrphanBlock(block, now + ORPHAN_EXPIRATION_TIME);
      RoomForPark(|index.queue|, orphanPool.orphans, index.limit, bestChain.limit, g, k, o);
    }

    lemma UnknownParent(block: Block)
      requires Ready() && WellFormed(Of(block)) && !ParentExists(block)
      ensures block.parentHash !in index.index
    {
      BranchLength(block.parentHash);
    }

    lemma ReadyPool()
      requires Ready()
      ensures orphanPool.Valid()
    {}

    lemma OrphanFacts(orphan: OrphanBlock, g: Block, k: nat)
      requires Ready() && InPool(orphanPool.orphans, orphan)
      ensures Of(orphan.block) !in index.index && Of(orphan.block) !in blockStore.db.heights.hashToHeight
      ensures AllGood(g, k) && orphan.block.parentHash in index.index ==>
        && Healthy(g, k) && Fitting(orphan.block, g, k)
        && orphan.block.height == index.index[orphan.block.parentHash].height + 1
        && PoolHasRoom(|index.queue| + 1, orphanPool.orphans - {Of(orphan.block)}, index.limit, bestChain.limit, g, k)
    {
      if AllGood(g, k) {
        RoomForOne(|index.queue|, orphanPool.orphans, index.limit, bestChain.limit, g, k, Of(orphan.block));
      }
    }

    lemma QueuedHeight(node: BlockNode)
      requires Sound() && node in index.queue
      ensures node.hash == ZERO_HASH ==> node.height == -1
    {}

    lemma Indexed(node: BlockNode)
      requires Sound() && node in index.queue
      ensures node.hash in index.index
    {}

    lemma ParentFacts(prevNode: BlockNode, block: Block)
      requires Sound() && prevNode in index.queue && prevNode.hash == block.parentHash
      requires block.height == prevNode.height + 1
      ensures WellFormed(Of(block)) && bestChain.queue[0] in index.parents
      ensures forall n | n in index.queue :: n in index.parents
      ensures block.parentHash.Of? ==> Stored(blockStore.db, block.parentHash)
      ensures block.height == 0 <==> block.parentHash.Raw?
      ensures block.parentHash == bestChain.queue[0].hash ==> prevNode == bestChain.queue[0]
    {
      BranchLength(block.parentHash);
    }

    lemma NewHash(block: Block)
      requires Sound() && Of(block) !in blockStore.db.heights.hashToHeight
      ensures forall v | v in bestChain.queue :: v.hash != Of(block)
    {
      forall v | v in bestChain.queue
        ensures v.hash != Of(block)
      {
        if v.hash == Of(block) {
          BranchLength(v.hash);
          NotOnMainChain(Snap(), blockStore.isRecordBlockSequence, v);
        }
      }
    }

    /** What connectBestChain finds out about a node that does not extend the tip. */
    lemma NodeFacts(node: BlockNode, block: Block)
      requires Sound() && node in index.queue && node.hash == Of(block)
      requires Of(block) !in blockStore.db.heights.hashToHeight
      requires block.parentHash.Of? ==> Stored(blockStore.db, block.parentHash)
      ensures node in index.parents && !InView(node, bestChain.queue) && Linked(index.parents)
      ensures var t := bestChain.queue[0].hash;
        && (t in blockStore.db.td <==> t.Of?) && (block.parentHash in blockStore.db.td <==> block.parentHash.Of?)
        && (t in blockStore.db.td ==> blockStore.db.td[t] == TotalWork(t))
        && (t.Raw? ==> !SameGenesis(node.hash, t))
        && (block.parentHash in blockStore.db.td ==>
              node.work + blockStore.db.td[block.parentHash] == TotalWork(node.hash))
        && (block.parentHash !in blockStore.db.td && t.Of? ==>
              !SameGenesis(node.hash, t) &&
              (Heaviest(index.parents, bestChain.queue[0], {node}) ==> Heaviest(index.parents, bestChain.queue[0], {})))
    {
      var s := Snap();
      var record := blockStore.isRecordBlockSequence;
      LiveFacts(s, node, block);
      StoredWork(s, record, node, block);
      NotOnMainChain(s, record, node);
      hide Fits, Heaviest, TotalWork, Descending, ChainView.Valid, Indexes;
      if bestChain.queue[0].hash.Of? {
        if block.parentHash.Raw? {
          OtherGenesis(s, record, node, block);
        }
      }
    }

    /** In a healthy chain nothing that descends from the base is astray. */
    lemma HealthyTree(node: BlockNode, block: Block, g: Block, k: nat)
      requires Sound() && node.hash == Of(block) && Of(block) !in blockStore.db.heights.hashToHeight
      ensures Healthy(g, k) && SharesAt(Of(block), bestChain.queue[0].hash, k) ==>
        !Astray(block) && bestChain.queue[0].hash.Of? && block.parentHash.Of?
      ensures block.parentHash == bestChain.queue[0].hash ==> !Astray(block)
    {
      hide Fits, BlockIndex.Valid, ChainView.Valid, OrphanPool.Valid, AllFrom, Heaviest, Holds, Logged, Faithful, LowOf,
           Anchored;
      if bestChain.queue[0].hash.Of? && block.parentHash.Raw? {
        OtherGenesis(Snap(), blockStore.isRecordBlockSequence, node, block);
      }
      if Healthy(g, k) && SharesAt(Of(block), bestChain.queue[0].hash, k) {
        SharesBelow(Of(block), bestChain.queue[0].hash, k, bestChain.Low());
        SharesBelow(Of(block), bestChain.queue[0].hash, k, 0);
      }
      if block.parentHash == bestChain.queue[0].hash && block.parentHash.Of? {
        ChildOfTip(block);
      }
    }

    lemma ForkFacts(node: BlockNode, fork: BlockNode?)
      requires Sound() && node in index.parents
      requires Linked(index.parents) && FirstShared(node, fork, ParentChain(node, index.parents), bestChain.queue)
      ensures fork != null ==>
        HighestCommon(fork.hash, node.hash, bestChain.queue[0].hash) && |Branch(fork.hash)| > 0
    {
      hide Fits, Indexes, FirstShared, HighestCommon, BlockStore.Valid, OrphanPool.Valid;
      if fork != null {
        ForkIsHighestCommon(Snap(), node, fork);
      }
    }

    /** Connecting a node whose branch leaves the main chain below the view finds no fork to go back to;
        until the index evicts a node any other finds one. */
    lemma LostIff(node: BlockNode, block: Block)
      requires Sound() && node in index.parents && node.hash == Of(block)
      ensures Astray(block) ==> ForkLost(Snap(), node)
      ensures Uncut() && ForkLost(Snap(), node) ==> Astray(block)
    {
      hide Fits, Indexes, SharesAt, Anchored, TotalWork, Intact, ForkOf, BlockStore.Valid, OrphanPool.Valid, LowOf;
      NotForkLost(Snap(), node, block);
      var tip := bestChain.queue[0].hash;
      if tip.Of? && block.parentHash.Of? {
        if block.parentHash == tip {
          ChildOfTip(block);
        } else {
          ForkLostBelowView(Snap(), node, block);
        }
      }
    }

    lemma ChildOfTip(block: Block)
      requires Sound() && bestChain.queue[0].hash == block.parentHash && block.parentHash.Of?
      ensures SharesAt(Of(block), bestChain.queue[0].hash, bestChain.Low())
    {
      TipFacts(Snap());
      SharesChild(block, block.parentHash, bestChain.Low());
    }

    lemma RoomyLeft(used: nat, k: nat)
      requires Uncut() && bestChain.Low() <= k && |index.queue| <= used + 1
      requires Spacious(used + 1, orphanPool.orphans, index.limit, bestChain.limit, k)
      ensures Roomy(k)
    {}

    lemma RoomyAfter(used: nat, k: nat)
      requires Uncut() && bestChain.Low() <= k && |index.queue| <= used + 1
      requires used + |orphanPool.orphans| < index.limit
      requires Spacious(used, orphanPool.orphans, index.limit, bestChain.limit, k)
      ensures Roomy(k)
    {}

    /** Every block of the main chain is in the tree of the tip. */
    lemma OnChain(h: Hash)
      requires Ready() && h in blockStore.db.heights.hashToHeight
      ensures bestChain.queue[0].hash.Of? && SameGenesis(h, bestChain.queue[0].hash)
    {
      hide OrphanPool.Valid, Heaviest, Stored, Logged, Faithful;
      TipFacts(Snap());
      BranchLink(bestChain.queue[0].hash, blockStore.db.heights.hashToHeight[h]);
    }

    /** A second genesis block and its children are in another tree than the tip. */
    lemma OtherTree(block: Block, child: Block)
      requires Ready() && SecondGenesis(block) && !BlockExists(Of(block)) && child.parentHash == Of(block)
      ensures !SameGenesis(Of(child), bestChain.queue[0].hash)
    {
      hide OrphanPool.Valid, Heaviest, Stored, Logged, Faithful;
      TipFacts(Snap());
      NotOnChain(Of(block));
      assert Branch(Of(block)) == [block];
      assert Branch(Of(child)) == [block, child];
    }

    /** A block of another tree is astray. */
    lemma ForeignAstray(block: Block)
      requires Foreign(block)
      ensures Astray(block)
    {
      if SharesAt(Of(block), bestChain.queue[0].hash, bestChain.Low()) {
        SharesBelow(Of(block), bestChain.queue[0].hash, bestChain.Low(), 0);
      }
    }

    lemma ParentHeight(block: Block)
      requires Ready() && WellFormed(Of(block)) && block.parentHash in index.index
      ensures block.height == index.index[block.parentHash].height + 1
    {
      assert index.index[block.parentHash] in index.queue;
    }

    lemma SafeNotAstray(block: Block, k: nat)
      requires bestChain.queue != [] && bestChain.Low() <= k && Safe(block, k) && block.parentHash in index.index
      ensures !Astray(block)
      ensures SharesAt(Of(block), Sum().tip, k) || (k == 0 && !(Sum().tip.Of? && block.parentHash.Of?))
    {
      if SharesAt(Of(block), Sum().tip, k) {
        SharesBelow(Of(block), Sum().tip, k, bestChain.Low());
      }
    }

    lemma StoreFaithful()
      requires Sound()
      ensures Faithful(blockStore.db)
    {}

    function TipHash(): Hash
      requires Ready()
      reads this`faulted, index, bestChain, blockStore, orphanPool
    {
      bestChain.queue[0].hash
    }

    lemma LoadingHeight(h: Hash, k: int)
      requires Loading(h, k)
      ensures blockStore.height == |Branch(h)| - 1
    {}

    lemma NothingStored(node: BlockNode, h: Hash)
      requires WellFormed(h) && blockStore.Valid(Branch(h)) && blockStore.height == -1
      requires index.Valid() && bestChain.Valid() && orphanPool.Valid() && orphanPool.orphans == map[]
      requires node.hash == ZERO_HASH && node.height == -1 && bestChain.queue == [node]
      requires index.queue == [node] && index.index == map[node.hash := node] && index.parents == map[node := null]
      ensures Sound() && Heaviest(index.parents, bestChain.queue[0], {}) && h == ZERO_HASH
    {
      BranchLength(h);
    }

    lemma FirstLoaded(node: BlockNode, h: Hash, k: nat)
      requires WellFormed(h) && k < |Branch(h)| && blockStore.Valid(Branch(h)) && WellFormed(Of(Branch(h)[k]))
      requires index.Valid() && bestChain.Valid() && orphanPool.Valid() && orphanPool.orphans == map[]
      requires node.hash == Of(Branch(h)[k]) && node.height == Branch(h)[k].height == k
      requires node.work == Branch(h)[k].work
      requires bestChain.queue == [node]
      requires index.queue == [node] && index.index == map[node.hash := node] && index.parents == map[node := null]
      ensures Loading(h, k)
    {
      hide Fits, BlockIndex.Valid, ChainView.Valid, OrphanPool.Valid, Describes, WellFormed, Branch;
      FitsFirst(Snap(), node, Branch(h), k, blockStore.isRecordBlockSequence);
    }

    /** Once the last height is loaded the state is sound and, with one branch known, the tip heaviest. */
    lemma AllLoaded(h: Hash, start: nat)
      requires WellFormed(h) && Branch(h) != [] && Loading(h, |Branch(h)| - 1) && Kept(start, |Branch(h)|)
      ensures bestChain.queue != [] && bestChain.queue[0].hash == h
      ensures Sound() && Heaviest(index.parents, bestChain.queue[0], {}) && Together(Sum(), start)
    {
      hide Fits, LoadedTo, Heaviest, Indexes, LoadedFrom, Anchored, LowOf, Together;
      LoadedHeaviest(Snap(), h);
      LoadedTogether(Snap(), Sum(), h, start);
    }

    lemma AllInOrder(h: Hash, start: nat, initBlockNum: nat)
      requires Loading(h, |Branch(h)| - 1) && Kept(start, |Branch(h)|) && Together(Sum(), start)
      requires start == Max(0, |Branch(h)| - 1 - initBlockNum)
      ensures Restarted(h, initBlockNum)
    {
      hide Indexes, LoadedFrom, Anchored, Together, Loaded, InOrder, Branch, StoreFits, PoolFits, ViewFits, LoadedTo,
           Descending, BlockStore.Valid, OrphanPool.Valid;
      var n := |Branch(h)|;
      LoadedView(Snap(), h, n - 1);
      LoadedTip(Snap(), h, n - 1);
      LoadedKeys(Snap(), h, Max(start, n - index.limit));
      LoadedIs(h, n - 1 - initBlockNum, n - index.limit);
    }

    lemma FirstKept(node: BlockNode, start: nat)
      requires bestChain.Valid() && bestChain.queue == [node] && node.height == start
      requires index.limit >= 1 && index.queue == [node] && index.parents == map[node := null]
      ensures Kept(start, start + 1)
    {}

    /** A restarted node has room for whatever the index can still take, down to the height at which its
        view begins. */
    lemma RoomyRestarted(start: nat, next: nat, k: nat)
      requires Kept(start, next) && next - start <= index.limit && orphanPool.orphans == map[]
      requires Max(start, next - bestChain.limit) <= k
      ensures Roomy(k) && |index.queue| == next - start
    {
      AnchoredUp(index.parents, index.queue, start, bestChain.Low());
    }

    lemma TipKnown()
      requires Sound()
      ensures bestChain.queue != [] && bestChain.queue[0] in index.parents
    {
      TipFacts(Snap());
    }

    lemma DatabaseHolds(h: Hash)
      requires WellFormed(h) && blockStore.DbValid(Branch(h))
      ensures DatabaseOk()
    {
      assert Recorded(blockStore.db, h, blockStore.isRecordBlockSequence);
    }

    lemma TipChain()
      requires Sound()
      ensures DatabaseOk() && bestChain.queue != []
    {
      TipFacts(Snap());
      assert Recorded(blockStore.db, bestChain.queue[0].hash, blockStore.isRecordBlockSequence);
    }
  }
}
