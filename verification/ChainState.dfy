/** The relations between index, view, database and orphan pool that every step of the block chain
    keeps, stated on values. */
module ChainStates {
  import opened Blocks
  import opened BlockIndexes
  import opened BlockStores
  import opened OrphanPools

  /** What the four structures hold at one moment, with the parent pointer of every node. */
  datatype Snapshot = Snapshot(
    parents: map<BlockNode, BlockNode?>,
    index: map<Hash, BlockNode>,
    queue: seq<BlockNode>,
    view: seq<BlockNode>,
    db: Db,
    orphans: map<Hash, OrphanBlock>)

  /** Indexed nodes are known, and a node that still has its parent pointer is indexed. */
  ghost predicate TreeFits(parents: map<BlockNode, BlockNode?>, queue: seq<BlockNode>) {
    && Linked(parents)
    && (forall n | n in queue :: n in parents)
    && (forall n | n in parents && parents[n] != null :: n in queue)
  }

  /** Two neighbours of the view: linked by hash, and by pointer unless the pointer was cut. */
  ghost predicate Follows(child: BlockNode, parent: BlockNode, parents: map<BlockNode, BlockNode?>) {
    && child in parents
    && child.hash.Of? && child.hash.block.parentHash == parent.hash
    && (parents[child] == null || parents[child] == parent)
  }

  /** The view holds known nodes that follow each other; a view node whose hash is indexed is the
      indexed node. */
  ghost predicate ViewFits(view: seq<BlockNode>, parents: map<BlockNode, BlockNode?>, index: map<Hash, BlockNode>) {
    && view != []
    && (forall n | n in view :: n in parents)
    && (forall i | 0 <= i < |view| - 1 :: Follows(view[i], view[i + 1], parents))
    && (forall n | n in view && n.hash in index :: index[n.hash] == n)
  }

  /** Every real node can be loaded and has a total difficulty. */
  ghost predicate StoreFits(parents: map<BlockNode, BlockNode?>, db: Db) {
    forall n | n in parents && n.hash.Of? :: Stored(db, n.hash)
  }

  /** An orphan is neither indexed nor on the main chain. */
  ghost predicate PoolFits(orphans: map<Hash, OrphanBlock>, index: map<Hash, BlockNode>, db: Db) {
    forall h | h in orphans :: h !in index && h !in db.heights.hashToHeight
  }

  ghost predicate Fits(s: Snapshot) {
    && TreeFits(s.parents, s.queue)
    && ViewFits(s.view, s.parents, s.index)
    && StoreFits(s.parents, s.db)
    && PoolFits(s.orphans, s.index, s.db)
  }

  ghost function MainChain(view: seq<BlockNode>): seq<Block>
    requires view != []
  {
    Branch(view[0].hash)
  }

  lemma FitsInitially(s: Snapshot, node: BlockNode)
    requires node.hash == ZERO_HASH && node.height == -1
    requires s == Snapshot(map[node := null], map[ZERO_HASH := node], [node], [node], EMPTY_DB, map[])
    ensures Fits(s)
  {}

  lemma TipFacts(s: Snapshot)
    requires Fits(s)
    ensures Linked(s.parents) && s.view != [] && s.view[0] in s.parents
    ensures WellFormed(s.view[0].hash)
    ensures s.view[0].height == HeightOf(s.view[0].hash) == |MainChain(s.view)| - 1
    ensures TopHash(MainChain(s.view)) == s.view[0].hash
  {
    assert s.view[0] in s.view;
    TopOfBranch(s.view[0].hash);
  }

  /** What a fitting state says about an indexed node. */
  lemma LiveFacts(s: Snapshot, node: BlockNode, block: Block)
    requires Fits(s) && Indexes(s.index, s.queue) && node in s.queue && node.hash == Of(block)
    ensures node in s.parents && node.height == block.height && node.work == block.work
    ensures node.hash in s.index && s.index[node.hash] == node
    ensures WellFormed(Of(block)) && Stored(s.db, Of(block)) && Of(block) !in s.orphans
    ensures block.height == HeightOf(block.parentHash) + 1
    ensures MainChain([node]) == Branch(block.parentHash) + [block]
  {}

  lemma QueuedKnown(s: Snapshot, n: BlockNode)
    requires Fits(s) && n in s.queue
    ensures n in s.parents
  {}

  lemma Loadable(s: Snapshot, nodes: seq<BlockNode>)
    requires Fits(s) && Faithful(s.db) && forall n | n in nodes :: n in s.parents
    ensures forall n | n in nodes && n.hash.Of? :: n.hash in s.db.blocks
    ensures forall h | h in s.db.blocks :: h == Of(s.db.blocks[h])
  {}

  lemma PathStep(s: Snapshot, node: BlockNode, block: Block)
    requires Fits(s) && node in s.parents && node.hash == Of(block) && s.parents[node] != null
    ensures block.parentHash == s.parents[node].hash
  {}

  lemma FitsConnect(s: Snapshot, s': Snapshot, node: BlockNode, block: Block)
    requires Fits(s) && Indexes(s.index, s.queue) && node in s.queue && node.hash == Of(block)
    requires Follows(node, s.view[0], s.parents)
    requires s' == s.(view := s'.view, db := s'.db)
    requires s'.view != [] && s'.view[0] == node && s'.view[1..] <= s.view
    requires s'.db.blocks == s.db.blocks && s'.db.td == s.db.td
    requires s'.db.heights.hashToHeight == s.db.heights.hashToHeight[Of(block) := block.height]
    ensures Fits(s')
  {
    LiveFacts(s, node, block);
    assert s'.view == [node] + s'.view[1..];
    forall i | 0 <= i < |s'.view| - 1
      ensures Follows(s'.view[i], s'.view[i + 1], s.parents)
    {
      assert s'.view[i + 1] == s'.view[1..][i] == s.view[i];
      if i > 0 {
        assert s'.view[i] == s'.view[1..][i - 1] == s.view[i - 1];
      }
    }
    assert forall n | n in s'.view :: n == node || n in s.view;
  }

  lemma NonEmptyBranch(h: Hash)
    ensures h.Of? <==> Branch(h) != []
  {}

  /** The chain below the tip. */
  lemma DisconnectFacts(s: Snapshot, block: Block)
    requires Fits(s) && s.view[0].hash == Of(block)
    ensures MainChain(s.view) == Branch(block.parentHash) + [block]
    ensures block.parentHash == TopHash(Branch(block.parentHash)) && WellFormed(block.parentHash)
  {
    assert s.view[0] in s.view;
    TopOfBranch(block.parentHash);
  }

  lemma FitsDisconnect(s: Snapshot, s': Snapshot)
    requires Fits(s) && |s.view| > 1
    requires s' == s.(view := s.view[1..], db := s'.db)
    requires s'.db.blocks == s.db.blocks && s'.db.td == s.db.td
    requires s'.db.heights.hashToHeight.Keys <= s.db.heights.hashToHeight.Keys
    ensures Fits(s')
    ensures s.view[0].hash.Of? && s.view[0].hash.block.parentHash == s'.view[0].hash
    ensures s.parents[s.view[0]] == null || s.parents[s.view[0]] == s'.view[0]
  {
    assert Follows(s.view[0], s.view[1], s.parents);
    forall i | 0 <= i < |s'.view| - 1
      ensures Follows(s'.view[i], s'.view[i + 1], s.parents)
    {
      assert Follows(s.view[i + 1], s.view[i + 2], s.parents);
    }
  }

  lemma FitsStore(s: Snapshot, db: Db)
    requires Fits(s) && db.heights == s.db.heights
    requires s.db.blocks.Keys <= db.blocks.Keys && s.db.td.Keys <= db.td.Keys
    ensures Fits(s.(db := db))
  {}

  /** A new node below an indexed one; the index may have dropped its oldest node. */
  lemma FitsAdd(s: Snapshot, s': Snapshot, node: BlockNode, block: Block, dropped: set<BlockNode>)
    requires Fits(s) && Indexes(s.index, s.queue) && Indexes(s'.index, s'.queue)
    requires node !in s.parents && node.hash == Of(block) && node.height == block.height && node.work == block.work
    requires WellFormed(Of(block)) && Stored(s.db, Of(block)) && Of(block) !in s.orphans
    requires forall v | v in s.view :: v.hash != Of(block)
    requires s'.parents.Keys == s.parents.Keys + {node}
    requires s'.parents[node] != null && s'.parents[node] in s.parents && s'.parents[node].hash == block.parentHash
    requires forall n | n in s.parents :: s'.parents[n] == if n in dropped then null else s.parents[n]
    requires s'.view == s.view && s'.db == s.db && s'.orphans == s.orphans
    requires forall n :: n in s'.queue <==> n == node || (n in s.queue && n !in dropped)
    ensures Fits(s')
  {
    assert TreeFits(s'.parents, s'.queue);
    forall i | 0 <= i < |s'.view| - 1
      ensures Follows(s'.view[i], s'.view[i + 1], s'.parents)
    {
      assert Follows(s.view[i], s.view[i + 1], s.parents);
    }
    assert ViewFits(s'.view, s'.parents, s'.index);
    assert PoolFits(s'.orphans, s'.index, s'.db);
  }

  /** A node that was read from the database becomes the tip; the database stays as it is. */
  lemma FitsTip(s: Snapshot, s': Snapshot, node: BlockNode, block: Block)
    requires Fits(s) && Indexes(s.index, s.queue) && node in s.queue && node.hash == Of(block)
    requires Follows(node, s.view[0], s.parents)
    requires s' == s.(view := s'.view) && s'.view != [] && s'.view[0] == node && s'.view[1..] <= s.view
    requires Of(block) in s.db.heights.hashToHeight && s.db.heights.hashToHeight[Of(block)] == block.height
    ensures Fits(s')
  {
    assert s.db.heights.hashToHeight[Of(block) := block.height] == s.db.heights.hashToHeight;
    FitsConnect(s, s', node, block);
  }

  /** The only known node sits at height `k` of the chain that the database describes. */
  lemma FitsFirst(s: Snapshot, node: BlockNode, chain: seq<Block>, k: nat, record: bool)
    requires Describes(s.db, chain, record) && k < |chain| && WellFormed(Of(chain[k]))
    requires node.hash == Of(chain[k]) && node.height == chain[k].height && node.work == chain[k].work
    requires s == Snapshot(map[node := null], map[node.hash := node], [node], [node], s.db, map[])
    ensures Fits(s)
  {}

  lemma FitsUnpool(s: Snapshot, orphans: map<Hash, OrphanBlock>)
    requires Fits(s) && orphans.Keys <= s.orphans.Keys
    ensures Fits(s.(orphans := orphans))
  {}

  lemma FitsPool(s: Snapshot, orphans: map<Hash, OrphanBlock>, h: Hash)
    requires Fits(s) && orphans.Keys <= s.orphans.Keys + {h}
    requires h !in s.index && h !in s.db.heights.hashToHeight
    ensures Fits(s.(orphans := orphans))
  {}
}
