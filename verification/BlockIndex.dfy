/** blockchain/blockindex.go: the in-memory tree of block nodes and the bounded index over it. */
module BlockIndexes {
  import opened Blocks

  /** A node is an object because two nodes of the same block are not the same node.  Its parent
      pointer, which the index cuts when it evicts the node, is an entry of `BlockIndex.parents`. */
  class BlockNode {
    const hash: Hash
    const height: int
    const work: int

    constructor (block: Block)
      ensures hash == Of(block) && height == block.height && work == block.work
    {
      hash := Of(block);
      height := block.height;
      work := block.work;
    }

    constructor PreGenesis()
      ensures hash == ZERO_HASH && height == -1 && work == -1
    {
      hash := ZERO_HASH;
      height := -1;
      work := -1;
    }

    /** The node of this parent chain at `height`; null outside the chain that is still linked. */
    method Ancestor(height: int, parents: map<BlockNode, BlockNode?>) returns (n: BlockNode?)
      requires Linked(parents) && this in parents
      ensures n == var c := ParentChain(this, parents);
                   if 0 <= height <= this.height && this.height - height < |c|
                   then c[this.height - height] else null
    {
      if height < 0 || height > this.height {
        return null;
      }
      ghost var c := ParentChain(this, parents);
      ghost var i := 0;
      n := this;
      while n != null && n.height != height
        invariant 0 <= i <= |c| && i <= this.height - height
        invariant if n == null then i == |c| else i < |c| && c[i] == n && n.height == this.height - i
        decreases |c| - i
      {
        ChainStep(this, parents, i);
        if i + 1 < |c| {
          ChainStep(this, parents, i + 1);
        }
        n, i := parents[n], i + 1;
      }
    }
  }

  /** Hash, height and work of every node describe the same well-formed block, and a parent pointer
      leads to the node of the parent hash. */
  ghost predicate Linked(parents: map<BlockNode, BlockNode?>) {
    forall n | n in parents ::
      && WellFormed(n.hash)
      && n.height == HeightOf(n.hash)
      && (n.hash.Of? ==> n.work == n.hash.block.work)
      && (parents[n] != null ==>
            parents[n] in parents && n.hash.Of? && parents[n].hash == n.hash.block.parentHash)
  }

  /** The nodes reached from `n` over parent pointers, `n` first. */
  ghost function ParentChain(n: BlockNode, parents: map<BlockNode, BlockNode?>): (c: seq<BlockNode>)
    requires Linked(parents) && n in parents
    ensures c != [] && c[0] == n
    decreases n.hash
  {
    if parents[n] == null then [n] else [n] + ParentChain(parents[n], parents)
  }

  /** The chain descends one height at a time; it follows the pointers and ends where one is
      missing. */
  lemma {:induction false} ChainStep(n: BlockNode, parents: map<BlockNode, BlockNode?>, i: nat)
    requires Linked(parents) && n in parents && i < |ParentChain(n, parents)|
    ensures var c := ParentChain(n, parents);
      && c[i] in parents && c[i].height == n.height - i && -1 <= c[i].height
      && (if i + 1 < |c| then parents[c[i]] == c[i + 1] else parents[c[i]] == null)
    decreases i
  {
    BranchLength(n.hash);
    if i > 0 {
      ChainStep(parents[n], parents, i - 1);
    }
  }

  /** Along the chain the branches are the prefixes of the first node's branch. */
  lemma {:induction false} ChainBranch(n: BlockNode, parents: map<BlockNode, BlockNode?>, i: nat)
    requires Linked(parents) && n in parents && i < |ParentChain(n, parents)|
    ensures i <= |Branch(n.hash)|
    ensures Branch(ParentChain(n, parents)[i].hash) == Branch(n.hash)[..|Branch(n.hash)| - i]
    decreases i
  {
    if i > 0 {
      ChainBranch(parents[n], parents, i - 1);
    }
  }

  /** The chain node at height `k` is the node of the branch block at `k`. */
  lemma ChainBlock(n: BlockNode, parents: map<BlockNode, BlockNode?>, k: nat)
    requires Linked(parents) && n in parents && k <= n.height && n.height - k < |ParentChain(n, parents)|
    ensures |Branch(n.hash)| == n.height + 1
    ensures ParentChain(n, parents)[n.height - k].hash == Of(Branch(n.hash)[k])
  {
    var m := ParentChain(n, parents)[n.height - k];
    BranchLength(n.hash);
    ChainStep(n, parents, n.height - k);
    ChainBranch(n, parents, n.height - k);
    BranchLength(m.hash);
    assert Branch(m.hash)[k] == Branch(n.hash)[k];
  }

  /** The map finds exactly the queued nodes, each by its own hash, and no node is queued twice. */
  ghost predicate Indexes(index: map<Hash, BlockNode>, queue: seq<BlockNode>) {
    && (forall i, j | 0 <= i < j < |queue| :: queue[i] != queue[j])
    && (forall n | n in queue :: n.hash in index && index[n.hash] == n)
    && (forall h | h in index :: index[h] in queue && index[h].hash == h)
  }

  lemma IndexesPush(index: map<Hash, BlockNode>, queue: seq<BlockNode>, node: BlockNode)
    requires Indexes(index, queue) && node.hash !in index
    ensures Indexes(index[node.hash := node], queue + [node])
    ensures node !in queue
  {}

  lemma IndexesDrop(index: map<Hash, BlockNode>, queue: seq<BlockNode>)
    requires Indexes(index, queue) && queue != []
    ensures Indexes(index - {queue[0].hash}, queue[1..])
    ensures forall n :: n in queue[1..] <==> n in queue && n != queue[0]
  {
    var rest := queue[1..];
    assert queue == [queue[0]] + rest;
    forall h | h in index && h != queue[0].hash
      ensures index[h] in rest
    {}
  }

  class BlockIndex {
    const limit: nat
    var index: map<Hash, BlockNode>
    /** Insertion order, oldest first. */
    var queue: seq<BlockNode>
    /** The parent pointer of every node created so far. */
    var parents: map<BlockNode, BlockNode?>

    ghost predicate Valid()
      reads this
    {
      1 <= limit && |queue| <= limit && Indexes(index, queue)
    }

    lemma ValidIndexes()
      requires Valid()
      ensures Indexes(index, queue) && |queue| <= limit
    {}

    constructor (limit: nat)
      requires 1 <= limit
      ensures Valid() && this.limit == limit && index == map[] && queue == [] && parents == map[]
    {
      this.limit := limit;
      index := map[];
      queue := [];
      parents := map[];
    }

    predicate HaveBlock(hash: Hash)
      reads this
    {
      hash in index
    }

    function LookupNode(hash: Hash): (n: BlockNode?)
      requires Valid()
      reads this
      ensures n != null ==> n in queue && n.hash == hash
      ensures n == null ==> forall m | m in queue :: m.hash != hash
    {
      if hash in index then index[hash] else null
    }

    /** Appends a new node; an index over its limit drops its oldest node and cuts that node's parent
        pointer. */
    method AddNode(node: BlockNode, parent: BlockNode?) returns (ghost dropped: set<BlockNode>)
      requires Valid() && node.hash !in index
      modifies this
      ensures Valid()
      ensures dropped == if old(|queue|) < limit then {} else {old(queue[0])}
      ensures forall n :: n in queue <==> n == node || (n in old(queue) && n !in dropped)
      ensures parents == if dropped == {} then old(parents)[node := parent]
                         else old(parents)[node := parent][old(queue[0]) := null]
      ensures index.Keys <= old(index.Keys) + {node.hash}
      ensures dropped == {} ==> queue == old(queue) + [node] && index == old(index)[node.hash := node]
      ensures dropped != {} ==> queue == old(queue)[1..] + [node]
    {
      hide Indexes;
      IndexesPush(index, queue, node);
      parents := parents[node := parent];
      queue := queue + [node];
      index := index[node.hash := node];
      dropped := {};
      if |queue| > limit {
        IndexesDrop(index, queue);
        var delnode := queue[0];
        dropped := {delnode};
        queue := queue[1..];
        parents := parents[delnode := null];
        index := index - {delnode.hash};
      }
    }
  }
}
