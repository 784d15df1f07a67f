/** The rule by which connectBestChain in blockchain/process.go picks the best chain, stated on
    values. */
module HeaviestChain {
  import opened Blocks
  import opened BlockIndexes
  import opened ChainViews
  import opened BlockStores
  import opened OrphanPools
  import opened ChainStates
  import opened Reorganizations

  /** No known node of the tip's tree, `except` aside, carries more work than the tip.  Before the
      genesis block is connected there is no other node. */
  ghost predicate Heaviest(parents: map<BlockNode, BlockNode?>, tip: BlockNode, except: set<BlockNode>) {
    if tip.hash.Raw? then forall n | n in parents && n !in except :: n == tip
    else forall n | n in parents && n !in except && SameGenesis(n.hash, tip.hash) ::
           TotalWork(n.hash) <= TotalWork(tip.hash)
  }

  /** The work grows, and an equal amount of work means that the old chain was only extended. */
  ghost predicate Advances(h: Hash, h': Hash) {
    && TotalWork(h) <= TotalWork(h')
    && (TotalWork(h) == TotalWork(h') ==> Branch(h) <= Branch(h'))
  }

  lemma HeaviestBut(parents: map<BlockNode, BlockNode?>, parents': map<BlockNode, BlockNode?>, tip: BlockNode,
                    node: BlockNode)
    requires parents'.Keys == parents.Keys + {node}
    ensures Heaviest(parents, tip, {}) ==> Heaviest(parents', tip, {node})
  {}

  lemma AdvancesTrans(g: Hash, h: Hash, i: Hash)
    requires Advances(g, h) && Advances(h, i)
    ensures Advances(g, i)
  {}

  lemma Extended(parents: map<BlockNode, BlockNode?>, tip: BlockNode, node: BlockNode, block: Block)
    requires node.hash == Of(block) && block.parentHash == tip.hash
    ensures Advances(tip.hash, node.hash)
    ensures Heaviest(parents, tip, {node}) ==> Heaviest(parents, node, {})
  {
    TotalWorkStep(block);
    assert Branch(node.hash) == Branch(tip.hash) + [block];
  }

  /** A second genesis block starts a tree of its own. */
  lemma OtherGenesis(s: Snapshot, record: bool, node: BlockNode, block: Block)
    requires Fits(s) && Describes(s.db, MainChain(s.view), record)
    requires node.hash == Of(block) && block.parentHash.Raw? && Of(block) !in s.db.heights.hashToHeight
    requires s.view[0].hash.Of?
    ensures !SameGenesis(node.hash, s.view[0].hash)
    ensures Heaviest(s.parents, s.view[0], {node}) ==> Heaviest(s.parents, s.view[0], {})
  {
    assert Branch(node.hash) == [block];
  }

  lemma NotOnMainChain(s: Snapshot, record: bool, node: BlockNode)
    requires Fits(s) && Describes(s.db, MainChain(s.view), record) && Descending(s.view)
    requires node.hash !in s.db.heights.hashToHeight
    ensures !InView(node, s.view)
  {
    if InView(node, s.view) {
      var i :| 0 <= i < |s.view| && s.view[i] == node;
      ViewBlock(s, i);
    }
  }

  lemma SideBranch(parents: map<BlockNode, BlockNode?>, tip: BlockNode, node: BlockNode)
    requires tip.hash.Of? && TotalWork(node.hash) <= TotalWork(tip.hash)
    ensures Heaviest(parents, tip, {node}) ==> Heaviest(parents, tip, {})
  {}

  lemma AdvancesRefl(h: Hash)
    ensures Advances(h, h)
  {}

  lemma Switched(parents: map<BlockNode, BlockNode?>, tip: BlockNode, node: BlockNode, fork: BlockNode)
    requires tip.hash.Of? && TotalWork(node.hash) > TotalWork(tip.hash)
    requires HighestCommon(fork.hash, node.hash, tip.hash) && |Branch(fork.hash)| > 0
    ensures Advances(tip.hash, node.hash)
    ensures Heaviest(parents, tip, {node}) ==> Heaviest(parents, node, {})
  {
    assert Branch(node.hash)[0] == Branch(fork.hash)[0] == Branch(tip.hash)[0];
  }

  /** The stored total difficulties that connectBestChain compares. */
  lemma StoredWork(s: Snapshot, record: bool, node: BlockNode, block: Block)
    requires Fits(s) && Describes(s.db, MainChain(s.view), record)
    requires node in s.parents && node.hash == Of(block)
    ensures s.view[0].hash in s.db.td <==> s.view[0].hash.Of?
    ensures s.view[0].hash in s.db.td ==> s.db.td[s.view[0].hash] == TotalWork(s.view[0].hash)
    ensures block.parentHash in s.db.td ==> node.work + s.db.td[block.parentHash] == TotalWork(node.hash)
    ensures block.parentHash in s.db.td ==> block.parentHash.Of?
  {
    assert s.view[0] in s.view;
    TotalWorkStep(block);
  }

  /** Parent chains reach down to height `low`: a node without a parent pointer is not above it, and is
      indexed.  This holds until the index evicts a node; the pre-genesis node and the first block
      loaded at a restart never have a pointer. */
  ghost predicate Anchored(parents: map<BlockNode, BlockNode?>, queue: seq<BlockNode>, low: nat) {
    forall n | n in parents && parents[n] == null :: n.height <= low && (n.height >= 0 ==> n in queue)
  }

  /** Parent chains reach down to the bottom of the view. */
  ghost predicate Complete(s: Snapshot) {
    Anchored(s.parents, s.queue, LowOf(s.view))
  }

  lemma AnchoredAdd(parents: map<BlockNode, BlockNode?>, queue: seq<BlockNode>, low: nat, node: BlockNode,
                    parent: BlockNode)
    requires Anchored(parents, queue, low)
    ensures Anchored(parents[node := parent], queue + [node], low)
  {}

  lemma AnchoredUp(parents: map<BlockNode, BlockNode?>, queue: seq<BlockNode>, low: nat, low': nat)
    requires Anchored(parents, queue, low) && low <= low'
    ensures Anchored(parents, queue, low')
  {}

  /** The pooled blocks will all find room in the index, and the view will still reach down to `k` when
      they are connected. */
  ghost predicate Spacious(used: nat, orphans: map<Hash, OrphanBlock>, indexLimit: nat, viewLimit: nat, k: nat) {
    used + |orphans| <= indexLimit && forall h | h in orphans :: HeightOf(h) < k + viewLimit
  }

  lemma SpaciousTake(used: nat, orphans: map<Hash, OrphanBlock>, indexLimit: nat, viewLimit: nat, k: nat, h: Hash)
    requires Spacious(used, orphans, indexLimit, viewLimit, k) && h in orphans
    ensures used < indexLimit && HeightOf(h) < k + viewLimit
    ensures Spacious(used + 1, orphans - {h}, indexLimit, viewLimit, k)
  {
    SmallerMap(orphans, h);
  }

  lemma SpaciousPark(used: nat, before: map<Hash, OrphanBlock>, after: map<Hash, OrphanBlock>, indexLimit: nat,
                     viewLimit: nat, k: nat, block: Block, now: int)
    requires Spacious(used, before, indexLimit, viewLimit, k) && used + |before| < indexLimit
    requires Parked(before, after, block, now) && block.height < k + viewLimit
    ensures Spacious(used, after, indexLimit, viewLimit, k)
  {
    FewerKeys(after.Keys - {Of(block)}, before.Keys);
    assert after.Keys == (after.Keys - {Of(block)}) + {Of(block)};
  }

  /** The hashes leave the branch of the tip above height `k`. */
  ghost predicate AllShare(work: seq<Hash>, tip: Hash, k: nat) {
    forall h | h in work :: SharesAt(h, tip, k)
  }

  lemma AllShareStep(work: seq<Hash>, tip: Hash, tip': Hash, h: Hash, k: nat)
    requires AllShare(work, tip, k) && SharesAt(tip, tip', k) && SharesAt(h, tip', k)
    ensures AllShare(work + [h], tip', k)
  {}

  lemma OneShares(h: Hash, tip: Hash, k: nat)
    requires SharesAt(h, tip, k)
    ensures AllShare([h], tip, k)
  {}

  lemma AllSharePop(work: seq<Hash>, tip: Hash, k: nat)
    requires AllShare(work, tip, k) && work != []
    ensures SharesAt(work[0], tip, k) && AllShare(work[1..], tip, k)
  {}

  /** Wherever the tip went to connect `h`, it kept what the two had in common. */
  ghost predicate KeepsShared(h: Hash, tip: Hash, tip': Hash) {
    forall k: nat | SharesAt(h, tip, k) :: SharesAt(tip, tip', k)
  }

  /** The tip stays, or `h` becomes the tip. */
  lemma KeepsSharedIf(h: Hash, tip: Hash)
    ensures KeepsShared(h, tip, tip) && KeepsShared(h, tip, h)
  {}

  /** The tip stops at the highest common block or above it on the way to `h`. */
  lemma KeepsSharedPart(h: Hash, tip: Hash, tip': Hash, f: Hash)
    requires HighestCommon(f, h, tip) && Branch(f) <= Branch(tip')
    ensures KeepsShared(h, tip, tip')
  {
    forall k: nat | SharesAt(h, tip, k)
      ensures SharesAt(tip, tip', k)
    {
      SharedInCommon(f, h, tip, k);
    }
  }

  lemma ChildInTree(block: Block)
    ensures SameGenesis(Of(block), Of(block)) && (block.parentHash.Of? ==> SameGenesis(block.parentHash, Of(block)))
  {}

  /** Parent chains reach down to `k`. */
  lemma ChainReaches(s: Snapshot, node: BlockNode, k: nat)
    requires Fits(s) && Anchored(s.parents, s.queue, k) && node in s.parents && k <= node.height
    ensures node.height - k < |ParentChain(node, s.parents)|
    ensures ParentChain(node, s.parents)[node.height - k] in s.queue
  {
    var c := ParentChain(node, s.parents);
    ChainStep(node, s.parents, |c| - 1);
    ChainStep(node, s.parents, node.height - k);
  }

  /** Where the branch of a node meets the main chain at the bottom of the view, its parent chain meets
      the view. */
  lemma MeetsView(s: Snapshot, node: BlockNode) returns (i: nat)
    requires Fits(s) && Indexes(s.index, s.queue) && Descending(s.view) && Complete(s) && node in s.parents
    requires SharesAt(node.hash, s.view[0].hash, LowOf(s.view))
    ensures i < |ParentChain(node, s.parents)| && InView(ParentChain(node, s.parents)[i], s.view)
  {
    hide Branch, WellFormed, ParentChain, Fits, Indexes, Linked, InView, Anchored;
    TipFacts(s);
    NodeHeight(s, node);
    var c, low := ParentChain(node, s.parents), LowOf(s.view);
    ChainReaches(s, node, low);
    i := node.height - low;
    ChainBlock(node, s.parents, low);
    ChainStep(node, s.parents, i);
    var t := s.view[0].height - low;
    ViewBlock(s, t);
    SameHash(s, c[i], t);
  }

  /** Then there is a fork, and the view above it is intact. */
  lemma ForkExists(s: Snapshot, node: BlockNode, fork: BlockNode?)
    requires Fits(s) && Indexes(s.index, s.queue) && Descending(s.view) && Complete(s)
    requires node in s.parents && FirstShared(node, fork, ParentChain(node, s.parents), s.view)
    requires SharesAt(node.hash, s.view[0].hash, LowOf(s.view))
    ensures Intact(s, fork)
  {
    var m := MeetsView(s, node);
    var f := ForkIndex(s, fork);
    forall i | 0 <= i < |s.view| && i < s.view[0].height - fork.height
      ensures s.view[i] in s.parents && s.parents[s.view[i]] != null
    {
      assert s.view[i] in s.view && s.view[i].height > fork.height;
    }
  }

  /** A node whose branch leaves the main chain below the view never finds a fork; until the index evicts a
      node every other one does. */
  lemma ForkLostBelowView(s: Snapshot, node: BlockNode, block: Block)
    requires Fits(s) && Indexes(s.index, s.queue) && Descending(s.view)
    requires node in s.parents && node.hash == Of(block) && s.view[0].hash.Of? && block.parentHash.Of?
    requires block.parentHash != s.view[0].hash
    ensures !SharesAt(node.hash, s.view[0].hash, LowOf(s.view)) ==> ForkLost(s, node)
    ensures Complete(s) ==> (ForkLost(s, node) <==> !SharesAt(node.hash, s.view[0].hash, LowOf(s.view)))
  {
    hide Complete, SharesAt, Fits, Indexes, TotalWork, ForkLost, Intact;
    TipFacts(s);
    var fork := FirstOnChain(node, ParentChain(node, s.parents), s.view, s.parents);
    ForkLostIff(s, node, block, fork);
    if fork != null {
      ForkShared(s, node, fork);
    } else {
      NotIntact(s);
    }
    if Complete(s) && SharesAt(node.hash, s.view[0].hash, LowOf(s.view)) {
      ForkExists(s, node, fork);
    }
  }

  /** A fork inside the view lies on both branches. */
  lemma ForkShared(s: Snapshot, node: BlockNode, fork: BlockNode)
    requires Fits(s) && Indexes(s.index, s.queue) && Descending(s.view) && node in s.parents
    requires FirstShared(node, fork, ParentChain(node, s.parents), s.view)
    ensures SharesAt(node.hash, s.view[0].hash, LowOf(s.view))
  {
    hide Fits, Indexes;
    ForkIsHighestCommon(s, node, fork);
    var f := ForkIndex(s, fork);
    assert LowOf(s.view) < |Branch(fork.hash)|;
    assert Branch(node.hash)[LowOf(s.view)] == Branch(fork.hash)[LowOf(s.view)] == MainChain(s.view)[LowOf(s.view)];
  }

  lemma NotIntact(s: Snapshot)
    requires Fits(s)
    ensures !Intact(s, null)
  {}

  lemma SharedGenesis(f: Hash, g: Hash, h: Hash)
    requires HighestCommon(f, g, h) && |Branch(f)| > 0
    ensures SameGenesis(g, h) && SameGenesis(h, g) && SameGenesis(g, g) && SameGenesis(h, h)
  {
    assert Branch(g)[0] == Branch(f)[0] == Branch(h)[0];
  }

  /** There is always a first shared node, or none. */
  lemma FirstOnChain(node: BlockNode, chain: seq<BlockNode>, queue: seq<BlockNode>, parents: map<BlockNode, BlockNode?>)
    returns (fork: BlockNode?)
    requires Linked(parents) && node in parents && chain == ParentChain(node, parents)
    ensures FirstShared(node, fork, chain, queue)
  {
    var i := 0;
    while i < |chain| && !InView(chain[i], queue)
      invariant 0 <= i <= |chain| && forall j | 0 <= j < i :: !InView(chain[j], queue)
    {
      i := i + 1;
    }
    if i < |chain| {
      ChainStep(node, parents, i);
      fork := chain[i];
    } else {
      fork := null;
    }
  }

  /** Before the genesis block is connected, a new node extends the tip. */
  lemma PreGenesisTip(parents: map<BlockNode, BlockNode?>, tip: BlockNode, node: BlockNode, block: Block)
    requires Linked(parents) && node in parents && parents[node] != null && node.hash == Of(block)
    requires tip.hash.Raw? && Heaviest(parents, tip, {node})
    ensures block.parentHash == tip.hash
  {
    ParentIsOther(block);
    assert parents[node] in parents && parents[node] != node;
  }

  /** Every real node descends from the genesis block of `g`. */
  ghost predicate AllFrom(parents: map<BlockNode, BlockNode?>, g: Block) {
    forall n | n in parents && n.hash.Of? :: SameGenesis(n.hash, Of(g))
  }

  /** The branch holds the block `g` at height `k`. */
  ghost predicate FromBase(h: Hash, g: Block, k: nat) {
    k < |Branch(h)| && Branch(h)[k] == g
  }

  ghost predicate TipAbove(tip: Hash, g: Block, k: nat) {
    tip.Of? ==> FromBase(tip, g, k)
  }

  /** The base is there, or the place below a genesis block. */
  ghost predicate Based(indexed: set<Hash>, g: Block, k: nat) {
    Of(g) in indexed || (k == 0 && ZERO_HASH in indexed)
  }

  /** A well-formed block on the base has its parent above the base too, or is the base itself. */
  lemma ParentFromBase(block: Block, g: Block, k: nat)
    requires WellFormed(Of(block)) && FromBase(Of(block), g, k)
    ensures block.height >= k
    ensures if block.height == k then block == g && (k == 0 ==> block.parentHash == ZERO_HASH)
            else block.parentHash.Of? && FromBase(block.parentHash, g, k)
  {
    BranchLength(Of(block));
    BranchLength(block.parentHash);
  }

  /** With one base, a block below a known node extends the tip or shares its tree. */
  lemma OneTree(parents: map<BlockNode, BlockNode?>, tip: BlockNode, g: Block, k: nat, block: Block,
                prevNode: BlockNode)
    requires TipAbove(tip.hash, g, k) && Heaviest(parents, tip, {}) && tip in parents
    requires prevNode in parents && prevNode.hash == block.parentHash && FromBase(Of(block), g, k)
    ensures block.parentHash == tip.hash || SharesAt(Of(block), tip.hash, k)
  {}

  lemma AllFromAdd(parents: map<BlockNode, BlockNode?>, parents': map<BlockNode, BlockNode?>, node: BlockNode, g: Block,
                   k: nat)
    requires AllFrom(parents, g) && FromBase(node.hash, g, k) && parents'.Keys == parents.Keys + {node}
    ensures AllFrom(parents', g)
  {
    BranchPrefix(node.hash, k);
  }

  /** `used` index places are taken; the pooled blocks are well formed, descend from `g` and will all
      find room. */
  ghost predicate PoolHasRoom(used: nat, orphans: map<Hash, OrphanBlock>, indexLimit: nat, viewLimit: nat, g: Block,
                              k: nat) {
    && used + |orphans| <= indexLimit
    && forall h | h in orphans :: WellFormed(h) && FromBase(h, g, k) && HeightOf(h) < k + viewLimit
  }

  lemma RoomForOne(used: nat, orphans: map<Hash, OrphanBlock>, indexLimit: nat, viewLimit: nat, g: Block, k: nat,
                   h: Hash)
    requires PoolHasRoom(used, orphans, indexLimit, viewLimit, g, k) && h in orphans
    ensures used < indexLimit && WellFormed(h) && FromBase(h, g, k) && HeightOf(h) < k + viewLimit
    ensures PoolHasRoom(used + 1, orphans - {h}, indexLimit, viewLimit, g, k)
  {
    SmallerMap(orphans, h);
  }

  /** What a run may be judged by: tip, failed executions, pooled and indexed hashes. */
  datatype Summary = Summary(tip: Hash, faulted: bool, orphans: map<Hash, OrphanBlock>, indexed: set<Hash>)

  /** The hash was indexed, perhaps in place of others, and nothing else changed. */
  ghost predicate OnlyIndexed(a: Summary, b: Summary, h: Hash) {
    b == a.(indexed := b.indexed) && h in b.indexed && b.indexed <= a.indexed + {h}
  }

  /** Nothing was indexed or pooled but what was indexed or pooled before. */
  ghost predicate NoMore(a: Summary, b: Summary) {
    b.indexed + b.orphans.Keys <= a.indexed + a.orphans.Keys
  }

  /** Everything indexed lies above height `k` of the main chain. */
  ghost predicate Together(s: Summary, k: nat) {
    s.tip.Of? && forall h | h in s.indexed :: SharesAt(h, s.tip, k)
  }

  lemma TogetherStep(a: Summary, b: Summary, h: Hash, k: nat)
    requires SharesAt(a.tip, b.tip, k) && b.indexed <= a.indexed + {h} && SharesAt(h, b.tip, k)
    ensures Together(a, k) ==> Together(b, k)
  {}

  lemma KeptShared(h: Hash, tip: Hash, tip': Hash, k: nat)
    requires KeepsShared(h, tip, tip') && SharesAt(h, tip, k)
    ensures SharesAt(tip, tip', k) && SharesAt(h, tip', k)
  {
    SharesTrans(h, tip, tip', k);
  }

  /** After a block with indexed parent was looked at: what it shared with the tip it still shares. */
  lemma StillShared(a: Summary, b: Summary, block: Block, k: nat)
    requires block.parentHash in a.indexed && b.indexed <= a.indexed + {Of(block)}
    requires KeepsShared(Of(block), a.tip, b.tip)
    requires SharesAt(Of(block), a.tip, k) || (k == 0 && !(a.tip.Of? && block.parentHash.Of?))
    ensures SameGenesis(Of(block), b.tip) ==> SharesAt(Of(block), b.tip, k)
    ensures SharesAt(Of(block), a.tip, k) ==> SharesAt(Of(block), b.tip, k) && SharesAt(a.tip, b.tip, k)
    ensures Together(a, k) ==> Together(b, k)
  {
    if SharesAt(Of(block), a.tip, k) {
      KeptShared(Of(block), a.tip, b.tip, k);
      TogetherStep(a, b, Of(block), k);
    }
  }

  lemma TogetherFrame(a: Summary, b: Summary, k: nat)
    requires Together(a, k) && b.tip == a.tip && b.indexed == a.indexed
    ensures Together(b, k)
  {}

  /** As long as no execution has failed the tip advances, and orphans only leave the pool. */
  ghost predicate Progress(a: Summary, b: Summary) {
    && (a.faulted ==> b.faulted)
    && (!b.faulted ==> Advances(a.tip, b.tip))
    && (forall h | h in b.orphans :: h in a.orphans && b.orphans[h] == a.orphans[h])
  }

  lemma ProgressIf(a: Summary, b: Summary)
    requires a.faulted ==> b.faulted
    requires !b.faulted ==> Advances(a.tip, b.tip)
    requires b.orphans == a.orphans
    ensures Progress(a, b)
  {}

  /** What was indexed first does not matter for the progress. */
  lemma ProgressFrom(a: Summary, b: Summary, c: Summary)
    requires Progress(b, c) && b == a.(indexed := b.indexed)
    ensures Progress(a, c)
  {}

  lemma ProgressTip(a: Summary, b: Summary)
    requires Progress(a, b)
    ensures !b.faulted ==> Advances(a.tip, b.tip)
  {}

  /** One orphan was taken out of the pool before the step. */
  lemma ProgressTake(a: Summary, b: Summary, h: Hash)
    requires Progress(a.(orphans := a.orphans - {h}), b)
    ensures Progress(a, b)
  {}

  lemma ConservedTake(a: Summary, b: Summary, h: Hash)
    requires h in a.orphans && b.orphans == a.orphans - {h} && b.indexed == a.indexed + {h}
    ensures Conserved(a, b)
  {}

  lemma ProgressTrans(a: Summary, b: Summary, c: Summary)
    requires Progress(a, b) && Progress(b, c)
    ensures Progress(a, c)
  {
    if !c.faulted {
      AdvancesTrans(a.tip, b.tip, c.tip);
    }
  }

  /** No hash is lost: what leaves the pool is indexed, and what is indexed stays indexed. */
  ghost predicate Conserved(a: Summary, b: Summary) {
    a.indexed <= b.indexed && a.indexed + a.orphans.Keys == b.indexed + b.orphans.Keys
  }

  /** Pooled blocks whose parent is indexed all wait for a parent in `pending`. */
  ghost predicate Settled(s: Summary, pending: set<Hash>) {
    forall h | h in s.orphans && s.orphans[h].block.parentHash in s.indexed :: s.orphans[h].block.parentHash in pending
  }

  ghost function Members(work: seq<Hash>): set<Hash> {
    set h | h in work
  }

  lemma SettledStep(a: Summary, b: Summary, work: seq<Hash>, hash: Hash, child: Hash)
    requires Settled(a, Members(work) + {hash})
    requires b.orphans == a.orphans - {child} && b.indexed <= a.indexed + {child}
    ensures Settled(b, Members(work + [child]) + {hash})
  {}

  lemma ConservedRefl(a: Summary)
    ensures Conserved(a, a) && Progress(a, a)
  {}

  /** From `a` to `b` some children of `hash` have moved from the pool to the work list. */
  ghost predicate ChildrenTaken(a: Summary, work: seq<Hash>, b: Summary, work': seq<Hash>, hash: Hash) {
    && Progress(a, b)
    && |b.orphans| + |work'| == |a.orphans| + |work| && |work| <= |work'|
    && (Settled(a, Members(work) + {hash}) ==> Settled(b, Members(work') + {hash}))
  }

  lemma NoneTaken(a: Summary, work: seq<Hash>, hash: Hash)
    ensures ChildrenTaken(a, work, a, work, hash)
  {}

  lemma AllTaken(a: Summary, work: seq<Hash>, b: Summary, work': seq<Hash>, hash: Hash)
    requires ChildrenTaken(a, work, b, work', hash)
    ensures Progress(a, b) && |b.orphans| + |work'| == |a.orphans| + |work| && |work| <= |work'|
    ensures Settled(a, Members(work) + {hash}) ==>
      (forall h | h in b.orphans :: b.orphans[h].block.parentHash != hash) ==> Settled(b, Members(work'))
  {}

  lemma ChildTaken(a: Summary, work: seq<Hash>, b: Summary, work': seq<Hash>, c: Summary, hash: Hash, child: Hash)
    requires ChildrenTaken(a, work, b, work', hash) && Progress(b, c)
    requires child in b.orphans && c.orphans == b.orphans - {child} && c.indexed <= b.indexed + {child}
    ensures ChildrenTaken(a, work, c, work' + [child], hash)
  {
    ProgressTrans(a, b, c);
    SmallerMap(b.orphans, child);
    if Settled(a, Members(work) + {hash}) {
      SettledStep(b, c, work', hash, child);
    }
  }

  /** From `a` to `b` nothing was lost and the work list holds indexed hashes. */
  ghost predicate WorkIndexed(a: Summary, b: Summary, work: seq<Hash>) {
    Conserved(a, b) && forall h | h in work :: h in b.indexed
  }

  lemma WorkIndexedStep(a: Summary, b: Summary, c: Summary, work: seq<Hash>, child: Hash)
    requires WorkIndexed(a, b, work) && Conserved(b, c) && child in b.orphans && child !in c.orphans
    ensures WorkIndexed(a, c, work + [child]) && b.indexed <= c.indexed
  {}

  lemma WorkPop(a: Summary, b: Summary, work: seq<Hash>)
    requires work != []
    ensures Members(work) == Members(work[1..]) + {work[0]}
    ensures WorkIndexed(a, b, work) ==> work[0] in b.indexed && WorkIndexed(b, b, work[1..])
  {
    assert work == [work[0]] + work[1..];
  }

  lemma WorkTrans(a: Summary, b: Summary, c: Summary, work: seq<Hash>, work': seq<Hash>)
    requires WorkIndexed(a, b, work) && WorkIndexed(b, c, work')
    ensures WorkIndexed(a, c, work')
  {}

  lemma FirstWork(a: Summary, hash: Hash)
    ensures Members([hash]) == {hash} && (hash in a.indexed ==> WorkIndexed(a, a, [hash]))
  {}

  lemma LastWork(a: Summary, b: Summary, work: seq<Hash>)
    requires work == []
    ensures Members(work) == {} && (WorkIndexed(a, b, work) ==> Conserved(a, b))
  {}

  /** Indexing one hash leaves at most the orphans that waited for it. */
  lemma SettledAfter(a: Summary, b: Summary, hash: Hash)
    requires Settled(a, {}) && Progress(a, b) && b.indexed <= a.indexed + {hash}
    ensures Settled(b, {hash})
  {}

  lemma ConservedAfter(a: Summary, b: Summary, c: Summary, hash: Hash)
    requires b.indexed == a.indexed + {hash} && b.orphans == a.orphans && Conserved(b, c)
    ensures a.indexed <= c.indexed && c.indexed + c.orphans.Keys == a.indexed + a.orphans.Keys + {hash}
  {}

  /** Parking an orphan whose parent is not indexed; others may have been dropped. */
  lemma SettledPark(a: Summary, b: Summary, block: Block)
    requires Settled(a, {}) && b.indexed == a.indexed && block.parentHash !in a.indexed
    requires forall h | h in b.orphans :: if h == Of(block) then b.orphans[h].block == block
                                          else h in a.orphans && b.orphans[h] == a.orphans[h]
    ensures Settled(b, {})
  {}

  lemma RoomForPark(used: nat, orphans: map<Hash, OrphanBlock>, indexLimit: nat, viewLimit: nat, g: Block, k: nat,
                    o: OrphanBlock)
    requires PoolHasRoom(used, orphans, indexLimit, viewLimit, g, k) && Of(o.block) !in orphans
    requires used + |orphans| < indexLimit
    requires WellFormed(Of(o.block)) && FromBase(Of(o.block), g, k) && o.block.height < k + viewLimit
    ensures PoolHasRoom(used, orphans[Of(o.block) := o], indexLimit, viewLimit, g, k)
  {
    assert (orphans[Of(o.block) := o]).Keys == orphans.Keys + {Of(o.block)};
  }

  lemma RoomForNext(used: nat, orphans: map<Hash, OrphanBlock>, indexLimit: nat, viewLimit: nat, g: Block, k: nat)
    requires PoolHasRoom(used, orphans, indexLimit, viewLimit, g, k) && used + |orphans| < indexLimit
    ensures PoolHasRoom(used + 1, orphans, indexLimit, viewLimit, g, k)
  {}

  /** The main chain above the bottom of the view is indexed. */
  lemma MainChainIndexed(s: Snapshot, j: nat)
    requires Fits(s) && Indexes(s.index, s.queue) && Descending(s.view) && Complete(s)
    requires LowOf(s.view) <= j < |MainChain(s.view)|
    ensures Of(MainChain(s.view)[j]) in s.index
  {
    TipFacts(s);
    hide Branch, WellFormed, MainChain;
    var i := s.view[0].height - j;
    ViewBlock(s, i);
    assert s.view[i] in s.view;
    assert s.view[i] in s.queue;
  }

  // Restart.

  /** The known nodes are nodes of the branch of `h` up to height `k`, where the tip is. */
  ghost predicate LoadedTo(s: Snapshot, h: Hash, k: int) {
    && s.view != [] && s.view[0].height == k
    && forall n | n in s.parents ::
         0 <= n.height <= k && n.height < |Branch(h)| && n.hash == Of(Branch(h)[n.height])
  }

  /** Loading began at height `start`. */
  ghost predicate LoadedFrom(parents: map<BlockNode, BlockNode?>, start: nat) {
    forall n | n in parents :: start <= n.height
  }

  /** One node for each height from `low` to below `next`, lowest first. */
  ghost predicate InOrder(queue: seq<BlockNode>, low: nat, next: int) {
    |queue| == next - low && forall i | 0 <= i < |queue| :: queue[i].height == low + i
  }

  /** The queue after the next height: the lowest node leaves when there are too many. */
  lemma InOrderStep(queue: seq<BlockNode>, queue': seq<BlockNode>, start: nat, next: int, limit: nat, node: BlockNode)
    requires start < next && InOrder(queue, Max(start, next - limit), next) && node.height == next
    requires 1 <= limit && queue' == (if |queue| < limit then queue else queue[1..]) + [node]
    ensures InOrder(queue', Max(start, next + 1 - limit), next + 1)
    ensures next + 1 - start <= limit ==> |queue| < limit && queue' == queue + [node]
  {}

  /** The blocks of the branch from height `start` on. */
  ghost function Loaded(h: Hash, start: nat): set<Hash> {
    set j: nat | start <= j < |Branch(h)| :: Of(Branch(h)[j])
  }

  /** Everything loaded lies on one branch, so all of it shares the first block. */
  lemma LoadedTogether(s: Snapshot, sum: Summary, h: Hash, start: nat)
    requires Fits(s) && Indexes(s.index, s.queue) && WellFormed(h) && h.Of?
    requires LoadedTo(s, h, |Branch(h)| - 1) && LoadedFrom(s.parents, start)
    requires sum.tip == h && sum.indexed == s.index.Keys
    ensures Together(sum, start)
  {
    forall g | g in s.index
      ensures SharesAt(g, h, start)
    {
      var n := s.index[g];
      assert n in s.queue;
      BranchLink(h, n.height);
    }
  }

  /** The index holds exactly the loaded blocks. */
  lemma LoadedKeys(s: Snapshot, h: Hash, low: nat)
    requires Indexes(s.index, s.queue) && (forall n | n in s.queue :: n in s.parents)
    requires LoadedTo(s, h, |Branch(h)| - 1) && InOrder(s.queue, low, |Branch(h)|)
    ensures s.index.Keys == Loaded(h, low)
  {
    hide Branch;
    forall g | g in s.index
      ensures g in Loaded(h, low)
    {
      var i :| 0 <= i < |s.queue| && s.queue[i] == s.index[g];
      assert g == Of(Branch(h)[low + i]);
    }
    forall j: nat | low <= j < |Branch(h)|
      ensures Of(Branch(h)[j]) in s.index
    {
      assert s.queue[j - low] in s.queue;
    }
  }

  lemma LoadedView(s: Snapshot, h: Hash, k: int)
    requires ViewFits(s.view, s.parents, s.index) && Descending(s.view) && LoadedTo(s, h, k)
    ensures LowOf(s.view) == k + 1 - |s.view|
  {
    var last := s.view[|s.view| - 1];
    assert last in s.view && last in s.parents;
  }

  lemma LoadedTip(s: Snapshot, h: Hash, k: int)
    requires LoadedTo(s, h, k)
    ensures s.view != [] && s.view[0].height == k
  {}

  lemma LoadedIs(h: Hash, start: int, low: int)
    ensures Loaded(h, Max(Max(0, start), low)) == set j: nat | Max(start, low) <= j < |Branch(h)| :: Of(Branch(h)[j])
  {}

  /** The block at the next height is not known yet and belongs below the tip. */
  lemma LoadedFresh(s: Snapshot, h: Hash, k: nat, tip: BlockNode)
    requires Fits(s) && Indexes(s.index, s.queue) && WellFormed(h) && 0 < k < |Branch(h)| && LoadedTo(s, h, k - 1)
    requires tip == s.view[0]
    ensures Of(Branch(h)[k]) !in s.index && forall v | v in s.view :: v.hash != Of(Branch(h)[k])
    ensures tip in s.parents && tip.hash == Branch(h)[k].parentHash && tip.height + 1 == k
  {
    assert tip in s.view;
    BranchLink(h, k);
    forall n | n in s.parents
      ensures n.hash != Of(Branch(h)[k])
    {
      BranchLink(h, n.height);
    }
    hide Branch, WellFormed;
    assert forall g | g in s.index :: s.index[g] in s.queue && s.index[g].hash == g;
  }

  lemma LoadedStep(s: Snapshot, s': Snapshot, h: Hash, k: nat, node: BlockNode)
    requires LoadedTo(s, h, k - 1) && k < |Branch(h)| && node.hash == Of(Branch(h)[k]) && node.height == k
    requires s'.parents.Keys == s.parents.Keys + {node} && s'.view != [] && s'.view[0] == node
    ensures LoadedTo(s', h, k)
  {}

  /** With nothing but one branch known its top is the heaviest. */
  lemma LoadedHeaviest(s: Snapshot, h: Hash)
    requires Fits(s) && WellFormed(h) && h.Of? && LoadedTo(s, h, |Branch(h)| - 1)
    ensures s.view[0].hash == h && Heaviest(s.parents, s.view[0], {})
  {
    assert s.view[0] in s.view;
    assert Branch(h)[|Branch(h)| - 1] == h.block;
    forall n | n in s.parents
      ensures TotalWork(n.hash) <= TotalWork(h)
    {
      BranchLink(h, n.height);
      SumWorkMonotone(Branch(h), n.height + 1);
    }
  }
}
