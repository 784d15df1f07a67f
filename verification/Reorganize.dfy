/** What the two node lists of a reorganisation contain (getReorganizeNodes in
    blockchain/process.go), stated on values. */
module Reorganizations {
  import opened Blocks
  import opened BlockIndexes
  import opened ChainViews
  import opened ChainStates

  /** The first `k` nodes of the chain are those before `fork`, or the whole chain without it. */
  ghost predicate CutAt(chain: seq<BlockNode>, fork: BlockNode?, k: nat) {
    && k <= |chain|
    && (forall j | 0 <= j < k :: chain[j] != fork)
    && (k == |chain| || chain[k] == fork)
  }

  /** `attach` is the new branch up to the fork, lowest node first; `detach` is the tip's parent
      chain down to the fork. */
  ghost predicate ReorgLists(s: Snapshot, node: BlockNode, fork: BlockNode?,
                        detach: seq<BlockNode>, attach: seq<BlockNode>)
    requires Fits(s) && node in s.parents
  {
    var c := ParentChain(node, s.parents);
    var d := ParentChain(Tip(s), s.parents);
    && FirstShared(node, fork, c, s.view)
    && CutAt(c, fork, |attach|)
    && (forall i | 0 <= i < |attach| :: attach[i] == c[|attach| - 1 - i])
    && CutAt(d, fork, |detach|)
    && detach == d[..|detach|]
  }

  /** First loop of getReorganizeNodes: every node before the fork is pushed to the front. */
  method CollectAttach(node: BlockNode, fork: BlockNode?, parents: map<BlockNode, BlockNode?>)
    returns (attach: seq<BlockNode>)
    requires Linked(parents) && node in parents
    ensures var c := ParentChain(node, parents);
      CutAt(c, fork, |attach|) && forall i | 0 <= i < |attach| :: attach[i] == c[|attach| - 1 - i]
  {
    hide Linked, ParentChain;
    ghost var c := ParentChain(node, parents);
    attach := [];
    var n: BlockNode? := node;
    while n != null && n != fork
      invariant |attach| <= |c|
      invariant forall i | 0 <= i < |attach| :: attach[i] == c[|attach| - 1 - i]
      invariant if n == null then |attach| == |c| else |attach| < |c| && c[|attach|] == n
      invariant forall j | 0 <= j < |attach| :: c[j] != fork
      decreases |c| - |attach|
    {
      ChainStep(node, parents, |attach|);
      attach := [n] + attach;
      n := parents[n];
    }
  }

  /** Second loop: the same walk from the tip, pushed to the back. */
  method CollectDetach(tip: BlockNode, fork: BlockNode?, parents: map<BlockNode, BlockNode?>)
    returns (detach: seq<BlockNode>)
    requires Linked(parents) && tip in parents
    ensures var d := ParentChain(tip, parents); CutAt(d, fork, |detach|) && detach == d[..|detach|]
  {
    hide Linked, ParentChain;
    ghost var d := ParentChain(tip, parents);
    detach := [];
    var n: BlockNode? := tip;
    while n != null && n != fork
      invariant |detach| <= |d| && detach == d[..|detach|]
      invariant if n == null then |detach| == |d| else |detach| < |d| && d[|detach|] == n
      invariant forall j | 0 <= j < |detach| :: d[j] != fork
      decreases |d| - |detach|
    {
      ChainStep(tip, parents, |detach|);
      detach := detach + [n];
      n := parents[n];
    }
  }

  /** The blocks belong to the nodes, one by one, up to the first node that has no block. */
  ghost predicate Aligned(nodes: seq<BlockNode>, blocks: seq<Block>) {
    && |blocks| <= |nodes|
    && (forall i | 0 <= i < |blocks| :: nodes[i].hash == Of(blocks[i]))
    && (|blocks| < |nodes| ==> nodes[|blocks|].hash.Raw?)
  }

  lemma AlignedAll(nodes: seq<BlockNode>, blocks: seq<Block>)
    requires Aligned(nodes, blocks) && forall i | 0 <= i < |nodes| :: nodes[i].hash.Of?
    ensures |blocks| == |nodes| && forall i | 0 <= i < |nodes| :: nodes[i].hash == Of(blocks[i])
  {}

  ghost function Tip(s: Snapshot): (n: BlockNode)
    requires Fits(s)
    ensures n in s.parents && s.view != [] && n == s.view[0]
  {
    assert s.view[0] in s.view;
    s.view[0]
  }

  lemma ListsFork(s: Snapshot, node: BlockNode, fork: BlockNode?, detach: seq<BlockNode>, attach: seq<BlockNode>)
    requires Fits(s) && node in s.parents && ReorgLists(s, node, fork, detach, attach)
    ensures FirstShared(node, fork, ParentChain(node, s.parents), s.view)
  {}

  /** As far as both reach, the tip's parent chain is the view. */
  lemma {:induction false} ChainIsView(s: Snapshot, i: nat)
    requires Fits(s) && i < |ParentChain(Tip(s), s.parents)| && i < |s.view|
    ensures ParentChain(Tip(s), s.parents)[i] == s.view[i]
  {
    if i > 0 {
      ChainIsView(s, i - 1);
      ChainStep(Tip(s), s.parents, i - 1);
      assert Follows(s.view[i - 1], s.view[i], s.parents);
    }
  }

  /** A view node carries the block of the main chain at its height. */
  lemma {:induction false} ViewBranch(s: Snapshot, i: nat)
    requires Fits(s) && i < |s.view|
    ensures i <= |MainChain(s.view)|
    ensures Branch(s.view[i].hash) == MainChain(s.view)[..|MainChain(s.view)| - i]
  {
    if i > 0 {
      ViewBranch(s, i - 1);
      assert Follows(s.view[i - 1], s.view[i], s.parents);
      var b := s.view[i - 1].hash.block;
      assert Branch(s.view[i - 1].hash) == Branch(s.view[i].hash) + [b];
      assert Branch(s.view[i].hash) == Branch(s.view[i - 1].hash)[..|Branch(s.view[i - 1].hash)| - 1];
    }
  }

  /** Each view node at a height of 0 or more is the node of the main chain's block there. */
  lemma ViewBlock(s: Snapshot, i: nat)
    requires Fits(s) && Descending(s.view) && i < |s.view| && s.view[i].height >= 0
    ensures s.view[i].height < |MainChain(s.view)|
    ensures s.view[i].hash == Of(MainChain(s.view)[s.view[i].height])
  {
    var k := s.view[i].height;
    TipFacts(s);
    ViewBranch(s, i);
    assert s.view[i] in s.view;
    BranchLength(s.view[i].hash);
    assert Branch(s.view[i].hash)[k] == MainChain(s.view)[k];
  }

  /** The attach list is the path of linked, indexed nodes from the fork to the new node. */
  lemma AttachPath(s: Snapshot, node: BlockNode, fork: BlockNode, detach: seq<BlockNode>, attach: seq<BlockNode>,
                   i: nat)
    requires Fits(s) && node in s.parents && ReorgLists(s, node, fork, detach, attach) && i < |attach|
    ensures |attach| == node.height - fork.height
    ensures attach[i] in s.queue && attach[i] in s.parents
    ensures s.parents[attach[i]] == if i == 0 then fork else attach[i - 1]
    ensures attach[i].height == fork.height + 1 + i
    ensures attach[|attach| - 1] == node
  {
    var c := ParentChain(node, s.parents);
    var k := node.height - fork.height;
    ChainStep(node, s.parents, k);
    forall j | 0 <= j < k
      ensures c[j] != fork
    {
      ChainStep(node, s.parents, j);
    }
    assert |attach| == k;
    ChainStep(node, s.parents, k - 1 - i);
  }

  /** The i-th node of a path that starts above `fork` is indexed and points to its predecessor. */
  ghost predicate OnPath(s: Snapshot, fork: BlockNode, nodes: seq<BlockNode>, i: nat)
    requires i < |nodes|
  {
    && nodes[i] in s.queue && nodes[i] in s.parents
    && s.parents[nodes[i]] == if i == 0 then fork else nodes[i - 1]
  }

  ghost predicate IsPath(s: Snapshot, fork: BlockNode, nodes: seq<BlockNode>) {
    nodes != [] && forall i | 0 <= i < |nodes| :: OnPath(s, fork, nodes, i)
  }

  lemma AttachIsPath(s: Snapshot, node: BlockNode, fork: BlockNode, detach: seq<BlockNode>, attach: seq<BlockNode>)
    requires Fits(s) && node in s.parents && ReorgLists(s, node, fork, detach, attach) && !InView(node, s.view)
    ensures IsPath(s, fork, attach) && attach != [] && attach[|attach| - 1] == node
    ensures forall n | n in attach :: n.height <= node.height && n != fork
  {
    assert attach != [];
    forall i | 0 <= i < |attach|
      ensures OnPath(s, fork, attach, i) && attach[i].height <= node.height && attach[i] != fork
    {
      AttachPath(s, node, fork, detach, attach, i);
    }
    AttachPath(s, node, fork, detach, attach, 0);
  }

  lemma AllButLast(nodes: seq<BlockNode>)
    requires nodes != []
    ensures forall n | n in nodes[..|nodes| - 1] :: n in nodes
  {
    assert nodes == nodes[..|nodes| - 1] + [nodes[|nodes| - 1]];
  }

  /** The attached nodes lie above the fork. */
  lemma AttachAbove(s: Snapshot, node: BlockNode, fork: BlockNode, detach: seq<BlockNode>, attach: seq<BlockNode>)
    requires Fits(s) && node in s.parents && ReorgLists(s, node, fork, detach, attach)
    ensures forall n | n in attach :: Branch(fork.hash) <= Branch(n.hash)
  {
    hide Branch, Fits, ParentChain, InView;
    TipFacts(s);
    ChainBranch(node, s.parents, node.height - fork.height);
    forall i | 0 <= i < |attach|
      ensures Branch(fork.hash) <= Branch(attach[i].hash)
    {
      AttachPath(s, node, fork, detach, attach, i);
      ChainBranch(node, s.parents, |attach| - 1 - i);
    }
  }

  /** The nodes above the fork all have their parent pointers, and there is a fork. */
  ghost predicate Intact(s: Snapshot, fork: BlockNode?)
    requires Fits(s)
  {
    && fork != null
    && forall i | 0 <= i < |s.view| && i < Tip(s).height - fork.height ::
         s.view[i] in s.parents && s.parents[s.view[i]] != null
  }

  /** The node where the parent chain of `node` meets the view. */
  ghost function ForkOf(s: Snapshot, node: BlockNode): BlockNode?
    requires Fits(s) && node in s.parents
  {
    FirstIn(ParentChain(node, s.parents), s.view)
  }

  /** Connecting `node` needs a fork that is not there: a real block that does not extend the real tip meets
      the view nowhere, or carries more work but the view above the fork is not intact. */
  ghost predicate ForkLost(s: Snapshot, node: BlockNode)
    requires Fits(s) && node in s.parents
  {
    && Tip(s).hash.Of? && node.hash.Of? && node.hash.block.parentHash.Of?
    && node.hash.block.parentHash != Tip(s).hash
    && if TotalWork(node.hash) <= TotalWork(Tip(s).hash) then ForkOf(s, node) == null else !Intact(s, ForkOf(s, node))
  }

  lemma ForkLostIff(s: Snapshot, node: BlockNode, block: Block, fork: BlockNode?)
    requires Fits(s) && node in s.parents && node.hash == Of(block) && Tip(s).hash.Of? && block.parentHash.Of?
    requires block.parentHash != Tip(s).hash && FirstShared(node, fork, ParentChain(node, s.parents), s.view)
    ensures ForkOf(s, node) == fork
    ensures ForkLost(s, node) <==>
      if TotalWork(node.hash) <= TotalWork(Tip(s).hash) then fork == null else !Intact(s, fork)
  {
    FirstSharedIs(node, fork, ParentChain(node, s.parents), s.view);
  }

  lemma NotForkLost(s: Snapshot, node: BlockNode, block: Block)
    requires Fits(s) && node in s.parents && node.hash == Of(block)
    ensures ForkLost(s, node) ==> Tip(s).hash.Of? && block.parentHash.Of? && block.parentHash != Tip(s).hash
  {}

  /** The detach list is the front of the view.  It stops short of the fork only where an evicted
      node has lost its parent pointer. */
  lemma DetachFront(s: Snapshot, node: BlockNode, fork: BlockNode, detach: seq<BlockNode>, attach: seq<BlockNode>)
    requires Fits(s) && Descending(s.view) && node in s.parents && ReorgLists(s, node, fork, detach, attach)
    ensures var m := Tip(s).height - fork.height;
      && 0 <= m < |s.view| && s.view[m] == fork
      && |detach| <= m && detach == s.view[..|detach|]
      && (|detach| < m ==> detach != [] && s.parents[s.view[|detach| - 1]] == null)
  {
    var d := ParentChain(Tip(s), s.parents);
    var m := Tip(s).height - fork.height;
    var f :| 0 <= f < |s.view| && s.view[f] == fork;
    assert f == m;
    if m < |d| {
      ChainIsView(s, m);
      assert |detach| <= m;
    }
    forall j | 0 <= j < |detach|
      ensures detach[j] == s.view[j]
    {
      ChainIsView(s, j);
    }
    if |detach| < m {
      ChainStep(Tip(s), s.parents, |detach| - 1);
      ChainIsView(s, |detach| - 1);
      if |detach| < |d| {
        ChainIsView(s, |detach|);
      }
    }
  }

  /** Where the i-th node to detach sits: in the view as far as the view reaches, with its parent
      pointer leading to the next node, to the fork, or nowhere at the very end. */
  lemma DetachAt(s: Snapshot, node: BlockNode, fork: BlockNode?, detach: seq<BlockNode>, attach: seq<BlockNode>,
                 i: nat)
    requires Fits(s) && node in s.parents && ReorgLists(s, node, fork, detach, attach) && i < |detach|
    ensures detach[i] in s.parents && detach[i].height == Tip(s).height - i
    ensures detach[i].hash.Raw? ==> i == |detach| - 1
    ensures i < |s.view| ==> detach[i] == s.view[i]
    ensures s.parents[detach[i]] ==
            if i + 1 < |detach| then detach[i + 1]
            else if |detach| < |ParentChain(Tip(s), s.parents)| then fork
            else null
  {
    ChainStep(Tip(s), s.parents, i);
    if i + 1 < |detach| {
      ChainStep(Tip(s), s.parents, i + 1);
    }
    if i < |s.view| {
      ChainIsView(s, i);
    }
  }

  /** One step of the detach loop: an intact view leads on to the next view node. */
  lemma DetachStep(s: Snapshot, node: BlockNode, fork: BlockNode?, detach: seq<BlockNode>, attach: seq<BlockNode>,
                   i: nat)
    requires Fits(s) && Descending(s.view)
    requires node in s.parents && ReorgLists(s, node, fork, detach, attach) && i < |detach| && i < |s.view|
    ensures detach[i] in s.parents && detach[i] == s.view[i]
    ensures detach[i].hash.Raw? ==> i == |detach| - 1
    ensures Intact(s, fork) ==> detach[i].hash.Of? && s.parents[detach[i]] != null && i + 1 < |s.view|
    ensures s.parents[detach[i]] != null && i + 1 < |s.view| && s.view[i + 1].hash.Raw? ==>
      i + 1 < |detach| && detach[i + 1] == s.view[i + 1]
  {
    DetachAt(s, node, fork, detach, attach, i);
    if Intact(s, fork) {
      DetachFront(s, node, fork, detach, attach);
    }
    if s.parents[detach[i]] != null && i + 1 < |s.view| {
      assert Follows(s.view[i], s.view[i + 1], s.parents);
      assert s.parents[detach[i]] == s.view[i + 1];
    }
  }

  /** The end of the detach loop: the view that is left starts at the fork. */
  lemma DetachDone(s: Snapshot, node: BlockNode, fork: BlockNode?, detach: seq<BlockNode>, attach: seq<BlockNode>)
    requires Fits(s) && Descending(s.view)
    requires node in s.parents && ReorgLists(s, node, fork, detach, attach) && |detach| < |s.view|
    requires forall j | 0 <= j < |detach| :: detach[j] in s.parents && s.parents[detach[j]] != null
    ensures Intact(s, fork) && s.view[|detach|] == fork
  {
    var d := ParentChain(Tip(s), s.parents);
    var k := |detach|;
    if k == |d| {
      ChainStep(Tip(s), s.parents, k - 1);
      assert false;
    }
    ChainIsView(s, k);
    forall i | 0 <= i < k
      ensures s.parents[s.view[i]] != null
    {
      DetachAt(s, node, fork, detach, attach, i);
    }
  }

  /** The listed nodes are known, and only the pre-genesis node at the very end of the detach list
      may have no block. */
  lemma ListsLoadable(s: Snapshot, node: BlockNode, fork: BlockNode?, detach: seq<BlockNode>, attach: seq<BlockNode>)
    requires Fits(s) && node in s.parents && ReorgLists(s, node, fork, detach, attach)
    ensures forall n | n in detach || n in attach :: n in s.parents
    ensures forall i | 0 <= i < |detach| - 1 :: detach[i].hash.Of?
    ensures fork != null ==> forall i | 0 <= i < |attach| :: attach[i].hash.Of?
  {
    forall i | 0 <= i < |detach|
      ensures detach[i] in s.parents && (i < |detach| - 1 ==> detach[i].hash.Of?)
    {
      DetachAt(s, node, fork, detach, attach, i);
    }
    forall i | 0 <= i < |attach|
      ensures attach[i] in s.parents && (fork != null ==> attach[i].hash.Of?)
    {
      ChainStep(node, s.parents, |attach| - 1 - i);
      if fork != null {
        AttachPath(s, node, fork, detach, attach, i);
      }
    }
  }

  /** Being a path depends on pointers and index only. */
  lemma PathFrame(s: Snapshot, s': Snapshot, fork: BlockNode, nodes: seq<BlockNode>)
    requires IsPath(s, fork, nodes) && s'.parents == s.parents && s'.queue == s.queue
    ensures IsPath(s', fork, nodes)
  {
    assert forall i | 0 <= i < |nodes| :: OnPath(s, fork, nodes, i) ==> OnPath(s', fork, nodes, i);
  }

  /** An indexed node whose hash is in the view is in the view. */
  lemma SameHash(s: Snapshot, n: BlockNode, i: nat)
    requires Fits(s) && Indexes(s.index, s.queue) && i < |s.view|
    requires n in s.queue && n.hash == s.view[i].hash && s.view[i].height >= 0
    ensures InView(n, s.view)
  {
    assert s.view[i] in s.view;
    assert s.view[i] == n;
  }

  /** A node below another one on its parent chain still has its pointer, so it is indexed. */
  lemma ChainIndexed(s: Snapshot, node: BlockNode, j: nat)
    requires Fits(s) && node in s.parents && j + 1 < |ParentChain(node, s.parents)|
    ensures ParentChain(node, s.parents)[j] in s.queue
  {
    ChainStep(node, s.parents, j);
  }

  lemma ForkIndex(s: Snapshot, fork: BlockNode) returns (f: nat)
    requires InView(fork, s.view)
    ensures f < |s.view| && s.view[f] == fork
  {
    f :| 0 <= f < |s.view| && s.view[f] == fork;
  }

  /** Above the fork the new branch and the main chain share no block. */
  lemma NoSharedBlock(s: Snapshot, node: BlockNode, fork: BlockNode, k: nat)
    requires Fits(s) && Indexes(s.index, s.queue) && Descending(s.view) && node in s.parents
    requires FirstShared(node, fork, ParentChain(node, s.parents), s.view)
    requires fork.height < k < |Branch(node.hash)| && k < |MainChain(s.view)|
    ensures Branch(node.hash)[k] != MainChain(s.view)[k]
  {
    hide Fits, Indexes, Branch, WellFormed, ParentChain, MainChain, Linked, InView;
    TipFacts(s);
    NodeHeight(s, node);
    var f := ForkIndex(s, fork);
    var i, j := Tip(s).height - k, node.height - k;
    assert i < f && j + 1 < |ParentChain(node, s.parents)|;
    ViewBlock(s, i);
    ChainBlock(node, s.parents, k);
    ChainIndexed(s, node, j);
    var n := ParentChain(node, s.parents)[j];
    if n.hash == s.view[i].hash {
      SameHash(s, n, i);
    }
  }

  lemma NodeHeight(s: Snapshot, node: BlockNode)
    requires Fits(s) && node in s.parents
    ensures |Branch(node.hash)| == node.height + 1
  {
    BranchLength(node.hash);
  }

  /** The fork is the highest common ancestor of the new node and the old tip. */
  lemma ForkIsHighestCommon(s: Snapshot, node: BlockNode, fork: BlockNode)
    requires Fits(s) && Indexes(s.index, s.queue) && Descending(s.view) && node in s.parents
    requires FirstShared(node, fork, ParentChain(node, s.parents), s.view)
    ensures HighestCommon(fork.hash, node.hash, Tip(s).hash)
    ensures |Branch(fork.hash)| == fork.height + 1 > 0
  {
    hide Fits, HighestCommon;
    var f :| 0 <= f < |s.view| && s.view[f] == fork;
    ViewBranch(s, f);
    ForkHeight(s, node, fork);
    var k := |Branch(fork.hash)|;
    if k < |Branch(node.hash)| && k < |MainChain(s.view)| {
      NoSharedBlock(s, node, fork, k);
    }
    HighestCommonIf(fork.hash, node.hash, Tip(s).hash);
  }

  lemma ForkHeight(s: Snapshot, node: BlockNode, fork: BlockNode)
    requires Fits(s) && node in s.parents
    requires FirstShared(node, fork, ParentChain(node, s.parents), s.view)
    ensures |Branch(fork.hash)| == fork.height + 1
    ensures Branch(fork.hash) <= Branch(node.hash)
  {
    ChainBranch(node, s.parents, node.height - fork.height);
    BranchLength(fork.hash);
  }
}
