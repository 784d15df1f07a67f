/** blockchain/chainview.go: the most recent part of the best chain, as a queue with its tip in
    front and as a map from height to node. */
module ChainViews {
  import opened BlockIndexes

  /** What a queue of limited length keeps. */
  function Window(queue: seq<BlockNode>, limit: nat): seq<BlockNode> {
    if |queue| > limit then queue[..limit] else queue
  }

  ghost predicate Descending(queue: seq<BlockNode>) {
    forall i | 0 <= i < |queue| :: queue[i].height == queue[0].height - i
  }

  /** The lowest height of a real block in a view. */
  ghost function LowOf(queue: seq<BlockNode>): nat {
    if queue == [] || queue[0].height + 1 < |queue| then 0 else queue[0].height + 1 - |queue|
  }

  function Max(a: int, b: int): int {
    if a < b then b else a
  }

  class ChainView {
    const limit: nat
    var nodes: map<int, BlockNode>
    var queue: seq<BlockNode>

    /** The queue descends one height at a time and the map is exactly its inverse. */
    ghost predicate Valid()
      reads this
    {
      && 1 <= limit && |queue| <= limit
      && Descending(queue)
      && (forall i | 0 <= i < |queue| :: queue[i].height in nodes && nodes[queue[i].height] == queue[i])
      && (forall h | h in nodes :: 0 < |queue| && queue[0].height - |queue| < h <= queue[0].height)
    }

    constructor (tip: BlockNode, limit: nat)
      requires 1 <= limit
      ensures Valid() && this.limit == limit && queue == [tip]
    {
      this.limit := limit;
      queue := [tip];
      nodes := map[tip.height := tip];
    }

    ghost function Low(): nat
      reads this
    {
      LowOf(queue)
    }

    function Tip(): (n: BlockNode?)
      reads this
    {
      if |queue| == 0 then null else queue[0]
    }

    function Height(): (h: int)
      reads this
    {
      if |queue| == 0 then -1 else queue[0].height
    }

    /** The map lookup finds exactly the queue entry of that height; the pre-genesis node at height
        -1 is never found. */
    function NodeByHeight(height: int): (n: BlockNode?)
      requires Valid()
      reads this
      ensures n == if |queue| > 0 && 0 <= height && 0 <= queue[0].height - height < |queue|
                   then queue[queue[0].height - height] else null
    {
      assert |queue| > 0 && 0 <= queue[0].height - height < |queue|
             ==> queue[queue[0].height - height].height == height;
      if height < 0 || height > Height() then null
      else if height in nodes then nodes[height]
      else null
    }

    predicate Contains(node: BlockNode)
      requires Valid()
      reads this
      ensures Contains(node) <==> InView(node, queue)
    {
      NodeByHeight(node.height) == node
    }

    /** Pushes a child of the tip and forgets what falls out of the window; any other node is
        refused and changes nothing. */
    method SetTip(node: BlockNode, parent: BlockNode?)
      requires Valid()
      requires queue != [] && parent == queue[0] ==> node.height == queue[0].height + 1
      modifies this
      ensures Valid()
      ensures old(queue) != [] && parent != old(queue[0]) ==> queue == old(queue) && nodes == old(nodes)
      ensures old(queue) == [] || parent == old(queue[0]) ==>
        queue == Window([node] + old(queue), limit) && queue != [] && queue[0] == node && queue[1..] <= old(queue)
      ensures old(queue) != [] ==> old(Low()) <= Low() <= Max(old(Low()), node.height + 1 - limit)
    {
      if |queue| != 0 {
        if parent != Tip() {
          return;
        }
      }
      queue := [node] + queue;
      nodes := nodes[node.height := node];
      if |queue| > limit {
        var back := queue[|queue| - 1];
        queue := queue[..|queue| - 1];
        nodes := nodes - {back.height};
      }
      assert queue == [node] + queue[1..];
    }

    /** Removes the entry at the node's height. */
    method DelTip(node: BlockNode)
      requires Valid() && queue != []
      modifies this
      ensures nodes == old(nodes) - {node.height}
      ensures node == old(queue[0]) ==> Valid() && queue == old(queue)[1..]
      ensures node == old(queue[0]) && queue != [] ==> Low() == old(Low())
      ensures node.height !in old(nodes) ==> Valid() && queue == old(queue)
    {
      if node.height in nodes {
        var elem := nodes[node.height];
        var i := queue[0].height - node.height;
        assert queue[i].height == node.height;
        assert elem == queue[i];
        queue := queue[..i] + queue[i + 1..];
        nodes := nodes - {node.height};
      }
    }

    lemma QueueDescends()
      requires Valid()
      ensures Descending(queue)
    {}

    lemma AboveView(m: BlockNode)
      requires Valid() && (m.height < 0 || m.height > Height())
      ensures !InView(m, queue)
    {}

    /** The first node on the parent chain that the view contains; null when there is none. */
    method FindFork(node: BlockNode, parents: map<BlockNode, BlockNode?>) returns (fork: BlockNode?)
      requires Valid()
      requires Linked(parents) && node in parents
      ensures FirstShared(node, fork, ParentChain(node, parents), queue)
    {
      hide Linked, ParentChain, ChainView.Valid, ChainView.Contains, ChainView.NodeByHeight, InView;
      ghost var c := ParentChain(node, parents);
      fork := node;
      ghost var i := 0;
      if node.height > Height() {
        fork := node.Ancestor(Height(), parents);
        i := if fork == null then |c| else node.height - Height();
        forall j | 0 <= j < i
          ensures !InView(c[j], queue)
        {
          ChainStep(node, parents, j);
          AboveView(c[j]);
        }
      }
      while fork != null && !Contains(fork)
        invariant 0 <= i <= |c|
        invariant if fork == null then i == |c| else i < |c| && c[i] == fork
        invariant forall j | 0 <= j < i :: !InView(c[j], queue)
        decreases |c| - i
      {
        ChainStep(node, parents, i);
        fork, i := parents[fork], i + 1;
      }
      if fork != null {
        ChainStep(node, parents, i);
      }
    }
  }

  /** The pre-genesis node does not count as part of the view. */
  ghost predicate InView(m: BlockNode, queue: seq<BlockNode>) {
    m.height >= 0 && m in queue
  }

  /** `fork` is the first node of the chain that is in the view, or null when there is none. */
  ghost predicate FirstShared(node: BlockNode, fork: BlockNode?, chain: seq<BlockNode>, queue: seq<BlockNode>) {
    if fork == null then forall i | 0 <= i < |chain| :: !InView(chain[i], queue)
    else
      var i := node.height - fork.height;
      && 0 <= i < |chain| && chain[i] == fork
      && InView(fork, queue)
      && forall j | 0 <= j < i :: !InView(chain[j], queue)
  }

  /** The first node of the chain that is in the view. */
  ghost function FirstIn(chain: seq<BlockNode>, queue: seq<BlockNode>): BlockNode? {
    if chain == [] then null else if InView(chain[0], queue) then chain[0] else FirstIn(chain[1..], queue)
  }

  lemma {:induction false} FirstInAt(chain: seq<BlockNode>, queue: seq<BlockNode>, i: nat)
    requires i <= |chain| && (forall j | 0 <= j < i :: !InView(chain[j], queue))
    requires i < |chain| ==> InView(chain[i], queue)
    ensures FirstIn(chain, queue) == if i < |chain| then chain[i] else null
    decreases i
  {
    if i > 0 {
      FirstInAt(chain[1..], queue, i - 1);
    }
  }

  lemma FirstSharedIs(node: BlockNode, fork: BlockNode?, chain: seq<BlockNode>, queue: seq<BlockNode>)
    requires FirstShared(node, fork, chain, queue)
    ensures fork == FirstIn(chain, queue)
  {
    FirstInAt(chain, queue, if fork == null then |chain| else node.height - fork.height);
  }
}
