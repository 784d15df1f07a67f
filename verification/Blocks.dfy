/** Blocks, their hashes and the branch of ancestors behind a hash.
    The hash is idealised: the hash of a block is the block itself, wrapped.  Hashes are therefore
    collision-free and parent links cannot form a cycle.  `Raw` stands for the byte strings that
    are the hash of no block, among them the 32 zero bytes that precede the genesis block. */
module Blocks {

  datatype Hash = Raw(tag: nat) | Of(block: Block)

  /** `work` is what difficulty.CalcWork makes of the difficulty bits, `payload` everything else. */
  datatype Block = Block(parentHash: Hash, height: int, work: nat, payload: nat)

  const ZERO_HASH: Hash := Raw(0)

  /** The height of the block behind a hash; the pre-genesis position has height -1. */
  function HeightOf(h: Hash): int {
    if h.Of? then h.block.height else -1
  }

  /** Heights count up from a genesis block at height 0 whose parent is the zero hash. */
  ghost predicate WellFormed(h: Hash) {
    match h
    case Raw(_) => h == ZERO_HASH
    case Of(b) => WellFormed(b.parentHash) && b.height == HeightOf(b.parentHash) + 1
  }

  /** The ancestors of a hash, oldest first, the block itself last. */
  ghost function Branch(h: Hash): seq<Block> {
    match h
    case Raw(_) => []
    case Of(b) => Branch(b.parentHash) + [b]
  }

  ghost function SumWork(s: seq<Block>): nat {
    if s == [] then 0 else SumWork(s[..|s| - 1]) + s[|s| - 1].work
  }

  /** Total difficulty: the work of a block and of all its ancestors. */
  ghost function TotalWork(h: Hash): nat {
    SumWork(Branch(h))
  }

  ghost predicate SameGenesis(g: Hash, h: Hash) {
    Branch(g) != [] && Branch(h) != [] && Branch(g)[0] == Branch(h)[0]
  }

  /** Both branches hold the same block at height `k`. */
  ghost predicate SharesAt(g: Hash, h: Hash, k: nat) {
    k < |Branch(g)| && k < |Branch(h)| && Branch(g)[k] == Branch(h)[k]
  }

  /** `f` is the highest block that lies on both branches. */
  ghost predicate HighestCommon(f: Hash, g: Hash, h: Hash) {
    && Branch(f) <= Branch(g)
    && Branch(f) <= Branch(h)
    && forall x: Hash :: Branch(x) <= Branch(g) && Branch(x) <= Branch(h) ==> |Branch(x)| <= |Branch(f)|
  }

  lemma TotalWorkStep(b: Block)
    ensures TotalWork(Of(b)) == TotalWork(b.parentHash) + b.work
  {
    assert Branch(Of(b))[..|Branch(Of(b))| - 1] == Branch(b.parentHash);
  }

  lemma ParentIsOther(b: Block)
    ensures b.parentHash != Of(b)
  {
    assert |Branch(Of(b))| == |Branch(b.parentHash)| + 1;
  }

  lemma {:induction false} BranchLength(h: Hash)
    requires WellFormed(h)
    ensures |Branch(h)| == HeightOf(h) + 1
  {
    if h.Of? {
      BranchLength(h.block.parentHash);
    }
  }

  /** The blocks of a well-formed branch sit at their heights, are linked by parent hashes and have the
      branch below them as their own. */
  lemma {:induction false} BranchLink(h: Hash, i: nat)
    requires WellFormed(h) && i < |Branch(h)|
    ensures var b := Branch(h)[i];
      && WellFormed(Of(b)) && b.height == i && Branch(Of(b)) == Branch(h)[..i + 1]
      && b.parentHash == if i == 0 then ZERO_HASH else Of(Branch(h)[i - 1])
    decreases h
  {
    var p := h.block.parentHash;
    BranchLength(h);
    BranchLength(p);
    if i < |Branch(p)| {
      BranchLink(p, i);
      assert Branch(h)[..i + 1] == Branch(p)[..i + 1];
    } else {
      assert Branch(h)[..i + 1] == Branch(h);
    }
  }

  /** Every block has the branch below it as its own. */
  lemma {:induction false} BranchPrefix(h: Hash, i: nat)
    requires i < |Branch(h)|
    ensures Branch(Of(Branch(h)[i])) == Branch(h)[..i + 1]
    decreases h
  {
    var p := h.block.parentHash;
    if i < |Branch(p)| {
      BranchPrefix(p, i);
      assert Branch(h)[..i + 1] == Branch(p)[..i + 1];
    } else {
      assert Branch(h)[..i + 1] == Branch(h);
    }
  }

  /** Branches that share a block share everything below it. */
  lemma SharesBelow(g: Hash, h: Hash, k: nat, i: nat)
    requires SharesAt(g, h, k) && i <= k
    ensures SharesAt(g, h, i)
  {
    BranchPrefix(g, k);
    BranchPrefix(h, k);
    assert Branch(g)[..k + 1][i] == Branch(h)[..k + 1][i];
  }

  lemma SharesTrans(f: Hash, g: Hash, h: Hash, k: nat)
    requires SharesAt(f, g, k) && SharesAt(g, h, k)
    ensures SharesAt(f, h, k) && SharesAt(g, f, k)
  {}

  lemma SharesSelf(g: Hash, h: Hash, k: nat)
    requires SharesAt(g, h, k)
    ensures SharesAt(h, h, k)
  {}

  lemma SharesChild(block: Block, h: Hash, k: nat)
    requires SharesAt(block.parentHash, h, k)
    ensures SharesAt(Of(block), h, k)
  {}

  /** The highest common block is at least as high as any shared one. */
  lemma SharedInCommon(f: Hash, g: Hash, h: Hash, k: nat)
    requires HighestCommon(f, g, h) && SharesAt(g, h, k)
    ensures k < |Branch(f)|
  {
    BranchPrefix(g, k);
    BranchPrefix(h, k);
    var x := Of(Branch(g)[k]);
    assert Branch(x) <= Branch(g) && Branch(x) <= Branch(h);
  }

  /** More blocks never mean less work. */
  lemma {:induction false} SumWorkMonotone(s: seq<Block>, i: nat)
    requires i <= |s|
    ensures SumWork(s[..i]) <= SumWork(s)
  {
    if i < |s| {
      SumWorkMonotone(s[..|s| - 1], i);
      assert s[..|s| - 1][..i] == s[..i];
    } else {
      assert s[..i] == s;
    }
  }

  /** A common ancestor above which the branches hold different blocks is the highest one. */
  lemma HighestCommonIf(f: Hash, g: Hash, h: Hash)
    requires Branch(f) <= Branch(g) && Branch(f) <= Branch(h)
    requires var k := |Branch(f)|; k == |Branch(g)| || k == |Branch(h)| || Branch(g)[k] != Branch(h)[k]
    ensures HighestCommon(f, g, h)
  {
    var k := |Branch(f)|;
    assert forall x: Hash :: Branch(x) <= Branch(g) && Branch(x) <= Branch(h) && |Branch(x)| > k
                             ==> Branch(x)[k] == Branch(g)[k] == Branch(h)[k];
  }
}
