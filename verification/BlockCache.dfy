/** blockchain/cache.go: the most recent blocks by height and by hash, and the transactions in them. */
module BlockCaches {
  import opened Options
  import opened LocalIndexes

  /** Blocks with different keys in both maps. */
  ghost predicate Keyed(b: BlockDetail, c: BlockDetail) {
    b.height != c.height && b.hash != c.hash
  }

  ghost predicate AllKeyed(queue: seq<BlockDetail>) {
    forall i, j | 0 <= i < j < |queue| :: Keyed(queue[i], queue[j])
  }

  ghost predicate HasTx(b: BlockDetail, hash: TxHash) {
    exists i :: 0 <= i < |b.txs| && b.txs[i].hash == hash
  }

  /** Some queued block holds the transaction. */
  ghost predicate Holds(queue: seq<BlockDetail>, tx: TxHash) {
    exists b :: b in queue && HasTx(b, tx)
  }

  /** The two maps find exactly the queued blocks. */
  ghost predicate Mapped(queue: seq<BlockDetail>, cache: map<int, BlockDetail>, cacheHash: map<string, BlockDetail>) {
    && (forall b | b in queue ::
          && b.height in cache && cache[b.height] == b
          && b.hash in cacheHash && cacheHash[b.hash] == b)
    && (forall h | h in cache :: cache[h] in queue && cache[h].height == h)
    && (forall h | h in cacheHash :: cacheHash[h] in queue && cacheHash[h].hash == h)
  }

  /** The set holds exactly the transactions of the queued blocks. */
  ghost predicate TxsMatch(queue: seq<BlockDetail>, cacheTxs: set<TxHash>) {
    forall tx :: tx in cacheTxs <==> Holds(queue, tx)
  }

  /** A queued block holds the transaction, but the set does not. */
  ghost predicate Missed(queue: seq<BlockDetail>, cacheTxs: set<TxHash>, tx: TxHash) {
    Holds(queue, tx) && tx !in cacheTxs
  }

  function TxHashes(b: BlockDetail): set<TxHash> {
    set tx | tx in b.txs :: tx.hash
  }

  lemma TxHashesAre(b: BlockDetail, hash: TxHash)
    ensures hash in TxHashes(b) <==> HasTx(b, hash)
  {
    if hash in TxHashes(b) {
      var tx :| tx in b.txs && tx.hash == hash;
      var i :| 0 <= i < |b.txs| && b.txs[i] == tx;
    }
  }

  lemma HoldsPush(queue: seq<BlockDetail>, b: BlockDetail, tx: TxHash)
    ensures Holds(queue + [b], tx) <==> Holds(queue, tx) || tx in TxHashes(b)
  {
    TxHashesAre(b, tx);
    if HasTx(b, tx) {
      assert b in queue + [b];
    }
    if c :| c in queue && HasTx(c, tx) {
      assert c in queue + [b];
    }
  }

  /** Entering a block keeps the maps exact if and only if its keys are new. */
  lemma AddIff(queue: seq<BlockDetail>, cache: map<int, BlockDetail>, cacheHash: map<string, BlockDetail>,
               b: BlockDetail)
    requires Mapped(queue, cache, cacheHash) && b !in queue
    ensures Mapped(queue + [b], cache[b.height := b], cacheHash[b.hash := b]) <==> forall c | c in queue :: Keyed(c, b)
  {
    var queue', cache', cacheHash' := queue + [b], cache[b.height := b], cacheHash[b.hash := b];
    if c :| c in queue && !Keyed(c, b) {
      assert c in queue' && (cache'[c.height] != c || cacheHash'[c.hash] != c);
    }
  }

  /** The transactions are exact after entering a block if they were before. */
  lemma AddTxs(queue: seq<BlockDetail>, cacheTxs: set<TxHash>, b: BlockDetail)
    ensures forall tx :: Missed(queue + [b], cacheTxs + TxHashes(b), tx) <==>
                         Missed(queue, cacheTxs, tx) && tx !in TxHashes(b)
    ensures forall tx | Missed(queue, cacheTxs, tx) :: Holds(queue + [b], tx)
    ensures (forall tx | tx in cacheTxs :: Holds(queue, tx)) ==>
      forall tx | tx in cacheTxs + TxHashes(b) :: Holds(queue + [b], tx)
  {
    forall tx
      ensures Holds(queue + [b], tx) <==> Holds(queue, tx) || tx in TxHashes(b)
    {
      HoldsPush(queue, b, tx);
    }
  }

  /** Removing a queued block keeps the maps exact. */
  lemma RemoveMapped(queue: seq<BlockDetail>, cache: map<int, BlockDetail>, cacheHash: map<string, BlockDetail>, i: nat)
    requires AllKeyed(queue) && Mapped(queue, cache, cacheHash) && i < |queue|
    ensures var b, rest := queue[i], queue[..i] + queue[i + 1..];
      && AllKeyed(rest) && Mapped(rest, cache - {b.height}, cacheHash - {b.hash})
      && (forall c :: c in rest <==> c in queue && c != b)
  {
    var b, rest := queue[i], queue[..i] + queue[i + 1..];
    Rest(queue, i);
    forall c | c in queue && c != b
      ensures Keyed(c, b)
    {
      OthersKeyed(queue, i, c);
    }
  }

  /** With a block go its transactions, also those that another block holds: afterwards these are missed
      in addition to what was missed before. */
  lemma RemoveTxs(queue: seq<BlockDetail>, rest: seq<BlockDetail>, cacheTxs: set<TxHash>, b: BlockDetail)
    requires forall c :: c in queue <==> c in rest || c == b
    ensures forall tx :: Missed(rest, cacheTxs - TxHashes(b), tx) <==>
                         Holds(rest, tx) && (Missed(queue, cacheTxs, tx) || tx in TxHashes(b))
    ensures (forall tx | tx in cacheTxs :: Holds(queue, tx)) ==>
      forall tx | tx in cacheTxs - TxHashes(b) :: Holds(rest, tx)
  {
    forall tx
      ensures Holds(queue, tx) <==> Holds(rest, tx) || tx in TxHashes(b)
    {
      TxHashesAre(b, tx);
      if c :| c in queue && HasTx(c, tx) {
        assert c in rest || c == b;
      }
      if c :| c in rest && HasTx(c, tx) {
        assert c in queue;
      }
      assert b in queue;
    }
  }

  /** So the transactions stay exact if and only if no block that stays shares one with it. */
  lemma RemoveTxsIff(queue: seq<BlockDetail>, rest: seq<BlockDetail>, cacheTxs: set<TxHash>, b: BlockDetail)
    requires TxsMatch(queue, cacheTxs) && forall c :: c in queue <==> c in rest || c == b
    ensures TxsMatch(rest, cacheTxs - TxHashes(b)) <==> forall c | c in rest :: TxHashes(c) !! TxHashes(b)
  {
    RemoveTxs(queue, rest, cacheTxs, b);
    forall tx, c | c in rest && tx in TxHashes(c)
      ensures Holds(rest, tx)
    {
      TxHashesAre(c, tx);
    }
    if forall c | c in rest :: TxHashes(c) !! TxHashes(b) {
      forall tx | Holds(rest, tx)
        ensures tx !in TxHashes(b)
      {
        var c :| c in rest && HasTx(c, tx);
        TxHashesAre(c, tx);
      }
      NoneMissed(rest, cacheTxs - TxHashes(b));
    } else {
      var c :| c in rest && !(TxHashes(c) !! TxHashes(b));
      var tx :| tx in TxHashes(c) && tx in TxHashes(b);
      assert Missed(rest, cacheTxs - TxHashes(b), tx);
    }
  }

  lemma NoneMissed(queue: seq<BlockDetail>, cacheTxs: set<TxHash>)
    ensures TxsMatch(queue, cacheTxs) <==>
      (forall tx | tx in cacheTxs :: Holds(queue, tx)) && forall tx :: !Missed(queue, cacheTxs, tx)
  {
    assert forall tx :: Missed(queue, cacheTxs, tx) <==> Holds(queue, tx) && tx !in cacheTxs;
  }

  lemma Rest(queue: seq<BlockDetail>, i: nat)
    requires AllKeyed(queue) && i < |queue|
    ensures forall c :: c in queue[..i] + queue[i + 1..] <==> c in queue && c != queue[i]
  {
    assert queue == queue[..i] + [queue[i]] + queue[i + 1..];
    var rest := queue[..i] + queue[i + 1..];
    forall c | c in rest
      ensures c != queue[i]
    {
      var j :| 0 <= j < |rest| && rest[j] == c;
      var k := if j < i then j else j + 1;
      assert queue[k] == c;
      assert k < i ==> Keyed(queue[k], queue[i]);
      assert i < k ==> Keyed(queue[i], queue[k]);
    }
  }

  lemma OthersKeyed(queue: seq<BlockDetail>, i: nat, c: BlockDetail)
    requires AllKeyed(queue) && i < |queue| && c in queue && c != queue[i]
    ensures Keyed(c, queue[i])
  {
    var j :| 0 <= j < |queue| && queue[j] == c;
    if j < i {
      assert Keyed(queue[j], queue[i]);
    } else {
      assert Keyed(queue[i], queue[j]);
    }
  }

  /** What is left of the maps and of the queue when a block was entered and, if that made too many, the
      block at the front was removed: exact if and only if the keys of the new block are new.  What it shares
      with a block that stays is found for one of them only, and what it shares with the block that leaves is
      deleted with it. */
  lemma CachedIff(queue: seq<BlockDetail>, cache: map<int, BlockDetail>, cacheHash: map<string, BlockDetail>,
                  b: BlockDetail, evict: bool)
    requires AllKeyed(queue) && Mapped(queue, cache, cacheHash)
    ensures var all, cache', cacheHash' := queue + [b], cache[b.height := b], cacheHash[b.hash := b];
      var exact := if evict then Mapped(all[1..], cache' - {all[0].height}, cacheHash' - {all[0].hash})
                   else Mapped(all, cache', cacheHash');
      && (b !in queue ==> (exact <==> forall c | c in queue :: Keyed(c, b)))
      && (exact && AllKeyed(if evict then all[1..] else all) <==> forall c | c in queue :: Keyed(c, b))
  {
    hide Keyed, AllKeyed;
    var all := queue + [b];
    if forall c | c in queue :: Keyed(c, b) {
      KeysApart(queue, b);
      AddIff(queue, cache, cacheHash, b);
      RemoveMapped(all, cache[b.height := b], cacheHash[b.hash := b], 0);
      assert all[..0] + all[1..] == all[1..];
    } else {
      var c :| c in queue && !Keyed(c, b);
      var i :| 0 <= i < |queue| && queue[i] == c;
      if evict && i == 0 {
        assert all[0] == c && all[1..][|queue| - 1] == b;
        FrontShares(all[1..], cache[b.height := b], cacheHash[b.hash := b], c, b);
      } else {
        assert all[i] == c && all[|queue|] == b;
        StaysShared(all, i, evict, cache[b.height := b], cacheHash[b.hash := b]);
      }
    }
  }

  lemma KeysApart(queue: seq<BlockDetail>, b: BlockDetail)
    requires AllKeyed(queue) && forall c | c in queue :: Keyed(c, b)
    ensures AllKeyed(queue + [b]) && b !in queue
  {}

  lemma FrontShares(rest: seq<BlockDetail>, cache: map<int, BlockDetail>, cacheHash: map<string, BlockDetail>,
                    c: BlockDetail, b: BlockDetail)
    requires b in rest && !Keyed(c, b)
    ensures !Mapped(rest, cache - {c.height}, cacheHash - {c.hash})
  {}

  lemma StaysShared(all: seq<BlockDetail>, i: nat, evict: bool, cache: map<int, BlockDetail>,
                    cacheHash: map<string, BlockDetail>)
    requires i < |all| - 1 && (evict ==> i > 0) && !Keyed(all[i], all[|all| - 1])
    ensures var b, left := all[|all| - 1], if evict then all[1..] else all;
      && !AllKeyed(left)
      && (all[i] != b && b.height in cache && cache[b.height] == b && b.hash in cacheHash && cacheHash[b.hash] == b ==>
            && !Mapped(all, cache, cacheHash)
            && !Mapped(left, cache - {all[0].height}, cacheHash - {all[0].hash}))
  {
    var n, left := |all| - 1, if evict then all[1..] else all;
    var d := if evict then 1 else 0;
    assert left[i - d] == all[i] && left[n - d] == all[n];
    assert !Keyed(left[i - d], left[n - d]);
    assert all[i] in left && all[i] in all;
  }

  /** Consecutive heights, the last of which is `top`. */
  ghost predicate RunTo(queue: seq<BlockDetail>, top: int) {
    forall i | 0 <= i < |queue| :: queue[i].height == top - |queue| + 1 + i
  }

  lemma RunPush(queue: seq<BlockDetail>, top: int, b: BlockDetail)
    requires queue == [] || b.height == top + 1
    ensures RunTo(queue, top) ==> RunTo(queue + [b], b.height)
  {}

  lemma RunDrop(queue: seq<BlockDetail>, top: int)
    requires queue != []
    ensures RunTo(queue, top) ==> RunTo(queue[1..], top)
  {}

  /** Without its top block, a run to `top` is a run to `top - 1`. */
  lemma RunPop(queue: seq<BlockDetail>, top: int, i: nat)
    requires i < |queue| && queue[i].height == top
    ensures RunTo(queue, top) ==> i == |queue| - 1 && RunTo(queue[..i] + queue[i + 1..], top - 1)
  {}

  /** Moving a block to the back changes only the order. */
  lemma MovedToBack(queue: seq<BlockDetail>, i: nat)
    requires AllKeyed(queue) && i < |queue|
    ensures var moved := queue[..i] + queue[i + 1..] + [queue[i]];
      AllKeyed(moved) && forall c :: c in moved <==> c in queue
  {
    hide Keyed;
    var b, rest := queue[i], queue[..i] + queue[i + 1..];
    Rest(queue, i);
    forall c | c in rest
      ensures Keyed(c, b)
    {
      OthersKeyed(queue, i, c);
    }
    assert AllKeyed(rest);
    KeysApart(rest, b);
    assert b in queue;
  }

  class BlockCache {
    const cacheSize: int
    var cache: map<int, BlockDetail>
    var cacheHash: map<string, BlockDetail>
    var cacheTxs: set<TxHash>
    var cacheQueue: seq<BlockDetail>
    var maxHeight: int

    /** Queue and maps hold the same blocks, at most cacheSize of them, and every transaction in the set
        belongs to one of these.  A transaction of theirs may be missing from the set. */
    ghost predicate Valid()
      reads this
    {
      && AllKeyed(cacheQueue) && Mapped(cacheQueue, cache, cacheHash)
      && (|cacheQueue| <= cacheSize || cacheQueue == [])
      && forall tx | tx in cacheTxs :: Holds(cacheQueue, tx)
    }

    ghost predicate TxsExact()
      reads this
    {
      TxsMatch(cacheQueue, cacheTxs)
    }

    /** The queue is a run of heights that ends at maxHeight. */
    ghost predicate Contiguous()
      reads this
    {
      RunTo(cacheQueue, maxHeight)
    }

    constructor (cacheSize: int)
      ensures Valid() && TxsExact() && Contiguous() && cacheQueue == [] && this.cacheSize == cacheSize
    {
      this.cacheSize := cacheSize;
      cache, cacheHash, cacheTxs, cacheQueue, maxHeight := map[], map[], {}, [], 0;
    }

    /** A read by height moves the block to the back, which may break the run of heights. */
    method CheckcacheBlock(height: int) returns (block: Option<BlockDetail>)
      requires Valid()
      modifies this`cacheQueue
      ensures Valid() && (TxsExact() <==> old(TxsExact())) && (forall b :: b in cacheQueue <==> b in old(cacheQueue))
      ensures block == if height in cache then Some(cache[height]) else None
      ensures block.Some? ==> block.value in cacheQueue && block.value.height == height
      ensures block.None? ==> cacheQueue == old(cacheQueue) && forall b | b in cacheQueue :: b.height != height
      ensures block.Some? ==>
        exists i | 0 <= i < |old(cacheQueue)| ::
          && old(cacheQueue)[i] == block.value
          && cacheQueue == old(cacheQueue)[..i] + old(cacheQueue)[i + 1..] + [block.value]
    {
      hide AllKeyed;
      if height in cache {
        var b := cache[height];
        var i := IndexOf(b);
        MovedToBack(cacheQueue, i);
        cacheQueue := cacheQueue[..i] + cacheQueue[i + 1..] + [b];
        assert forall tx :: Holds(cacheQueue, tx) <==> Holds(old(cacheQueue), tx);
        return Some(b);
      }
      return None;
    }

    method GetCacheBlock(hash: string) returns (block: Option<BlockDetail>)
      requires Valid()
      ensures block.Some? ==> block.value in cacheQueue && block.value.hash == hash
      ensures block.None? ==> forall b | b in cacheQueue :: b.hash != hash
    {
      if hash in cacheHash {
        return Some(cacheHash[hash]);
      }
      return None;
    }

    /** True only for transactions of cached blocks, and as long as the set is exact for all of them. */
    method HasCacheTx(hash: TxHash) returns (ok: bool)
      requires Valid()
      ensures ok ==> exists b :: b in cacheQueue && HasTx(b, hash)
      ensures TxsExact() ==> (ok <==> exists b :: b in cacheQueue && HasTx(b, hash))
      ensures !ok <==> Missed(cacheQueue, cacheTxs, hash) || !exists b :: b in cacheQueue && HasTx(b, hash)
    {
      assert Holds(cacheQueue, hash) <==> exists b :: b in cacheQueue && HasTx(b, hash);
      return hash in cacheTxs;
    }

    /** The position of a queued block, which the original keeps as a list element. */
    method IndexOf(b: BlockDetail) returns (i: nat)
      requires b in cacheQueue
      ensures i < |cacheQueue| && cacheQueue[i] == b
    {
      i := 0;
      while cacheQueue[i] != b
        invariant i < |cacheQueue| && b !in cacheQueue[..i]
        decreases |cacheQueue| - i
      {
        assert b in cacheQueue[..i] + [cacheQueue[i]] + cacheQueue[i + 1..] by {
          assert cacheQueue == cacheQueue[..i] + [cacheQueue[i]] + cacheQueue[i + 1..];
        }
        i := i + 1;
      }
    }

    /** Caches a block; the block at the front leaves when there are too many.  Queue and maps go on holding
        the same blocks exactly when height and hash are new.  The set of transactions stays exact unless the
        block that leaves shares a transaction with one that stays. */
    method CacheBlock(b: BlockDetail)
      requires Valid()
      modifies this
      ensures var all := old(cacheQueue) + [b]; cacheQueue == if |all| > cacheSize then all[1..] else all
      ensures Valid() <==> forall c | c in old(cacheQueue) :: Keyed(c, b)
      ensures b !in old(cacheQueue) ==>
        (Mapped(cacheQueue, cache, cacheHash) <==> forall c | c in old(cacheQueue) :: Keyed(c, b))
      ensures forall tx :: Missed(cacheQueue, cacheTxs, tx) <==>
        && Holds(cacheQueue, tx)
        && ((Missed(old(cacheQueue), old(cacheTxs), tx) && tx !in TxHashes(b))
            || (|old(cacheQueue)| >= cacheSize && tx in TxHashes((old(cacheQueue) + [b])[0])))
      ensures old(TxsExact()) && (forall c | c in old(cacheQueue) :: Keyed(c, b)) ==>
        (TxsExact() <==>
         (|old(cacheQueue)| >= cacheSize ==>
            forall c | c in cacheQueue :: TxHashes(c) !! TxHashes((old(cacheQueue) + [b])[0])))
      ensures maxHeight == b.height
      ensures old(Contiguous()) && (old(cacheQueue) == [] || b.height == old(maxHeight) + 1) ==> Contiguous()
    {
      hide AllKeyed, Mapped, Keyed, RunTo, Missed, Holds, TxsMatch;
      ghost var before, top, txs := cacheQueue, maxHeight, cacheTxs;
      ghost var all, evict := before + [b], |before| >= cacheSize;
      CachedIff(before, cache, cacheHash, b, evict);
      AddTxs(before, txs, b);
      TxsIff(before, txs, all, txs + TxHashes(b), b, evict);
      maxHeight := b.height;
      AddCacheBlock(b);
      if |cacheQueue| > cacheSize {
        var front := cacheQueue[0];
        RemoveFrontTxs(cacheQueue, cacheTxs);
        cacheQueue := cacheQueue[1..];
        DelCacheBlock(front);
      }
      if before == [] || b.height == top + 1 {
        RunPush(before, top, b);
        RunDrop(all, b.height);
      }
    }

    /** Forgets the block of the height.  The set of transactions stays exact unless that block shares one with
        another. */
    method DelBlockFromCache(height: int)
      requires Valid()
      modifies this
      ensures Valid() && maxHeight == height - 1
      ensures old(Contiguous()) && height == old(maxHeight) ==> Contiguous()
      ensures forall b :: b in cacheQueue <==> b in old(cacheQueue) && b.height != height
      ensures height in old(cache) ==>
        exists i | 0 <= i < |old(cacheQueue)| ::
          && old(cacheQueue)[i].height == height && cacheQueue == old(cacheQueue)[..i] + old(cacheQueue)[i + 1..]
      ensures if height in old(cache) then
                var b := old(cache)[height];
                && (forall tx :: Missed(cacheQueue, cacheTxs, tx) <==>
                      Holds(cacheQueue, tx) && (Missed(old(cacheQueue), old(cacheTxs), tx) || tx in TxHashes(b)))
                && (old(TxsExact()) ==> (TxsExact() <==> forall c | c in cacheQueue :: TxHashes(c) !! TxHashes(b)))
              else cacheQueue == old(cacheQueue) && cacheTxs == old(cacheTxs)
    {
      hide AllKeyed, Keyed, RunTo, Missed, Holds, TxsMatch;
      NotCached(height);
      maxHeight := height - 1;
      if height in cache {
        var b := cache[height];
        var i := IndexOf(b);
        RunPop(cacheQueue, height, i);
        ByHeight(b);
        RemoveMapped(cacheQueue, cache, cacheHash, i);
        RemoveTxs(cacheQueue, cacheQueue[..i] + cacheQueue[i + 1..], cacheTxs, b);
        if TxsExact() {
          RemoveTxsIff(cacheQueue, cacheQueue[..i] + cacheQueue[i + 1..], cacheTxs, b);
        }
        cacheQueue := cacheQueue[..i] + cacheQueue[i + 1..];
        DelCacheBlock(b);
      }
    }

    /** If the block is not cached then no run ends there. */
    lemma NotCached(height: int)
      requires Valid()
      ensures height !in cache ==> forall b | b in cacheQueue :: b.height != height
      ensures height !in cache && RunTo(cacheQueue, height) ==> cacheQueue == []
      ensures RunTo([], height - 1)
    {
      var n := |cacheQueue|;
      if n > 0 {
        assert cacheQueue[n - 1] in cacheQueue;
      }
    }

    lemma ByHeight(b: BlockDetail)
      requires AllKeyed(cacheQueue) && b in cacheQueue
      ensures forall c | c in cacheQueue :: c.height == b.height <==> c == b
    {
      var i :| 0 <= i < |cacheQueue| && cacheQueue[i] == b;
      forall c | c in cacheQueue && c != b
        ensures c.height != b.height
      {
        OthersKeyed(cacheQueue, i, c);
      }
    }

    method AddCacheBlock(b: BlockDetail)
      modifies this`cacheQueue, this`cache, this`cacheHash, this`cacheTxs
      ensures cacheQueue == old(cacheQueue) + [b]
      ensures cache == old(cache)[b.height := b] && cacheHash == old(cacheHash)[b.hash := b]
      ensures cacheTxs == old(cacheTxs) + TxHashes(b)
    {
      cacheQueue := cacheQueue + [b];
      cache := cache[b.height := b];
      cacheHash := cacheHash[b.hash := b];
      for i := 0 to |b.txs|
        modifies this`cacheTxs
        invariant cacheTxs == old(cacheTxs) + set tx | tx in b.txs[..i] :: tx.hash
      {
        assert b.txs[..i + 1] == b.txs[..i] + [b.txs[i]];
        cacheTxs := cacheTxs + {b.txs[i].hash};
      }
      assert b.txs[..|b.txs|] == b.txs;
    }

    method DelCacheBlock(b: BlockDetail)
      modifies this`cache, this`cacheHash, this`cacheTxs
      ensures cache == old(cache) - {b.height} && cacheHash == old(cacheHash) - {b.hash}
      ensures cacheTxs == old(cacheTxs) - TxHashes(b)
    {
      cache := cache - {b.height};
      cacheHash := cacheHash - {b.hash};
      for i := 0 to |b.txs|
        modifies this`cacheTxs
        invariant cacheTxs == old(cacheTxs) - set tx | tx in b.txs[..i] :: tx.hash
      {
        assert b.txs[..i + 1] == b.txs[..i] + [b.txs[i]];
        cacheTxs := cacheTxs - {b.txs[i].hash};
      }
      assert b.txs[..|b.txs|] == b.txs;
    }
  }

  /** The front block leaves. */
  lemma RemoveFrontTxs(all: seq<BlockDetail>, cacheTxs: set<TxHash>)
    requires all != []
    ensures forall tx :: Missed(all[1..], cacheTxs - TxHashes(all[0]), tx) <==>
      Holds(all[1..], tx) && (Missed(all, cacheTxs, tx) || tx in TxHashes(all[0]))
    ensures (forall tx | tx in cacheTxs :: Holds(all, tx)) ==>
      forall tx | tx in cacheTxs - TxHashes(all[0]) :: Holds(all[1..], tx)
  {
    hide Missed, Holds;
    assert all == [all[0]] + all[1..];
    RemoveTxs(all, all[1..], cacheTxs, all[0]);
  }

  /** When the set is exact after entering a block and perhaps dropping the front. */
  lemma TxsIff(queue: seq<BlockDetail>, cacheTxs: set<TxHash>, all: seq<BlockDetail>, allTxs: set<TxHash>,
               b: BlockDetail, evict: bool)
    requires all == queue + [b] && allTxs == cacheTxs + TxHashes(b)
    ensures TxsMatch(queue, cacheTxs) ==>
      if evict then TxsMatch(all[1..], allTxs - TxHashes(all[0])) <==>
                      forall c | c in all[1..] :: TxHashes(c) !! TxHashes(all[0])
      else TxsMatch(all, allTxs)
  {
    hide Missed, Holds;
    if TxsMatch(queue, cacheTxs) {
      NoneMissed(queue, cacheTxs);
      AddTxs(queue, cacheTxs, b);
      NoneMissed(all, allTxs);
      assert all == [all[0]] + all[1..];
      RemoveTxsIff(all, all[1..], allTxs, all[0]);
    }
  }

  /** A transaction that two cached blocks hold is forgotten when one of them leaves. */
  method ForgottenTx(b: BlockDetail, c: BlockDetail, hash: TxHash) returns (cache: BlockCache, ok: bool)
    requires Keyed(b, c) && HasTx(b, hash) && HasTx(c, hash)
    ensures cache.Valid() && b in cache.cacheQueue && !ok
  {
    hide AllKeyed, Missed, TxsMatch, RunTo, TxHashes;
    cache := new BlockCache(2);
    cache.CacheBlock(b);
    cache.CacheBlock(c);
    cache.DelBlockFromCache(c.height);
    TxHashesAre(c, hash);
    assert Holds(cache.cacheQueue, hash);
    ok := cache.HasCacheTx(hash);
  }
}
