/** blockchain/orphanpool.go: blocks whose parent is not known yet, by hash and by parent hash. */
module OrphanPools {
  import opened Options
  import opened Blocks

  datatype OrphanBlock = OrphanBlock(block: Block, expiration: int)

  const ORPHAN_EXPIRATION_TIME := 600

  function ChildrenOf(prevOrphans: map<Hash, seq<OrphanBlock>>, p: Hash): seq<OrphanBlock> {
    if p in prevOrphans then prevOrphans[p] else []
  }

  ghost predicate InPool(orphans: map<Hash, OrphanBlock>, o: OrphanBlock) {
    Of(o.block) in orphans && orphans[Of(o.block)] == o
  }

  /** The list holds the orphans with parent `p`, each exactly once. */
  ghost predicate Lists(orphans: map<Hash, OrphanBlock>, p: Hash, list: seq<OrphanBlock>) {
    && (forall o :: o in list <==> InPool(orphans, o) && o.block.parentHash == p)
    && (forall i, j | 0 <= i < j < |list| :: list[i] != list[j])
  }

  /** Both maps hold the same orphans, each exactly once under its parent hash, and no parent hash
      has an empty list. */
  ghost predicate Consistent(orphans: map<Hash, OrphanBlock>, prevOrphans: map<Hash, seq<OrphanBlock>>) {
    && (forall h | h in orphans :: h == Of(orphans[h].block))
    && (forall p :: Lists(orphans, p, ChildrenOf(prevOrphans, p)))
    && (forall p | p in prevOrphans :: prevOrphans[p] != [])
  }

  /** The list without the orphans of one hash. */
  ghost function Without(list: seq<OrphanBlock>, hash: Hash): seq<OrphanBlock> {
    if list == [] then []
    else
      var rest := Without(list[..|list| - 1], hash);
      var last := list[|list| - 1];
      if Of(last.block) == hash then rest else rest + [last]
  }

  lemma WithoutMembers(list: seq<OrphanBlock>, hash: Hash)
    ensures forall o :: o in Without(list, hash) <==> o in list && Of(o.block) != hash
    ensures (forall i, j | 0 <= i < j < |list| :: list[i] != list[j]) ==>
      forall i, j | 0 <= i < j < |Without(list, hash)| :: Without(list, hash)[i] != Without(list, hash)[j]
  {
    if list != [] {
      WithoutMembers(list[..|list| - 1], hash);
      assert list == list[..|list| - 1] + [list[|list| - 1]];
    }
  }

  /** Dropping a hash from both maps keeps them consistent. */
  lemma RemoveKeeps(orphans: map<Hash, OrphanBlock>, prevOrphans: map<Hash, seq<OrphanBlock>>, orphan: OrphanBlock,
                    prevOrphans': map<Hash, seq<OrphanBlock>>)
    requires Consistent(orphans, prevOrphans)
    requires var p := orphan.block.parentHash;
      var list := Without(ChildrenOf(prevOrphans, p), Of(orphan.block));
      prevOrphans' == if list == [] then prevOrphans - {p} else prevOrphans[p := list]
    ensures Consistent(orphans - {Of(orphan.block)}, prevOrphans')
  {
    var p := orphan.block.parentHash;
    var orphans' := orphans - {Of(orphan.block)};
    forall q
      ensures Lists(orphans', q, ChildrenOf(prevOrphans', q))
    {
      assert Lists(orphans, q, ChildrenOf(prevOrphans, q));
      if q == p {
        WithoutMembers(ChildrenOf(prevOrphans, p), Of(orphan.block));
      } else {
        assert ChildrenOf(prevOrphans', q) == ChildrenOf(prevOrphans, q);
        assert forall o: OrphanBlock | o.block.parentHash == q :: InPool(orphans', o) <==> InPool(orphans, o);
      }
    }
  }

  /** So does adding a new hash to both. */
  lemma AddKeeps(orphans: map<Hash, OrphanBlock>, prevOrphans: map<Hash, seq<OrphanBlock>>, orphan: OrphanBlock)
    requires Consistent(orphans, prevOrphans) && Of(orphan.block) !in orphans
    ensures var p := orphan.block.parentHash;
      Consistent(orphans[Of(orphan.block) := orphan], prevOrphans[p := ChildrenOf(prevOrphans, p) + [orphan]])
  {
    var p := orphan.block.parentHash;
    var orphans' := orphans[Of(orphan.block) := orphan];
    var prevOrphans' := prevOrphans[p := ChildrenOf(prevOrphans, p) + [orphan]];
    forall q
      ensures Lists(orphans', q, ChildrenOf(prevOrphans', q))
    {
      assert Lists(orphans, q, ChildrenOf(prevOrphans, q));
      if q == p {
        assert ChildrenOf(prevOrphans', q) == ChildrenOf(prevOrphans, q) + [orphan];
        assert forall o :: InPool(orphans', o) <==> o == orphan || InPool(orphans, o);
        assert !InPool(orphans, orphan);
      } else {
        assert ChildrenOf(prevOrphans', q) == ChildrenOf(prevOrphans, q);
        assert forall o: OrphanBlock | o.block.parentHash == q :: InPool(orphans', o) <==> InPool(orphans, o);
      }
    }
  }

  /** The recorded orphan has left the pool, yet nothing in the pool expires before it. */
  ghost predicate Stale(oldest: Option<OrphanBlock>, orphans: map<Hash, OrphanBlock>) {
    && oldest.Some? && Of(oldest.value.block) !in orphans
    && forall h | h in orphans :: oldest.value.expiration <= orphans[h].expiration
  }

  /** The record after looking at everything outside `todo`: the old one, or a pooled orphan that expires
      earlier; nothing that was looked at expires before it. */
  ghost predicate Seen(first: Option<OrphanBlock>, oldest: Option<OrphanBlock>, orphans: map<Hash, OrphanBlock>,
                       todo: set<Hash>) {
    && (oldest != first ==>
          && oldest.Some? && Of(oldest.value.block) !in todo && InPool(orphans, oldest.value)
          && (first.Some? ==> oldest.value.expiration < first.value.expiration))
    && (oldest.Some? ==>
          forall h | h in orphans && h !in todo :: oldest.value.expiration <= orphans[h].expiration)
  }

  /** Nothing in the pool expires before the orphan. */
  ghost predicate Earliest(o: OrphanBlock, orphans: map<Hash, OrphanBlock>) {
    forall h | h in orphans :: o.expiration <= orphans[h].expiration
  }

  /** What addOrphanBlock makes of the record: an old one that nothing in the pool precedes stays, otherwise it
      is the pooled orphan that expires first.  A stale one is the only one that names no pooled orphan. */
  ghost predicate Updated(first: Option<OrphanBlock>, oldest: Option<OrphanBlock>, orphans: map<Hash, OrphanBlock>) {
    && (oldest != first ==> oldest.Some? && InPool(orphans, oldest.value))
    && (oldest.Some? ==> Earliest(oldest.value, orphans))
    && (first.Some? && Earliest(first.value, orphans) ==> oldest == first)
    && (Stale(first, orphans) ==> oldest == first)
    && (oldest.Some? && orphans != map[] ==> (Of(oldest.value.block) in orphans <==> !Stale(first, orphans)))
  }

  lemma SeenAll(first: Option<OrphanBlock>, oldest: Option<OrphanBlock>, orphans: map<Hash, OrphanBlock>)
    requires Seen(first, oldest, orphans, {})
    ensures Updated(first, oldest, orphans)
  {}

  /** What leaves a full pool: the recorded orphan if nothing in the pool precedes it, whether it is still there
      or not, and otherwise the orphan that expires first. */
  ghost predicate Evicted(first: Option<OrphanBlock>, u: map<Hash, OrphanBlock>, limit: nat, evicted: set<Hash>) {
    if |u| < limit then evicted == {}
    else if first.Some? && Earliest(first.value, u) then evicted == {Of(first.value.block)}
    else exists h | h in u :: evicted == {h} && Earliest(u[h], u)
  }

  lemma EvictedIs(first: Option<OrphanBlock>, oldest: OrphanBlock, u: map<Hash, OrphanBlock>, limit: nat)
    requires Updated(first, Some(oldest), u) && |u| >= limit
    ensures Evicted(first, u, limit, {Of(oldest.block)})
  {
    if !(first.Some? && Earliest(first.value, u)) {
      assert oldest == u[Of(oldest.block)] && Earliest(oldest, u);
    }
  }

  class OrphanPool {
    const maxOrphanBlocks: nat
    var orphans: map<Hash, OrphanBlock>
    var prevOrphans: map<Hash, seq<OrphanBlock>>
    var oldestOrphan: Option<OrphanBlock>

    /** The pool may exceed its limit by one, because the recorded candidate for eviction can be an orphan
        that has left the pool meanwhile; then it has no candidate recorded. */
    ghost predicate Valid()
      reads this
    {
      && Consistent(orphans, prevOrphans)
      && 1 <= maxOrphanBlocks
      && |orphans| <= maxOrphanBlocks + 1
      && (|orphans| == maxOrphanBlocks + 1 ==> oldestOrphan.None?)
    }

    constructor (maxOrphanBlocks: nat)
      requires 1 <= maxOrphanBlocks
      ensures Valid() && orphans == map[] && oldestOrphan == None && this.maxOrphanBlocks == maxOrphanBlocks
    {
      this.maxOrphanBlocks := maxOrphanBlocks;
      orphans := map[];
      prevOrphans := map[];
      oldestOrphan := None;
    }

    predicate IsKnownOrphan(hash: Hash)
      reads this
    {
      hash in orphans
    }

    function GetChildOrphanCount(hash: Hash): nat
      reads this
    {
      |ChildrenOf(prevOrphans, hash)|
    }

    function GetChildOrphan(hash: Hash, index: nat): Option<OrphanBlock>
      reads this
    {
      if index >= |ChildrenOf(prevOrphans, hash)| then None else Some(ChildrenOf(prevOrphans, hash)[index])
    }

    lemma ChildInPool(hash: Hash, index: nat)
      requires Valid() && GetChildOrphan(hash, index).Some?
      ensures InPool(orphans, GetChildOrphan(hash, index).value)
      ensures GetChildOrphan(hash, index).value.block.parentHash == hash
    {
      assert Lists(orphans, hash, ChildrenOf(prevOrphans, hash));
      assert ChildrenOf(prevOrphans, hash)[index] in ChildrenOf(prevOrphans, hash);
    }

    lemma NoChildren(hash: Hash)
      requires Valid() && GetChildOrphanCount(hash) == 0
      ensures forall h | h in orphans :: orphans[h].block.parentHash != hash
    {
      assert Lists(orphans, hash, ChildrenOf(prevOrphans, hash));
      assert forall h | h in orphans :: InPool(orphans, orphans[h]);
    }

    /** The removal loop of removeOrphanBlock, on the list of one parent. */
    static method DropHash(orphans: seq<OrphanBlock>, hash: Hash) returns (list: seq<OrphanBlock>)
      ensures list == Without(orphans, hash)
    {
      list := orphans;
      ghost var k := 0;
      var i := 0;
      while i < |list|
        invariant 0 <= i <= |list| && 0 <= k <= |orphans|
        invariant list[..i] == Without(orphans[..k], hash)
        invariant list[i..] == orphans[k..]
        decreases |orphans| - k
      {
        assert orphans[..k + 1][..k] == orphans[..k] && orphans[k] == list[i];
        assert list[i + 1..] == orphans[k + 1..];
        if Of(list[i].block) == hash {
          list := list[..i] + list[i + 1..];
          i := i - 1;
        }
        i := i + 1;
        k := k + 1;
      }
      assert orphans[..k] == orphans && list[..i] == list;
    }

    /** Removes every trace of the orphan's hash; an orphan that is not in the pool is no error. */
    method RemoveOrphanBlock(orphan: OrphanBlock)
      requires Consistent(orphans, prevOrphans)
      modifies this`orphans, this`prevOrphans
      ensures Consistent(orphans, prevOrphans)
      ensures orphans == old(orphans) - {Of(orphan.block)}
    {
      var orphanHash := Of(orphan.block);
      orphans := orphans - {orphanHash};
      var prevHash := orphan.block.parentHash;
      var list := DropHash(ChildrenOf(prevOrphans, prevHash), orphanHash);
      prevOrphans := prevOrphans[prevHash := list];
      if |prevOrphans[prevHash]| == 0 {
        prevOrphans := prevOrphans - {prevHash};
      }
      assert prevOrphans == if list == [] then old(prevOrphans) - {prevHash} else old(prevOrphans)[prevHash := list];
      RemoveKeeps(old(orphans), old(prevOrphans), orphan, prevOrphans);
    }

    /** RemoveOrphanBlock as processOrphans uses it, on an orphan that is in the pool. */
    method TakeOrphan(orphan: OrphanBlock)
      requires Valid() && InPool(orphans, orphan)
      modifies this
      ensures Valid() && orphans == old(orphans) - {Of(orphan.block)} && oldestOrphan == old(oldestOrphan)
    {
      hide Consistent;
      SmallerMap(orphans, Of(orphan.block));
      RemoveOrphanBlock(orphan);
    }

    /** First part of addOrphanBlock: removes what has expired at `now` and records the survivor
        that expires first, unless an earlier record is at least as old. */
    method DropExpired(now: int)
      requires Valid()
      modifies this
      ensures Consistent(orphans, prevOrphans)
      ensures orphans == Unexpired(old(orphans), now)
      ensures |orphans| <= |old(orphans)|
      ensures Updated(old(oldestOrphan), oldestOrphan, orphans)
      ensures orphans != map[] ==> oldestOrphan.Some?
      ensures |orphans| == maxOrphanBlocks + 1 ==> Of(oldestOrphan.value.block) in orphans
    {
      hide Consistent, Kept, Unexpired;
      ghost var before, first := orphans, oldestOrphan;
      var todo := orphans.Keys;
      KeptAll(before, now);
      while todo != {}
        invariant Consistent(orphans, prevOrphans)
        invariant todo <= orphans.Keys && orphans == Kept(before, todo, now)
        invariant todo != orphans.Keys ==> oldestOrphan.Some?
        invariant |orphans| <= |before|
        invariant Seen(first, oldestOrphan, orphans, todo)
        invariant |orphans| == maxOrphanBlocks + 1 && oldestOrphan.Some? ==> Of(oldestOrphan.value.block) in orphans
        decreases todo
      {
        var h :| h in todo;
        KeptNext(before, todo, now, h);
        todo := todo - {h};
        var oBlock := orphans[h];
        ConsistentAt(h);
        if now > oBlock.expiration {
          SmallerMap(orphans, h);
          RemoveOrphanBlock(oBlock);
          continue;
        }
        if oldestOrphan.None? || oBlock.expiration < oldestOrphan.value.expiration {
          oldestOrphan := Some(oBlock);
        }
      }
      KeptNone(before, now);
      SeenAll(first, oldestOrphan, orphans);
    }

    lemma ConsistentAt(h: Hash)
      requires Consistent(orphans, prevOrphans) && h in orphans
      ensures InPool(orphans, orphans[h]) && Of(orphans[h].block) == h
    {}

    /** The part of addOrphanBlock before the block enters: drops the expired orphans and, if the pool is
        full, what is recorded as the oldest. */
    method MakeRoom(now: int) returns (ghost evicted: set<Hash>)
      requires Valid()
      modifies this
      ensures Consistent(orphans, prevOrphans)
      ensures |evicted| <= 1 && (|old(orphans)| < maxOrphanBlocks ==> evicted == {})
      ensures orphans == Unexpired(old(orphans), now) - evicted
      ensures Evicted(old(oldestOrphan), Unexpired(old(orphans), now), maxOrphanBlocks, evicted)
      ensures var u := Unexpired(old(orphans), now);
        if |u| < maxOrphanBlocks then
          && orphans == u && Updated(old(oldestOrphan), oldestOrphan, u) && (u != map[] ==> oldestOrphan.Some?)
        else
          && oldestOrphan == None && |orphans| <= maxOrphanBlocks
          && (|orphans| == maxOrphanBlocks <==> |u| > maxOrphanBlocks || Stale(old(oldestOrphan), u))
    {
      hide Consistent, Stale, Unexpired;
      DropExpired(now);
      evicted := {};
      if |orphans| + 1 > maxOrphanBlocks {
        assert orphans != map[];
        evicted := {Of(oldestOrphan.value.block)};
        EvictedIs(old(oldestOrphan), oldestOrphan.value, orphans, maxOrphanBlocks);
        if Of(oldestOrphan.value.block) in orphans {
          SmallerMap(orphans, Of(oldestOrphan.value.block));
        }
        RemoveOrphanBlock(oldestOrphan.value);
        oldestOrphan := None;
      }
      assert orphans == Unexpired(old(orphans), now) - evicted;
    }

    /** Drops the expired orphans, evicts at most one more when the pool is full, and adds the block.  The
        pool exceeds its limit exactly when it did so before, or was full and its record stale. */
    method AddOrphanBlock(block: Block, now: int) returns (ghost evicted: set<Hash>)
      requires Valid() && Of(block) !in orphans
      modifies this
      ensures Valid()
      ensures |evicted| <= 1 && (|old(orphans)| < maxOrphanBlocks ==> evicted == {})
      ensures var u, first := Unexpired(old(orphans), now), old(oldestOrphan);
        if |u| < maxOrphanBlocks then evicted == {}
        else if first.Some? && forall h | h in u :: first.value.expiration <= u[h].expiration then
          evicted == {Of(first.value.block)}
        else
          exists h | h in u :: evicted == {h} && forall g | g in u :: u[h].expiration <= u[g].expiration
      ensures orphans == (Unexpired(old(orphans), now) - evicted)
                         [Of(block) := OrphanBlock(block, now + ORPHAN_EXPIRATION_TIME)]
      ensures var u := Unexpired(old(orphans), now);
        && (|orphans| > maxOrphanBlocks <==>
              |u| > maxOrphanBlocks || (|u| == maxOrphanBlocks && Stale(old(oldestOrphan), u)))
        && (|u| < maxOrphanBlocks ==>
              Updated(old(oldestOrphan), oldestOrphan, u) && (u != map[] ==> oldestOrphan.Some?))
    {
      hide Consistent, Stale, Updated;
      evicted := MakeRoom(now);
      Insert(OrphanBlock(block, now + ORPHAN_EXPIRATION_TIME));
    }

    /** AddOrphanBlock as the block chain sees it. */
    method Park(block: Block, now: int)
      requires Valid() && Of(block) !in orphans
      modifies this
      ensures Valid() && Parked(old(orphans), orphans, block, now) && orphans.Keys <= old(orphans.Keys) + {Of(block)}
      ensures |old(orphans)| < maxOrphanBlocks ==>
        orphans == Unexpired(old(orphans), now)[Of(block) := OrphanBlock(block, now + ORPHAN_EXPIRATION_TIME)]
    {
      hide OrphanPool.Valid, Unexpired, Parked, Stale, Updated;
      ghost var evicted := AddOrphanBlock(block, now);
      ParkedIf(old(orphans), evicted, block, now);
    }

    /** Last part of addOrphanBlock. */
    method Insert(oBlock: OrphanBlock)
      requires Consistent(orphans, prevOrphans) && Of(oBlock.block) !in orphans
      modifies this`orphans, this`prevOrphans
      ensures Consistent(orphans, prevOrphans)
      ensures orphans == old(orphans)[Of(oBlock.block) := oBlock]
      ensures |orphans| == old(|orphans|) + 1
    {
      AddKeeps(orphans, prevOrphans, oBlock);
      orphans := orphans[Of(oBlock.block) := oBlock];
      var prevHash := oBlock.block.parentHash;
      prevOrphans := prevOrphans[prevHash := ChildrenOf(prevOrphans, prevHash) + [oBlock]];
    }
  }

  lemma NoneExpired(orphans: map<Hash, OrphanBlock>, now: int)
    requires forall h | h in orphans :: now <= orphans[h].expiration
    ensures Unexpired(orphans, now) == orphans
  {}

  lemma OneRecord(oldest: Option<OrphanBlock>, o: OrphanBlock)
    requires Updated(None, oldest, map[Of(o.block) := o]) && oldest.Some?
    ensures oldest == Some(o)
  {}

  lemma ThreeKeys(keys: set<Hash>, b: Hash, c: Hash, d: Hash)
    requires keys <= {b, c, d} && |keys| > 2
    ensures keys == {b, c, d}
  {
    forall x | x in {b, c, d}
      ensures x in keys
    {
      if x !in keys {
        assert keys <= {b, c, d} - {x};
        assert {b, c, d} - {x} == if x == b then {c, d} - {x} else if x == c then {b, d} - {x} else {b, c} - {x};
        FewerKeys(keys, {b, c, d} - {x});
      }
    }
  }

  lemma FewerKeys(a: set<Hash>, b: set<Hash>)
    requires a <= b
    ensures |a| <= |b|
  {
    assert b == a + (b - a);
  }

  /** Adding to a pool that is not full. */
  method AddEarly(pool: OrphanPool, block: Block, now: int, ghost u: map<Hash, OrphanBlock>)
    requires pool.Valid() && Of(block) !in pool.orphans && |pool.orphans| < pool.maxOrphanBlocks
    requires u == Unexpired(pool.orphans, now)
    modifies pool
    ensures pool.Valid() && pool.orphans == u[Of(block) := OrphanBlock(block, now + ORPHAN_EXPIRATION_TIME)]
    ensures Updated(old(pool.oldestOrphan), pool.oldestOrphan, u) && (u != map[] ==> pool.oldestOrphan.Some?)
  {
    hide OrphanPool.Valid, Updated, Stale;
    FewerKeys(u.Keys, pool.orphans.Keys);
    ghost var evicted := pool.AddOrphanBlock(block, now);
  }

  /** A full pool whose record names an orphan that was taken out before. */
  method StaleRecord(a: Block, b: Block, c: Block) returns (pool: OrphanPool)
    requires a != b && a != c && b != c
    ensures fresh(pool) && pool.Valid() && pool.maxOrphanBlocks == 2
    ensures var t := ORPHAN_EXPIRATION_TIME;
      && pool.orphans == map[Of(b) := OrphanBlock(b, t), Of(c) := OrphanBlock(c, t)]
      && pool.oldestOrphan == Some(OrphanBlock(a, t))
  {
    hide OrphanPool.Valid, Updated, Consistent, Stale, Earliest, Unexpired;
    var t := ORPHAN_EXPIRATION_TIME;
    var oA, oB, oC := OrphanBlock(a, t), OrphanBlock(b, t), OrphanBlock(c, t);
    pool := new OrphanPool(2);
    NoneExpired(pool.orphans, 0);
    AddEarly(pool, a, 0, pool.orphans);
    NoRecord(pool.oldestOrphan);
    assert pool.orphans == map[Of(a) := oA];
    NoneExpired(pool.orphans, 0);
    AddEarly(pool, b, 0, pool.orphans);
    OneRecord(pool.oldestOrphan, oA);
    pool.TakeOrphan(oA);
    assert pool.orphans == map[Of(b) := oB];
    NoneExpired(pool.orphans, 0);
    AddEarly(pool, c, 0, pool.orphans);
    StaleStays(oA, pool.oldestOrphan, oB);
    assert pool.orphans == map[Of(b) := oB, Of(c) := oC];
  }

  /** How a pool with a limit of two comes to hold three: its record still names `a` when `d` arrives. */
  method OverTheLimit(a: Block, b: Block, c: Block, d: Block) returns (pool: OrphanPool)
    requires a != b && a != c && b != c && d != b && d != c
    ensures pool.Valid() && pool.maxOrphanBlocks == 2 && pool.orphans.Keys == {Of(b), Of(c), Of(d)}
  {
    hide OrphanPool.Valid, Consistent, Unexpired, Updated;
    pool := StaleRecord(a, b, c);
    NoneExpired(pool.orphans, 0);
    ghost var evicted := pool.AddOrphanBlock(d, 0);
    ThreeKeys(pool.orphans.Keys, Of(b), Of(c), Of(d));
  }

  /** A record that outlived its orphan: `b` has expired, and `d` has come after `c`. */
  method Outlived(b: Block, c: Block, d: Block) returns (pool: OrphanPool)
    requires b != c && b != d && c != d
    ensures fresh(pool) && pool.Valid() && pool.maxOrphanBlocks == 3
    ensures pool.oldestOrphan == Some(OrphanBlock(b, ORPHAN_EXPIRATION_TIME))
    ensures pool.orphans == map[Of(c) := OrphanBlock(c, ORPHAN_EXPIRATION_TIME + 1),
                                Of(d) := OrphanBlock(d, 2 * ORPHAN_EXPIRATION_TIME + 1)]
  {
    hide OrphanPool.Valid, Consistent, Updated, Stale, Earliest;
    ghost var oB, oC := OrphanBlock(b, ORPHAN_EXPIRATION_TIME), OrphanBlock(c, ORPHAN_EXPIRATION_TIME + 1);
    pool := new OrphanPool(3);
    AddEarly(pool, b, 0, map[]);
    NoRecord(pool.oldestOrphan);
    assert pool.orphans == map[Of(b) := oB];
    AddEarly(pool, c, 1, map[Of(b) := oB]);
    OneRecord(pool.oldestOrphan, oB);
    assert pool.orphans == map[Of(b) := oB, Of(c) := oC];
    AddEarly(pool, d, ORPHAN_EXPIRATION_TIME + 1, map[Of(c) := oC]);
    StaleStays(oB, pool.oldestOrphan, oC);
  }

  lemma RecordStays(first: OrphanBlock, oldest: Option<OrphanBlock>, orphans: map<Hash, OrphanBlock>)
    requires Updated(Some(first), oldest, orphans) && Earliest(first, orphans)
    ensures oldest == Some(first)
  {}

  /** The orphan that leaves need not be the one that expires first: a block whose record outlived it, and
      which has come back since, is evicted although it is among the newest and `c` expires before it. */
  method NewestEvicted(b: Block, c: Block, d: Block, e: Block) returns (pool: OrphanPool)
    requires b != c && b != d && b != e && c != d && c != e && d != e
    ensures pool.Valid() && pool.orphans.Keys == {Of(c), Of(d), Of(e)}
    ensures pool.orphans[Of(c)].expiration < pool.orphans[Of(d)].expiration
  {
    hide OrphanPool.Valid, Consistent, Updated, Stale, Unexpired;
    var now, oB := ORPHAN_EXPIRATION_TIME + 1, OrphanBlock(b, ORPHAN_EXPIRATION_TIME);
    pool := Outlived(b, c, d);
    ghost var before := pool.orphans;
    NoneExpired(before, now);
    AddEarly(pool, b, now, before);
    RecordStays(oB, pool.oldestOrphan, before);
    ghost var all := pool.orphans;
    NoneExpired(all, now);
    assert all.Keys == {Of(b), Of(c), Of(d)};
    ghost var evicted := pool.AddOrphanBlock(e, now);
    assert evicted == {Of(b)};
    assert pool.orphans.Keys == all.Keys - {Of(b)} + {Of(e)};
  }

  lemma NoRecord(oldest: Option<OrphanBlock>)
    requires Updated(None, oldest, map[])
    ensures oldest == None
  {}

  lemma StaleStays(o: OrphanBlock, oldest: Option<OrphanBlock>, other: OrphanBlock)
    requires o.block != other.block && o.expiration <= other.expiration
    requires Updated(Some(o), oldest, map[Of(other.block) := other])
    ensures oldest == Some(o)
  {}

  /** The block joined the pool; whatever else is pooled was pooled before. */
  ghost predicate Parked(before: map<Hash, OrphanBlock>, after: map<Hash, OrphanBlock>, block: Block, now: int) {
    && Of(block) in after && after[Of(block)] == OrphanBlock(block, now + ORPHAN_EXPIRATION_TIME)
    && forall h | h in after && h != Of(block) :: h in before && after[h] == before[h]
  }

  lemma ParkedIf(before: map<Hash, OrphanBlock>, evicted: set<Hash>, block: Block, now: int)
    ensures var o := OrphanBlock(block, now + ORPHAN_EXPIRATION_TIME);
      var after := (Unexpired(before, now) - evicted)[Of(block) := o];
      && Parked(before, after, block, now) && after.Keys <= before.Keys + {Of(block)}
      && (evicted == {} ==> after == Unexpired(before, now)[Of(block) := o])
  {
    if evicted == {} {
      assert Unexpired(before, now) - evicted == Unexpired(before, now);
    }
  }

  /** What is left of the pool when only the orphans outside `todo` have been looked at. */
  ghost function Kept(before: map<Hash, OrphanBlock>, todo: set<Hash>, now: int): map<Hash, OrphanBlock> {
    map h | h in before && (h in todo || now <= before[h].expiration) :: before[h]
  }

  lemma KeptAll(before: map<Hash, OrphanBlock>, now: int)
    ensures Kept(before, before.Keys, now) == before
  {}

  lemma KeptNext(before: map<Hash, OrphanBlock>, todo: set<Hash>, now: int, h: Hash)
    requires h in todo && todo <= Kept(before, todo, now).Keys
    ensures Kept(before, todo, now)[h] == before[h]
    ensures Kept(before, todo - {h}, now) ==
            if now > before[h].expiration then Kept(before, todo, now) - {h} else Kept(before, todo, now)
  {}

  lemma KeptNone(before: map<Hash, OrphanBlock>, now: int)
    ensures Kept(before, {}, now) == Unexpired(before, now)
  {}

  ghost function Unexpired(orphans: map<Hash, OrphanBlock>, now: int): map<Hash, OrphanBlock> {
    map h | h in orphans && now <= orphans[h].expiration :: orphans[h]
  }

  lemma SmallerMap<K, V>(m: map<K, V>, k: K)
    requires k in m
    ensures |m - {k}| == |m| - 1
  {
    assert (m - {k}).Keys == m.Keys - {k};
  }
}
