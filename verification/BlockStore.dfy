/** blockchain/blockstore.go: the persistent keys of the block chain, one field per key prefix, and
    the log of add and delete operations. */
module BlockStores {
  import opened Options
  import opened Blocks

  datatype SequenceType = AddBlock | DelBlock
  datatype BlockSequence = BlockSequence(ty: SequenceType, hash: Hash)

  /** The keys that describe the main chain by height. */
  datatype HeightKeys = HeightKeys(
    last: Option<int>,
    hashToHeight: map<Hash, int>,
    heightToHash: map<int, Hash>,
    headers: map<int, Block>)

  /** The keys of the operation log. */
  datatype SequenceKeys = SequenceKeys(
    last: Option<int>,
    entries: map<int, BlockSequence>,
    hashToSequence: map<Hash, int>)

  datatype Db = Db(blocks: map<Hash, Block>, td: map<Hash, nat>, heights: HeightKeys, log: SequenceKeys)

  const NO_LOG: SequenceKeys := SequenceKeys(None, map[], map[])
  const EMPTY_DB: Db := Db(map[], map[], HeightKeys(None, map[], map[], map[]), NO_LOG)

  function LoadHeight(keys: HeightKeys): int {
    if keys.last.Some? then keys.last.value else -1
  }

  function LoadSequence(keys: SequenceKeys): int {
    if keys.last.Some? then keys.last.value else -1
  }

  /** The height keys describe exactly the chain: both directions are total on 0..last height,
      inverse to each other and empty elsewhere. */
  ghost predicate Holds(keys: HeightKeys, chain: seq<Block>) {
    && LoadHeight(keys) == |chain| - 1
    && (forall i | 0 <= i < |chain| :: chain[i].height == i)
    && (forall i | 0 <= i < |chain| :: i in keys.heightToHash && keys.heightToHash[i] == Of(chain[i]))
    && (forall i | 0 <= i < |chain| :: i in keys.headers && keys.headers[i] == chain[i])
    && (forall i | 0 <= i < |chain| ::
          Of(chain[i]) in keys.hashToHeight && keys.hashToHeight[Of(chain[i])] == i)
    && (forall i | i in keys.heightToHash :: 0 <= i < |chain|)
    && (forall i | i in keys.headers :: 0 <= i < |chain|)
    && (forall h | h in keys.hashToHeight ::
          0 <= keys.hashToHeight[h] < |chain| && h == Of(chain[keys.hashToHeight[h]]))
  }

  /** Blocks are filed under their own hash and every recorded total difficulty is the work of the
      whole branch. */
  ghost predicate Faithful(db: Db) {
    && (forall h | h in db.blocks :: h == Of(db.blocks[h]))
    && (forall h | h in db.td :: h.Of? && db.td[h] == TotalWork(h))
  }

  ghost predicate Stored(db: Db, h: Hash) {
    h in db.blocks && h in db.td
  }

  ghost predicate Dense(keys: SequenceKeys) {
    && LoadSequence(keys) >= -1 && (keys.last.Some? ==> keys.last.value >= 0)
    && (forall i :: i in keys.entries <==> 0 <= i <= LoadSequence(keys))
  }

  ghost function Log(keys: SequenceKeys): (l: seq<BlockSequence>)
    requires Dense(keys)
    ensures |l| == LoadSequence(keys) + 1
  {
    seq(LoadSequence(keys) + 1, i requires 0 <= i <= LoadSequence(keys) => keys.entries[i])
  }

  /** Replays the log: an add pushes its hash, a delete must pop that same hash. */
  ghost function Replay(log: seq<BlockSequence>): Option<seq<Hash>> {
    if log == [] then Some([])
    else
      var s := Replay(log[..|log| - 1]);
      var e := log[|log| - 1];
      if s.None? then None
      else if e.ty.AddBlock? then Some(s.value + [e.hash])
      else if s.value != [] && s.value[|s.value| - 1] == e.hash then Some(s.value[..|s.value| - 1])
      else None
  }

  ghost function Deletes(log: seq<BlockSequence>): nat {
    if log == [] then 0
    else Deletes(log[..|log| - 1]) + if log[|log| - 1].ty.DelBlock? then 1 else 0
  }

  ghost function Hashes(chain: seq<Block>): seq<Hash> {
    seq(|chain|, i requires 0 <= i < |chain| => Of(chain[i]))
  }

  ghost function TopHash(chain: seq<Block>): Hash {
    if chain == [] then ZERO_HASH else Of(chain[|chain| - 1])
  }

  /** The log replays to the main chain, its length counts the deletes, and a trailing delete
      removed a child of the tip. */
  ghost predicate ReplaysTo(keys: SequenceKeys, chain: seq<Block>) {
    && Dense(keys)
    && Replay(Log(keys)) == Some(Hashes(chain))
    && LoadSequence(keys) == |chain| - 1 + 2 * Deletes(Log(keys))
    && (LoadSequence(keys) >= 0 && keys.entries[LoadSequence(keys)].ty.DelBlock? ==>
          var h := keys.entries[LoadSequence(keys)].hash;
          h.Of? && h.block.parentHash == TopHash(chain))
  }

  /** The hash-to-sequence keys point to the last add of their hash, and every added hash has one. */
  ghost predicate PointsToAdds(keys: SequenceKeys) {
    && Dense(keys)
    && (forall h | h in keys.hashToSequence ::
          var i := keys.hashToSequence[h];
          0 <= i <= LoadSequence(keys) && keys.entries[i] == BlockSequence(AddBlock, h))
    && (forall i | i in keys.entries && keys.entries[i].ty.AddBlock? ::
          keys.entries[i].hash in keys.hashToSequence && i <= keys.hashToSequence[keys.entries[i].hash])
  }

  ghost predicate Logged(keys: SequenceKeys, chain: seq<Block>) {
    ReplaysTo(keys, chain) && PointsToAdds(keys)
  }

  /** The log is empty or its last entry is an add. */
  ghost predicate EndsWithAdd(keys: SequenceKeys)
    requires Dense(keys)
  {
    Log(keys) == [] || Log(keys)[|Log(keys)| - 1].ty.AddBlock?
  }

  /** The kind of the last log entry. */
  function LastType(keys: SequenceKeys): Option<SequenceType> {
    if keys.last.Some? && keys.last.value in keys.entries then Some(keys.entries[keys.last.value].ty) else None
  }

  lemma LastTypeIs(keys: SequenceKeys)
    requires Dense(keys)
    ensures EndsWithAdd(keys) <==> LastType(keys) != Some(DelBlock)
  {}

  lemma LastEntry(keys: SequenceKeys)
    requires Dense(keys)
    ensures EndsWithAdd(keys) <==>
      forall n | n in keys.entries && n + 1 !in keys.entries :: keys.entries[n].ty.AddBlock?
    ensures Log(keys) == [] <==> keys.entries == map[]
  {
    var n := LoadSequence(keys);
    if n >= 0 {
      assert n in keys.entries && n + 1 !in keys.entries;
    } else {
      assert forall i :: i !in keys.entries;
      assert keys.entries == map[];
    }
  }

  /** What the start-up check accepts, for a database of `chain` written with the log switched on or off
      and a node that now has it switched on or off. */
  ghost predicate Accepted(keys: SequenceKeys, chain: seq<Block>, written: bool, record: bool)
    requires Dense(keys)
  {
    if written == record then record ==> EndsWithAdd(keys)
    else if record then chain == []
    else Log(keys) == []
  }

  lemma TopOfBranch(h: Hash)
    requires WellFormed(h)
    ensures TopHash(Branch(h)) == h && |Branch(h)| == HeightOf(h) + 1
  {
    BranchLength(h);
  }

  lemma HashesPush(chain: seq<Block>, block: Block)
    ensures Hashes(chain + [block]) == Hashes(chain) + [Of(block)]
  {}

  /** What SaveBlockSequence makes of the log keys. */
  function Appended(keys: SequenceKeys, ty: SequenceType, hash: Hash): SequenceKeys {
    var n := LoadSequence(keys) + 1;
    SequenceKeys(Some(n), keys.entries[n := BlockSequence(ty, hash)],
                 if ty.AddBlock? then keys.hashToSequence[hash := n] else keys.hashToSequence)
  }

  lemma LogPush(keys: SequenceKeys, ty: SequenceType, hash: Hash)
    requires Dense(keys)
    ensures var keys' := Appended(keys, ty, hash);
      Dense(keys') && Log(keys') == Log(keys) + [BlockSequence(ty, hash)]
  {}

  lemma PointersPush(keys: SequenceKeys, ty: SequenceType, hash: Hash)
    requires PointsToAdds(keys)
    ensures PointsToAdds(Appended(keys, ty, hash))
  {}

  /** One more entry is one more replay step. */
  lemma ReplayPush(log: seq<BlockSequence>, e: BlockSequence)
    ensures Deletes(log + [e]) == Deletes(log) + if e.ty.DelBlock? then 1 else 0
    ensures e.ty.AddBlock? && Replay(log).Some? ==> Replay(log + [e]) == Some(Replay(log).value + [e.hash])
    ensures e.ty.DelBlock? ==> forall s | Replay(log) == Some(s + [e.hash]) :: Replay(log + [e]) == Some(s)
  {
    assert (log + [e])[..|log|] == log;
    forall s | e.ty.DelBlock? && Replay(log) == Some(s + [e.hash])
      ensures Replay(log + [e]) == Some(s)
    {
      assert (s + [e.hash])[..|s|] == s;
    }
  }

  /** An add entry keeps the log in step with a chain that grew by that block. */
  lemma LoggedAdd(keys: SequenceKeys, chain: seq<Block>, block: Block)
    requires Logged(keys, chain)
    ensures Logged(Appended(keys, AddBlock, Of(block)), chain + [block])
  {
    var e := BlockSequence(AddBlock, Of(block));
    LogPush(keys, AddBlock, Of(block));
    ReplayPush(Log(keys), e);
    HashesPush(chain, block);
    PointersPush(keys, AddBlock, Of(block));
  }

  /** A delete entry keeps the log in step with a chain that lost its last block. */
  lemma LoggedDel(keys: SequenceKeys, chain: seq<Block>, block: Block)
    requires Logged(keys, chain + [block]) && block.parentHash == TopHash(chain)
    ensures Logged(Appended(keys, DelBlock, Of(block)), chain)
  {
    var e := BlockSequence(DelBlock, Of(block));
    LogPush(keys, DelBlock, Of(block));
    ReplayPush(Log(keys), e);
    HashesPush(chain, block);
    PointersPush(keys, DelBlock, Of(block));
  }

  lemma LoggedEmpty()
    ensures Logged(NO_LOG, [])
  {
    assert Log(NO_LOG) == [];
    assert Hashes([]) == [];
  }

  /** Writing the height keys of a block on top of the chain. */
  lemma HoldsPush(keys: HeightKeys, chain: seq<Block>, block: Block)
    requires Holds(keys, chain) && block.height == |chain| && Of(block) !in keys.hashToHeight
    ensures Holds(HeightKeys(Some(block.height), keys.hashToHeight[Of(block) := block.height],
                             keys.heightToHash[block.height := Of(block)],
                             keys.headers[block.height := block]), chain + [block])
  {
    var chain' := chain + [block];
    forall i | 0 <= i < |chain'|
      ensures chain'[i].height == i
    {}
  }

  /** Deleting the height keys of the last block. */
  lemma HoldsPop(keys: HeightKeys, chain: seq<Block>, block: Block)
    requires Holds(keys, chain + [block])
    ensures block.height == |chain|
    ensures Holds(HeightKeys(Some(block.height - 1), keys.hashToHeight - {Of(block)},
                             keys.heightToHash - {block.height}, keys.headers - {block.height}), chain)
  {
    var chain' := chain + [block];
    assert chain'[|chain|] == block;
    forall i | 0 <= i < |chain|
      ensures chain'[i] == chain[i] && chain[i].height == i
    {}
  }

  /** All keys of the database describe the chain. */
  ghost predicate Describes(db: Db, chain: seq<Block>, record: bool) {
    && Holds(db.heights, chain)
    && Faithful(db)
    && (forall i | 0 <= i < |chain| :: Stored(db, Of(chain[i])))
    && (if record then Logged(db.log, chain) else db.log == NO_LOG)
  }

  lemma DescribedLog(db: Db, chain: seq<Block>, written: bool)
    requires Describes(db, chain, written)
    ensures Dense(db.log) && (written ==> Logged(db.log, chain)) && (!written ==> Log(db.log) == [])
  {}

  /** An empty log is the same as no log. */
  lemma EmptyLog(keys: SequenceKeys, chain: seq<Block>)
    requires Logged(keys, chain) && Log(keys) == []
    ensures keys == NO_LOG && chain == []
  {
    assert |Log(keys)| == LoadSequence(keys) + 1;
    assert forall i :: i !in keys.entries;
    assert keys.entries == map[];
    assert keys.hashToSequence == map[];
    assert |Hashes(chain)| == |chain|;
  }

  /** An accepted database also counts as written with the present setting. */
  lemma AcceptedDescribes(db: Db, chain: seq<Block>, written: bool, record: bool)
    requires Describes(db, chain, written) && Dense(db.log) && Accepted(db.log, chain, written, record)
    ensures Describes(db, chain, record)
  {
    if written && !record {
      EmptyLog(db.log, chain);
    } else if !written && record {
      LoggedEmpty();
    }
  }

  /** The database describes the branch behind the hash. */
  ghost predicate Recorded(db: Db, h: Hash, record: bool) {
    WellFormed(h) && Describes(db, Branch(h), record)
  }

  lemma DescribesPush(db: Db, db': Db, chain: seq<Block>, block: Block, record: bool)
    requires Describes(db, chain, record) && Stored(db, Of(block))
    requires db'.blocks == db.blocks && db'.td == db.td
    requires Holds(db'.heights, chain + [block])
    requires if record then Logged(db'.log, chain + [block]) else db'.log == NO_LOG
    ensures Describes(db', chain + [block], record)
  {
    hide Holds, Logged, TotalWork;
  }

  lemma DescribesPop(db: Db, db': Db, chain: seq<Block>, block: Block, record: bool)
    requires Describes(db, chain + [block], record)
    requires db'.blocks == db.blocks && db'.td == db.td
    requires Holds(db'.heights, chain)
    requires if record then Logged(db'.log, chain) else db'.log == NO_LOG
    ensures Describes(db', chain, record)
    ensures LoadHeight(db'.heights) == |chain| - 1
    ensures chain != [] ==> TopHash(chain) in db.blocks && db.blocks[TopHash(chain)] == chain[|chain| - 1]
  {
    assert forall i | 0 <= i < |chain| :: (chain + [block])[i] == chain[i];
  }

  /** What the database says about the block at a height. */
  lemma StoredHeader(db: Db, chain: seq<Block>, k: nat, record: bool)
    requires Describes(db, chain, record) && k < |chain|
    ensures k in db.heights.headers && db.heights.headers[k] == chain[k] && chain[k].height == k
    ensures Stored(db, Of(chain[k]))
    ensures Of(chain[k]) in db.heights.hashToHeight && db.heights.hashToHeight[Of(chain[k])] == k
  {}

  /** What the database says about a stored block that may be put on top of the chain. */
  lemma DescribesStored(db: Db, chain: seq<Block>, record: bool, block: Block)
    requires Describes(db, chain, record) && Stored(db, Of(block)) && WellFormed(Of(block))
    requires block.height == |chain| && block.parentHash == TopHash(chain)
    ensures db.blocks[Of(block)] == block
    ensures Of(block) !in db.heights.hashToHeight
    ensures if block.height == 0 then db.td[Of(block)] == block.work
            else block.parentHash in db.td && db.td[Of(block)] == block.work + db.td[block.parentHash]
  {
    TdWritten(db, block);
  }

  /** Filing a block under its hash with the work of its branch. */
  lemma FaithfulStore(db: Db, block: Block, td: nat)
    requires Faithful(db) && td == TotalWork(Of(block))
    ensures Faithful(db.(blocks := db.blocks[Of(block) := block], td := db.td[Of(block) := td]))
  {}

  /** The total difficulty written for a block: its own work on top of the parent's, or alone at
      height 0. */
  lemma TdWritten(db: Db, block: Block)
    requires Faithful(db) && WellFormed(Of(block))
    ensures block.height == 0 ==> TotalWork(Of(block)) == block.work
    ensures block.parentHash in db.td ==> TotalWork(Of(block)) == block.work + db.td[block.parentHash]
  {
    TotalWorkStep(block);
    if block.height == 0 {
      BranchLength(block.parentHash);
    }
  }

  class BlockStore {
    const isRecordBlockSequence: bool
    var db: Db
    var height: int
    var lastBlock: Option<Block>

    /** The database describes `chain`. */
    ghost predicate DbValid(chain: seq<Block>)
      reads this
    {
      Describes(db, chain, isRecordBlockSequence)
    }

    /** Database, cached height and cached last block all describe `chain`. */
    ghost predicate Valid(chain: seq<Block>)
      reads this
    {
      && DbValid(chain)
      && height == |chain| - 1
      && lastBlock == if chain == [] then None else Some(chain[|chain| - 1])
    }

    /** Database, cached height and cached last block describe `chain`, but the log may have been written
        with another setting than the present one. */
    ghost predicate Reads(chain: seq<Block>, written: bool)
      reads this
    {
      && Describes(db, chain, written)
      && height == |chain| - 1
      && lastBlock == if chain == [] then None else Some(chain[|chain| - 1])
    }

    constructor (isRecordBlockSequence: bool)
      ensures Valid([]) && db == EMPTY_DB && this.isRecordBlockSequence == isRecordBlockSequence
    {
      this.isRecordBlockSequence := isRecordBlockSequence;
      db := EMPTY_DB;
      height := -1;
      lastBlock := None;
      LoggedEmpty();
    }

    /** NewBlockStore: height and last block are read from a database that describes `chain`. */
    constructor Load(isRecordBlockSequence: bool, db: Db, ghost chain: seq<Block>, ghost written: bool)
      requires Describes(db, chain, written)
      ensures Reads(chain, written) && this.db == db && this.isRecordBlockSequence == isRecordBlockSequence
    {
      this.isRecordBlockSequence, this.db := isRecordBlockSequence, db;
      var last := LoadHeight(db.heights);
      height := last;
      if last == -1 {
        lastBlock := None;
      } else {
        assert db.heights.heightToHash[last] == Of(chain[last]);
        lastBlock := Some(db.blocks[db.heights.heightToHash[last]]);
      }
    }

    lemma HeaderAt(chain: seq<Block>, k: nat)
      requires Valid(chain) && k < |chain|
      ensures k in db.heights.headers && db.heights.headers[k] == chain[k] && chain[k].height == k
      ensures Stored(db, Of(chain[k]))
      ensures Of(chain[k]) in db.heights.hashToHeight && db.heights.hashToHeight[Of(chain[k])] == k
    {
      StoredHeader(db, chain, k, isRecordBlockSequence);
    }

    function LoadBlockByHash(hash: Hash): Option<Block>
      reads this
    {
      if hash in db.blocks then Some(db.blocks[hash]) else None
    }

    function GetTdByBlockHash(hash: Hash): Option<nat>
      reads this
    {
      if hash in db.td then Some(db.td[hash]) else None
    }

    /** Files a received block, on whatever branch, so that a later reorganisation can load it. */
    method DbMaybeStoreBlock(block: Block, ghost chain: seq<Block>) returns (ok: bool)
      requires Valid(chain) && WellFormed(Of(block))
      modifies this`db
      ensures ok <==> block.height == 0 || block.parentHash in old(db).td
      ensures !ok ==> db == old(db)
      ensures ok ==> db == old(db).(blocks := old(db).blocks[Of(block) := block],
                                    td := old(db).td[Of(block) := TotalWork(Of(block))])
      ensures Valid(chain)
    {
      hide Holds, Logged, WellFormed, TotalWork, Faithful;
      var batch := db;
      batch := batch.(blocks := batch.blocks[Of(block) := block]);
      TdWritten(db, block);
      var blocktd: nat;
      if block.height == 0 {
        blocktd := block.work;
      } else {
        var parenttd := GetTdByBlockHash(block.parentHash);
        if parenttd.None? {
          return false;
        }
        blocktd := block.work + parenttd.value;
      }
      batch := batch.(td := batch.td[Of(block) := blocktd]);
      FaithfulStore(db, block, blocktd);
      db := batch;
      return true;
    }

    /** Appends one entry to the log of the batch; its number comes from the database. */
    method SaveBlockSequence(batch: SequenceKeys, hash: Hash, height: int, ty: SequenceType)
      returns (b: SequenceKeys, sequence: int)
      requires isRecordBlockSequence && batch == db.log && (LoadSequence(db.log) == -1 ==> height == 0)
      ensures sequence == LoadSequence(db.log) + 1
      ensures b == Appended(db.log, ty, hash)
    {
      sequence := LoadSequence(db.log) + 1;
      b := batch.(entries := batch.entries[sequence := BlockSequence(ty, hash)]);
      if ty.AddBlock? {
        b := b.(hashToSequence := b.hashToSequence[hash := sequence]);
      }
      b := b.(last := Some(sequence));
    }

    /** The batch that puts `block` on top of the chain. */
    method SaveBlock(batch: Db, block: Block, ghost chain: seq<Block>) returns (b: Db, lastSequence: int)
      requires batch == db && Valid(chain)
      requires block.height == |chain| && Of(block) !in db.heights.hashToHeight
      ensures Holds(b.heights, chain + [block])
      ensures isRecordBlockSequence ==> Logged(b.log, chain + [block]) && lastSequence == LoadSequence(b.log)
      ensures isRecordBlockSequence ==> LastType(b.log) == Some(AddBlock)
      ensures !isRecordBlockSequence ==> b.log == NO_LOG && lastSequence == -1
      ensures b.td == db.td && b.blocks == db.blocks[Of(block) := block]
      ensures b.heights.hashToHeight == db.heights.hashToHeight[Of(block) := block.height]
    {
      lastSequence := -1;
      var hash := Of(block);
      b := batch.(blocks := batch.blocks[hash := block]);
      var keys := b.heights;
      keys := keys.(headers := keys.headers[block.height := block]);
      keys := keys.(last := Some(block.height));
      keys := keys.(hashToHeight := keys.hashToHeight[hash := block.height]);
      keys := keys.(heightToHash := keys.heightToHash[block.height := hash]);
      b := b.(heights := keys);
      HoldsPush(db.heights, chain, block);
      if isRecordBlockSequence {
        StartState(db.log, chain);
        var log: SequenceKeys;
        log, lastSequence := SaveBlockSequence(b.log, hash, block.height, AddBlock);
        b := b.(log := log);
        LoggedAdd(db.log, chain, block);
      }
    }

    /** The batch that takes `block` off the chain.  The number of the log entry is computed into a
        shadowed variable, so the returned sequence is -1 whatever the log says. */
    method DelBlock(batch: Db, block: Block, ghost chain: seq<Block>) returns (b: Db, lastSequence: int)
      requires batch == db && Valid(chain + [block])
      requires block.parentHash == TopHash(chain)
      ensures Holds(b.heights, chain)
      ensures if isRecordBlockSequence then Logged(b.log, chain) else b.log == NO_LOG
      ensures isRecordBlockSequence ==> LastType(b.log) == Some(SequenceType.DelBlock)
      ensures b.td == db.td && b.blocks == db.blocks
      ensures b.heights.hashToHeight == db.heights.hashToHeight - {Of(block)}
      ensures lastSequence == -1
    {
      lastSequence := -1;
      var hash := Of(block);
      var keys := batch.heights;
      keys := keys.(last := Some(block.height - 1));
      keys := keys.(hashToHeight := keys.hashToHeight - {hash});
      keys := keys.(heightToHash := keys.heightToHash - {block.height});
      keys := keys.(headers := keys.headers - {block.height});
      b := batch.(heights := keys);
      HoldsPop(db.heights, chain, block);
      if isRecordBlockSequence {
        StartState(db.log, chain + [block]);
        var log, shadowed := SaveBlockSequence(b.log, hash, block.height, SequenceType.DelBlock);
        b := b.(log := log);
        LoggedDel(db.log, chain, block);
      }
    }

    /** The database part of connectBlock: one batch for block, height keys, log and total
        difficulty, then the cached height and last block. */
    method WriteConnected(block: Block, ghost chain: seq<Block>) returns (ok: bool)
      requires Valid(chain) && WellFormed(Of(block)) && Stored(db, Of(block))
      requires block.height == |chain| && block.parentHash == TopHash(chain)
      modifies this
      ensures ok && Valid(chain + [block]) && (isRecordBlockSequence ==> LastType(db.log) == Some(AddBlock))
      ensures db.blocks == old(db.blocks) && db.td == old(db.td)
      ensures db.heights.hashToHeight == old(db.heights.hashToHeight)[Of(block) := block.height]
    {
      hide Describes, Holds, Logged, WellFormed, TopHash;
      DescribesStored(db, chain, isRecordBlockSequence, block);
      var batch, lastSequence := SaveBlock(db, block, chain);
      var blocktd: nat;
      if block.height == 0 {
        blocktd := block.work;
      } else {
        var parenttd := GetTdByBlockHash(block.parentHash);
        if parenttd.None? {
          return false;
        }
        blocktd := block.work + parenttd.value;
      }
      batch := batch.(td := batch.td[Of(block) := blocktd]);
      assert batch.td == db.td && batch.blocks == db.blocks;
      DescribesPush(db, batch, chain, block, isRecordBlockSequence);
      db := batch;
      height := block.height;
      lastBlock := Some(block);
      return true;
    }

    /** The database part of disconnectBlock. */
    method WriteDisconnected(block: Block, ghost chain: seq<Block>)
      requires Valid(chain + [block]) && block.parentHash == TopHash(chain)
      modifies this
      ensures DbValid(chain) && (isRecordBlockSequence ==> LastType(db.log) == Some(SequenceType.DelBlock))
      ensures chain != [] ==> Valid(chain)
      ensures db.blocks == old(db.blocks) && db.td == old(db.td)
      ensures db.heights.hashToHeight == old(db.heights.hashToHeight) - {Of(block)}
    {
      hide Describes, Holds, Logged;
      var batch, lastSequence := DelBlock(db, block, chain);
      DescribesPop(db, batch, chain, block, isRecordBlockSequence);
      db := batch;
      UpdateHeight();
      UpdateLastBlock(block.parentHash);
    }

    /** Reads the last height back from the database. */
    method UpdateHeight()
      modifies this`height
      ensures height == LoadHeight(db.heights)
    {
      height := LoadHeight(db.heights);
    }

    /** Reloads the cached last block; a hash that cannot be loaded leaves it as it was. */
    method UpdateLastBlock(hash: Hash)
      modifies this`lastBlock
      ensures lastBlock == if hash in db.blocks then Some(db.blocks[hash]) else old(lastBlock)
    {
      var block := LoadBlockByHash(hash);
      if block.Some? {
        lastBlock := block;
      }
    }

    /** The consistency check made when a node starts.  A log that ends with a delete, as a reorganisation
        that stopped after its deletes leaves it, is refused; so is a log switched on over an existing chain
        and a log switched off again. */
    method IsRecordBlockSequenceValid(ghost chain: seq<Block>, ghost written: bool) returns (ok: bool)
      requires Reads(chain, written)
      ensures Dense(db.log) && (ok <==> Accepted(db.log, chain, written, isRecordBlockSequence))
      ensures ok ==> Valid(chain)
      ensures isRecordBlockSequence && written ==>
        (ok <==> forall n | n in db.log.entries && n + 1 !in db.log.entries :: db.log.entries[n].ty.AddBlock?)
      ensures isRecordBlockSequence && !written ==> (ok <==> chain == [])
      ensures !isRecordBlockSequence ==> (ok <==> db.log.entries == map[])
    {
      hide Holds, Logged, Stored, Faithful;
      DescribedLog(db, chain, written);
      LastEntry(db.log);
      if written {
        StartState(db.log, chain);
      }
      if Accepted(db.log, chain, written, isRecordBlockSequence) {
        AcceptedDescribes(db, chain, written, isRecordBlockSequence);
      }
      var lastHeight := height;
      var lastSequence := LoadSequence(db.log);
      if isRecordBlockSequence {
        if lastSequence == -1 && lastHeight != -1 {
          return false;
        }
        if lastHeight > lastSequence {
          return false;
        }
        if lastSequence != -1 {
          if lastSequence !in db.log.entries {
            return false;
          }
          if lastBlock == None || Of(lastBlock.value) != db.log.entries[lastSequence].hash {
            return false;
          }
        }
        return true;
      }
      if lastSequence != -1 {
        return false;
      }
      return true;
    }
  }

  /** What the start-up check meets: the last log entry names the tip exactly when it is an add. */
  lemma StartState(keys: SequenceKeys, chain: seq<Block>)
    requires Logged(keys, chain)
    ensures |chain| - 1 <= LoadSequence(keys)
    ensures LoadSequence(keys) == -1 <==> Log(keys) == []
    ensures LoadSequence(keys) >= 0 ==>
      (keys.entries[LoadSequence(keys)].ty.AddBlock? <==>
       chain != [] && Of(chain[|chain| - 1]) == keys.entries[LoadSequence(keys)].hash)
  {
    var n := LoadSequence(keys);
    if n >= 0 {
      var e := Log(keys)[n];
      if e.ty.AddBlock? {
        var s := Replay(Log(keys)[..n]);
        assert Log(keys)[..|Log(keys)| - 1] == Log(keys)[..n];
        assert Hashes(chain) == s.value + [e.hash];
        assert |Hashes(chain)| == |chain| == |s.value| + 1;
        assert Hashes(chain)[|chain| - 1] == e.hash;
      } else if chain != [] {
        ParentIsOther(e.hash.block);
      }
    }
  }
}
