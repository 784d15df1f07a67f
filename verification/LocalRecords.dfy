/** Which records a block leaves in the local database, key by key: the address index with its counts and the
    transaction index, after one block and after any run. */
module LocalRecords {
  import opened Int64s
  import opened Options
  import opened LocalIndexes
  import opened LocalHistories

  ghost predicate Unrepeated(order: seq<Plugin>) {
    forall i, j | 0 <= i < j < |order| :: order[i] != order[j]
  }

  // The address index.

  /** The entries of one address write its two records of the position. */
  lemma AddrEntriesAt(cfg: Config, db: LocalStore, addr: string, flag: int, height: int, i: int, info: LocalValue,
                      k: LocalKey)
    requires !k.AddrTxsCountKey?
    ensures Lookup(Added(db, AddrEntries(cfg, addr, flag, height, i, info)), k) ==
            if addr != "" && (k == TxAddrHashKey(addr, Position(height, i))
                              || k == TxAddrDirHashKey(addr, flag, Position(height, i))) then Some(info)
            else Lookup(db, k)
  {
    hide Position;
    if addr != "" {
      var first := Put(TxAddrDirHashKey(addr, flag, Position(height, i)), info);
      var second := Put(TxAddrHashKey(addr, Position(height, i)), info);
      var es := AddrEntries(cfg, addr, flag, height, i, info);
      assert es[..1] == [first] && es[..2] == [first, second];
      assert Added(db, [first]) == AddOne(db, first);
      assert Added(db, [first, second]) == AddOne(AddOne(db, first), second) by {
        assert [first, second][..1] == [first];
      }
      assert |es| == 3 ==> es[..2] == [first, second] && es[2] == Bump(addr);
      assert |es| == 2 ==> es == [first, second];
    }
  }

  lemma {:induction false} AddrIndexAt(cfg: Config, db: LocalStore, b: BlockDetail, n: nat, k: LocalKey)
    requires n <= |b.txs| && (k.TxAddrHashKey? || k.TxAddrDirHashKey?)
    ensures var i := k.pos - b.height * MAX_TXS_PER_BLOCK;
      Lookup(Added(db, AddrIndex(cfg, b, n)), k) ==
      if 0 <= i < n && k.addr != "" && ((b.txs[i].sender == k.addr && (k.TxAddrDirHashKey? ==> k.flag == 1))
                                        || (b.txs[i].to == k.addr && (k.TxAddrDirHashKey? ==> k.flag == 2)))
      then Some(TxInfo(b.txs[i].hash, b.height, i))
      else Lookup(db, k)
  {
    hide AddrEntries;
    if n > 0 {
      var m := n - 1;
      var tx, info := b.txs[m], TxInfo(b.txs[m].hash, b.height, m);
      var before := Added(db, AddrIndex(cfg, b, m));
      var from := AddrEntries(cfg, tx.sender, TX_INDEX_FROM, b.height, m, info);
      var to := AddrEntries(cfg, tx.to, TX_INDEX_TO, b.height, m, info);
      AddrIndexAt(cfg, db, b, m, k);
      AddedConcat(db, AddrIndex(cfg, b, m), from + to);
      AddedConcat(before, from, to);
      AddrEntriesAt(cfg, before, tx.sender, TX_INDEX_FROM, b.height, m, info, k);
      AddrEntriesAt(cfg, Added(before, from), tx.to, TX_INDEX_TO, b.height, m, info, k);
    }
  }

  /** After a block was added, its transaction at `i` is found under its sender and under its receiver, with
      and without the direction, at the position height times 100000 plus `i`; every other record of the
      index is what it was. */
  lemma AddrRecords(cfg: Config, db: LocalStore, b: BlockDetail, order: seq<Plugin>, k: LocalKey)
    requires Complete(b) && Unrepeated(order) && AddrIndexPlugin in order
    requires k.TxAddrHashKey? || k.TxAddrDirHashKey?
    ensures var i := k.pos - b.height * 100_000;
      Lookup(AddBlock(cfg, db, b, order), k) ==
      if 0 <= i < |b.txs| && k.addr != "" && ((b.txs[i].sender == k.addr && (k.TxAddrDirHashKey? ==> k.flag == 1))
                                              || (b.txs[i].to == k.addr && (k.TxAddrDirHashKey? ==> k.flag == 2)))
      then Some(TxInfo(b.txs[i].hash, b.height, i))
      else Lookup(db, k)
  {
    hide Entries, Added, AddrIndex;
    AddedByFamily(cfg, db, b, order, k);
    AddrIndexAt(cfg, db, b, |b.txs|, k);
  }

  /** How many of the first `n` transactions the address sends, and receives. */
  ghost function Sent(txs: seq<Tx>, n: nat, addr: string): set<int>
    requires n <= |txs|
  {
    set i | 0 <= i < n && txs[i].sender == addr
  }

  ghost function Received(txs: seq<Tx>, n: nat, addr: string): set<int>
    requires n <= |txs|
  {
    set i | 0 <= i < n && txs[i].to == addr
  }

  lemma SentPush(txs: seq<Tx>, n: nat, addr: string)
    requires n < |txs|
    ensures |Sent(txs, n + 1, addr)| == |Sent(txs, n, addr)| + if txs[n].sender == addr then 1 else 0
    ensures |Received(txs, n + 1, addr)| == |Received(txs, n, addr)| + if txs[n].to == addr then 1 else 0
  {
    assert Sent(txs, n + 1, addr) == Sent(txs, n, addr) + if txs[n].sender == addr then {n} else {};
    assert Received(txs, n + 1, addr) == Received(txs, n, addr) + if txs[n].to == addr then {n} else {};
  }

  lemma AddrEntriesBumps(cfg: Config, addr: string, flag: int, height: int, i: int, info: LocalValue, a: string)
    ensures Bumps(AddrEntries(cfg, addr, flag, height, i, info), a) ==
            if cfg.counts && addr != "" && addr == a then 1 else 0
  {
    hide Position;
    if addr != "" {
      var puts := [Put(TxAddrDirHashKey(addr, flag, Position(height, i)), info),
                   Put(TxAddrHashKey(addr, Position(height, i)), info)];
      var rest := if cfg.counts then [Bump(addr)] else [];
      NoBumps(puts, a);
      BumpsConcat(puts, rest, a);
      assert cfg.counts ==> rest[..0] == [];
    }
  }

  lemma {:induction false} AddrIndexBumps(cfg: Config, b: BlockDetail, n: nat, addr: string)
    requires n <= |b.txs|
    ensures Bumps(AddrIndex(cfg, b, n), addr) ==
            if cfg.counts && addr != "" then |Sent(b.txs, n, addr)| + |Received(b.txs, n, addr)| else 0
  {
    hide AddrEntries, Bumps;
    if n == 0 {
      assert Sent(b.txs, 0, addr) == {} && Received(b.txs, 0, addr) == {};
      NoBumps([], addr);
    } else {
      var m := n - 1;
      var tx, info := b.txs[m], TxInfo(b.txs[m].hash, b.height, m);
      var from := AddrEntries(cfg, tx.sender, TX_INDEX_FROM, b.height, m, info);
      var to := AddrEntries(cfg, tx.to, TX_INDEX_TO, b.height, m, info);
      AddrIndexBumps(cfg, b, m, addr);
      BumpsConcat(AddrIndex(cfg, b, m), from + to, addr);
      BumpsConcat(from, to, addr);
      AddrEntriesBumps(cfg, tx.sender, TX_INDEX_FROM, b.height, m, info, addr);
      AddrEntriesBumps(cfg, tx.to, TX_INDEX_TO, b.height, m, info, addr);
      SentPush(b.txs, m, addr);
    }
  }

  /** And its count grows by the transactions that it sends and those that it receives. */
  lemma AddrCounts(cfg: Config, db: LocalStore, b: BlockDetail, order: seq<Plugin>, addr: string)
    requires Complete(b) && Unrepeated(order) && AddrIndexPlugin in order && Typed(db)
    ensures var sent, received := set i | 0 <= i < |b.txs| && b.txs[i].sender == addr,
                                  set i | 0 <= i < |b.txs| && b.txs[i].to == addr;
      Count(AddBlock(cfg, db, b, order), addr) ==
      if cfg.counts && addr != "" then Wrap(Count(db, addr) + |sent| + |received|) else Count(db, addr)
  {
    hide Entries, Added, Bumps, AddrIndex, Wrap;
    Shape(cfg, db, b, order);
    BumpsOf(cfg, db, b, order, addr);
    AddrIndexBumps(cfg, b, |b.txs|, addr);
    AddedCounts(db, Entries(cfg, db, b, order), addr);
    WrapCount(db, addr);
    assert Sent(b.txs, |b.txs|, addr) == set i | 0 <= i < |b.txs| && b.txs[i].sender == addr;
    assert Received(b.txs, |b.txs|, addr) == set i | 0 <= i < |b.txs| && b.txs[i].to == addr;
  }

  lemma WrapCount(db: LocalStore, addr: string)
    requires Typed(db)
    ensures Int64(Count(db, addr)) && Wrap(Count(db, addr)) == Count(db, addr)
  {}

  // The transaction index.

  /** The last transaction with a hash among the first `n`. */
  ghost predicate LastWith(txs: seq<Tx>, n: nat, hash: TxHash, i: int)
    requires n <= |txs|
  {
    0 <= i < n && txs[i].hash == hash && forall j | i < j < n :: txs[j].hash != hash
  }

  lemma TxIndexOfAt(cfg: Config, db: LocalStore, b: BlockDetail, i: nat, k: LocalKey)
    requires i < |b.txs| == |b.receipts| && !k.AddrTxsCountKey?
    ensures Lookup(Added(db, TxIndexOf(cfg, b, i)), k) ==
            if k == TxKey(b.txs[i].hash) then Some(TxResult(b.height, i, b.txs[i], b.receipts[i]))
            else if cfg.quickIndex && k == TxShortKey(b.txs[i].hash[..8]) then Some(Mark)
            else Lookup(db, k)
  {
    var es := TxIndexOf(cfg, b, i);
    assert es[..1] == [es[0]];
    assert Added(db, [es[0]]) == AddOne(db, es[0]);
    assert |es| == 1 ==> es == [es[0]];
  }

  lemma {:induction false} TxIndexAt(cfg: Config, db: LocalStore, b: BlockDetail, n: nat, hash: TxHash, i: int)
    requires n <= |b.txs| == |b.receipts|
    ensures LastWith(b.txs, n, hash, i) ==>
      Lookup(Added(db, TxIndex(cfg, b, n)), TxKey(hash)) == Some(TxResult(b.height, i, b.txs[i], b.receipts[i]))
    ensures (forall j | 0 <= j < n :: b.txs[j].hash != hash) ==>
      Lookup(Added(db, TxIndex(cfg, b, n)), TxKey(hash)) == Lookup(db, TxKey(hash))
  {
    hide TxIndexOf;
    if n > 0 {
      TxIndexAt(cfg, db, b, n - 1, hash, i);
      AddedConcat(db, TxIndex(cfg, b, n - 1), TxIndexOf(cfg, b, n - 1));
      TxIndexOfAt(cfg, Added(db, TxIndex(cfg, b, n - 1)), b, n - 1, TxKey(hash));
    }
  }

  lemma {:induction false} TxShortAt(cfg: Config, db: LocalStore, b: BlockDetail, n: nat, short: string)
    requires n <= |b.txs| == |b.receipts|
    ensures Lookup(Added(db, TxIndex(cfg, b, n)), TxShortKey(short)) ==
            if cfg.quickIndex && exists i :: 0 <= i < n && b.txs[i].hash[..8] == short then Some(Mark)
            else Lookup(db, TxShortKey(short))
  {
    hide TxIndexOf;
    if n > 0 {
      TxShortAt(cfg, db, b, n - 1, short);
      AddedConcat(db, TxIndex(cfg, b, n - 1), TxIndexOf(cfg, b, n - 1));
      TxIndexOfAt(cfg, Added(db, TxIndex(cfg, b, n - 1)), b, n - 1, TxShortKey(short));
    }
  }

  /** After a block was added, each of its transactions is found under its hash with height, position and
      receipt, the last one if several share the hash, and under quickIndex the first eight bytes of the hash
      are marked; every other record of the index is what it was. */
  lemma TxRecords(cfg: Config, db: LocalStore, b: BlockDetail, order: seq<Plugin>, hash: TxHash, i: int)
    requires Complete(b) && Unrepeated(order) && TxIndexPlugin in order
    ensures 0 <= i < |b.txs| && b.txs[i].hash == hash && (forall j | i < j < |b.txs| :: b.txs[j].hash != hash) ==>
      Lookup(AddBlock(cfg, db, b, order), TxKey(hash)) == Some(TxResult(b.height, i, b.txs[i], b.receipts[i]))
    ensures (forall j | 0 <= j < |b.txs| :: b.txs[j].hash != hash) ==>
      Lookup(AddBlock(cfg, db, b, order), TxKey(hash)) == Lookup(db, TxKey(hash))
  {
    hide Entries, Added, TxIndex;
    AddedByFamily(cfg, db, b, order, TxKey(hash));
    TxIndexAt(cfg, db, b, |b.txs|, hash, i);
  }

  lemma ShortRecords(cfg: Config, db: LocalStore, b: BlockDetail, order: seq<Plugin>, short: string)
    requires Complete(b) && Unrepeated(order) && TxIndexPlugin in order
    ensures Lookup(AddBlock(cfg, db, b, order), TxShortKey(short)) ==
            if cfg.quickIndex && exists i :: 0 <= i < |b.txs| && b.txs[i].hash[..8] == short then Some(Mark)
            else Lookup(db, TxShortKey(short))
  {
    hide Entries, Added, TxIndex;
    AddedByFamily(cfg, db, b, order, TxShortKey(short));
    TxShortAt(cfg, db, b, |b.txs|, short);
  }

  // Whole chains and runs.

  /** How often an address sends or receives on a chain. */
  ghost function Uses(chain: seq<BlockDetail>, addr: string): nat {
    if chain == [] then 0
    else
      var txs := chain[|chain| - 1].txs;
      Uses(chain[..|chain| - 1], addr) + |Sent(txs, |txs|, addr)| + |Received(txs, |txs|, addr)|
  }

  lemma {:induction false} ChainCounts(cfg: Config, chain: seq<BlockDetail>, order: seq<Plugin>, addr: string)
    requires (forall b | b in chain :: Complete(b)) && Unrepeated(order) && AddrIndexPlugin in order
    ensures Count(Replay(cfg, chain, order), addr) == if cfg.counts && addr != "" then Wrap(Uses(chain, addr)) else 0
  {
    hide Wrap, AddBlock;
    WrapZero();
    if chain != [] {
      var n := |chain| - 1;
      assert chain[n] in chain;
      var db, txs := Replay(cfg, chain[..n], order), chain[n].txs;
      ChainCounts(cfg, chain[..n], order, addr);
      ReplayTyped(cfg, chain[..n], order);
      AddrCounts(cfg, db, chain[n], order, addr);
      assert Sent(txs, |txs|, addr) == set i | 0 <= i < |txs| && txs[i].sender == addr;
      assert Received(txs, |txs|, addr) == set i | 0 <= i < |txs| && txs[i].to == addr;
      WrapAdd(Uses(chain[..n], addr), |Sent(txs, |txs|, addr)| + |Received(txs, |txs|, addr)|);
    }
  }

  /** The address record of the transaction at `i` of the block at height `n`, if it has that address. */
  ghost function AddrRecordOf(chain: seq<BlockDetail>, k: LocalKey, n: int, i: int): Option<LocalValue>
    requires k.TxAddrHashKey? || k.TxAddrDirHashKey?
  {
    if && 0 <= n < |chain| && 0 <= i < |chain[n].txs| && k.addr != ""
       && ((chain[n].txs[i].sender == k.addr && (k.TxAddrDirHashKey? ==> k.flag == 1))
           || (chain[n].txs[i].to == k.addr && (k.TxAddrDirHashKey? ==> k.flag == 2)))
    then Some(TxInfo(chain[n].txs[i].hash, n, i))
    else None
  }

  lemma {:induction false} ChainAddrRecords(cfg: Config, chain: seq<BlockDetail>, order: seq<Plugin>, k: LocalKey,
                                            n: int, i: int)
    requires Counted(chain) && Unrepeated(order) && AddrIndexPlugin in order
    requires (k.TxAddrHashKey? || k.TxAddrDirHashKey?) && k.pos == n * 100_000 + i && 0 <= i < 100_000
    ensures Lookup(Replay(cfg, chain, order), k) == AddrRecordOf(chain, k, n, i)
  {
    hide AddBlock;
    if chain != [] {
      var m := |chain| - 1;
      assert chain[m] in chain;
      ChainAddrRecords(cfg, chain[..m], order, k, n, i);
      AddrRecords(cfg, Replay(cfg, chain[..m], order), chain[m], order, k);
      if n < m {
        assert (n + 1) * 100_000 <= m * 100_000;
      } else if n > m {
        assert (m + 1) * 100_000 <= n * 100_000;
      }
    }
  }

  /** No later transaction of the block has the hash. */
  ghost predicate LastAt(txs: seq<Tx>, i: nat) {
    i < |txs| && forall j | i < j < |txs| :: txs[j].hash != txs[i].hash
  }

  lemma {:induction false} ChainTxRecords(cfg: Config, chain: seq<BlockDetail>, order: seq<Plugin>, n: nat, i: nat)
    requires Regular(cfg, chain) && Unrepeated(order) && TxIndexPlugin in order && n < |chain|
    requires LastAt(chain[n].txs, i)
    ensures var b := chain[n];
      |b.txs| == |b.receipts| && Lookup(Replay(cfg, chain, order), TxKey(b.txs[i].hash))
                                 == Some(TxResult(n, i, b.txs[i], b.receipts[i]))
  {
    hide AddBlock;
    var m := |chain| - 1;
    assert chain[m] in chain && chain[n] in chain;
    TxRecords(cfg, Replay(cfg, chain[..m], order), chain[m], order, chain[n].txs[i].hash, i);
    if n < m {
      assert Unrelated(cfg, chain[n], chain[m]);
      forall x, y | 0 <= x < y < m
        ensures Unrelated(cfg, chain[..m][x], chain[..m][y])
      {}
      ChainTxRecords(cfg, chain[..m], order, n, i);
    }
  }

  /** After any orderly run every address is counted as often as it sends or receives on the current chain. */
  lemma RunCounts(cfg: Config, changes: seq<Change>, enabled: set<Plugin>, order: seq<Plugin>, addr: string)
    requires Orderly(cfg, changes, enabled) && Order(order, enabled) && AddrIndexPlugin in enabled
    ensures var s := Run(cfg, changes);
      Count(s.db, addr) == if cfg.counts && addr != "" then Wrap(Uses(s.chain, addr)) else 0
  {
    hide Wrap, Regular, Run, Replay, FreshChain, Uses, Runs;
    RunRegular(cfg, changes, enabled);
    RunCurrent(cfg, changes, order, enabled);
    ChainCounts(cfg, Run(cfg, changes).chain, order, addr);
  }

  /** Under an address and a position there is the transaction at that position of the current chain if it has
      the address, and nothing otherwise. */
  lemma RunAddrRecords(cfg: Config, changes: seq<Change>, enabled: set<Plugin>, order: seq<Plugin>, k: LocalKey,
                       n: int, i: int)
    requires Orderly(cfg, changes, enabled) && Order(order, enabled) && AddrIndexPlugin in enabled
    requires (k.TxAddrHashKey? || k.TxAddrDirHashKey?) && k.pos == n * 100_000 + i && 0 <= i < 100_000
    ensures Lookup(Run(cfg, changes).db, k) == AddrRecordOf(Run(cfg, changes).chain, k, n, i)
  {
    hide Regular, Run, Replay, FreshChain, AddrRecordOf, Runs;
    RunRegular(cfg, changes, enabled);
    RunCurrent(cfg, changes, order, enabled);
    ChainAddrRecords(cfg, Run(cfg, changes).chain, order, k, n, i);
  }

  /** And under the hash of a transaction of the current chain there is its result. */
  lemma RunTxRecords(cfg: Config, changes: seq<Change>, enabled: set<Plugin>, order: seq<Plugin>, n: nat, i: nat)
    requires Orderly(cfg, changes, enabled) && Order(order, enabled) && TxIndexPlugin in enabled
    requires var chain := Run(cfg, changes).chain; n < |chain| && LastAt(chain[n].txs, i)
    ensures var s := Run(cfg, changes);
      var b := s.chain[n];
      |b.txs| == |b.receipts| && Lookup(s.db, TxKey(b.txs[i].hash)) == Some(TxResult(n, i, b.txs[i], b.receipts[i]))
  {
    hide Regular, Run, Replay, FreshChain, Runs;
    RunRegular(cfg, changes, enabled);
    RunCurrent(cfg, changes, order, enabled);
    ChainTxRecords(cfg, Run(cfg, changes).chain, order, n, i);
  }

  lemma RunRegular(cfg: Config, changes: seq<Change>, enabled: set<Plugin>)
    requires Orderly(cfg, changes, enabled)
    ensures Regular(cfg, Run(cfg, changes).chain) && Counted(Run(cfg, changes).chain)
  {
    hide Run, Unrelated;
    assert changes[..|changes|] == changes && RegularAt(cfg, changes, |changes|);
  }
}
