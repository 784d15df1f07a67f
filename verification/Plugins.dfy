/** executor/plugin_addrindex.go, executor/plugin_txindex.go, executor/plugin_fee.go and the plugin loops
    of executor/executor.go: the key-value lists for adding and deleting a block. */
module Plugins {
  import opened Int64s
  import opened Options
  import opened LocalIndexes
  import opened LocalHistories

  /** A nil value deletes the key. */
  datatype KV = KV(key: LocalKey, value: Option<LocalValue>)

  function ApplyOne(db: LocalStore, kv: KV): LocalStore {
    if kv.value.None? then db - {kv.key} else db[kv.key := kv.value.value]
  }

  function Apply(db: LocalStore, kvs: seq<KV>): LocalStore {
    if kvs == [] then db else ApplyOne(Apply(db, kvs[..|kvs| - 1]), kvs[|kvs| - 1])
  }

  lemma ApplyPush(db: LocalStore, kvs: seq<KV>, kv: KV)
    ensures Apply(db, kvs + [kv]) == ApplyOne(Apply(db, kvs), kv)
  {
    assert (kvs + [kv])[..|kvs|] == kvs;
  }

  lemma {:induction false} ApplyConcat(db: LocalStore, a: seq<KV>, b: seq<KV>)
    ensures Apply(db, a + b) == Apply(Apply(db, a), b)
    decreases |b|
  {
    if b == [] {
      assert a + b == a;
    } else {
      ApplyConcat(db, a, b[..|b| - 1]);
      assert (a + b)[..|a + b| - 1] == a + b[..|b| - 1];
    }
  }

  /** blockchain/blockstore.go, AddTxs and DelTxs: writes the list to the store. */
  method StoreBatch(db: LocalStore, kvs: seq<KV>) returns (db': LocalStore)
    ensures db' == Apply(db, kvs)
  {
    db' := db;
    for i := 0 to |kvs|
      invariant db' == Apply(db, kvs[..i])
    {
      assert kvs[..i + 1][..i] == kvs[..i];
      if kvs[i].value.None? {
        db' := db' - {kvs[i].key};
      } else {
        db' := db'[kvs[i].key := kvs[i].value.value];
      }
    }
    assert kvs[..|kvs|] == kvs;
  }

  /** One step of a fold: adding or deleting an entry. */
  function One(db: LocalStore, e: Entry, isadd: bool): LocalStore {
    if isadd then AddOne(db, e) else DelOne(db, e)
  }

  function Fold(db: LocalStore, es: seq<Entry>, isadd: bool): LocalStore {
    if isadd then Added(db, es) else Deleted(db, es)
  }

  lemma FoldPush(db: LocalStore, es: seq<Entry>, e: Entry, isadd: bool)
    ensures Fold(db, es + [e], isadd) == One(Fold(db, es, isadd), e, isadd)
  {
    assert (es + [e])[..|es|] == es;
  }

  lemma FoldConcat(db: LocalStore, a: seq<Entry>, b: seq<Entry>, isadd: bool)
    ensures Fold(db, a + b, isadd) == Fold(Fold(db, a, isadd), b, isadd)
  {
    AddedConcat(db, a, b);
    DeletedConcat(db, a, b);
  }

  ghost predicate CountsAgree(db: LocalStore, db': LocalStore) {
    forall addr: string :: Lookup(db, AddrTxsCountKey(addr)) == Lookup(db', AddrTxsCountKey(addr))
  }

  ghost predicate OnlyCounts(db: LocalStore, db': LocalStore) {
    forall k: LocalKey | !k.AddrTxsCountKey? :: Lookup(db, k) == Lookup(db', k)
  }

  /** The list does to the records what the entries do, and the counts in memory agree with it. */
  ghost predicate Tracks(base: LocalStore, kvs: seq<KV>, es: seq<Entry>, isadd: bool, local: LocalStore) {
    Apply(base, kvs) == Fold(base, es, isadd) && CountsAgree(local, Apply(base, kvs))
  }

  lemma TracksStart(base: LocalStore, isadd: bool, local: LocalStore)
    requires CountsAgree(local, base)
    ensures Tracks(base, [], [], isadd, local)
  {}

  lemma TracksPut(base: LocalStore, kvs: seq<KV>, es: seq<Entry>, isadd: bool, local: LocalStore, key: LocalKey,
                  value: LocalValue)
    requires Tracks(base, kvs, es, isadd, local) && !key.AddrTxsCountKey?
    ensures Tracks(base, kvs + [KV(key, if isadd then Some(value) else None)], es + [Put(key, value)], isadd, local)
  {
    var kv := KV(key, if isadd then Some(value) else None);
    ApplyPush(base, kvs, kv);
    FoldPush(base, es, Put(key, value), isadd);
    forall addr: string
      ensures Lookup(local, AddrTxsCountKey(addr)) == Lookup(Apply(base, kvs + [kv]), AddrTxsCountKey(addr))
    {
      assert Lookup(local, AddrTxsCountKey(addr)) == Lookup(Apply(base, kvs), AddrTxsCountKey(addr));
    }
  }

  lemma TracksBump(base: LocalStore, kvs: seq<KV>, es: seq<Entry>, isadd: bool, local: LocalStore, addr: string)
    requires Tracks(base, kvs, es, isadd, local)
    ensures var value := Int64Value(Wrap(Count(local, addr) + if isadd then 1 else -1));
      Tracks(base, kvs + [KV(AddrTxsCountKey(addr), Some(value))], es + [Bump(addr)], isadd,
             local[AddrTxsCountKey(addr) := value])
  {
    hide Wrap;
    var value := Int64Value(Wrap(Count(local, addr) + if isadd then 1 else -1));
    var kv := KV(AddrTxsCountKey(addr), Some(value));
    ApplyPush(base, kvs, kv);
    FoldPush(base, es, Bump(addr), isadd);
    assert Lookup(local, AddrTxsCountKey(addr)) == Lookup(Apply(base, kvs), AddrTxsCountKey(addr));
    forall a: string
      ensures Lookup(local[AddrTxsCountKey(addr) := value], AddrTxsCountKey(a))
              == Lookup(Apply(base, kvs + [kv]), AddrTxsCountKey(a))
    {
      assert Lookup(local, AddrTxsCountKey(a)) == Lookup(Apply(base, kvs), AddrTxsCountKey(a));
    }
  }

  /** Lists of consecutive plugins join. */
  lemma TracksJoin(base: LocalStore, kvs: seq<KV>, es: seq<Entry>, isadd: bool, more: seq<KV>, es': seq<Entry>,
                   local: LocalStore)
    requires Apply(base, kvs) == Fold(base, es, isadd) && Tracks(Apply(base, kvs), more, es', isadd, local)
    ensures Tracks(base, kvs + more, es + es', isadd, local)
  {
    ApplyConcat(base, kvs, more);
    FoldConcat(base, es, es', isadd);
  }

  lemma Agrees(db: LocalStore)
    ensures CountsAgree(db, db)
  {}

  lemma Tracked(base: LocalStore, kvs: seq<KV>, es: seq<Entry>, isadd: bool, local: LocalStore)
    requires Tracks(base, kvs, es, isadd, local)
    ensures Apply(base, kvs) == Fold(base, es, isadd) && CountsAgree(local, Apply(base, kvs))
  {}

  ghost predicate Writes(kvs: seq<KV>, k: LocalKey) {
    exists kv :: kv in kvs && kv.key == k
  }

  lemma {:induction false} ApplyElsewhere(base: LocalStore, kvs: seq<KV>, k: LocalKey)
    requires !Writes(kvs, k)
    ensures Lookup(Apply(base, kvs), k) == Lookup(base, k)
  {
    if kvs != [] {
      assert kvs[|kvs| - 1] in kvs;
      ApplyElsewhere(base, kvs[..|kvs| - 1], k);
    }
  }

  lemma {:induction false} ApplyAt(base: LocalStore, local: LocalStore, kvs: seq<KV>, k: LocalKey)
    requires Writes(kvs, k) || Lookup(local, k) == Lookup(base, k)
    ensures Lookup(Apply(local, kvs), k) == Lookup(Apply(base, kvs), k)
  {
    if kvs != [] {
      var n := |kvs| - 1;
      if kvs[n].key != k {
        assert kvs == kvs[..n] + [kvs[n]];
        ApplyAt(base, local, kvs[..n], k);
      }
    }
  }

  /** After the list is also written to memory, memory is the new state. */
  lemma WriteThrough(base: LocalStore, kvs: seq<KV>, local: LocalStore)
    requires CountsAgree(local, Apply(base, kvs)) && OnlyCounts(base, local)
    ensures Apply(local, kvs) == Apply(base, kvs)
  {
    var x, y := Apply(local, kvs), Apply(base, kvs);
    forall k: LocalKey
      ensures Lookup(x, k) == Lookup(y, k)
    {
      if !Writes(kvs, k) {
        ApplyElsewhere(base, kvs, k);
        if k.AddrTxsCountKey? {
          assert Lookup(local, AddrTxsCountKey(k.addr)) == Lookup(Apply(base, kvs), AddrTxsCountKey(k.addr));
        }
      }
      ApplyAt(base, local, kvs, k);
    }
    assert forall k: LocalKey :: k in x ==> Lookup(x, k).Some?;
    assert forall k: LocalKey :: k in y ==> Lookup(y, k).Some?;
    assert x == y;
  }

  class PluginExecutor {
    const cfg: Config
    /** The local database as the executor sees it. */
    var local: LocalStore

    constructor (cfg: Config, store: LocalStore)
      ensures this.cfg == cfg && local == store
    {
      this.cfg := cfg;
      local := store;
    }

    /** The new count, also kept in memory; nothing if counts are switched off. */
    method UpdateAddrTxsCount(addr: string, isadd: bool) returns (kv: Option<KV>)
      modifies this`local
      ensures if cfg.counts then
                var value := Int64Value(Wrap(Count(old(local), addr) + if isadd then 1 else -1));
                && kv == Some(KV(AddrTxsCountKey(addr), Some(value)))
                && local == old(local)[AddrTxsCountKey(addr) := value]
              else kv.None? && local == old(local)
    {
      if !cfg.counts {
        return None;
      }
      var count := Count(local, addr);
      count := if isadd then Wrap(count + 1) else Wrap(count - 1);
      local := local[AddrTxsCountKey(addr) := Int64Value(count)];
      return Some(KV(AddrTxsCountKey(addr), Some(Int64Value(count))));
    }

    /** The index records of one address in transaction `i`. */
    method IndexAddr(kvs: seq<KV>, addr: string, flag: int, height: int, i: int, info: LocalValue, isadd: bool,
                     ghost base: LocalStore, ghost es: seq<Entry>)
      returns (kvs': seq<KV>)
      requires Tracks(base, kvs, es, isadd, local)
      modifies this`local
      ensures Tracks(base, kvs', es + AddrEntries(cfg, addr, flag, height, i, info), isadd, local)
      ensures OnlyCounts(old(local), local)
    {
      hide Tracks;
      kvs' := kvs;
      if addr == "" {
        assert es + AddrEntries(cfg, addr, flag, height, i, info) == es;
        return;
      }
      var key1 := TxAddrDirHashKey(addr, flag, Position(height, i));
      var key2 := TxAddrHashKey(addr, Position(height, i));
      TracksPut(base, kvs', es, isadd, local, key1, info);
      kvs' := kvs' + [KV(key1, if isadd then Some(info) else None)];
      TracksPut(base, kvs', es + [Put(key1, info)], isadd, local, key2, info);
      kvs' := kvs' + [KV(key2, if isadd then Some(info) else None)];
      ghost var es' := es + [Put(key1, info)] + [Put(key2, info)];
      TracksBump(base, kvs', es', isadd, local, addr);
      var kv := UpdateAddrTxsCount(addr, isadd);
      if kv.Some? {
        kvs' := kvs' + [kv.value];
        assert es' + [Bump(addr)] == es + AddrEntries(cfg, addr, flag, height, i, info);
      } else {
        assert es' == es + AddrEntries(cfg, addr, flag, height, i, info);
      }
    }

    /** ExecLocal and ExecDelLocal of the address index. */
    method AddrIndexLocal(b: BlockDetail, isadd: bool, ghost base: LocalStore) returns (kvs: seq<KV>)
      requires CountsAgree(local, base)
      modifies this`local
      ensures Tracks(base, kvs, AddrIndex(cfg, b, |b.txs|), isadd, local) && OnlyCounts(old(local), local)
    {
      hide Tracks;
      kvs := [];
      TracksStart(base, isadd, local);
      for i := 0 to |b.txs|
        invariant Tracks(base, kvs, AddrIndex(cfg, b, i), isadd, local) && OnlyCounts(old(local), local)
      {
        var tx := b.txs[i];
        var info := TxInfo(tx.hash, b.height, i);
        ghost var es := AddrIndex(cfg, b, i);
        kvs := IndexAddr(kvs, tx.sender, TX_INDEX_FROM, b.height, i, info, isadd, base, es);
        ghost var es' := es + AddrEntries(cfg, tx.sender, TX_INDEX_FROM, b.height, i, info);
        kvs := IndexAddr(kvs, tx.to, TX_INDEX_TO, b.height, i, info, isadd, base, es');
        assert es' + AddrEntries(cfg, tx.to, TX_INDEX_TO, b.height, i, info) == AddrIndex(cfg, b, i + 1);
      }
    }

    /** ExecLocal and ExecDelLocal of the transaction index. */
    method TxIndexLocal(b: BlockDetail, isadd: bool, ghost base: LocalStore) returns (kvs: seq<KV>)
      requires |b.txs| == |b.receipts| && CountsAgree(local, base)
      ensures Tracks(base, kvs, TxIndex(cfg, b, |b.txs|), isadd, local)
    {
      hide Tracks;
      kvs := [];
      TracksStart(base, isadd, local);
      for i := 0 to |b.txs|
        invariant Tracks(base, kvs, TxIndex(cfg, b, i), isadd, local)
      {
        var tx := b.txs[i];
        var result := TxResult(b.height, i, tx, b.receipts[i]);
        ghost var es := TxIndex(cfg, b, i);
        TracksPut(base, kvs, es, isadd, local, TxKey(tx.hash), result);
        kvs := kvs + [KV(TxKey(tx.hash), if isadd then Some(result) else None)];
        if cfg.quickIndex {
          ghost var es' := es + [Put(TxKey(tx.hash), result)];
          TracksPut(base, kvs, es', isadd, local, TxShortKey(tx.hash[..8]), Mark);
          kvs := kvs + [KV(TxShortKey(tx.hash[..8]), if isadd then Some(Mark) else None)];
          assert es' + [Put(TxShortKey(tx.hash[..8]), Mark)] == TxIndex(cfg, b, i + 1);
        } else {
          assert es + [Put(TxKey(tx.hash), result)] == TxIndex(cfg, b, i + 1);
        }
      }
    }

    /** ExecLocal and ExecDelLocal of the fee records. */
    method FeeLocal(b: BlockDetail, isadd: bool, ghost base: LocalStore, ghost total: LocalValue) returns (kvs: seq<KV>)
      requires CountsAgree(local, base) && (isadd ==> total == NewTotal(local, b))
      ensures Tracks(base, kvs, [Put(TotalFeeKey(b.hash), total)], isadd, local)
    {
      hide Tracks;
      TracksStart(base, isadd, local);
      TracksPut(base, [], [], isadd, local, TotalFeeKey(b.hash), total);
      assert [] + [Put(TotalFeeKey(b.hash), total)] == [Put(TotalFeeKey(b.hash), total)];
      if !isadd {
        kvs := [KV(TotalFeeKey(b.hash), None)];
        assert [] + kvs == kvs;
        return;
      }
      var fee, txCount := 0, 0;
      for i := 0 to |b.txs|
        invariant fee == FeeSum(b.txs, i) && txCount == i
      {
        fee := Wrap(fee + b.txs[i].fee);
        txCount := txCount + 1;
      }
      var parent := TotalAt(local, b.parentHash);
      kvs := [KV(TotalFeeKey(b.hash), Some(TotalFee(Wrap(parent.fee + fee), Wrap(parent.txCount + txCount))))];
      assert [] + kvs == kvs;
    }

    method PluginLocal(p: Plugin, b: BlockDetail, isadd: bool, ghost base: LocalStore, ghost first: LocalStore)
      returns (kvs: seq<KV>)
      requires Complete(b) && CountsAgree(local, base)
      requires isadd && p == FeePlugin ==> NewTotal(local, b) == NewTotal(first, b)
      modifies this`local
      ensures Tracks(base, kvs, PluginEntries(cfg, first, b, p), isadd, local) && OnlyCounts(old(local), local)
    {
      hide Tracks, NewTotal;
      match p
      case AddrIndexPlugin => kvs := AddrIndexLocal(b, isadd, base);
      case TxIndexPlugin => kvs := TxIndexLocal(b, isadd, base);
      case FeePlugin => kvs := FeeLocal(b, isadd, base, NewTotal(first, b));
    }

    /** Before the fee plugin has run the total of the parent is still the old one. */
    lemma FeeNotYet(base: LocalStore, b: BlockDetail, order: seq<Plugin>, n: nat)
      requires Complete(b) && n < |order| && forall i, j | 0 <= i < j < |order| :: order[i] != order[j]
      requires order[n] == FeePlugin
      ensures NewTotal(Added(base, Entries(cfg, base, b, order[..n])), b) == NewTotal(base, b)
    {
      hide Wrap, Entries, Added, PluginEntries, FeeSum;
      AddedByFamily(cfg, base, b, order[..n], TotalFeeKey(b.parentHash));
    }

    /** The list that procExecAddBlock returns adds the block's entries, whatever order the plugins run in. */
    method ProcExecAddBlock(b: BlockDetail, order: seq<Plugin>) returns (kvset: seq<KV>)
      requires Complete(b) && forall i, j | 0 <= i < j < |order| :: order[i] != order[j]
      modifies this`local
      ensures Apply(old(local), kvset) == AddBlock(cfg, old(local), b, order) == local
    {
      hide Tracks, NewTotal, PluginEntries, CountsAgree, OnlyCounts;
      kvset := [];
      ghost var base := local;
      for n := 0 to |order|
        invariant local == Apply(base, kvset) == Added(base, Entries(cfg, base, b, order[..n]))
      {
        ghost var before := local;
        if order[n] == FeePlugin {
          FeeNotYet(base, b, order, n);
        }
        Agrees(local);
        var kvs := PluginLocal(order[n], b, true, before, base);
        TracksJoin(base, kvset, Entries(cfg, base, b, order[..n]), true, kvs, PluginEntries(cfg, base, b, order[n]),
                   local);
        Tracked(before, kvs, PluginEntries(cfg, base, b, order[n]), true, local);
        Tracked(base, kvset + kvs, Entries(cfg, base, b, order[..n]) + PluginEntries(cfg, base, b, order[n]), true,
                local);
        WriteThrough(before, kvs, local);
        ApplyConcat(base, kvset, kvs);
        kvset := kvset + kvs;
        local := StoreBatch(local, kvs);
        assert order[..n + 1][..n] == order[..n];
      }
      assert order[..|order|] == order;
    }

    /** The list that procExecDelBlock returns deletes them. */
    method ProcExecDelBlock(b: BlockDetail, order: seq<Plugin>) returns (kvset: seq<KV>)
      requires Complete(b)
      modifies this`local
      ensures Apply(old(local), kvset) == DelBlock(cfg, old(local), b, order)
    {
      hide Tracks, NewTotal, PluginEntries, CountsAgree, OnlyCounts;
      kvset := [];
      ghost var base := local;
      Agrees(base);
      TracksStart(base, false, base);
      for n := 0 to |order|
        invariant Tracks(base, kvset, Entries(cfg, base, b, order[..n]), false, local)
      {
        ghost var es := Entries(cfg, base, b, order[..n]);
        Tracked(base, kvset, es, false, local);
        var kvs := PluginLocal(order[n], b, false, Apply(base, kvset), base);
        TracksJoin(base, kvset, es, false, kvs, PluginEntries(cfg, base, b, order[n]), local);
        kvset := kvset + kvs;
        assert order[..n + 1][..n] == order[..n];
      }
      assert order[..|order|] == order;
      Tracked(base, kvset, Entries(cfg, base, b, order), false, local);
    }
  }
}
