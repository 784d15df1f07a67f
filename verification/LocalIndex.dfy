/** The records that the system plugins keep in the local database: transaction index, address index with
    its counts, and accumulated fees.  Adding a block and deleting it again as folds over index entries. */
module LocalIndexes {
  import opened Int64s
  import opened Options

  const MAX_TXS_PER_BLOCK := 100_000
  const TX_INDEX_FROM := 1
  const TX_INDEX_TO := 2

  type TxHash = s: string | |s| == 32 witness seq(32, _ => '0')

  /** An empty `sender` or `to` has no index entry. */
  datatype Tx = Tx(hash: TxHash, sender: string, to: string, fee: int, payload: nat)

  datatype BlockDetail = BlockDetail(hash: string, parentHash: string, height: int, txs: seq<Tx>, receipts: seq<nat>)

  /** One constructor per key prefix of types/localkv.go. */
  datatype LocalKey =
    | TxKey(hash: TxHash)
    | TxShortKey(short: string)
    | TxAddrDirHashKey(addr: string, flag: int, pos: int)
    | TxAddrHashKey(addr: string, pos: int)
    | AddrTxsCountKey(addr: string)
    | TotalFeeKey(blockHash: string)

  datatype LocalValue =
    | TxResult(height: int, index: int, tx: Tx, receipt: nat)
    | TxInfo(hash: TxHash, height: int, index: int)
    | Mark
    | Int64Value(data: int)
    | TotalFee(fee: int, txCount: int)

  type LocalStore = map<LocalKey, LocalValue>

  /** The switches quickIndex and dbversion != 0. */
  datatype Config = Config(quickIndex: bool, counts: bool)

  /** Counts and fees are stored under their own keys, as int64 values. */
  ghost predicate Typed(db: LocalStore) {
    forall k | k in db ::
      && (k.AddrTxsCountKey? ==> db[k].Int64Value? && Int64(db[k].data))
      && (k.TotalFeeKey? ==> db[k].TotalFee?)
  }

  function Lookup(db: LocalStore, k: LocalKey): Option<LocalValue> {
    if k in db then Some(db[k]) else None
  }

  /** An absent count is 0. */
  function Count(db: LocalStore, addr: string): int {
    var k := AddrTxsCountKey(addr);
    if k in db && db[k].Int64Value? then db[k].data else 0
  }

  function TotalAt(db: LocalStore, hash: string): LocalValue {
    var k := TotalFeeKey(hash);
    if k in db && db[k].TotalFee? then db[k] else TotalFee(0, 0)
  }

  /** A record that is written on add and deleted on delete, or a count that goes up and down. */
  datatype Entry = Put(key: LocalKey, value: LocalValue) | Bump(addr: string)

  function KeyOf(e: Entry): LocalKey {
    if e.Put? then e.key else AddrTxsCountKey(e.addr)
  }

  function AddOne(db: LocalStore, e: Entry): LocalStore {
    match e
    case Put(key, value) => db[key := value]
    case Bump(addr) => db[AddrTxsCountKey(addr) := Int64Value(Wrap(Count(db, addr) + 1))]
  }

  function DelOne(db: LocalStore, e: Entry): LocalStore {
    match e
    case Put(key, value) => db - {key}
    case Bump(addr) => db[AddrTxsCountKey(addr) := Int64Value(Wrap(Count(db, addr) - 1))]
  }

  function Added(db: LocalStore, es: seq<Entry>): LocalStore {
    if es == [] then db else AddOne(Added(db, es[..|es| - 1]), es[|es| - 1])
  }

  function Deleted(db: LocalStore, es: seq<Entry>): LocalStore {
    if es == [] then db else DelOne(Deleted(db, es[..|es| - 1]), es[|es| - 1])
  }

  // The entries of a block, plugin by plugin.

  function Position(height: int, i: int): int {
    height * MAX_TXS_PER_BLOCK + i
  }

  function AddrEntries(cfg: Config, addr: string, flag: int, height: int, i: int, info: LocalValue): seq<Entry> {
    if addr == "" then []
    else
      [Put(TxAddrDirHashKey(addr, flag, Position(height, i)), info),
       Put(TxAddrHashKey(addr, Position(height, i)), info)]
      + if cfg.counts then [Bump(addr)] else []
  }

  function AddrIndexOf(cfg: Config, b: BlockDetail, i: nat): seq<Entry>
    requires i < |b.txs|
  {
    var tx := b.txs[i];
    var info := TxInfo(tx.hash, b.height, i);
    AddrEntries(cfg, tx.sender, TX_INDEX_FROM, b.height, i, info)
    + AddrEntries(cfg, tx.to, TX_INDEX_TO, b.height, i, info)
  }

  function AddrIndex(cfg: Config, b: BlockDetail, n: nat): seq<Entry>
    requires n <= |b.txs|
  {
    if n == 0 then [] else AddrIndex(cfg, b, n - 1) + AddrIndexOf(cfg, b, n - 1)
  }

  function TxIndexOf(cfg: Config, b: BlockDetail, i: nat): seq<Entry>
    requires i < |b.txs| == |b.receipts|
  {
    var tx := b.txs[i];
    [Put(TxKey(tx.hash), TxResult(b.height, i, tx, b.receipts[i]))]
    + if cfg.quickIndex then [Put(TxShortKey(tx.hash[..8]), Mark)] else []
  }

  function TxIndex(cfg: Config, b: BlockDetail, n: nat): seq<Entry>
    requires n <= |b.txs| == |b.receipts|
  {
    if n == 0 then [] else TxIndex(cfg, b, n - 1) + TxIndexOf(cfg, b, n - 1)
  }

  /** The fees of the first `n` transactions, in int64 arithmetic. */
  function FeeSum(txs: seq<Tx>, n: nat): int
    requires n <= |txs|
  {
    if n == 0 then 0 else Wrap(FeeSum(txs, n - 1) + txs[n - 1].fee)
  }

  function NewTotal(db: LocalStore, b: BlockDetail): LocalValue {
    var parent := TotalAt(db, b.parentHash);
    TotalFee(Wrap(parent.fee + FeeSum(b.txs, |b.txs|)), Wrap(parent.txCount + |b.txs|))
  }

  datatype Plugin = AddrIndexPlugin | TxIndexPlugin | FeePlugin

  function PluginEntries(cfg: Config, db: LocalStore, b: BlockDetail, p: Plugin): seq<Entry>
    requires |b.txs| == |b.receipts|
  {
    match p
    case AddrIndexPlugin => AddrIndex(cfg, b, |b.txs|)
    case TxIndexPlugin => TxIndex(cfg, b, |b.txs|)
    case FeePlugin => [Put(TotalFeeKey(b.hash), NewTotal(db, b))]
  }

  /** The entries of a block when the enabled plugins run in this order. */
  function Entries(cfg: Config, db: LocalStore, b: BlockDetail, order: seq<Plugin>): seq<Entry>
    requires |b.txs| == |b.receipts|
  {
    if order == [] then []
    else Entries(cfg, db, b, order[..|order| - 1]) + PluginEntries(cfg, db, b, order[|order| - 1])
  }

  // Folding.

  lemma {:induction false} AddedConcat(db: LocalStore, a: seq<Entry>, b: seq<Entry>)
    ensures Added(db, a + b) == Added(Added(db, a), b)
    decreases |b|
  {
    if b == [] {
      assert a + b == a;
    } else {
      AddedConcat(db, a, b[..|b| - 1]);
      assert (a + b)[..|a + b| - 1] == a + b[..|b| - 1];
    }
  }

  lemma {:induction false} DeletedConcat(db: LocalStore, a: seq<Entry>, b: seq<Entry>)
    ensures Deleted(db, a + b) == Deleted(Deleted(db, a), b)
    decreases |b|
  {
    if b == [] {
      assert a + b == a;
    } else {
      DeletedConcat(db, a, b[..|b| - 1]);
      assert (a + b)[..|a + b| - 1] == a + b[..|b| - 1];
    }
  }

  /** The number of bumps of an address. */
  function Bumps(es: seq<Entry>, addr: string): nat {
    if es == [] then 0 else Bumps(es[..|es| - 1], addr) + if es[|es| - 1] == Bump(addr) then 1 else 0
  }

  /** The keys that are written on add and deleted on delete. */
  ghost predicate Puts(es: seq<Entry>, k: LocalKey) {
    exists e :: e in es && e.Put? && e.key == k
  }

  /** Count keys are only bumped. */
  ghost predicate Separate(es: seq<Entry>) {
    forall e | e in es && e.Put? :: !e.key.AddrTxsCountKey?
  }

  lemma {:induction false} AddedTouches(db: LocalStore, es: seq<Entry>, k: LocalKey)
    requires Separate(es) && !k.AddrTxsCountKey?
    ensures if Puts(es, k) then k in Added(db, es) else Lookup(Added(db, es), k) == Lookup(db, k)
  {
    if es != [] {
      var n := |es| - 1;
      assert es == es[..n] + [es[n]];
      AddedTouches(db, es[..n], k);
    }
  }

  lemma {:induction false} DeletedTouches(db: LocalStore, es: seq<Entry>, k: LocalKey)
    requires Separate(es) && !k.AddrTxsCountKey?
    ensures if Puts(es, k) then k !in Deleted(db, es) else Lookup(Deleted(db, es), k) == Lookup(db, k)
  {
    if es != [] {
      var n := |es| - 1;
      assert es == es[..n] + [es[n]];
      DeletedTouches(db, es[..n], k);
    }
  }

  lemma {:induction false} AddedCounts(db: LocalStore, es: seq<Entry>, addr: string)
    requires Separate(es)
    ensures Int64(Count(db, addr)) ==> Count(Added(db, es), addr) == Wrap(Count(db, addr) + Bumps(es, addr))
  {
    hide Wrap;
    if es != [] {
      var n := |es| - 1;
      assert es == es[..n] + [es[n]];
      AddedCounts(db, es[..n], addr);
      WrapAdd(Count(db, addr) + Bumps(es[..n], addr), 1);
    }
  }

  lemma {:induction false} DeletedCounts(db: LocalStore, es: seq<Entry>, addr: string)
    requires Separate(es)
    ensures Int64(Count(db, addr)) ==> Count(Deleted(db, es), addr) == Wrap(Count(db, addr) - Bumps(es, addr))
  {
    hide Wrap;
    if es != [] {
      var n := |es| - 1;
      assert es == es[..n] + [es[n]];
      DeletedCounts(db, es[..n], addr);
      WrapAdd(Count(db, addr) - Bumps(es[..n], addr), -1);
    }
  }

  /** What can be observed of the records: counts are read with absent as 0. */
  ghost predicate Same(db: LocalStore, db': LocalStore) {
    && (forall k: LocalKey | !k.AddrTxsCountKey? :: Lookup(db, k) == Lookup(db', k))
    && (forall addr: string :: Count(db, addr) == Count(db', addr))
  }

  /** None of the records to be written is there yet. */
  ghost predicate Fresh(db: LocalStore, es: seq<Entry>) {
    forall k: LocalKey | Puts(es, k) :: k !in db
  }

  /** Two lists that put the same keys and bump the same addresses equally often. */
  ghost predicate Matching(es: seq<Entry>, es': seq<Entry>) {
    && (forall k: LocalKey :: Puts(es, k) <==> Puts(es', k))
    && (forall addr: string :: Bumps(es, addr) == Bumps(es', addr))
  }

  /** Adding entries and deleting matching ones is observably nothing, if and only if no record was
      there before. */
  lemma UndoIff(db: LocalStore, es: seq<Entry>, es': seq<Entry>)
    requires Separate(es) && Separate(es') && Matching(es, es') && Typed(db)
    ensures Same(db, Deleted(Added(db, es), es')) <==> Fresh(db, es)
  {
    hide Wrap;
    var mid := Added(db, es);
    var after := Deleted(mid, es');
    forall addr: string
      ensures Count(db, addr) == Count(after, addr)
    {
      var n: int := Bumps(es, addr);
      AddedCounts(db, es, addr);
      DeletedCounts(mid, es', addr);
      WrapAdd(Count(db, addr) + n, -n);
    }
    forall k: LocalKey | !k.AddrTxsCountKey?
      ensures Lookup(db, k) == Lookup(after, k) <==> (Puts(es, k) ==> k !in db)
    {
      AddedTouches(db, es, k);
      DeletedTouches(mid, es', k);
    }
    if k: LocalKey :| Puts(es, k) && k in db {
      assert Lookup(db, k) != Lookup(after, k);
    }
  }

  // Observation is all that matters.

  /** The new value of a key depends on its old value only. */
  lemma {:induction false} AddedAt(db: LocalStore, db': LocalStore, es: seq<Entry>, k: LocalKey)
    requires Lookup(db, k) == Lookup(db', k)
    ensures Lookup(Added(db, es), k) == Lookup(Added(db', es), k)
  {
    if es != [] {
      AddedAt(db, db', es[..|es| - 1], k);
    }
  }

  lemma {:induction false} AddedElsewhere(db: LocalStore, es: seq<Entry>, k: LocalKey)
    requires forall e | e in es :: KeyOf(e) != k
    ensures Lookup(Added(db, es), k) == Lookup(db, k)
  {
    if es != [] {
      assert es[|es| - 1] in es;
      AddedElsewhere(db, es[..|es| - 1], k);
    }
  }

  lemma OneSame(db: LocalStore, db': LocalStore, e: Entry)
    requires Same(db, db')
    ensures Same(AddOne(db, e), AddOne(db', e)) && Same(DelOne(db, e), DelOne(db', e))
  {
    hide Wrap;
    forall k: LocalKey | !k.AddrTxsCountKey?
      ensures Lookup(AddOne(db, e), k) == Lookup(AddOne(db', e), k)
      ensures Lookup(DelOne(db, e), k) == Lookup(DelOne(db', e), k)
    {
      assert Lookup(db, k) == Lookup(db', k);
    }
    forall addr: string
      ensures Count(AddOne(db, e), addr) == Count(AddOne(db', e), addr)
      ensures Count(DelOne(db, e), addr) == Count(DelOne(db', e), addr)
    {
      assert Count(db, addr) == Count(db', addr);
    }
  }

  lemma {:induction false} AddedSame(db: LocalStore, db': LocalStore, es: seq<Entry>)
    requires Same(db, db')
    ensures Same(Added(db, es), Added(db', es))
  {
    if es != [] {
      AddedSame(db, db', es[..|es| - 1]);
      OneSame(Added(db, es[..|es| - 1]), Added(db', es[..|es| - 1]), es[|es| - 1]);
    }
  }

  lemma {:induction false} DeletedSame(db: LocalStore, db': LocalStore, es: seq<Entry>)
    requires Same(db, db')
    ensures Same(Deleted(db, es), Deleted(db', es))
  {
    if es != [] {
      DeletedSame(db, db', es[..|es| - 1]);
      OneSame(Deleted(db, es[..|es| - 1]), Deleted(db', es[..|es| - 1]), es[|es| - 1]);
    }
  }

  lemma {:induction false} AddedTyped(db: LocalStore, es: seq<Entry>)
    requires Typed(db)
    requires forall e | e in es && e.Put? :: !e.key.AddrTxsCountKey? && (e.key.TotalFeeKey? ==> e.value.TotalFee?)
    ensures Typed(Added(db, es))
  {
    if es != [] {
      AddedTyped(db, es[..|es| - 1]);
    }
  }
}
