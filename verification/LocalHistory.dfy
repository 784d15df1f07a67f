/** The local records over whole runs of added and deleted blocks: they depend on the current chain
    only, whatever detours led to it and in whatever order the plugins ran. */
module LocalHistories {
  import opened Int64s
  import opened Options
  import opened LocalIndexes

  /** An order in which the enabled plugins may run: a map is iterated. */
  ghost predicate Order(order: seq<Plugin>, enabled: set<Plugin>) {
    && (forall i, j | 0 <= i < j < |order| :: order[i] != order[j])
    && (forall p :: p in order <==> p in enabled)
  }

  predicate Complete(b: BlockDetail) {
    |b.txs| == |b.receipts|
  }

  /** The plugin whose records carry the key. */
  function Family(k: LocalKey): Plugin {
    match k
    case TxKey(_) => TxIndexPlugin
    case TxShortKey(_) => TxIndexPlugin
    case TotalFeeKey(_) => FeePlugin
    case _ => AddrIndexPlugin
  }

  lemma {:induction false} AddrIndexFamily(cfg: Config, b: BlockDetail, n: nat, e: Entry)
    requires n <= |b.txs| && e in AddrIndex(cfg, b, n)
    ensures Family(KeyOf(e)) == AddrIndexPlugin && (e.Put? ==> !e.key.AddrTxsCountKey?)
  {
    if e !in AddrIndexOf(cfg, b, n - 1) {
      AddrIndexFamily(cfg, b, n - 1, e);
    }
  }

  lemma {:induction false} TxIndexFamily(cfg: Config, b: BlockDetail, n: nat, e: Entry)
    requires n <= |b.txs| == |b.receipts| && e in TxIndex(cfg, b, n)
    ensures Family(KeyOf(e)) == TxIndexPlugin && e.Put?
  {
    if e !in TxIndexOf(cfg, b, n - 1) {
      TxIndexFamily(cfg, b, n - 1, e);
    }
  }

  lemma PluginFamily(cfg: Config, db: LocalStore, b: BlockDetail, p: Plugin, e: Entry)
    requires Complete(b) && e in PluginEntries(cfg, db, b, p)
    ensures Family(KeyOf(e)) == p
    ensures e.Put? ==> !e.key.AddrTxsCountKey? && (e.key.TotalFeeKey? ==> e.value.TotalFee?)
    ensures e.Bump? ==> p == AddrIndexPlugin
  {
    match p
    case AddrIndexPlugin => AddrIndexFamily(cfg, b, |b.txs|, e);
    case TxIndexPlugin => TxIndexFamily(cfg, b, |b.txs|, e);
    case FeePlugin =>
  }

  lemma {:induction false} EntryOf(cfg: Config, db: LocalStore, b: BlockDetail, order: seq<Plugin>, e: Entry)
    requires Complete(b)
    ensures e in Entries(cfg, db, b, order) <==> exists p :: p in order && e in PluginEntries(cfg, db, b, p)
  {
    if order != [] {
      var n := |order| - 1;
      EntryOf(cfg, db, b, order[..n], e);
      assert order == order[..n] + [order[n]];
    }
  }

  lemma Shape(cfg: Config, db: LocalStore, b: BlockDetail, order: seq<Plugin>)
    requires Complete(b)
    ensures Separate(Entries(cfg, db, b, order))
    ensures forall e | e in Entries(cfg, db, b, order) && e.Put? && e.key.TotalFeeKey? :: e.value.TotalFee?
  {
    forall e | e in Entries(cfg, db, b, order)
      ensures e.Put? ==> !e.key.AddrTxsCountKey? && (e.key.TotalFeeKey? ==> e.value.TotalFee?)
    {
      EntryOf(cfg, db, b, order, e);
      var p :| p in order && e in PluginEntries(cfg, db, b, p);
      PluginFamily(cfg, db, b, p, e);
    }
  }

  // The order of the plugins does not matter.

  lemma AddedNothing(db: LocalStore)
    ensures Added(db, []) == db
  {}

  /** What a key holds after the block is decided by the plugin of its family alone. */
  lemma {:induction false} AddedByFamily(cfg: Config, db: LocalStore, b: BlockDetail, order: seq<Plugin>, k: LocalKey)
    requires Complete(b) && forall i, j | 0 <= i < j < |order| :: order[i] != order[j]
    ensures Lookup(Added(db, Entries(cfg, db, b, order)), k) ==
            if Family(k) in order then Lookup(Added(db, PluginEntries(cfg, db, b, Family(k))), k) else Lookup(db, k)
  {
    hide PluginEntries, Added, Family, KeyOf;
    if order == [] {
      AddedNothing(db);
    } else {
      var n := |order| - 1;
      var rest, last := Entries(cfg, db, b, order[..n]), PluginEntries(cfg, db, b, order[n]);
      AddedByFamily(cfg, db, b, order[..n], k);
      assert order == order[..n] + [order[n]];
      AddedConcat(db, rest, last);
      if Family(k) == order[n] {
        AddedAt(Added(db, rest), db, last, k);
      } else {
        forall e | e in last
          ensures KeyOf(e) != k
        {
          PluginFamily(cfg, db, b, order[n], e);
        }
        AddedElsewhere(Added(db, rest), last, k);
      }
    }
  }

  lemma AnyOrder(cfg: Config, db: LocalStore, b: BlockDetail, order: seq<Plugin>, order': seq<Plugin>,
                 enabled: set<Plugin>)
    requires Complete(b) && Order(order, enabled) && Order(order', enabled)
    ensures Added(db, Entries(cfg, db, b, order)) == Added(db, Entries(cfg, db, b, order'))
  {
    var x, y := Added(db, Entries(cfg, db, b, order)), Added(db, Entries(cfg, db, b, order'));
    forall k: LocalKey
      ensures Lookup(x, k) == Lookup(y, k)
    {
      AddedByFamily(cfg, db, b, order, k);
      AddedByFamily(cfg, db, b, order', k);
    }
    assert forall k: LocalKey :: k in x ==> Lookup(x, k).Some?;
    assert forall k: LocalKey :: k in y ==> Lookup(y, k).Some?;
    assert x == y;
  }

  // Deleting a block undoes adding it.

  lemma {:induction false} BumpsConcat(a: seq<Entry>, b: seq<Entry>, addr: string)
    ensures Bumps(a + b, addr) == Bumps(a, addr) + Bumps(b, addr)
    decreases |b|
  {
    if b == [] {
      assert a + b == a;
    } else {
      BumpsConcat(a, b[..|b| - 1], addr);
      assert (a + b)[..|a + b| - 1] == a + b[..|b| - 1];
    }
  }

  lemma {:induction false} NoBumps(es: seq<Entry>, addr: string)
    requires forall e | e in es :: e.Put?
    ensures Bumps(es, addr) == 0
  {
    if es != [] {
      assert es[|es| - 1] in es;
      NoBumps(es[..|es| - 1], addr);
    }
  }

  lemma {:induction false} BumpsOf(cfg: Config, db: LocalStore, b: BlockDetail, order: seq<Plugin>, addr: string)
    requires Complete(b) && forall i, j | 0 <= i < j < |order| :: order[i] != order[j]
    ensures Bumps(Entries(cfg, db, b, order), addr) ==
            if AddrIndexPlugin in order then Bumps(AddrIndex(cfg, b, |b.txs|), addr) else 0
  {
    hide AddrIndex, TxIndex, NewTotal, Family, KeyOf;
    if order != [] {
      var n := |order| - 1;
      var last := PluginEntries(cfg, db, b, order[n]);
      BumpsOf(cfg, db, b, order[..n], addr);
      assert order == order[..n] + [order[n]];
      BumpsConcat(Entries(cfg, db, b, order[..n]), last, addr);
      if order[n] != AddrIndexPlugin {
        forall e | e in last
          ensures e.Put?
        {
          PluginFamily(cfg, db, b, order[n], e);
        }
        NoBumps(last, addr);
      }
    }
  }

  lemma PutsOf(cfg: Config, db: LocalStore, db': LocalStore, b: BlockDetail, order: seq<Plugin>, order': seq<Plugin>,
               k: LocalKey)
    requires Complete(b) && forall p | p in order :: p in order'
    requires Puts(Entries(cfg, db, b, order), k)
    ensures Puts(Entries(cfg, db', b, order'), k)
  {
    var e :| e in Entries(cfg, db, b, order) && e.Put? && e.key == k;
    EntryOf(cfg, db, b, order, e);
    var p :| p in order && e in PluginEntries(cfg, db, b, p);
    var e' := if p == FeePlugin then Put(k, NewTotal(db', b)) else e;
    EntryOf(cfg, db', b, order', e');
    assert e' in PluginEntries(cfg, db', b, p);
  }

  lemma EntriesMatch(cfg: Config, db: LocalStore, db': LocalStore, b: BlockDetail, order: seq<Plugin>,
                     order': seq<Plugin>, enabled: set<Plugin>)
    requires Complete(b) && Order(order, enabled) && Order(order', enabled)
    ensures Matching(Entries(cfg, db, b, order), Entries(cfg, db', b, order'))
  {
    forall k: LocalKey
      ensures Puts(Entries(cfg, db, b, order), k) <==> Puts(Entries(cfg, db', b, order'), k)
    {
      if Puts(Entries(cfg, db, b, order), k) {
        PutsOf(cfg, db, db', b, order, order', k);
      }
      if Puts(Entries(cfg, db', b, order'), k) {
        PutsOf(cfg, db', db, b, order', order, k);
      }
    }
    forall addr: string
      ensures Bumps(Entries(cfg, db, b, order), addr) == Bumps(Entries(cfg, db', b, order'), addr)
    {
      BumpsOf(cfg, db, b, order, addr);
      BumpsOf(cfg, db', b, order', addr);
    }
  }

  function AddBlock(cfg: Config, db: LocalStore, b: BlockDetail, order: seq<Plugin>): LocalStore
    requires Complete(b)
  {
    Added(db, Entries(cfg, db, b, order))
  }

  function DelBlock(cfg: Config, db: LocalStore, b: BlockDetail, order: seq<Plugin>): LocalStore
    requires Complete(b)
  {
    Deleted(db, Entries(cfg, db, b, order))
  }

  /** None of the block's records is there yet. */
  ghost predicate NewTo(cfg: Config, db: LocalStore, b: BlockDetail, order: seq<Plugin>)
    requires Complete(b)
  {
    Fresh(db, Entries(cfg, db, b, order))
  }

  /** The undo law, with its exact condition. */
  lemma BlockUndoIff(cfg: Config, db: LocalStore, b: BlockDetail, order: seq<Plugin>, order': seq<Plugin>,
                     enabled: set<Plugin>)
    requires Typed(db) && Complete(b) && Order(order, enabled) && Order(order', enabled)
    ensures Same(db, DelBlock(cfg, AddBlock(cfg, db, b, order), b, order')) <==> NewTo(cfg, db, b, order)
  {
    var mid := AddBlock(cfg, db, b, order);
    Shape(cfg, db, b, order);
    Shape(cfg, mid, b, order');
    EntriesMatch(cfg, db, mid, b, order, order', enabled);
    UndoIff(db, Entries(cfg, db, b, order), Entries(cfg, mid, b, order'));
  }

  // Whole runs.

  lemma SameTotals(db: LocalStore, db': LocalStore, hash: string)
    requires Same(db, db')
    ensures TotalAt(db, hash) == TotalAt(db', hash)
  {
    assert Lookup(db, TotalFeeKey(hash)) == Lookup(db', TotalFeeKey(hash));
  }

  lemma {:induction false} SameEntries(cfg: Config, db: LocalStore, db': LocalStore, b: BlockDetail, order: seq<Plugin>)
    requires Complete(b) && Same(db, db')
    ensures Entries(cfg, db, b, order) == Entries(cfg, db', b, order)
  {
    if order != [] {
      SameEntries(cfg, db, db', b, order[..|order| - 1]);
      SameTotals(db, db', b.parentHash);
    }
  }

  /** The records of a chain: its blocks added one after the other to an empty store. */
  function Replay(cfg: Config, chain: seq<BlockDetail>, order: seq<Plugin>): LocalStore
    requires forall b | b in chain :: Complete(b)
  {
    if chain == [] then map[]
    else AddBlock(cfg, Replay(cfg, chain[..|chain| - 1], order), chain[|chain| - 1], order)
  }

  lemma {:induction false} ReplayTyped(cfg: Config, chain: seq<BlockDetail>, order: seq<Plugin>)
    requires forall b | b in chain :: Complete(b)
    ensures Typed(Replay(cfg, chain, order))
  {
    if chain != [] {
      var n := |chain| - 1;
      var db := Replay(cfg, chain[..n], order);
      ReplayTyped(cfg, chain[..n], order);
      assert chain[n] in chain;
      Shape(cfg, db, chain[n], order);
      AddedTyped(db, Entries(cfg, db, chain[n], order));
    }
  }

  /** A block is connected on top of the chain, or the top block is disconnected. */
  datatype Change = Connect(block: BlockDetail, order: seq<Plugin>) | Disconnect(order: seq<Plugin>)

  datatype State = State(chain: seq<BlockDetail>, db: LocalStore)

  predicate Possible(s: State, c: Change) {
    if c.Connect? then Complete(c.block) else s.chain != [] && Complete(s.chain[|s.chain| - 1])
  }

  function Step(cfg: Config, s: State, c: Change): State
    requires Possible(s, c)
  {
    match c
    case Connect(b, order) => State(s.chain + [b], AddBlock(cfg, s.db, b, order))
    case Disconnect(order) =>
      var n := |s.chain| - 1;
      State(s.chain[..n], DelBlock(cfg, s.db, s.chain[n], order))
  }

  /** Every block of the chain brought records that the chain below it did not have. */
  ghost predicate FreshChain(cfg: Config, chain: seq<BlockDetail>, order: seq<Plugin>) {
    && (forall b | b in chain :: Complete(b))
    && forall n | 0 <= n < |chain| :: FreshAt(cfg, chain, order, n)
  }

  ghost predicate FreshAt(cfg: Config, chain: seq<BlockDetail>, order: seq<Plugin>, n: nat)
    requires n < |chain| && forall b | b in chain :: Complete(b)
  {
    NewTo(cfg, Replay(cfg, chain[..n], order), chain[n], order)
  }

  /** The records are those of the current chain. */
  ghost predicate Current(cfg: Config, s: State, order: seq<Plugin>) {
    FreshChain(cfg, s.chain, order) && Same(s.db, Replay(cfg, s.chain, order))
  }

  lemma CurrentInitially(cfg: Config, order: seq<Plugin>)
    ensures Current(cfg, State([], map[]), order)
  {}

  lemma SameSymmetric(x: LocalStore, y: LocalStore)
    ensures Same(x, y) <==> Same(y, x)
  {}

  lemma SameTrans(x: LocalStore, y: LocalStore, z: LocalStore)
    requires Same(x, y) && Same(y, z)
    ensures Same(x, z) && Same(y, x)
  {
    forall k: LocalKey | !k.AddrTxsCountKey?
      ensures Lookup(x, k) == Lookup(z, k)
    {
      assert Lookup(x, k) == Lookup(y, k) == Lookup(z, k);
    }
    forall addr: string
      ensures Count(x, addr) == Count(z, addr)
    {
      assert Count(x, addr) == Count(y, addr) == Count(z, addr);
    }
  }

  lemma ConnectKeeps(cfg: Config, s: State, b: BlockDetail, order': seq<Plugin>, order: seq<Plugin>,
                     enabled: set<Plugin>)
    requires Current(cfg, s, order) && Complete(b) && Order(order, enabled) && Order(order', enabled)
    requires NewTo(cfg, s.db, b, order)
    ensures Current(cfg, Step(cfg, s, Connect(b, order')), order)
  {
    var chain' := s.chain + [b];
    var replay := Replay(cfg, s.chain, order);
    assert chain'[..|s.chain|] == s.chain;
    SameEntries(cfg, s.db, replay, b, order);
    AnyOrder(cfg, s.db, b, order', order, enabled);
    AddedSame(s.db, replay, Entries(cfg, s.db, b, order));
    SameFresh(s.db, replay, Entries(cfg, s.db, b, order), cfg, b, order);
    forall n | 0 <= n < |chain'|
      ensures FreshAt(cfg, chain', order, n)
    {
      assert chain'[..n] == s.chain[..n];
      if n < |s.chain| {
        assert FreshAt(cfg, s.chain, order, n);
      }
    }
  }

  lemma SameFresh(db: LocalStore, db': LocalStore, es: seq<Entry>, cfg: Config, b: BlockDetail, order: seq<Plugin>)
    requires Same(db, db') && Complete(b) && es == Entries(cfg, db, b, order) && Fresh(db, es)
    ensures Fresh(db', es)
  {
    Shape(cfg, db, b, order);
    forall k: LocalKey | Puts(es, k)
      ensures k !in db'
    {
      assert Lookup(db, k) == Lookup(db', k);
    }
  }

  lemma DisconnectKeeps(cfg: Config, s: State, order': seq<Plugin>, order: seq<Plugin>, enabled: set<Plugin>)
    requires Current(cfg, s, order) && s.chain != [] && Order(order, enabled) && Order(order', enabled)
    ensures Possible(s, Disconnect(order')) && Current(cfg, Step(cfg, s, Disconnect(order')), order)
  {
    hide Same, Entries, Added, Deleted, Order;
    var n := |s.chain| - 1;
    var b, below := s.chain[n], s.chain[..n];
    assert b in s.chain;
    var replay, base := Replay(cfg, s.chain, order), Replay(cfg, below, order);
    assert FreshAt(cfg, s.chain, order, n);
    ReplayTyped(cfg, below, order);
    BlockUndoIff(cfg, base, b, order, order', enabled);
    SameEntries(cfg, s.db, replay, b, order');
    DeletedSame(s.db, replay, Entries(cfg, s.db, b, order'));
    SameSymmetric(base, DelBlock(cfg, replay, b, order'));
    SameTrans(DelBlock(cfg, s.db, b, order'), DelBlock(cfg, replay, b, order'), base);
    FreshBelow(cfg, s.chain, order);
  }

  lemma FreshBelow(cfg: Config, chain: seq<BlockDetail>, order: seq<Plugin>)
    requires FreshChain(cfg, chain, order) && chain != []
    ensures FreshChain(cfg, chain[..|chain| - 1], order)
  {
    hide Replay, Entries, Fresh;
    var below := chain[..|chain| - 1];
    forall k | 0 <= k < |below|
      ensures FreshAt(cfg, below, order, k)
    {
      assert below[..k] == chain[..k];
      assert FreshAt(cfg, chain, order, k);
    }
  }

  ghost function Run(cfg: Config, changes: seq<Change>): State
    requires Runs(cfg, changes)
    decreases |changes|, 1
  {
    if changes == [] then State([], map[])
    else Step(cfg, Run(cfg, changes[..|changes| - 1]), changes[|changes| - 1])
  }

  /** Every change is possible where it happens. */
  ghost predicate Runs(cfg: Config, changes: seq<Change>)
    decreases |changes|, 0
  {
    changes != [] ==>
      && Runs(cfg, changes[..|changes| - 1])
      && Possible(Run(cfg, changes[..|changes| - 1]), changes[|changes| - 1])
  }

  /** At each change the plugins run in some order, and a connected block fits on the chain. */
  ghost predicate Orderly(cfg: Config, changes: seq<Change>, enabled: set<Plugin>) {
    && Runs(cfg, changes)
    && (forall c | c in changes :: Order(c.order, enabled))
    && forall n | 0 <= n <= |changes| :: RegularAt(cfg, changes, n)
  }

  ghost predicate RegularAt(cfg: Config, changes: seq<Change>, n: nat)
    requires n <= |changes|
  {
    Runs(cfg, changes[..n]) && Regular(cfg, Run(cfg, changes[..n]).chain)
  }

  // Chains without repetitions.

  /** The block has a record under the key. */
  ghost predicate Owns(cfg: Config, b: BlockDetail, k: LocalKey) {
    match k
    case TxKey(h) => exists i :: 0 <= i < |b.txs| && b.txs[i].hash == h
    case TxShortKey(s) => cfg.quickIndex && exists i :: 0 <= i < |b.txs| && b.txs[i].hash[..8] == s
    case TxAddrDirHashKey(_, _, pos) => Within(b, pos)
    case TxAddrHashKey(_, pos) => Within(b, pos)
    case TotalFeeKey(h) => h == b.hash
    case AddrTxsCountKey(_) => false
  }

  predicate Within(b: BlockDetail, pos: int) {
    Position(b.height, 0) <= pos < Position(b.height, |b.txs|)
  }

  /** Heights count up, blocks respect the size limit, and no block or transaction hash, nor short hash if
      those are indexed, occurs in two blocks. */
  ghost predicate Regular(cfg: Config, chain: seq<BlockDetail>) {
    Counted(chain) && forall n, m | 0 <= n < m < |chain| :: Unrelated(cfg, chain[n], chain[m])
  }

  ghost predicate Counted(chain: seq<BlockDetail>) {
    && (forall b | b in chain :: Complete(b))
    && (forall n | 0 <= n < |chain| :: chain[n].height == n && |chain[n].txs| <= MAX_TXS_PER_BLOCK)
  }

  ghost predicate Unrelated(cfg: Config, b: BlockDetail, c: BlockDetail) {
    && b.hash != c.hash
    && (forall i, j | 0 <= i < |b.txs| && 0 <= j < |c.txs| :: b.txs[i].hash != c.txs[j].hash)
    && (cfg.quickIndex ==>
          forall i, j | 0 <= i < |b.txs| && 0 <= j < |c.txs| :: b.txs[i].hash[..8] != c.txs[j].hash[..8])
  }

  lemma Disjoint(cfg: Config, b: BlockDetail, c: BlockDetail, k: LocalKey)
    requires Unrelated(cfg, b, c) && b.height < c.height && |b.txs| <= MAX_TXS_PER_BLOCK
    ensures !(Owns(cfg, b, k) && Owns(cfg, c, k))
  {
    assert (b.height + 1) * MAX_TXS_PER_BLOCK <= c.height * MAX_TXS_PER_BLOCK;
  }

  lemma AddrIndexOfOwns(cfg: Config, b: BlockDetail, i: nat, k: LocalKey)
    requires i < |b.txs| && Puts(AddrIndexOf(cfg, b, i), k)
    ensures Owns(cfg, b, k)
  {
    var info := TxInfo(b.txs[i].hash, b.height, i);
    assert Within(b, Position(b.height, i));
    AddrEntriesPut(cfg, b.txs[i].sender, TX_INDEX_FROM, b.height, i, info, k);
    AddrEntriesPut(cfg, b.txs[i].to, TX_INDEX_TO, b.height, i, info, k);
  }

  lemma AddrEntriesPut(cfg: Config, addr: string, flag: int, height: int, i: int, info: LocalValue, k: LocalKey)
    ensures Puts(AddrEntries(cfg, addr, flag, height, i, info), k) ==>
      k == TxAddrDirHashKey(addr, flag, Position(height, i)) || k == TxAddrHashKey(addr, Position(height, i))
  {
    hide Position;
  }

  lemma {:induction false} AddrIndexOwns(cfg: Config, b: BlockDetail, n: nat, k: LocalKey)
    requires n <= |b.txs| && Puts(AddrIndex(cfg, b, n), k)
    ensures Owns(cfg, b, k)
  {
    hide Owns, AddrIndexOf;
    if Puts(AddrIndexOf(cfg, b, n - 1), k) {
      AddrIndexOfOwns(cfg, b, n - 1, k);
    } else {
      AddrIndexOwns(cfg, b, n - 1, k);
    }
  }

  lemma {:induction false} TxIndexOwns(cfg: Config, b: BlockDetail, n: nat, k: LocalKey)
    requires n <= |b.txs| == |b.receipts| && Puts(TxIndex(cfg, b, n), k)
    ensures Owns(cfg, b, k)
  {
    if !Puts(TxIndexOf(cfg, b, n - 1), k) {
      TxIndexOwns(cfg, b, n - 1, k);
    }
  }

  lemma EntriesOwn(cfg: Config, db: LocalStore, b: BlockDetail, order: seq<Plugin>, k: LocalKey)
    requires Complete(b) && Puts(Entries(cfg, db, b, order), k)
    ensures Owns(cfg, b, k)
  {
    var e :| e in Entries(cfg, db, b, order) && e.Put? && e.key == k;
    EntryOf(cfg, db, b, order, e);
    var p :| p in order && e in PluginEntries(cfg, db, b, p);
    match p
    case AddrIndexPlugin => AddrIndexOwns(cfg, b, |b.txs|, k);
    case TxIndexPlugin => TxIndexOwns(cfg, b, |b.txs|, k);
    case FeePlugin =>
  }

  /** Every record of a replayed chain belongs to one of its blocks. */
  lemma {:induction false} ReplayOwned(cfg: Config, chain: seq<BlockDetail>, order: seq<Plugin>, k: LocalKey)
    requires (forall b | b in chain :: Complete(b)) && !k.AddrTxsCountKey? && k in Replay(cfg, chain, order)
    ensures exists n :: 0 <= n < |chain| && Owns(cfg, chain[n], k)
  {
    hide Owns;
    var n := |chain| - 1;
    assert chain[n] in chain;
    var db := Replay(cfg, chain[..n], order);
    Shape(cfg, db, chain[n], order);
    AddedTouches(db, Entries(cfg, db, chain[n], order), k);
    if Puts(Entries(cfg, db, chain[n], order), k) {
      EntriesOwn(cfg, db, chain[n], order, k);
    } else {
      ReplayOwned(cfg, chain[..n], order, k);
      var m :| 0 <= m < n && Owns(cfg, chain[..n][m], k);
      assert Owns(cfg, chain[m], k);
    }
  }

  /** On a chain without repetitions every block is new to the chain below it. */
  lemma RegularFresh(cfg: Config, chain: seq<BlockDetail>, order: seq<Plugin>, n: nat)
    requires Regular(cfg, chain) && n < |chain|
    ensures FreshAt(cfg, chain, order, n)
  {
    hide Owns, Unrelated, Within;
    var db, b := Replay(cfg, chain[..n], order), chain[n];
    assert b in chain;
    forall k: LocalKey | Puts(Entries(cfg, db, b, order), k)
      ensures k !in db
    {
      Shape(cfg, db, b, order);
      EntriesOwn(cfg, db, b, order, k);
      if k in db {
        ReplayOwned(cfg, chain[..n], order, k);
        var m :| 0 <= m < n && Owns(cfg, chain[..n][m], k);
        Disjoint(cfg, chain[m], b, k);
      }
    }
  }

  /** Keys that are made of a hash alone. */
  predicate HashKey(k: LocalKey) {
    k.TxKey? || k.TxShortKey? || k.TotalFeeKey?
  }

  /** Blocks that are not unrelated have a record under the same key. */
  lemma SharedKey(cfg: Config, b: BlockDetail, c: BlockDetail) returns (k: LocalKey)
    requires !Unrelated(cfg, b, c)
    ensures HashKey(k) && Owns(cfg, b, k) && Owns(cfg, c, k)
  {
    if b.hash == c.hash {
      k := TotalFeeKey(b.hash);
    } else if i, j :| 0 <= i < |b.txs| && 0 <= j < |c.txs| && b.txs[i].hash == c.txs[j].hash {
      k := TxKey(b.txs[i].hash);
    } else {
      var i, j :| 0 <= i < |b.txs| && 0 <= j < |c.txs| && b.txs[i].hash[..8] == c.txs[j].hash[..8];
      k := TxShortKey(b.txs[i].hash[..8]);
    }
  }

  lemma {:induction false} TxIndexHolds(cfg: Config, b: BlockDetail, n: nat, i: nat, e: Entry)
    requires i < n <= |b.txs| == |b.receipts| && e in TxIndexOf(cfg, b, i)
    ensures e in TxIndex(cfg, b, n)
  {
    if i < n - 1 {
      TxIndexHolds(cfg, b, n - 1, i, e);
    }
  }

  /** With both plugins enabled a block writes every hash key it owns. */
  lemma OwnedPut(cfg: Config, db: LocalStore, b: BlockDetail, order: seq<Plugin>, k: LocalKey)
    requires Complete(b) && TxIndexPlugin in order && FeePlugin in order && HashKey(k) && Owns(cfg, b, k)
    ensures Puts(Entries(cfg, db, b, order), k)
  {
    var e;
    if k.TotalFeeKey? {
      e := Put(k, NewTotal(db, b));
      assert e in PluginEntries(cfg, db, b, FeePlugin);
    } else {
      var i :| 0 <= i < |b.txs| && (k == TxKey(b.txs[i].hash) || k == TxShortKey(b.txs[i].hash[..8]));
      e :| e in TxIndexOf(cfg, b, i) && e.Put? && e.key == k;
      TxIndexHolds(cfg, b, |b.txs|, i, e);
      assert e in PluginEntries(cfg, db, b, TxIndexPlugin);
    }
    EntryOf(cfg, db, b, order, e);
  }

  /** Every hash key that a block of the chain owns has a record. */
  lemma {:induction false} ReplayHolds(cfg: Config, chain: seq<BlockDetail>, order: seq<Plugin>, n: nat, k: LocalKey)
    requires (forall b | b in chain :: Complete(b)) && TxIndexPlugin in order && FeePlugin in order
    requires n < |chain| && HashKey(k) && Owns(cfg, chain[n], k)
    ensures k in Replay(cfg, chain, order)
  {
    hide Owns, Entries, Added, Puts;
    var last := |chain| - 1;
    assert chain[last] in chain;
    var db := Replay(cfg, chain[..last], order);
    Shape(cfg, db, chain[last], order);
    AddedTouches(db, Entries(cfg, db, chain[last], order), k);
    if n < last {
      ReplayHolds(cfg, chain[..last], order, n, k);
    } else {
      OwnedPut(cfg, db, chain[last], order, k);
    }
  }

  /** With transaction index and fees enabled, every block is new to the chain below it if and only if no
      two blocks share a block hash, a transaction hash or an indexed short hash. */
  lemma FreshIff(cfg: Config, chain: seq<BlockDetail>, order: seq<Plugin>)
    requires Counted(chain) && TxIndexPlugin in order && FeePlugin in order
    ensures FreshChain(cfg, chain, order) <==> forall n, m | 0 <= n < m < |chain| :: Unrelated(cfg, chain[n], chain[m])
  {
    hide Unrelated, Owns, Entries, Replay;
    if forall n, m | 0 <= n < m < |chain| :: Unrelated(cfg, chain[n], chain[m]) {
      forall n | 0 <= n < |chain|
        ensures FreshAt(cfg, chain, order, n)
      {
        RegularFresh(cfg, chain, order, n);
      }
    } else {
      var n, m :| 0 <= n < m < |chain| && !Unrelated(cfg, chain[n], chain[m]);
      var k := SharedKey(cfg, chain[n], chain[m]);
      var below := chain[..m];
      assert below[n] == chain[n] && chain[m] in chain;
      ReplayHolds(cfg, below, order, n, k);
      OwnedPut(cfg, Replay(cfg, below, order), chain[m], order, k);
      assert !FreshAt(cfg, chain, order, m);
    }
  }

  /** What goes wrong otherwise: connecting and disconnecting a block that shares a hash with a block of
      the chain deletes the record of that block, after any orderly run. */
  lemma RecordLost(cfg: Config, changes: seq<Change>, enabled: set<Plugin>, order: seq<Plugin>, order': seq<Plugin>,
                   b: BlockDetail, n: nat, k: LocalKey)
    requires Orderly(cfg, changes, enabled) && Order(order, enabled) && Order(order', enabled)
    requires TxIndexPlugin in enabled && FeePlugin in enabled && Complete(b)
    requires n < |Run(cfg, changes).chain| && HashKey(k) && Owns(cfg, Run(cfg, changes).chain[n], k) && Owns(cfg, b, k)
    ensures var s := Run(cfg, changes);
      var after := Step(cfg, Step(cfg, s, Connect(b, order)), Disconnect(order'));
      after.chain == s.chain && k in s.db && k !in after.db
  {
    hide Owns, Entries, Added, Deleted;
    var s := Run(cfg, changes);
    var mid := Step(cfg, s, Connect(b, order));
    assert mid.chain[..|s.chain|] == s.chain;
    RunCurrent(cfg, changes, order, enabled);
    ReplayHolds(cfg, s.chain, order, n, k);
    assert Lookup(s.db, k) == Lookup(Replay(cfg, s.chain, order), k);
    Shape(cfg, mid.db, b, order');
    OwnedPut(cfg, mid.db, b, order', k);
    DeletedTouches(mid.db, Entries(cfg, mid.db, b, order'), k);
  }

  /** The records after any orderly run are those of the chain it ends with. */
  lemma {:induction false} RunCurrent(cfg: Config, changes: seq<Change>, order: seq<Plugin>, enabled: set<Plugin>)
    requires Orderly(cfg, changes, enabled) && Order(order, enabled)
    ensures Current(cfg, Run(cfg, changes), order)
  {
    if changes == [] {
      CurrentInitially(cfg, order);
    } else {
      hide Current, Regular, Order;
      var n := |changes| - 1;
      var c := changes[n];
      assert c in changes;
      forall k | 0 <= k <= n
        ensures RegularAt(cfg, changes[..n], k)
      {
        assert changes[..n][..k] == changes[..k];
        assert RegularAt(cfg, changes, k);
      }
      RunCurrent(cfg, changes[..n], order, enabled);
      var s := Run(cfg, changes[..n]);
      assert changes[..n + 1] == changes && RegularAt(cfg, changes, n + 1);
      StepCurrent(cfg, s, c, order, enabled);
    }
  }

  lemma StepCurrent(cfg: Config, s: State, c: Change, order: seq<Plugin>, enabled: set<Plugin>)
    requires Current(cfg, s, order) && Order(order, enabled) && Order(c.order, enabled)
    requires Possible(s, c) && Regular(cfg, Step(cfg, s, c).chain)
    ensures Current(cfg, Step(cfg, s, c), order)
  {
    hide Regular;
    match c
    case Connect(b, order') =>
      var chain' := s.chain + [b];
      var replay := Replay(cfg, s.chain, order);
      RegularFresh(cfg, chain', order, |s.chain|);
      assert chain'[..|s.chain|] == s.chain;
      SameEntries(cfg, s.db, replay, b, order);
      SameTrans(s.db, replay, replay);
      SameFresh(replay, s.db, Entries(cfg, replay, b, order), cfg, b, order);
      ConnectKeeps(cfg, s, b, order', order, enabled);
    case Disconnect(order') =>
      DisconnectKeeps(cfg, s, order', order, enabled);
  }

  /** Two runs that end with the same chain leave the same observable records. */
  lemma HistoryIndependent(cfg: Config, changes: seq<Change>, changes': seq<Change>, enabled: set<Plugin>,
                           order: seq<Plugin>)
    requires Orderly(cfg, changes, enabled) && Orderly(cfg, changes', enabled) && Order(order, enabled)
    requires Run(cfg, changes).chain == Run(cfg, changes').chain
    ensures Same(Run(cfg, changes).db, Run(cfg, changes').db)
  {
    RunCurrent(cfg, changes, order, enabled);
    RunCurrent(cfg, changes', order, enabled);
    var replay := Replay(cfg, Run(cfg, changes).chain, order);
    SameTrans(Run(cfg, changes').db, replay, replay);
    SameTrans(Run(cfg, changes).db, replay, Run(cfg, changes').db);
  }

  // Fees.

  function FeesOf(txs: seq<Tx>): int {
    if txs == [] then 0 else FeesOf(txs[..|txs| - 1]) + txs[|txs| - 1].fee
  }

  /** All fees of a chain. */
  function ChainFees(chain: seq<BlockDetail>): int {
    if chain == [] then 0 else ChainFees(chain[..|chain| - 1]) + FeesOf(chain[|chain| - 1].txs)
  }

  function ChainTxs(chain: seq<BlockDetail>): int {
    if chain == [] then 0 else ChainTxs(chain[..|chain| - 1]) + |chain[|chain| - 1].txs|
  }

  lemma ChainStep(chain: seq<BlockDetail>)
    requires chain != []
    ensures var below, b := chain[..|chain| - 1], chain[|chain| - 1];
      ChainFees(chain) == ChainFees(below) + FeesOf(b.txs) && ChainTxs(chain) == ChainTxs(below) + |b.txs|
  {}

  lemma {:induction false} FeeSumIs(txs: seq<Tx>, n: nat)
    requires n <= |txs|
    ensures FeeSum(txs, n) == Wrap(FeesOf(txs[..n]))
  {
    hide Wrap;
    if n > 0 {
      FeeSumIs(txs, n - 1);
      assert txs[..n][..n - 1] == txs[..n - 1];
      WrapAdd(FeesOf(txs[..n - 1]), txs[n - 1].fee);
    } else {
      WrapZero();
    }
  }

  lemma WrapZero()
    ensures Wrap(0) == 0
  {}

  /** Parent hashes link the blocks; the parent of the first is no block of the chain. */
  ghost predicate LinkedChain(chain: seq<BlockDetail>) {
    && (forall n | 0 < n < |chain| :: chain[n].parentHash == chain[n - 1].hash)
    && (chain != [] ==> forall n | 0 <= n < |chain| :: chain[n].hash != chain[0].parentHash)
  }

  lemma LinkedBelow(cfg: Config, chain: seq<BlockDetail>)
    requires Regular(cfg, chain) && LinkedChain(chain) && chain != []
    ensures var n := |chain| - 1;
      && Regular(cfg, chain[..n]) && LinkedChain(chain[..n]) && Complete(chain[n])
      && (forall i | 0 <= i < n :: chain[i].hash != chain[n].hash)
      && (n > 0 ==> chain[n].parentHash == chain[..n][n - 1].hash)
  {
    var n := |chain| - 1;
    assert chain[n] in chain;
    assert forall i | 0 <= i < n :: Unrelated(cfg, chain[i], chain[n]);
  }

  /** The fee record of every block holds the fees of its whole ancestry. */
  lemma {:induction false} TotalFees(cfg: Config, chain: seq<BlockDetail>, order: seq<Plugin>, n: nat)
    requires Regular(cfg, chain) && LinkedChain(chain) && FeePlugin in order && n < |chain|
    requires forall i, j | 0 <= i < j < |order| :: order[i] != order[j]
    ensures Lookup(Replay(cfg, chain, order), TotalFeeKey(chain[n].hash)) ==
            Some(TotalFee(Wrap(ChainFees(chain[..n + 1])), Wrap(ChainTxs(chain[..n + 1]))))
    decreases |chain|, 1
  {
    hide Wrap, Unrelated, LinkedChain, AddBlock, FeesOf, ChainFees, ChainTxs, NewTotal;
    var last := |chain| - 1;
    var below, b := chain[..last], chain[last];
    LinkedBelow(cfg, chain);
    FeeRecord(cfg, Replay(cfg, below, order), b, order, chain[n].hash);
    if n < last {
      TotalFees(cfg, below, order, n);
      assert below[..n + 1] == chain[..n + 1];
    } else {
      ParentTotal(cfg, chain, order);
      assert chain[..n + 1] == chain;
      TotalStep(Replay(cfg, below, order), b, ChainFees(below), ChainTxs(below));
      ChainStep(chain);
    }
  }

  /** The new total, given the total of the parent. */
  lemma TotalStep(db: LocalStore, b: BlockDetail, fees: int, txs: int)
    requires TotalAt(db, b.parentHash) == TotalFee(Wrap(fees), Wrap(txs))
    ensures NewTotal(db, b) == TotalFee(Wrap(fees + FeesOf(b.txs)), Wrap(txs + |b.txs|))
  {
    hide Wrap, FeesOf, FeeSum;
    FeeSumIs(b.txs, |b.txs|);
    assert b.txs[..|b.txs|] == b.txs;
    WrapSum(fees, FeesOf(b.txs));
    WrapAdd(txs, |b.txs|);
  }

  /** Adding a block writes its own fee record and keeps the others. */
  lemma FeeRecord(cfg: Config, db: LocalStore, b: BlockDetail, order: seq<Plugin>, hash: string)
    requires Complete(b) && FeePlugin in order && forall i, j | 0 <= i < j < |order| :: order[i] != order[j]
    ensures Lookup(AddBlock(cfg, db, b, order), TotalFeeKey(hash)) ==
            if hash == b.hash then Some(NewTotal(db, b)) else Lookup(db, TotalFeeKey(hash))
  {
    hide Wrap, Entries;
    AddedByFamily(cfg, db, b, order, TotalFeeKey(hash));
    var kv := Put(TotalFeeKey(b.hash), NewTotal(db, b));
    assert PluginEntries(cfg, db, b, FeePlugin) == [kv];
    assert Added(db, [kv]) == db[TotalFeeKey(b.hash) := NewTotal(db, b)];
  }

  lemma WrapSum(x: int, y: int)
    ensures Wrap(Wrap(x) + Wrap(y)) == Wrap(x + y)
  {
    WrapAdd(x, Wrap(y));
    WrapAdd(y, x);
  }

  lemma NoTotals(cfg: Config, order: seq<Plugin>, hash: string)
    ensures TotalAt(Replay(cfg, [], order), hash) == TotalFee(Wrap(ChainFees([])), Wrap(ChainTxs([])))
  {
    WrapZero();
  }

  /** The total that the last block builds on. */
  lemma {:induction false} ParentTotal(cfg: Config, chain: seq<BlockDetail>, order: seq<Plugin>)
    requires Regular(cfg, chain) && LinkedChain(chain) && FeePlugin in order && chain != []
    requires forall i, j | 0 <= i < j < |order| :: order[i] != order[j]
    ensures var below := chain[..|chain| - 1];
      TotalAt(Replay(cfg, below, order), chain[|chain| - 1].parentHash) ==
      TotalFee(Wrap(ChainFees(below)), Wrap(ChainTxs(below)))
    decreases |chain|, 0
  {
    hide Wrap, Unrelated, LinkedChain, AddBlock, ChainFees, ChainTxs;
    var last := |chain| - 1;
    var below := chain[..last];
    LinkedBelow(cfg, chain);
    if last == 0 {
      assert below == [];
      NoTotals(cfg, order, chain[0].parentHash);
    } else {
      TotalFees(cfg, below, order, last - 1);
      assert below[..last] == below;
    }
  }

  /** So does the record that any orderly run has left. */
  lemma RunTotalFees(cfg: Config, changes: seq<Change>, enabled: set<Plugin>, order: seq<Plugin>, n: nat)
    requires Orderly(cfg, changes, enabled) && Order(order, enabled) && FeePlugin in enabled
    requires var chain := Run(cfg, changes).chain; LinkedChain(chain) && n < |chain|
    ensures var s := Run(cfg, changes);
      Lookup(s.db, TotalFeeKey(s.chain[n].hash)) ==
      Some(TotalFee(Wrap(ChainFees(s.chain[..n + 1])), Wrap(ChainTxs(s.chain[..n + 1]))))
  {
    hide Wrap, Regular, Run, Replay, ChainFees, ChainTxs, FreshChain;
    RunCurrent(cfg, changes, order, enabled);
    assert changes[..|changes|] == changes && RegularAt(cfg, changes, |changes|);
    TotalFees(cfg, Run(cfg, changes).chain, order, n);
  }
}
