/** executor/statedb.go: the state of one block execution, a store under a block cache under a
    transaction cache. */
module StateDBs {
  import opened Accounts
  import opened Options

  type Key = string

  /** Encoded values: accounts, and everything that does not decode as one. */
  datatype Value = Encoded(account: Account) | Bytes(data: string)

  /** A nil value is `None`. */
  datatype KeyValue = KeyValue(key: Key, value: Option<Value>)

  function SetMap(m: map<Key, Value>, key: Key, value: Option<Value>): map<Key, Value> {
    if value.None? then m - {key} else m[key := value.value]
  }

  /** The map after the writes, one by one; a nil value removes the key. */
  ghost function Overlay(m: map<Key, Value>, kvs: seq<KeyValue>): map<Key, Value> {
    if kvs == [] then m
    else
      var last := kvs[|kvs| - 1];
      SetMap(Overlay(m, kvs[..|kvs| - 1]), last.key, last.value)
  }

  ghost function KeysOf(kvs: seq<KeyValue>): set<Key> {
    set kv | kv in kvs :: kv.key
  }

  ghost predicate NonNil(kvs: seq<KeyValue>) {
    forall kv | kv in kvs :: kv.value.Some?
  }

  function Lookup(m: map<Key, Value>, key: Key): Option<Value> {
    if key in m then Some(m[key]) else None
  }

  lemma OverlayPush(m: map<Key, Value>, kvs: seq<KeyValue>, kv: KeyValue)
    ensures Overlay(m, kvs + [kv]) == SetMap(Overlay(m, kvs), kv.key, kv.value)
    ensures KeysOf(kvs + [kv]) == KeysOf(kvs) + {kv.key}
  {
    assert (kvs + [kv])[..|kvs|] == kvs;
  }

  lemma OverlayOne(m: map<Key, Value>, kv: KeyValue)
    ensures Overlay(m, [kv]) == SetMap(m, kv.key, kv.value)
  {
    OverlayPush(m, [], kv);
    assert [] + [kv] == [kv];
  }

  lemma {:induction false} OverlayConcat(m: map<Key, Value>, a: seq<KeyValue>, b: seq<KeyValue>)
    ensures Overlay(m, a + b) == Overlay(Overlay(m, a), b)
    decreases |b|
  {
    if b == [] {
      assert a + b == a;
    } else {
      var k := |b| - 1;
      OverlayConcat(m, a, b[..k]);
      assert a + b == (a + b[..k]) + [b[k]];
      OverlayPush(m, a + b[..k], b[k]);
    }
  }

  /** What the maps held under the written keys does not matter. */
  lemma {:induction false} OverlayForget(m: map<Key, Value>, m': map<Key, Value>, kvs: seq<KeyValue>)
    requires forall k | k !in KeysOf(kvs) :: Lookup(m, k) == Lookup(m', k)
    ensures Overlay(m, kvs) == Overlay(m', kvs)
  {
    forall k
      ensures Lookup(Overlay(m, kvs), k) == Lookup(Overlay(m', kvs), k)
    {
      OverlayAt(m, m', kvs, k);
    }
    SameLookups(Overlay(m, kvs), Overlay(m', kvs));
  }

  lemma {:induction false} OverlayAt(m: map<Key, Value>, m': map<Key, Value>, kvs: seq<KeyValue>, k: Key)
    requires k !in KeysOf(kvs) ==> Lookup(m, k) == Lookup(m', k)
    ensures Lookup(Overlay(m, kvs), k) == Lookup(Overlay(m', kvs), k)
  {
    if kvs != [] {
      var i := |kvs| - 1;
      assert kvs == kvs[..i] + [kvs[i]];
      OverlayPush(m, kvs[..i], kvs[i]);
      if kvs[i].key != k {
        OverlayAt(m, m', kvs[..i], k);
      }
    }
  }

  lemma SameLookups(m: map<Key, Value>, m': map<Key, Value>)
    requires forall k :: Lookup(m, k) == Lookup(m', k)
    ensures m == m'
  {
    assert forall k :: k in m ==> Lookup(m, k).Some?;
    assert forall k :: k in m' ==> Lookup(m', k).Some?;
  }

  lemma {:induction false} OverlayUntouched(m: map<Key, Value>, kvs: seq<KeyValue>, k: Key)
    requires k !in KeysOf(kvs)
    ensures Lookup(Overlay(m, kvs), k) == Lookup(m, k)
  {
    if kvs != [] {
      var i := |kvs| - 1;
      assert kvs == kvs[..i] + [kvs[i]];
      OverlayUntouched(m, kvs[..i], k);
    }
  }

  /** Writing a list twice is writing it once. */
  lemma OverlayAgain(m: map<Key, Value>, a: seq<KeyValue>, b: seq<KeyValue>)
    ensures Overlay(Overlay(m, a), a + b) == Overlay(m, a + b)
  {
    forall k | k !in KeysOf(a + b)
      ensures Lookup(Overlay(m, a), k) == Lookup(m, k)
    {
      assert forall kv | kv in a :: kv in a + b;
      OverlayUntouched(m, a, k);
    }
    OverlayForget(Overlay(m, a), m, a + b);
  }

  /** A key holds what its last write says. */
  lemma {:induction false} LastWrite(base: map<Key, Value>, kvs: seq<KeyValue>, i: nat)
    requires i < |kvs| && forall j | i < j < |kvs| :: kvs[j].key != kvs[i].key
    ensures Lookup(Overlay(base, kvs), kvs[i].key) == kvs[i].value
  {
    var n := |kvs| - 1;
    if i < n {
      LastWrite(base, kvs[..n], i);
    }
  }

  /** The keys whose last write is nil. */
  ghost function Erased(kvs: seq<KeyValue>): set<Key> {
    set k | k in KeysOf(kvs) && k !in Overlay(map[], kvs)
  }

  lemma {:induction false} LayerAt(base: map<Key, Value>, kvs: seq<KeyValue>, k: Key)
    ensures Lookup(Overlay(base, kvs), k) ==
            if k in KeysOf(kvs) then Lookup(Overlay(map[], kvs), k) else Lookup(base, k)
  {
    if k in KeysOf(kvs) {
      OverlayAt(base, map[], kvs, k);
    } else {
      OverlayUntouched(base, kvs, k);
    }
  }

  /** A nil write only erases the entry of the top layer: reading through the layers gives what the
      writes say exactly when no key is erased that a lower layer still holds. */
  lemma LayeredIff(base: map<Key, Value>, kvs: seq<KeyValue>)
    ensures base + Overlay(map[], kvs) == Overlay(base, kvs) <==> Erased(kvs) !! base.Keys
  {
    var top := Overlay(map[], kvs);
    forall k
      ensures Lookup(base + top, k) == Lookup(Overlay(base, kvs), k) <==> !(k in Erased(kvs) && k in base)
    {
      LayerAt(base, kvs, k);
      if k !in KeysOf(kvs) {
        OverlayUntouched(map[], kvs, k);
      }
    }
    if Erased(kvs) !! base.Keys {
      SameLookups(base + top, Overlay(base, kvs));
    } else {
      var k :| k in Erased(kvs) && k in base;
      assert Lookup(base + top, k) != Lookup(Overlay(base, kvs), k);
    }
  }

  lemma {:induction false} NonNilErasesNothing(kvs: seq<KeyValue>)
    requires NonNil(kvs)
    ensures Erased(kvs) == {}
  {
    forall k | k in KeysOf(kvs)
      ensures k in Overlay(map[], kvs)
    {
      Written(kvs, k);
    }
  }

  lemma {:induction false} Written(kvs: seq<KeyValue>, k: Key)
    requires NonNil(kvs) && k in KeysOf(kvs)
    ensures k in Overlay(map[], kvs)
  {
    var i := |kvs| - 1;
    assert kvs == kvs[..i] + [kvs[i]];
    OverlayPush(map[], kvs[..i], kvs[i]);
    if kvs[i].key != k {
      assert k in KeysOf(kvs[..i]);
      Written(kvs[..i], k);
    }
  }

  class StateDB {
    /** What the store holds under the state hash of the parent block. */
    const store: map<Key, Value>
    var cache: map<Key, Value>
    /** The nil map is the empty map. */
    var txcache: map<Key, Value>
    var keys: seq<Key>
    var intx: bool

    /** The state below the current in-memory transaction. */
    function Base(): map<Key, Value>
      reads this
    {
      store + cache
    }

    /** The state as `Get` shows it. */
    function View(): map<Key, Value>
      reads this
    {
      if intx then Base() + txcache else Base()
    }

    constructor (store: map<Key, Value>)
      ensures this.store == store && !intx && View() == store
    {
      this.store := store;
      cache, txcache, keys, intx := map[], map[], [], false;
    }

    method Begin()
      modifies this
      ensures intx && txcache == map[] && keys == [] && cache == old(cache)
      ensures !old(intx) ==> View() == old(View())
    {
      intx := true;
      keys := [];
      txcache := map[];
    }

    /** Back to the state at `Begin`. */
    method Rollback()
      modifies this
      ensures !intx && View() == old(Base()) && Base() == old(Base())
    {
      ResetTx();
    }

    /** Keeps the view and makes it the base of what follows. */
    method Commit()
      requires intx
      modifies this
      ensures !intx && View() == old(View())
    {
      cache := cache + txcache;
      assert store + cache == old(store + cache + txcache);
      ResetTx();
    }

    method ResetTx()
      modifies this`intx, this`txcache, this`keys
      ensures !intx && txcache == map[] && keys == []
    {
      intx, txcache, keys := false, map[], [];
    }

    /** Reading fills the cache but changes neither view nor base. */
    method Get(key: Key) returns (value: Option<Value>)
      modifies this`cache
      ensures value == Lookup(View(), key) && View() == old(View()) && Base() == old(Base())
    {
      if intx && key in txcache {
        return Some(txcache[key]);
      }
      if key in cache {
        return Some(cache[key]);
      }
      if key !in store {
        return None;
      }
      cache := cache[key := store[key]];
      assert Base() == old(Base());
      return Some(store[key]);
    }

    method StartTx()
      modifies this`keys
      ensures keys == []
    {
      keys := [];
    }

    /** Writes to the top layer; inside a transaction the key is noted as well. */
    method Set(key: Key, value: Option<Value>)
      modifies this
      ensures intx == old(intx)
      ensures if intx then
                cache == old(cache) && keys == old(keys) + [key] && txcache == SetMap(old(txcache), key, value)
              else txcache == old(txcache) && keys == old(keys) && cache == SetMap(old(cache), key, value)
      ensures View() == SetMap(old(View()), key, value) <==>
              !(value.None? && key in (if intx then Base() else store))
    {
      if intx {
        keys := keys + [key];
        txcache := SetMap(txcache, key, value);
      } else {
        cache := SetMap(cache, key, value);
      }
      SetView(if intx then Base() else store, old(if intx then txcache else cache), key, value);
    }
  }

  lemma SetView(lower: map<Key, Value>, top: map<Key, Value>, key: Key, value: Option<Value>)
    ensures lower + SetMap(top, key, value) == SetMap(lower + top, key, value) <==> !(value.None? && key in lower)
  {
    if value.None? && key in lower {
      assert key in lower + SetMap(top, key, value);
    } else {
      assert lower + SetMap(top, key, value) == SetMap(lower + top, key, value);
    }
  }
}
