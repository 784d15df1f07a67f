/** executor/execenv.go and the loop of procExecTxList in executor/executor.go, on top of the caches of
    the state database. */
module Executors {
  import opened Accounts
  import opened Options
  import opened Int64s
  import opened StateDBs
  import opened ExecutionSpecs
  import opened ExecutionLaws

  class Executor {
    const stateDB: StateDB
    const env: Env
    var calls: nat

    constructor (store: map<Key, Value>, env: Env)
      ensures fresh(stateDB) && stateDB.store == store && this.env == env && !stateDB.intx && stateDB.View() == store
    {
      stateDB := new StateDB(store);
      this.env := env;
      calls := 0;
    }

    /** Takes the fee; a transaction that cannot pay changes nothing. */
    method ProcessFee(tx: Tx) returns (feelog: Receipt, err: Option<Error>)
      requires !stateDB.intx
      modifies stateDB
      ensures !stateDB.intx && stateDB.View() == Overlay(old(stateDB.View()), feelog.kv)
      ensures var acc := AccountAt(old(stateDB.View()), env.coinsPrefix, tx.from);
        if acc.None? then err == Some(Panicked) && feelog == EMPTY_PACK
        else if Wrap(acc.value.balance - tx.fee) < 0 then err == Some(NoBalance) && feelog == EMPTY_PACK
        else
          var after := acc.value.(balance := Wrap(acc.value.balance - tx.fee));
          && err.None?
          && feelog == Receipt(EXEC_PACK, [KeyValue(env.coinsPrefix + after.addr, Some(Encoded(after)))],
                               [FeeLog(acc.value, after)])
    {
      feelog := EMPTY_PACK;
      ghost var view := stateDB.View();
      var value := stateDB.Get(env.coinsPrefix + tx.from);
      if value.Some? && value.value.Bytes? {
        return feelog, Some(Panicked);
      }
      var acc := if value.None? then Account(0, 0, tx.from) else value.value.account;
      if Wrap(acc.balance - tx.fee) < 0 {
        return feelog, Some(NoBalance);
      }
      var after := acc.(balance := Wrap(acc.balance - tx.fee));
      var kv := KeyValue(env.coinsPrefix + after.addr, Some(Encoded(after)));
      stateDB.Set(kv.key, kv.value);
      OverlayOne(view, kv);
      return FeeReceipt(env, acc, after), None;
    }

    method ExecFee(tx: Tx, index: int) returns (feelog: Receipt, err: Option<Error>)
      requires !stateDB.intx
      modifies stateDB, this`calls
      ensures !stateDB.intx && calls == old(calls) + 1
      ensures var acc := AccountAt(old(stateDB.View()), env.coinsPrefix, tx.from);
        && (err.None? <==> env.checkFee(tx, index, calls).None?
                           && (env.takesFee(tx) ==> acc.Some? && Wrap(acc.value.balance - tx.fee) >= 0))
        && (err.Some? || !env.takesFee(tx) ==> stateDB.View() == old(stateDB.View()) && feelog == EMPTY_PACK)
      ensures (err, feelog) == FeeOf(env, tx, index, old(stateDB.View()), calls)
      ensures stateDB.View() == Overlay(old(stateDB.View()), feelog.kv)
    {
      feelog := EMPTY_PACK;
      calls := calls + 1;
      err := env.checkFee(tx, index, calls);
      if err.Some? {
        return;
      }
      if env.takesFee(tx) {
        feelog, err := ProcessFee(tx);
      }
    }

    /** The calls of a driver: only noted keys change, and only in the transaction cache. */
    method RunDriver(calls: seq<Call>)
      requires stateDB.intx && stateDB.keys == []
      modifies stateDB
      ensures stateDB.intx && stateDB.Base() == old(stateDB.Base()) && stateDB.keys == SetKeys(calls)
      ensures forall k | k !in SetKeys(calls) :: Lookup(stateDB.txcache, k) == Lookup(old(stateDB.txcache), k)
    {
      for i := 0 to |calls|
        invariant stateDB.intx && stateDB.Base() == old(stateDB.Base()) && stateDB.keys == SetKeys(calls[..i])
        invariant forall k | k !in SetKeys(calls[..i]) :: Lookup(stateDB.txcache, k) == Lookup(old(stateDB.txcache), k)
      {
        assert calls[..i + 1][..i] == calls[..i];
        match calls[i]
        case GetCall(key) =>
          var value := stateDB.Get(key);
        case SetCall(key, value) =>
          stateDB.Set(key, value);
      }
      assert calls[..|calls|] == calls;
    }

    /** Every key written to memory is a key of the receipt. */
    method CheckKV(memset: seq<Key>, kvs: seq<KeyValue>) returns (err: Option<Error>)
      ensures err == if forall k | k in memset :: k in KeysOf(kvs) then None else Some(NotAllowMemSetKey)
    {
      var keys: map<Key, bool> := map[];
      for i := 0 to |kvs|
        invariant keys.Keys == KeysOf(kvs[..i])
      {
        assert kvs[..i + 1] == kvs[..i] + [kvs[i]];
        keys := keys[kvs[i].key := true];
      }
      assert kvs[..|kvs|] == kvs;
      for i := 0 to |memset|
        invariant forall k | k in memset[..i] :: k in keys
      {
        if memset[i] !in keys {
          return Some(NotAllowMemSetKey);
        }
      }
      assert memset[..|memset|] == memset;
      return None;
    }

    method CheckKeyAllow(tx: Tx, index: int, kvs: seq<KeyValue>) returns (err: Option<Error>)
      ensures err == if forall kv | kv in kvs :: env.isAllowExec(kv.key, tx, index) then None else Some(NotAllowKey)
    {
      for i := 0 to |kvs|
        invariant forall kv | kv in kvs[..i] :: env.isAllowExec(kv.key, tx, index)
      {
        if !env.isAllowExec(kvs[i].key, tx, index) {
          return Some(NotAllowKey);
        }
      }
      assert kvs[..|kvs|] == kvs;
      return None;
    }

    /** Writes the receipt back: whatever the driver left under these keys is replaced. */
    method WriteBack(kvs: seq<KeyValue>)
      requires stateDB.intx
      modifies stateDB
      ensures stateDB.intx && stateDB.Base() == old(stateDB.Base())
      ensures stateDB.txcache == Overlay(old(stateDB.txcache), kvs)
    {
      for i := 0 to |kvs|
        invariant stateDB.intx && stateDB.Base() == old(stateDB.Base())
        invariant stateDB.txcache == Overlay(old(stateDB.txcache), kvs[..i])
      {
        assert kvs[..i + 1][..i] == kvs[..i];
        stateDB.Set(kvs[i].key, kvs[i].value);
      }
      assert kvs[..|kvs|] == kvs;
    }

    /** Runs one transaction inside the in-memory transaction.  On success the transaction cache is the
        old one overlaid by the receipt; on failure the receipt gains only an error log. */
    method ExecTxOne(feelog: Receipt, tx: Tx, index: int) returns (receipt: Receipt, err: Option<Error>)
      requires stateDB.intx
      modifies stateDB, this`calls
      ensures stateDB.intx && stateDB.Base() == old(stateDB.Base())
      ensures err.Some? ==> receipt == WithError(feelog, err.value)
      ensures err.None? ==> feelog.kv <= receipt.kv && stateDB.txcache == Overlay(old(stateDB.txcache), receipt.kv)
      ensures calls == old(calls) + 1
      ensures var x := env.driver(tx, index, old(stateDB.View()), calls);
        var kvs := if x.outcome.Returned? && x.outcome.receipt.Some? then x.outcome.receipt.value.kv else [];
        var shown := forall c | c in x.calls && c.SetCall? :: exists kv :: kv in kvs && kv.key == c.key;
        var allowed := forall kv | kv in kvs :: env.isAllowExec(kv.key, tx, index);
        && (err.None? <==> x.outcome.Returned? && shown && allowed && env.execLocalSameTime(tx, index, calls).None?)
        && (x.outcome.Failed? ==> err == Some(x.outcome.err))
        && (x.outcome.Returned? && !shown ==> err == Some(NotAllowMemSetKey))
        && (x.outcome.Returned? && shown && !allowed ==> err == Some(NotAllowKey))
        && (x.outcome.Returned? && shown && allowed ==> err == env.execLocalSameTime(tx, index, calls))
        && (err.None? ==> receipt.kv == feelog.kv + kvs)
      ensures var x := env.driver(tx, index, old(stateDB.View()), calls);
        err == Verdict(env, tx, index, x, calls) && (err.None? ==> receipt == Merged(feelog, x))
    {
      ghost var before := stateDB.txcache;
      stateDB.StartTx();
      calls := calls + 1;
      var execution := env.driver(tx, index, stateDB.View(), calls);
      VerdictIs(env, tx, index, execution, calls);
      RunDriver(execution.calls);
      if execution.outcome.Failed? {
        err := Some(execution.outcome.err);
        return WithError(feelog, err.value), err;
      }
      var r := if execution.outcome.receipt.Some? then execution.outcome.receipt.value
               else Receipt(feelog.ty, [], []);
      err := CheckKV(stateDB.keys, r.kv);
      if err.Some? {
        return WithError(feelog, err.value), err;
      }
      err := CheckKeyAllow(tx, index, r.kv);
      if err.Some? {
        return WithError(feelog, err.value), err;
      }
      err := env.execLocalSameTime(tx, index, calls);
      if err.Some? {
        return WithError(feelog, err.value), err;
      }
      receipt := Receipt(r.ty, feelog.kv + r.kv, feelog.logs + r.logs);
      assert receipt == Merged(feelog, execution);
      forall k | k !in KeysOf(receipt.kv)
        ensures Lookup(stateDB.txcache, k) == Lookup(before, k)
      {
        assert forall kv | kv in r.kv :: kv in receipt.kv;
      }
      OverlayForget(stateDB.txcache, before, receipt.kv);
      WriteBack(receipt.kv);
    }

    /** The fee is taken outside the in-memory transaction, so that it stays when the rest is rolled
        back. */
    method ExecTx(tx: Tx, index: int) returns (receipt: Receipt, err: Option<Error>)
      requires !stateDB.intx
      modifies stateDB, this`calls
      ensures !stateDB.intx
      ensures Step(err, if err.Some? then [] else [receipt], stateDB.View(), calls)
              == TxStep(env, tx, index, old(stateDB.View()), old(calls))
    {
      hide Overlay, Verdict, Merged, FeeOf;
      receipt := EMPTY_PACK;
      calls := calls + 1;
      err := env.checkTx(tx, index, calls);
      if err.Some? {
        return;
      }
      receipt, err := ExecFee(tx, index);
      if err.Some? {
        FeeOfError(env, tx, index, old(stateDB.View()), calls);
        return;
      }
      stateDB.Begin();
      receipt, err := ExecTxOne(receipt, tx, index);
      if err.Some? {
        stateDB.Rollback();
      } else {
        stateDB.Commit();
      }
      if !Aborts(err) {
        err := None;
      }
    }

    /** ExecTxOne as the loop over the members uses it. */
    method ExecMember(first: Receipt, tx: Tx, index: int) returns (receipt: Receipt, err: Option<Error>)
      requires stateDB.intx
      modifies stateDB, this`calls
      ensures stateDB.intx && stateDB.Base() == old(stateDB.Base()) && calls == old(calls) + 1
      ensures var x := env.driver(tx, index, old(stateDB.View()), calls);
        && err == Verdict(env, tx, index, x, calls)
        && receipt == if err.Some? then WithError(first, err.value) else Merged(first, x)
      ensures err.None? ==> stateDB.txcache == Overlay(old(stateDB.txcache), receipt.kv)
    {
      hide Overlay, Verdict, Merged, WithError;
      receipt, err := ExecTxOne(first, tx, index);
    }

    /** Runs the members one after the other and clears the receipts when one of them fails. */
    method ExecMembers(fee: Receipt, txs: seq<Tx>, index: int) returns (receipts: seq<Receipt>, err: Option<Error>)
      requires stateDB.intx && stateDB.txcache == map[] && txs != []
      modifies stateDB, this`calls
      ensures stateDB.intx && stateDB.Base() == old(stateDB.Base())
      ensures var (verdict, ran) := Members(env, txs, index, old(stateDB.Base()), fee, [], old(calls) + 1);
        && err == verdict
        && if err.None? then
             calls == old(calls) + |txs| && receipts == ran && stateDB.txcache == Overlay(map[], Writes(ran))
           else
             calls == old(calls) + 1 + |ran| && receipts == GroupFailed(|txs|, fee, |ran|, err.value)
    {
      hide Overlay, Writes, Verdict, Merged, WithError, GroupFailed;
      ghost var base, n := stateDB.Base(), calls + 1;
      var rollbackLog := fee;
      receipts, err := seq(|txs|, _ => EMPTY_PACK), None;
      NothingRan();
      for i := 0 to |txs|
        invariant |receipts| == |txs| && err.None? && calls == n - 1 + i
        invariant stateDB.intx && stateDB.Base() == base && stateDB.txcache == Overlay(map[], Writes(receipts[..i]))
        invariant forall k | i <= k < |txs| :: receipts[k] == EMPTY_PACK
        invariant Members(env, txs, index, base, fee, [], n) == Members(env, txs, index, base, fee, receipts[..i], n)
      {
        ghost var ran := receipts[..i];
        var r: Receipt;
        r, err := ExecMember(if i == 0 then fee else receipts[i], txs[i], index + i);
        receipts := receipts[i := r];
        if err.Some? {
          if i > 0 {
            receipts := Reset(receipts, i, rollbackLog);
          }
          FailedMember(receipts, fee, i, err.value);
          return;
        }
        assert receipts[..i + 1] == ran + [r];
        WritesPush(ran, r);
        OverlayConcat(map[], Writes(ran), r.kv);
      }
      assert receipts[..|txs|] == receipts;
    }

    /** What is left of the receipts when member `f` failed. */
    lemma FailedMember(receipts: seq<Receipt>, fee: Receipt, f: nat, err: Error)
      requires f < |receipts|
      requires receipts[f] == WithError(if f == 0 then fee else EMPTY_PACK, err)
      requires forall k | 0 <= k < |receipts| && k != f :: receipts[k] == if k == 0 then fee else EMPTY_PACK
      ensures receipts == GroupFailed(|receipts|, fee, f, err)
    {}

    /** All members take effect, or only the fee of the first one does. */
    method ExecTxGroup(txs: seq<Tx>, index: int) returns (receipts: seq<Receipt>, err: Option<Error>)
      requires !stateDB.intx && txs != []
      modifies stateDB, this`calls
      ensures !Aborts(err) ==> !stateDB.intx
      ensures !Aborts(err) ==> Step(err, if err.Some? then [] else receipts, stateDB.View(), calls)
                               == GroupStep(env, txs, index, old(stateDB.View()), old(calls))
      ensures Aborts(err) ==> err == GroupStep(env, txs, index, old(stateDB.View()), old(calls)).err
    {
      hide Overlay, Writes, Verdict, Merged, Members, GroupFailed, FeeOf;
      receipts := [];
      calls := calls + 1;
      err := env.checkTxGroup(txs, index, calls);
      if err.Some? {
        return;
      }
      var fee: Receipt;
      fee, err := ExecFee(txs[0], index);
      if err.Some? {
        FeeOfError(env, txs[0], index, old(stateDB.View()), calls);
        return;
      }
      stateDB.Begin();
      receipts, err := ExecMembers(fee, txs, index);
      if err.Some? {
        if Aborts(err) {
          return;
        }
        stateDB.Rollback();
        err := None;
        return;
      }
      stateDB.Commit();
    }

    /** Member `i` failed: clears the receipts before it. */
    method Reset(receipts: seq<Receipt>, i: nat, rollbackLog: Receipt) returns (cleared: seq<Receipt>)
      requires 0 < i < |receipts|
      ensures |cleared| == |receipts| && cleared[0] == rollbackLog
      ensures forall k | 0 < k < i :: cleared[k] == EMPTY_PACK
      ensures forall k | i <= k < |receipts| :: cleared[k] == receipts[k]
    {
      cleared := receipts;
      for k := 1 to i
        invariant |cleared| == |receipts| && forall j | i <= j < |receipts| :: cleared[j] == receipts[j]
        invariant forall j | 0 < j < k :: cleared[j] == EMPTY_PACK
      {
        cleared := cleared[k := EMPTY_PACK];
      }
      cleared := cleared[0 := rollbackLog];
    }

    /** Executes the list as the fold does, whatever the caches hold. */
    method ProcExecTxList(txs: seq<Tx>) returns (receipts: seq<Receipt>, err: Option<Error>)
      requires !stateDB.intx
      modifies stateDB, this`calls
      ensures var run := ListRun(env, txs, 0, 0, old(stateDB.View()), old(calls));
        && err == run.err
        && (err.None? ==> receipts == run.receipts && stateDB.View() == run.view && !stateDB.intx)
      ensures err.None? ==> |receipts| == |txs| && Faithful(old(stateDB.View()), receipts, stateDB.View())
      ensures err.None? ==>
        (stateDB.View() == Overlay(old(stateDB.View()), Writes(receipts)) <==>
         Erased(Writes(receipts)) !! stateDB.View().Keys)
    {
      hide TxStep, GroupStep, ListRun, AtItem, Faithful, Tells, Overlay, Erased, Writes;
      receipts, err := [], None;
      var index, i := 0, 0;
      ghost var run := ListRun(env, txs, 0, 0, stateDB.View(), calls);
      AtStart(env, txs, stateDB.View(), calls);
      ListFaithful(env, txs, 0, 0, stateDB.View(), calls);
      while i < |txs|
        invariant 0 <= i <= |txs| && !stateDB.intx && err.None?
        invariant AtItem(run, env, txs, i, index, receipts, stateDB.View(), calls)
      {
        var tx := txs[i];
        NextItem(run, env, txs, i, index, receipts, stateDB.View(), calls);
        if tx.groupCount < 0 || tx.groupCount == 1 || tx.groupCount > 20 {
          receipts := receipts + [ErrReceipt(TxGroupCount)];
          i := i + 1;
          continue;
        }
        if tx.groupCount == 0 {
          var receipt;
          receipt, err := ExecTx(tx, index);
          if Aborts(err) {
            return;
          }
          if err.Some? {
            assert seq(1, _ => ErrReceipt(err.value)) == [ErrReceipt(err.value)];
            receipts := receipts + [ErrReceipt(err.value)];
            err := None;
            i := i + 1;
            continue;
          }
          receipts := receipts + [receipt];
          index := index + 1;
          i := i + 1;
          continue;
        }
        if !env.forkTxGroup {
          receipts := receipts + [ErrReceipt(TxGroupNotSupport)];
          i := i + 1;
          continue;
        }
        if i + tx.groupCount > |txs| {
          receipts := receipts + [ErrReceipt(TxGroupCount)];
          i := i + 1;
          continue;
        }
        var receiptlist;
        receiptlist, err := ExecTxGroup(txs[i..i + tx.groupCount], index);
        i := i + tx.groupCount;
        if Aborts(err) {
          return;
        }
        if err.Some? {
          ghost var e, done := err.value, receipts;
          for n := 0 to tx.groupCount
            invariant receipts == done + seq(n, _ => ErrReceipt(e)) && !stateDB.intx
            invariant AtItem(run, env, txs, i, index, done + seq(tx.groupCount, _ => ErrReceipt(e)), stateDB.View(),
                             calls)
          {
            receipts := receipts + [ErrReceipt(err.value)];
          }
          err := None;
          continue;
        }
        receipts := receipts + receiptlist;
        index := index + tx.groupCount;
      }
      AtEnd(run, env, txs, i, index, receipts, stateDB.View(), calls);
    }
  }
}
