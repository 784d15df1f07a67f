/** What executing the transactions of a block means, without caches and without rollback: a fold over
    one map.  Blocks above the genesis block, at heights where the forks ForkExecRollback,
    ForkStateDBSet and ForkResetTx0 are active. */
module ExecutionSpecs {
  import opened Accounts
  import opened Options
  import opened Int64s
  import opened StateDBs

  /** `ApiEnv` stands for every error of the API environment, `Panicked` for a panic: either ends the
      whole list.  `Other` covers the errors of checks and drivers. */
  datatype Error =
    | ApiEnv
    | Panicked
    | NoBalance
    | NotAllowMemSetKey
    | NotAllowKey
    | TxGroupCount
    | TxGroupNotSupport
    | Other(code: nat)

  predicate Aborts(err: Option<Error>) {
    err == Some(ApiEnv) || err == Some(Panicked)
  }

  datatype Tx = Tx(from: string, fee: int, groupCount: int, payload: nat)

  datatype Log = FeeLog(prev: Account, current: Account) | ErrLog(err: Error) | Entry(data: string)

  datatype Receipt = Receipt(ty: int, kv: seq<KeyValue>, logs: seq<Log>)

  const EXEC_ERR := 0
  const EXEC_PACK := 1

  const EMPTY_PACK := Receipt(EXEC_PACK, [], [])

  function ErrReceipt(err: Error): Receipt {
    Receipt(EXEC_ERR, [], [ErrLog(err)])
  }

  /** What a driver does to the state database, and how it ends; the receipt may be nil. */
  datatype Call = GetCall(key: Key) | SetCall(key: Key, value: Option<Value>)
  datatype Outcome = Returned(receipt: Option<Receipt>) | Failed(err: Error)
  datatype Execution = Execution(calls: seq<Call>, outcome: Outcome)

  /** All writes of the receipts, in order. */
  ghost function Writes(receipts: seq<Receipt>): seq<KeyValue> {
    if receipts == [] then [] else Writes(receipts[..|receipts| - 1]) + receipts[|receipts| - 1].kv
  }

  lemma WritesPush(receipts: seq<Receipt>, r: Receipt)
    ensures Writes(receipts + [r]) == Writes(receipts) + r.kv
  {
    assert (receipts + [r])[..|receipts|] == receipts;
  }

  lemma {:induction false} WritesConcat(a: seq<Receipt>, b: seq<Receipt>)
    ensures Writes(a + b) == Writes(a) + Writes(b)
    decreases |b|
  {
    if b == [] {
      assert a + b == a;
    } else {
      var k := |b| - 1;
      WritesConcat(a, b[..k]);
      assert a + b == (a + b[..k]) + [b[k]];
      WritesPush(a + b[..k], b[k]);
      assert Writes(a) + (Writes(b[..k]) + b[k].kv) == Writes(a) + Writes(b[..k]) + b[k].kv;
    }
  }

  lemma {:induction false} WritesNothing(receipts: seq<Receipt>)
    requires forall r | r in receipts :: r.kv == []
    ensures Writes(receipts) == []
  {
    if receipts != [] {
      WritesNothing(receipts[..|receipts| - 1]);
    }
  }

  lemma WritesOne(r: Receipt)
    ensures Writes([r]) == r.kv
  {
    WritesPush([], r);
    assert [] + [r] == [r];
  }

  lemma WritesFirst(receipts: seq<Receipt>)
    requires receipts != [] && forall i | 0 < i < |receipts| :: receipts[i].kv == []
    ensures Writes(receipts) == receipts[0].kv
  {
    hide Writes;
    assert receipts == [receipts[0]] + receipts[1..];
    WritesConcat([receipts[0]], receipts[1..]);
    WritesNothing(receipts[1..]);
    WritesOne(receipts[0]);
    assert receipts[0].kv + [] == receipts[0].kv;
  }

  /** The account stored for an address, an empty one if there is none, and nothing if the stored
      bytes do not decode. */
  function AccountAt(view: map<Key, Value>, prefix: string, addr: string): Option<Account> {
    if prefix + addr !in view then Some(Account(0, 0, addr))
    else if view[prefix + addr].Encoded? then Some(view[prefix + addr].account)
    else None
  }

  /** The keys a driver has written. */
  ghost function SetKeys(calls: seq<Call>): seq<Key> {
    if calls == [] then []
    else
      var last := calls[|calls| - 1];
      SetKeys(calls[..|calls| - 1]) + if last.SetCall? then [last.key] else []
  }

  /** Configuration, checks and drivers.  The results may depend on anything: the last argument counts
      the calls. */
  datatype Env = Env(
    coinsPrefix: string,
    forkTxGroup: bool,
    takesFee: Tx -> bool,
    checkTx: (Tx, int, nat) -> Option<Error>,
    checkTxGroup: (seq<Tx>, int, nat) -> Option<Error>,
    checkFee: (Tx, int, nat) -> Option<Error>,
    driver: (Tx, int, map<Key, Value>, nat) -> Execution,
    isAllowExec: (Key, Tx, int) -> bool,
    execLocalSameTime: (Tx, int, nat) -> Option<Error>)

  /** How the driver's run is judged: its own error, a write that the receipt does not show, a key it
      may not touch, or an error of the local execution. */
  ghost function Verdict(env: Env, tx: Tx, index: int, x: Execution, n: nat): Option<Error> {
    if x.outcome.Failed? then Some(x.outcome.err)
    else if exists k :: k in SetKeys(x.calls) && k !in KeysOf(WritesOf(x)) then Some(NotAllowMemSetKey)
    else if exists kv :: kv in WritesOf(x) && !env.isAllowExec(kv.key, tx, index) then Some(NotAllowKey)
    else env.execLocalSameTime(tx, index, n)
  }

  ghost function WritesOf(x: Execution): seq<KeyValue> {
    if x.outcome.Returned? && x.outcome.receipt.Some? then x.outcome.receipt.value.kv else []
  }

  /** The driver's receipt after the one that holds the fee. */
  ghost function Merged(feelog: Receipt, x: Execution): Receipt {
    if x.outcome.Returned? && x.outcome.receipt.Some? then
      var r := x.outcome.receipt.value;
      Receipt(r.ty, feelog.kv + r.kv, feelog.logs + r.logs)
    else feelog
  }

  /** Writing the fee below and the receipts, which start with the fee again, above it: the view is the
      old one overlaid by the receipts exactly when they erase no key that the charged state holds. */
  lemma CommittedIff(view: map<Key, Value>, fee: seq<KeyValue>, kvs: seq<KeyValue>)
    requires fee <= kvs
    ensures Overlay(view, fee) + Overlay(map[], kvs) == Overlay(view, kvs) <==> Erased(kvs) !! Overlay(view, fee).Keys
  {
    LayeredIff(Overlay(view, fee), kvs);
    assert kvs == fee + kvs[|fee|..];
    OverlayAgain(view, fee, kvs[|fee|..]);
  }

  /** Unless a value is nil, the receipts tell how `view` became `view'`. */
  ghost predicate Faithful(view: map<Key, Value>, receipts: seq<Receipt>, view': map<Key, Value>) {
    NonNil(Writes(receipts)) ==> view' == Overlay(view, Writes(receipts))
  }

  lemma NothingWritten(view: map<Key, Value>)
    ensures Faithful(view, [], view)
  {}

  lemma Extended(view: map<Key, Value>, receipts: seq<Receipt>, view': map<Key, Value>, more: seq<Receipt>,
                 view'': map<Key, Value>)
    requires Faithful(view, receipts, view') && Faithful(view', more, view'')
    ensures Faithful(view, receipts + more, view'')
  {
    WritesConcat(receipts, more);
    OverlayConcat(view, Writes(receipts), Writes(more));
  }

  /** The result of a step: an error, or the receipts; and the state after it. */
  datatype Step = Step(err: Option<Error>, receipts: seq<Receipt>, view: map<Key, Value>, calls: nat)

  /** The fee receipt, or why there is none. */
  ghost function FeeOf(env: Env, tx: Tx, index: int, view: map<Key, Value>, n: nat): (Option<Error>, Receipt) {
    var acc := AccountAt(view, env.coinsPrefix, tx.from);
    if env.checkFee(tx, index, n).Some? then (env.checkFee(tx, index, n), EMPTY_PACK)
    else if !env.takesFee(tx) then (None, EMPTY_PACK)
    else if acc.None? then (Some(Panicked), EMPTY_PACK)
    else if Wrap(acc.value.balance - tx.fee) < 0 then (Some(NoBalance), EMPTY_PACK)
    else (None, FeeReceipt(env, acc.value, acc.value.(balance := Wrap(acc.value.balance - tx.fee))))
  }

  lemma FeeOfError(env: Env, tx: Tx, index: int, view: map<Key, Value>, n: nat)
    ensures FeeOf(env, tx, index, view, n).0.Some? ==>
      Overlay(view, FeeOf(env, tx, index, view, n).1.kv) == view
  {}

  lemma NothingRan()
    ensures Writes([]) == [] && Overlay(map[], []) == map[]
  {}

  function FeeReceipt(env: Env, prev: Account, current: Account): Receipt {
    Receipt(EXEC_PACK, [KeyValue(env.coinsPrefix + current.addr, Some(Encoded(current)))], [FeeLog(prev, current)])
  }

  function WithError(r: Receipt, err: Error): Receipt {
    r.(logs := r.logs + [ErrLog(err)])
  }

  /** A single transaction: refused without a trace, or charged and then run on the charged state. */
  ghost function TxStep(env: Env, tx: Tx, index: int, view: map<Key, Value>, n: nat): Step {
    if env.checkTx(tx, index, n + 1).Some? then Step(env.checkTx(tx, index, n + 1), [], view, n + 1)
    else
      var (err, fee) := FeeOf(env, tx, index, view, n + 2);
      if err.Some? then Step(err, [], view, n + 2)
      else
        var base := Overlay(view, fee.kv);
        var x := env.driver(tx, index, base, n + 3);
        var verdict := Verdict(env, tx, index, x, n + 3);
        if verdict.None? then Step(None, [Merged(fee, x)], base + Overlay(map[], Merged(fee, x).kv), n + 3)
        else if Aborts(verdict) then Step(verdict, [], base, n + 3)
        else Step(None, [WithError(fee, verdict.value)], base, n + 3)
  }

  /** The members from `|ran|` on, each run on what the members before it have written; the error is
      that of the first member that fails, and `ran` then stops before it. */
  ghost function Members(env: Env, txs: seq<Tx>, index: int, base: map<Key, Value>, fee: Receipt, ran: seq<Receipt>,
                         n: nat)
    : (Option<Error>, seq<Receipt>)
    requires |ran| <= |txs|
    decreases |txs| - |ran|
  {
    var k := |ran|;
    if k == |txs| then (None, ran)
    else
      var x := env.driver(txs[k], index + k, base + Overlay(map[], Writes(ran)), n + k);
      var verdict := Verdict(env, txs[k], index + k, x, n + k);
      if verdict.Some? then (verdict, ran)
      else Members(env, txs, index, base, fee, ran + [Merged(if k == 0 then fee else EMPTY_PACK, x)], n)
  }

  /** The receipts of a group in which member `f` failed: the fee on the first one, an error log on the
      failed one, and no other trace. */
  function GroupFailed(size: nat, fee: Receipt, f: nat, err: Error): seq<Receipt> {
    seq(size, i => var r := if i == 0 then fee else EMPTY_PACK; if i == f then WithError(r, err) else r)
  }

  ghost function GroupStep(env: Env, txs: seq<Tx>, index: int, view: map<Key, Value>, n: nat): Step
    requires txs != []
  {
    if env.checkTxGroup(txs, index, n + 1).Some? then Step(env.checkTxGroup(txs, index, n + 1), [], view, n + 1)
    else
      var (err, fee) := FeeOf(env, txs[0], index, view, n + 2);
      if err.Some? then Step(err, [], view, n + 2)
      else
        var base := Overlay(view, fee.kv);
        var (verdict, ran) := Members(env, txs, index, base, fee, [], n + 3);
        if verdict.None? then Step(None, ran, base + Overlay(map[], Writes(ran)), n + 2 + |txs|)
        else if Aborts(verdict) then Step(verdict, [], base, n + 3 + |ran|)
        else Step(None, GroupFailed(|txs|, fee, |ran|, verdict.value), base, n + 3 + |ran|)
  }

  /** Why transaction `i` of a list may not even start, or None. */
  function Refused(env: Env, txs: seq<Tx>, i: nat): Option<Error>
    requires i < |txs|
  {
    var count := txs[i].groupCount;
    if count < 0 || count == 1 || count > 20 then Some(TxGroupCount)
    else if count == 0 then None
    else if !env.forkTxGroup then Some(TxGroupNotSupport)
    else if i + count > |txs| then Some(TxGroupCount)
    else None
  }

  /** The number of transactions that the step at `i` takes. */
  function Taken(env: Env, txs: seq<Tx>, i: nat): (k: nat)
    requires i < |txs|
    ensures 1 <= k && i + k <= |txs|
  {
    if Refused(env, txs, i).Some? || txs[i].groupCount == 0 then 1 else txs[i].groupCount
  }

  /** The step at `i`: a refused transaction leaves an error receipt for each of its members. */
  ghost function ItemStep(env: Env, txs: seq<Tx>, i: nat, index: int, view: map<Key, Value>, n: nat): Step
    requires i < |txs|
  {
    if Refused(env, txs, i).Some? then Step(None, [ErrReceipt(Refused(env, txs, i).value)], view, n)
    else
      var k := Taken(env, txs, i);
      var step := if txs[i].groupCount == 0 then TxStep(env, txs[i], index, view, n)
                  else GroupStep(env, txs[i..i + k], index, view, n);
      if step.err.None? || Aborts(step.err) then step
      else Step(None, seq(k, _ => ErrReceipt(step.err.value)), step.view, step.calls)
  }

  /** Only transactions that were executed count for the index. */
  ghost function NextIndex(env: Env, txs: seq<Tx>, i: nat, index: int, view: map<Key, Value>, n: nat): int
    requires i < |txs|
  {
    if Refused(env, txs, i).Some? then index
    else
      var k := Taken(env, txs, i);
      var step := if txs[i].groupCount == 0 then TxStep(env, txs[i], index, view, n)
                  else GroupStep(env, txs[i..i + k], index, view, n);
      if step.err.None? then index + k else index
  }

  /** The transactions from `i` on. */
  ghost function ListRun(env: Env, txs: seq<Tx>, i: nat, index: int, view: map<Key, Value>, n: nat): Step
    requires i <= |txs|
    decreases |txs| - i
  {
    if i == |txs| then Step(None, [], view, n)
    else
      var step := ItemStep(env, txs, i, index, view, n);
      if step.err.Some? then Step(step.err, [], step.view, step.calls)
      else
        var rest := ListRun(env, txs, i + Taken(env, txs, i), NextIndex(env, txs, i, index, view, n),
                            step.view, step.calls);
        if rest.err.Some? then rest else rest.(receipts := step.receipts + rest.receipts)
  }

  /** `run` gives `receipts` first and then what the transactions from `i` on give. */
  ghost predicate AtItem(run: Step, env: Env, txs: seq<Tx>, i: nat, index: int, receipts: seq<Receipt>,
                         view: map<Key, Value>, n: nat)
    requires i <= |txs|
  {
    var rest := ListRun(env, txs, i, index, view, n);
    run == if rest.err.Some? then rest else rest.(receipts := receipts + rest.receipts)
  }

  lemma AtStart(env: Env, txs: seq<Tx>, view: map<Key, Value>, n: nat)
    ensures AtItem(ListRun(env, txs, 0, 0, view, n), env, txs, 0, 0, [], view, n)
  {}

  lemma NextItem(run: Step, env: Env, txs: seq<Tx>, i: nat, index: int, receipts: seq<Receipt>, view: map<Key, Value>,
                 n: nat)
    requires i < |txs| && AtItem(run, env, txs, i, index, receipts, view, n)
    ensures var step := ItemStep(env, txs, i, index, view, n);
      if step.err.Some? then run == Step(step.err, [], step.view, step.calls)
      else AtItem(run, env, txs, i + Taken(env, txs, i), NextIndex(env, txs, i, index, view, n),
                  receipts + step.receipts, step.view, step.calls)
  {
    hide ItemStep, NextIndex, Taken;
    var step := ItemStep(env, txs, i, index, view, n);
    if step.err.None? {
      var rest := ListRun(env, txs, i + Taken(env, txs, i), NextIndex(env, txs, i, index, view, n),
                          step.view, step.calls);
      assert receipts + (step.receipts + rest.receipts) == receipts + step.receipts + rest.receipts;
    }
  }

  lemma AtEnd(run: Step, env: Env, txs: seq<Tx>, i: nat, index: int, receipts: seq<Receipt>, view: map<Key, Value>,
              n: nat)
    requires i == |txs| && AtItem(run, env, txs, i, index, receipts, view, n)
    ensures run == Step(None, receipts, view, n)
  {
    assert receipts + [] == receipts;
  }

  /** The fee comes off the sender's balance, which stays non-negative, and off nothing else. */
  lemma FeeCharged(env: Env, tx: Tx, index: int, view: map<Key, Value>, n: nat)
    requires FeeOf(env, tx, index, view, n).0.None? && env.takesFee(tx)
    requires AccountAt(view, env.coinsPrefix, tx.from).value.addr == tx.from
    ensures var acc := AccountAt(view, env.coinsPrefix, tx.from).value;
      var after := Overlay(view, FeeOf(env, tx, index, view, n).1.kv);
      && AccountAt(after, env.coinsPrefix, tx.from) == Some(acc.(balance := Wrap(acc.balance - tx.fee)))
      && Wrap(acc.balance - tx.fee) >= 0
      && forall k | k != env.coinsPrefix + tx.from :: Lookup(after, k) == Lookup(view, k)
  {
    hide Wrap, Overlay;
    var kvs := FeeOf(env, tx, index, view, n).1.kv;
    OverlayOne(view, kvs[0]);
    assert kvs == [kvs[0]];
  }

  /** Everything is allowed and free, and the driver's receipt writes nil under one key. */
  const NIL_DRIVER: Env := Env(
    "", false, _ => false, (_, _, _) => None, (_, _, _) => None, (_, _, _) => None,
    (_, _, _, _) => Execution([], Returned(Some(Receipt(EXEC_PACK, [KeyValue("k", None)], [])))),
    (_, _, _) => true, (_, _, _) => None)

  /** A transaction whose receipt deletes a stored key: the old value stays visible. */
  lemma NilIsNoDeletion(tx: Tx, index: int, n: nat)
    ensures var view := map["k" := Bytes("v")];
      var step := TxStep(NIL_DRIVER, tx, index, view, n);
      step.err.None? && step.view == view && Overlay(view, Writes(step.receipts)) == map[]
  {
    var view, kv := map["k" := Bytes("v")], KeyValue("k", None);
    var step := TxStep(NIL_DRIVER, tx, index, view, n);
    var x := NIL_DRIVER.driver(tx, index, view, n + 3);
    assert SetKeys(x.calls) == [];
    assert Merged(EMPTY_PACK, x).kv == [kv];
    OverlayOne(view, kv);
    OverlayOne(map[], kv);
    WritesOne(Merged(EMPTY_PACK, x));
  }

  // What the receipts promise.

  /** The receipts tell how `view` became `view'` exactly when they erase no key that the state holds
      once the fee was taken. */
  ghost predicate FaithfulIff(view: map<Key, Value>, fee: seq<KeyValue>, receipts: seq<Receipt>,
                              view': map<Key, Value>) {
    view' == Overlay(view, Writes(receipts)) <==> Erased(Writes(receipts)) !! Overlay(view, fee).Keys
  }

  lemma ExactIsFaithful(view: map<Key, Value>, fee: seq<KeyValue>, receipts: seq<Receipt>, view': map<Key, Value>)
    requires FaithfulIff(view, fee, receipts, view')
    ensures Faithful(view, receipts, view')
  {
    if NonNil(Writes(receipts)) {
      NonNilErasesNothing(Writes(receipts));
    }
  }

  /** `view'` holds every key that `view` holds, and what the writes say wherever they do not end with
      nil. */
  ghost predicate Tells(view: map<Key, Value>, kvs: seq<KeyValue>, view': map<Key, Value>) {
    && view.Keys <= view'.Keys
    && forall k | k !in Erased(kvs) :: Lookup(view', k) == Lookup(Overlay(view, kvs), k)
  }

  /** So the writes tell the state exactly when the keys they erase are not there. */
  lemma TellsIff(view: map<Key, Value>, kvs: seq<KeyValue>, view': map<Key, Value>)
    requires Tells(view, kvs, view')
    ensures view' == Overlay(view, kvs) <==> Erased(kvs) !! view'.Keys
  {
    forall k | k in Erased(kvs)
      ensures Lookup(Overlay(view, kvs), k) == None
    {
      LayerAt(view, kvs, k);
    }
    if Erased(kvs) !! view'.Keys {
      forall k
        ensures Lookup(view', k) == Lookup(Overlay(view, kvs), k)
      {
        assert k in Erased(kvs) ==> k !in view'.Keys;
      }
      SameLookups(view', Overlay(view, kvs));
    }
  }

  lemma TellsNothing(view: map<Key, Value>)
    ensures Tells(view, [], view)
  {}

  lemma TellsCommitted(view: map<Key, Value>, fee: seq<KeyValue>, kvs: seq<KeyValue>)
    requires Erased(fee) == {} && fee <= kvs
    ensures Tells(view, fee, Overlay(view, fee))
    ensures Tells(view, kvs, Overlay(view, fee) + Overlay(map[], kvs))
  {
    var base, top := Overlay(view, fee), Overlay(map[], kvs);
    forall k | k in view
      ensures k in base
    {
      LayerAt(view, fee, k);
    }
    forall k | k !in Erased(kvs)
      ensures Lookup(base + top, k) == Lookup(Overlay(view, kvs), k)
    {
      LayerAt(view, kvs, k);
      if k !in KeysOf(kvs) {
        assert forall kv | kv in fee :: kv in kvs;
        OverlayUntouched(view, fee, k);
        OverlayUntouched(map[], kvs, k);
      }
    }
  }

  lemma TellsConcat(view: map<Key, Value>, a: seq<KeyValue>, view': map<Key, Value>, b: seq<KeyValue>,
                    view'': map<Key, Value>)
    requires Tells(view, a, view') && Tells(view', b, view'')
    ensures Tells(view, a + b, view'')
  {
    hide Overlay;
    OverlayConcat(view, a, b);
    OverlayConcat(map[], a, b);
    forall k | k !in Erased(a + b)
      ensures Lookup(view'', k) == Lookup(Overlay(view, a + b), k)
    {
      KeysOfConcat(a, b);
      LayerAt(Overlay(view, a), b, k);
      LayerAt(Overlay(map[], a), b, k);
      LayerAt(view', b, k);
    }
  }

  lemma KeysOfConcat(a: seq<KeyValue>, b: seq<KeyValue>)
    ensures KeysOf(a + b) == KeysOf(a) + KeysOf(b)
  {}

  /** A charged fee erases nothing. */
  lemma FeeErasesNothing(env: Env, tx: Tx, index: int, view: map<Key, Value>, n: nat)
    ensures Erased(FeeOf(env, tx, index, view, n).1.kv) == {}
  {
    NonNilErasesNothing(FeeOf(env, tx, index, view, n).1.kv);
  }

  lemma TxFaithful(env: Env, tx: Tx, index: int, view: map<Key, Value>, n: nat)
    ensures var step := TxStep(env, tx, index, view, n);
      && (step.err.None? ==>
            && |step.receipts| == 1 && Faithful(view, step.receipts, step.view)
            && FaithfulIff(view, FeeOf(env, tx, index, view, n + 2).1.kv, step.receipts, step.view)
            && Tells(view, Writes(step.receipts), step.view))
      && (step.err.Some? && !Aborts(step.err) ==> step.view == view)
  {
    hide Verdict, Overlay, Writes, Faithful, Erased, Tells;
    var step := TxStep(env, tx, index, view, n);
    var (err, fee) := FeeOf(env, tx, index, view, n + 2);
    if step.err.None? {
      WritesFirst(step.receipts);
      FeeErasesNothing(env, tx, index, view, n + 2);
      CommittedIff(view, fee.kv, step.receipts[0].kv);
      TellsCommitted(view, fee.kv, step.receipts[0].kv);
      ExactIsFaithful(view, fee.kv, step.receipts, step.view);
    }
  }

  lemma {:induction false} MembersGrow(env: Env, txs: seq<Tx>, index: int, base: map<Key, Value>, fee: Receipt,
                                       ran: seq<Receipt>, n: nat)
    requires |ran| <= |txs| && (ran != [] ==> fee.kv <= Writes(ran))
    ensures var (verdict, all) := Members(env, txs, index, base, fee, ran, n);
      && ran <= all && (if verdict.None? then |all| == |txs| else |all| < |txs|)
      && (all != [] ==> fee.kv <= Writes(all))
    decreases |txs| - |ran|
  {
    hide Verdict, Overlay, Writes;
    var k := |ran|;
    if k < |txs| {
      var x := env.driver(txs[k], index + k, base + Overlay(map[], Writes(ran)), n + k);
      var r := Merged(if k == 0 then fee else EMPTY_PACK, x);
      if Verdict(env, txs[k], index + k, x, n + k).None? {
        WritesPush(ran, r);
        if k == 0 {
          WritesFirst([r]);
          assert ran + [r] == [r];
        }
        MembersGrow(env, txs, index, base, fee, ran + [r], n);
      }
    }
  }

  /** A failed group writes its fee and nothing else. */
  lemma GroupFailedWrites(size: nat, fee: Receipt, f: nat, err: Error)
    requires 0 < size
    ensures Writes(GroupFailed(size, fee, f, err)) == fee.kv
  {
    WritesFirst(GroupFailed(size, fee, f, err));
  }

  lemma GroupFaithful(env: Env, txs: seq<Tx>, index: int, view: map<Key, Value>, n: nat)
    requires txs != []
    ensures var step := GroupStep(env, txs, index, view, n);
      && (step.err.None? ==>
            && |step.receipts| == |txs| && Faithful(view, step.receipts, step.view)
            && FaithfulIff(view, FeeOf(env, txs[0], index, view, n + 2).1.kv, step.receipts, step.view)
            && Tells(view, Writes(step.receipts), step.view))
      && (step.err.Some? && !Aborts(step.err) ==> step.view == view)
  {
    hide Verdict, Overlay, Writes, Faithful, Erased, Tells;
    var step := GroupStep(env, txs, index, view, n);
    var (err, fee) := FeeOf(env, txs[0], index, view, n + 2);
    if step.err.None? {
      var base := Overlay(view, fee.kv);
      var (verdict, ran) := Members(env, txs, index, base, fee, [], n + 3);
      MembersGrow(env, txs, index, base, fee, [], n + 3);
      FeeErasesNothing(env, txs[0], index, view, n + 2);
      if verdict.Some? {
        GroupFailedWrites(|txs|, fee, |ran|, verdict.value);
        TellsCommitted(view, fee.kv, fee.kv);
      } else {
        CommittedIff(view, fee.kv, Writes(ran));
        TellsCommitted(view, fee.kv, Writes(ran));
      }
      ExactIsFaithful(view, fee.kv, step.receipts, step.view);
    }
  }

  /** All or nothing: a group takes effect as a whole, or what is left of it is the fee of its first
      member, charged once. */
  lemma GroupAtomic(env: Env, txs: seq<Tx>, index: int, view: map<Key, Value>, n: nat)
    requires txs != [] && GroupStep(env, txs, index, view, n).err.None?
    ensures var step := GroupStep(env, txs, index, view, n);
      var (err, fee) := FeeOf(env, txs[0], index, view, n + 2);
      var (verdict, ran) := Members(env, txs, index, Overlay(view, fee.kv), fee, [], n + 3);
      if verdict.None? then
        && |ran| == |txs| && step.receipts == ran && fee.kv <= Writes(ran)
        && step.view == Overlay(view, fee.kv) + Overlay(map[], Writes(ran))
      else step.view == Overlay(view, fee.kv) && Writes(step.receipts) == fee.kv && step.receipts[0].kv == fee.kv
  {
    hide Verdict, Overlay, Writes;
    var (err, fee) := FeeOf(env, txs[0], index, view, n + 2);
    var (verdict, ran) := Members(env, txs, index, Overlay(view, fee.kv), fee, [], n + 3);
    MembersGrow(env, txs, index, Overlay(view, fee.kv), fee, [], n + 3);
    if verdict.Some? {
      GroupFailedWrites(|txs|, fee, |ran|, verdict.value);
    }
  }

  lemma ItemFaithful(env: Env, txs: seq<Tx>, i: nat, index: int, view: map<Key, Value>, n: nat)
    requires i < |txs|
    ensures var step := ItemStep(env, txs, i, index, view, n);
      && (step.err.Some? ==> Aborts(step.err))
      && (step.err.None? ==>
            && |step.receipts| == Taken(env, txs, i) && Faithful(view, step.receipts, step.view)
            && Tells(view, Writes(step.receipts), step.view))
  {
    hide TxStep, GroupStep, Overlay, Tells;
    TellsNothing(view);
    var step := ItemStep(env, txs, i, index, view, n);
    if Refused(env, txs, i).Some? {
      WritesNothing(step.receipts);
      NothingWritten(view);
    } else if txs[i].groupCount == 0 {
      TxFaithful(env, txs[i], index, view, n);
    } else {
      GroupFaithful(env, txs[i..i + Taken(env, txs, i)], index, view, n);
    }
    if step.err.None? && forall r | r in step.receipts :: r.kv == [] {
      WritesNothing(step.receipts);
    }
    NothingWritten(view);
  }

  /** One receipt per transaction, and together the receipts tell how the state changed, if and only if no
      key that they erase is in the state afterwards; no key ever leaves the state. */
  lemma {:induction false} ListFaithful(env: Env, txs: seq<Tx>, i: nat, index: int, view: map<Key, Value>, n: nat)
    requires i <= |txs|
    ensures var run := ListRun(env, txs, i, index, view, n);
      && (run.err.Some? ==> Aborts(run.err))
      && (run.err.None? ==>
            && |run.receipts| == |txs| - i && Faithful(view, run.receipts, run.view)
            && Tells(view, Writes(run.receipts), run.view)
            && (run.view == Overlay(view, Writes(run.receipts)) <==> Erased(Writes(run.receipts)) !! run.view.Keys))
    decreases |txs| - i
  {
    hide ItemStep, Overlay, Faithful, Taken, Tells, Erased, Writes;
    NothingRan();
    if i == |txs| {
      NothingWritten(view);
      TellsNothing(view);
    } else {
      var step := ItemStep(env, txs, i, index, view, n);
      ItemFaithful(env, txs, i, index, view, n);
      if step.err.None? {
        var next, index' := i + Taken(env, txs, i), NextIndex(env, txs, i, index, view, n);
        ListFaithful(env, txs, next, index', step.view, step.calls);
        var rest := ListRun(env, txs, next, index', step.view, step.calls);
        if rest.err.None? {
          Extended(view, step.receipts, step.view, rest.receipts, rest.view);
          WritesConcat(step.receipts, rest.receipts);
          TellsConcat(view, Writes(step.receipts), step.view, Writes(rest.receipts), rest.view);
        }
      }
    }
    var run := ListRun(env, txs, i, index, view, n);
    if run.err.None? {
      TellsIff(view, Writes(run.receipts), run.view);
    }
  }
}
