/** What the steps of the execution decide, in terms of the checks, the drivers' runs and the permissions
    alone. */
module ExecutionLaws {
  import opened Options
  import opened StateDBs
  import opened ExecutionSpecs

  lemma {:induction false} SetKeysAre(calls: seq<Call>, k: Key)
    ensures k in SetKeys(calls) <==> exists c :: c in calls && c.SetCall? && c.key == k
  {
    if calls != [] {
      var last, rest := calls[|calls| - 1], calls[..|calls| - 1];
      SetKeysAre(rest, k);
      assert calls == rest + [last];
      assert last in calls;
    }
  }

  lemma ShownIff(calls: seq<Call>, kvs: seq<KeyValue>)
    ensures (forall c | c in calls && c.SetCall? :: exists kv :: kv in kvs && kv.key == c.key) <==>
      forall k | k in SetKeys(calls) :: k in KeysOf(kvs)
  {
    if forall k | k in SetKeys(calls) :: k in KeysOf(kvs) {
      forall c | c in calls && c.SetCall?
        ensures exists kv :: kv in kvs && kv.key == c.key
      {
        SetKeysAre(calls, c.key);
      }
    } else {
      var k :| k in SetKeys(calls) && k !in KeysOf(kvs);
      SetKeysAre(calls, k);
    }
  }

  /** A run succeeds if and only if the driver returns, its receipt shows every key that it has set and holds
      allowed keys only, and the local execution has no objection; the first thing amiss is the error. */
  lemma VerdictIs(env: Env, tx: Tx, index: int, x: Execution, n: nat)
    ensures var err := Verdict(env, tx, index, x, n);
      var kvs := if x.outcome.Returned? && x.outcome.receipt.Some? then x.outcome.receipt.value.kv else [];
      var shown := forall c | c in x.calls && c.SetCall? :: exists kv :: kv in kvs && kv.key == c.key;
      var allowed := forall kv | kv in kvs :: env.isAllowExec(kv.key, tx, index);
      && (err.None? <==> x.outcome.Returned? && shown && allowed && env.execLocalSameTime(tx, index, n).None?)
      && (x.outcome.Failed? ==> err == Some(x.outcome.err))
      && (x.outcome.Returned? && !shown ==> err == Some(NotAllowMemSetKey))
      && (x.outcome.Returned? && shown && !allowed ==> err == Some(NotAllowKey))
      && (x.outcome.Returned? && shown && allowed ==> err == env.execLocalSameTime(tx, index, n))
  {
    hide SetKeys, KeysOf;
    ShownIff(x.calls, WritesOf(x));
  }

  /** The run of a driver whose receipt holds a key that the transaction may not write. */
  ghost predicate Forbidden(env: Env, tx: Tx, index: int, x: Execution) {
    && x.outcome.Returned? && x.outcome.receipt.Some?
    && exists kv :: kv in x.outcome.receipt.value.kv && !env.isAllowExec(kv.key, tx, index)
  }

  lemma ForbiddenFails(env: Env, tx: Tx, index: int, x: Execution, n: nat)
    requires Forbidden(env, tx, index, x)
    ensures Verdict(env, tx, index, x, n).Some?
  {
    VerdictIs(env, tx, index, x, n);
  }

  /** When the checks pass and the fee is taken: on success the receipt is the fee's with the driver's behind
      it and the charged state is overlaid by it; otherwise the state stays at the charged one and the fee is
      the only write. */
  lemma TxOutcome(env: Env, tx: Tx, index: int, view: map<Key, Value>, n: nat)
    requires env.checkTx(tx, index, n + 1).None? && FeeOf(env, tx, index, view, n + 2).0.None?
    ensures var fee := FeeOf(env, tx, index, view, n + 2).1;
      var base := Overlay(view, fee.kv);
      var x := env.driver(tx, index, base, n + 3);
      var err := Verdict(env, tx, index, x, n + 3);
      var step := TxStep(env, tx, index, view, n);
      && (err.None? ==>
            && step.err.None? && step.receipts == [step.receipts[0]]
            && step.view == base + Overlay(map[], step.receipts[0].kv)
            && (x.outcome.receipt.None? ==> step.receipts[0] == fee)
            && (x.outcome.receipt.Some? ==>
                  var r := x.outcome.receipt.value;
                  step.receipts[0] == Receipt(r.ty, fee.kv + r.kv, fee.logs + r.logs)))
      && (err.Some? ==>
            && step.view == base
            && (if Aborts(err) then step.err == err && step.receipts == []
                else step.err.None? && step.receipts == [fee.(logs := fee.logs + [ErrLog(err.value)])]))
      && (Forbidden(env, tx, index, x) ==> err.Some?)
  {
    hide Overlay;
    var fee := FeeOf(env, tx, index, view, n + 2).1;
    var x := env.driver(tx, index, Overlay(view, fee.kv), n + 3);
    VerdictIs(env, tx, index, x, n + 3);
  }

  /** A receipt with a forbidden key leaves the charged state, with the fee as the only write. */
  lemma ForbiddenTx(env: Env, tx: Tx, index: int, view: map<Key, Value>, n: nat)
    requires env.checkTx(tx, index, n + 1).None? && FeeOf(env, tx, index, view, n + 2).0.None?
    requires var base := Overlay(view, FeeOf(env, tx, index, view, n + 2).1.kv);
      Forbidden(env, tx, index, env.driver(tx, index, base, n + 3))
    ensures var step := TxStep(env, tx, index, view, n);
      && step.view == Overlay(view, FeeOf(env, tx, index, view, n + 2).1.kv)
      && (step.err.None? ==> Writes(step.receipts) == FeeOf(env, tx, index, view, n + 2).1.kv)
  {
    hide Verdict, Overlay, FeeOf;
    TxOutcome(env, tx, index, view, n);
    var step := TxStep(env, tx, index, view, n);
    if step.err.None? {
      WritesOne(step.receipts[0]);
    }
  }

  /** A transaction that fails its check or cannot pay changes nothing. */
  lemma TxRefused(env: Env, tx: Tx, index: int, view: map<Key, Value>, n: nat)
    ensures var step := TxStep(env, tx, index, view, n);
      && (env.checkTx(tx, index, n + 1).Some? ==> step.err == env.checkTx(tx, index, n + 1) && step.view == view)
      && (env.checkTx(tx, index, n + 1).None? && FeeOf(env, tx, index, view, n + 2).0.Some? ==>
            step.err == FeeOf(env, tx, index, view, n + 2).0 && step.view == view)
  {}

  /** The run of member `k` of a group on the charged state overlaid by what the members before it wrote. */
  ghost function MemberRun(env: Env, txs: seq<Tx>, index: int, base: map<Key, Value>, before: seq<Receipt>, n: nat)
    : Execution
    requires |before| < |txs|
  {
    var k := |before|;
    env.driver(txs[k], index + k, base + Overlay(map[], Writes(before)), n + k)
  }

  /** The receipt of a member that succeeds: the driver's behind the first one. */
  ghost predicate ReceiptOf(receipt: Receipt, first: Receipt, x: Execution) {
    && x.outcome.Returned?
    && (if x.outcome.receipt.None? then receipt == first
        else
          var r := x.outcome.receipt.value;
          receipt == Receipt(r.ty, first.kv + r.kv, first.logs + r.logs))
  }

  lemma MergedIs(env: Env, tx: Tx, index: int, x: Execution, n: nat, first: Receipt)
    requires Verdict(env, tx, index, x, n).None?
    ensures ReceiptOf(Merged(first, x), first, x)
  {}

  /** The members run in order until one fails; the receipt of each is the driver's, for the first one behind
      the fee's. */
  lemma {:induction false} MembersRun(env: Env, txs: seq<Tx>, index: int, base: map<Key, Value>, fee: Receipt,
                                      ran: seq<Receipt>, n: nat, k: nat)
    requires |ran| <= |txs|
    ensures var (err, all) := Members(env, txs, index, base, fee, ran, n);
      && ran <= all && |all| <= |txs| && (err.None? <==> |all| == |txs|)
      && (|ran| <= k < |all| ==>
            var x := MemberRun(env, txs, index, base, all[..k], n);
            && Verdict(env, txs[k], index + k, x, n + k).None?
            && ReceiptOf(all[k], if k == 0 then fee else EMPTY_PACK, x))
      && (err.Some? ==>
            err == Verdict(env, txs[|all|], index + |all|, MemberRun(env, txs, index, base, all, n), n + |all|))
    decreases |txs| - |ran|
  {
    hide Overlay, Writes, Verdict, Merged, ReceiptOf;
    var j := |ran|;
    if j < |txs| {
      var x := MemberRun(env, txs, index, base, ran, n);
      if Verdict(env, txs[j], index + j, x, n + j).None? {
        var first := if j == 0 then fee else EMPTY_PACK;
        var ran' := ran + [Merged(first, x)];
        MergedIs(env, txs[j], index + j, x, n + j, first);
        MembersRun(env, txs, index, base, fee, ran', n, k);
        var all := Members(env, txs, index, base, fee, ran', n).1;
        assert all[..j] == ran && all[j] == ran'[j];
      }
    }
  }

  /** A group takes effect if and only if every member succeeds; otherwise the state stays at the charged one,
      the fee is the only write, and the first member that fails has an error log. */
  lemma GroupOutcome(env: Env, txs: seq<Tx>, index: int, view: map<Key, Value>, n: nat)
    requires txs != []
    requires env.checkTxGroup(txs, index, n + 1).None? && FeeOf(env, txs[0], index, view, n + 2).0.None?
    ensures var fee := FeeOf(env, txs[0], index, view, n + 2).1;
      var base := Overlay(view, fee.kv);
      var (err, ran) := Members(env, txs, index, base, fee, [], n + 3);
      var step := GroupStep(env, txs, index, view, n);
      && (err.None? <==> |ran| == |txs|)
      && (err.None? ==>
            step.err.None? && step.receipts == ran && step.view == base + Overlay(map[], Writes(ran)))
      && (err.Some? ==>
            && step.view == base
            && (if Aborts(err) then step.err == err && step.receipts == []
                else
                  && step.err.None? && |step.receipts| == |txs| && Writes(step.receipts) == fee.kv
                  && forall i | 0 <= i < |txs| ::
                       var first := if i == 0 then fee else Receipt(EXEC_PACK, [], []);
                       step.receipts[i] == if i == |ran| then first.(logs := first.logs + [ErrLog(err.value)])
                                           else first))
  {
    hide Verdict, Overlay, Writes, Members, FeeOf;
    var fee := FeeOf(env, txs[0], index, view, n + 2).1;
    var (err, ran) := Members(env, txs, index, Overlay(view, fee.kv), fee, [], n + 3);
    MembersRun(env, txs, index, Overlay(view, fee.kv), fee, [], n + 3, 0);
    if err.Some? && !Aborts(err) {
      GroupFailedWrites(|txs|, fee, |ran|, err.value);
    }
  }

  /** A member whose receipt holds a forbidden key, run on what the members before it wrote, leaves the charged
      state, with the fee of the first member as the only write. */
  lemma ForbiddenMember(env: Env, txs: seq<Tx>, index: int, view: map<Key, Value>, n: nat, k: nat)
    requires txs != []
    requires env.checkTxGroup(txs, index, n + 1).None? && FeeOf(env, txs[0], index, view, n + 2).0.None?
    requires var fee := FeeOf(env, txs[0], index, view, n + 2).1;
      var base := Overlay(view, fee.kv);
      var ran := Members(env, txs, index, base, fee, [], n + 3).1;
      && k <= |ran| && k < |txs|
      && Forbidden(env, txs[k], index + k, MemberRun(env, txs, index, base, ran[..k], n + 3))
    ensures var step := GroupStep(env, txs, index, view, n);
      && step.view == Overlay(view, FeeOf(env, txs[0], index, view, n + 2).1.kv)
      && (step.err.None? ==> Writes(step.receipts) == FeeOf(env, txs[0], index, view, n + 2).1.kv)
  {
    hide Verdict, Overlay, Writes, Members, FeeOf, GroupStep;
    var fee := FeeOf(env, txs[0], index, view, n + 2).1;
    var base := Overlay(view, fee.kv);
    var (err, ran) := Members(env, txs, index, base, fee, [], n + 3);
    MembersRun(env, txs, index, base, fee, [], n + 3, k);
    ForbiddenFails(env, txs[k], index + k, MemberRun(env, txs, index, base, ran[..k], n + 3), n + 3 + k);
    GroupOutcome(env, txs, index, view, n);
  }

  lemma GroupRefused(env: Env, txs: seq<Tx>, index: int, view: map<Key, Value>, n: nat)
    requires txs != []
    ensures var step := GroupStep(env, txs, index, view, n);
      && (env.checkTxGroup(txs, index, n + 1).Some? ==>
            step.err == env.checkTxGroup(txs, index, n + 1) && step.view == view)
      && (env.checkTxGroup(txs, index, n + 1).None? && FeeOf(env, txs[0], index, view, n + 2).0.Some? ==>
            step.err == FeeOf(env, txs[0], index, view, n + 2).0 && step.view == view)
  {}

  /** A transaction starts alone, or as the head of a group of 2 to 20 that is supported and lies within the
      list. */
  lemma RefusedIff(env: Env, txs: seq<Tx>, i: nat)
    requires i < |txs|
    ensures var count, refused := txs[i].groupCount, Refused(env, txs, i);
      && (refused.None? <==> count == 0 || (2 <= count <= 20 && env.forkTxGroup && i + count <= |txs|))
      && (refused.Some? ==>
            refused == Some(if 2 <= count <= 20 && !env.forkTxGroup then TxGroupNotSupport else TxGroupCount))
      && Taken(env, txs, i) == if refused.None? && count >= 2 then count else 1
  {}

  /** The step that a list takes at `i`: alone, as a group, or not at all.  The index that the next driver gets
      grows by the transactions that were executed; a refused item leaves the state, the index and one error
      receipt for each of its transactions. */
  lemma ItemOutcome(env: Env, txs: seq<Tx>, i: nat, index: int, view: map<Key, Value>, n: nat)
    requires i < |txs|
    ensures var count := txs[i].groupCount;
      var step, index' := ItemStep(env, txs, i, index, view, n), NextIndex(env, txs, i, index, view, n);
      if count != 0 && !(2 <= count <= 20 && env.forkTxGroup && i + count <= |txs|) then
        && step.err.None? && step.view == view && index' == index && |step.receipts| == 1
        && step.receipts[0].ty == 0 && step.receipts[0].kv == []
      else
        var k := if count == 0 then 1 else count;
        var done := if count == 0 then TxStep(env, txs[i], index, view, n)
                    else GroupStep(env, txs[i..i + count], index, view, n);
        && (done.err.None? ==> step == done && |step.receipts| == k && index' == index + |step.receipts|)
        && (Aborts(done.err) ==> step.err == done.err)
        && (done.err.Some? && !Aborts(done.err) ==>
              && step.err.None? && step.view == view && index' == index && |step.receipts| == k
              && forall r | r in step.receipts :: r == Receipt(0, [], [ErrLog(done.err.value)]))
  {
    hide TxStep, GroupStep;
    RefusedIff(env, txs, i);
    if Refused(env, txs, i).None? {
      var k := Taken(env, txs, i);
      if txs[i].groupCount == 0 {
        TxFaithful(env, txs[i], index, view, n);
      } else {
        GroupFaithful(env, txs[i..i + k], index, view, n);
      }
    }
  }
}
