/** What the operations of account/account.go, account/execaccount.go and account/genesis.go mean:
    a check, and postings to the accounts of one store. */
module Ledgers {
  import opened Accounts
  import opened Int64s
  import opened Options

  /** The main account of an address, and the account of an address inside a contract. */
  datatype Key = Main(addr: string) | Exec(addr: string, execaddr: string)

  type Store = map<Key, Account>

  const MAX_COIN := 100_000_000_000_000_000
  const MAX_TOKEN_BALANCE := 900 * 100_000_000 * 100_000_000

  predicate CheckAmount(amount: int) {
    0 < amount < MAX_COIN
  }

  datatype Error =
    | Amount
    | NoBalance
    | SendSameToRecv
    | NotAllowDeposit
    | Panicked

  datatype Op =
    | Transfer(sender: string, to: string, amount: int)
    | TransferToExec(sender: string, to: string, amount: int)
    | TransferWithdraw(sender: string, to: string, amount: int)
    | ExecFrozen(addr: string, execaddr: string, amount: int)
    | ExecActive(addr: string, execaddr: string, amount: int)
    | ExecTransfer(sender: string, to: string, execaddr: string, amount: int)
    | ExecTransferFrozen(sender: string, to: string, execaddr: string, amount: int)
    | ExecIssueCoins(execaddr: string, amount: int)
    | ExecDepositFrozen(addr: string, execaddr: string, amount: int)
    | Mint(addr: string, amount: int)
    | Burn(addr: string, amount: int)
    | GenesisInit(addr: string, amount: int)
    | GenesisInitExec(addr: string, execaddr: string, amount: int)

  /** The stored account, or an empty one. */
  function Load(db: Store, key: Key): Account {
    if key in db then db[key] else Account(0, 0, key.addr)
  }

  /** A change of balance and frozen amount. */
  datatype Posting = Posting(key: Key, balance: int, frozen: int)

  /** int64 addition on both amounts. */
  function Adjusted(acc: Account, p: Posting): Account {
    acc.(balance := Wrap(acc.balance + p.balance), frozen := Wrap(acc.frozen + p.frozen))
  }

  function Adjust(db: Store, p: Posting): Store {
    db[p.key := Adjusted(Load(db, p.key), p)]
  }

  function Post(db: Store, ps: seq<Posting>): Store {
    if ps == [] then db else Adjust(Post(db, ps[..|ps| - 1]), ps[|ps| - 1])
  }

  /** What an operation that passes its checks does. */
  function Postings(op: Op): seq<Posting> {
    match op
    case Transfer(sender, to, amount) =>
      [Posting(Main(sender), -amount, 0), Posting(Main(to), amount, 0)]
    case TransferToExec(sender, to, amount) =>
      [Posting(Main(sender), -amount, 0), Posting(Main(to), amount, 0), Posting(Exec(sender, to), amount, 0)]
    case TransferWithdraw(sender, to, amount) =>
      [Posting(Exec(sender, to), -amount, 0), Posting(Main(to), -amount, 0), Posting(Main(sender), amount, 0)]
    case ExecFrozen(addr, execaddr, amount) =>
      [Posting(Exec(addr, execaddr), -amount, amount)]
    case ExecActive(addr, execaddr, amount) =>
      [Posting(Exec(addr, execaddr), amount, -amount)]
    case ExecTransfer(sender, to, execaddr, amount) =>
      [Posting(Exec(sender, execaddr), -amount, 0), Posting(Exec(to, execaddr), amount, 0)]
    case ExecTransferFrozen(sender, to, execaddr, amount) =>
      [Posting(Exec(sender, execaddr), 0, -amount), Posting(Exec(to, execaddr), amount, 0)]
    case ExecIssueCoins(execaddr, amount) =>
      [Posting(Main(execaddr), amount, 0)]
    case ExecDepositFrozen(addr, execaddr, amount) =>
      [Posting(Main(execaddr), amount, 0), Posting(Exec(addr, execaddr), 0, amount)]
    case Mint(addr, amount) =>
      [Posting(Main(addr), amount, 0)]
    case Burn(addr, amount) =>
      [Posting(Main(addr), -amount, 0)]
    case GenesisInit(addr, amount) =>
      [Posting(Main(addr), amount, 0)]
    case GenesisInitExec(addr, execaddr, amount) =>
      [Posting(Main(execaddr), amount, 0), Posting(Exec(addr, execaddr), amount, 0)]
  }

  /** The test of safeAdd, in int64 arithmetic. */
  predicate Unsafe(balance: int, amount: int) {
    Wrap(balance + amount) < amount || Wrap(balance + amount) > MAX_TOKEN_BALANCE
  }

  predicate Short(amount: int, wanted: int) {
    Wrap(amount - wanted) < 0
  }

  function CheckSend(db: Store, sender: string, to: string, amount: int): Option<Error> {
    if !CheckAmount(amount) then Some(Amount)
    else if sender == to then Some(SendSameToRecv)
    else if Short(Load(db, Main(sender)).balance, amount) then Some(NoBalance)
    else None
  }

  function CheckIssue(miners: seq<string>, execaddr: string, amount: int): Option<Error> {
    if execaddr !in miners then Some(NotAllowDeposit)
    else if !CheckAmount(amount) then Some(Amount)
    else None
  }

  /** The error an operation returns, in the order of its checks; `miners` are the addresses of the
      contracts that may issue coins. */
  function Check(db: Store, miners: seq<string>, op: Op): Option<Error> {
    match op
    case Transfer(sender, to, amount) =>
      CheckSend(db, sender, to, amount)
    case TransferToExec(sender, to, amount) =>
      CheckSend(db, sender, to, amount)
    case TransferWithdraw(sender, to, amount) =>
      if !CheckAmount(amount) then Some(Amount)
      else if Short(Load(db, Main(to)).balance, amount) then Some(NoBalance)
      else if sender == to then Some(SendSameToRecv)
      else if Short(Load(db, Exec(sender, to)).balance, amount) then Some(NoBalance)
      else None
    case ExecFrozen(addr, execaddr, amount) =>
      if addr == execaddr then Some(SendSameToRecv)
      else if !CheckAmount(amount) then Some(Amount)
      else if Short(Load(db, Exec(addr, execaddr)).balance, amount) then Some(NoBalance)
      else None
    case ExecActive(addr, execaddr, amount) =>
      if addr == execaddr then Some(SendSameToRecv)
      else if !CheckAmount(amount) then Some(Amount)
      else if Short(Load(db, Exec(addr, execaddr)).frozen, amount) then Some(NoBalance)
      else None
    case ExecTransfer(sender, to, execaddr, amount) =>
      if sender == to then Some(SendSameToRecv)
      else if !CheckAmount(amount) then Some(Amount)
      else if Short(Load(db, Exec(sender, execaddr)).balance, amount) then Some(NoBalance)
      else None
    case ExecTransferFrozen(sender, to, execaddr, amount) =>
      if sender == to then Some(SendSameToRecv)
      else if !CheckAmount(amount) then Some(Amount)
      else if Short(Load(db, Exec(sender, execaddr)).frozen, amount) then Some(NoBalance)
      else None
    case ExecIssueCoins(execaddr, amount) =>
      CheckIssue(miners, execaddr, amount)
    case ExecDepositFrozen(addr, execaddr, amount) =>
      if addr == execaddr then Some(SendSameToRecv) else CheckIssue(miners, execaddr, amount)
    case Mint(addr, amount) =>
      if !CheckAmount(amount) || Unsafe(Load(db, Main(addr)).balance, amount) then Some(Amount)
      else None
    case Burn(addr, amount) =>
      if !CheckAmount(amount) then Some(Amount)
      else if Load(db, Main(addr)).balance < amount then Some(NoBalance)
      else None
    case GenesisInit(addr, amount) =>
      if Unsafe(Load(db, Main(addr)).balance, amount) then Some(Amount) else None
    case GenesisInitExec(addr, execaddr, amount) =>
      if Unsafe(Load(db, Main(execaddr)).balance, amount) then Some(Amount)
      else if addr == execaddr || !CheckAmount(amount) then Some(Panicked)
      else None
  }

  /** The store after the operation.  Only a genesis deposit that panics leaves a trace. */
  function Next(db: Store, miners: seq<string>, op: Op): Store {
    match Check(db, miners, op)
    case None => Post(db, Postings(op))
    case Some(Panicked) => Post(db, Postings(op)[..1])
    case Some(_) => db
  }

  // Sums over the store.

  /** The main accounts, or the accounts inside one contract. */
  datatype Bucket = MainAccounts | Inside(execaddr: string)

  function Weight(b: Bucket, key: Key, acc: Account): int {
    match b
    case MainAccounts => if key.Main? then acc.balance else 0
    case Inside(e) => if key.Exec? && key.execaddr == e then acc.balance + acc.frozen else 0
  }

  ghost function Pick(db: Store): Key
    requires db != map[]
    ensures Pick(db) in db
  {
    var k :| k in db;
    k
  }

  lemma Fewer(db: Store, k: Key)
    requires k in db
    ensures |db - {k}| == |db| - 1
  {
    assert (db - {k}).Keys == db.Keys - {k};
  }

  ghost function Sum(b: Bucket, db: Store): int
    decreases |db|
  {
    if db == map[] then 0
    else
      var k := Pick(db);
      Fewer(db, k);
      Weight(b, k, db[k]) + Sum(b, db - {k})
  }

  lemma {:induction false} SumRemove(b: Bucket, db: Store, k: Key)
    requires k in db
    ensures Sum(b, db) == Weight(b, k, db[k]) + Sum(b, db - {k})
    decreases |db|
  {
    var p := Pick(db);
    Fewer(db, p);
    if p != k {
      SumRemove(b, db - {p}, k);
      assert db - {p} - {k} == db - {k} - {p};
      Fewer(db, k);
      SumRemove(b, db - {k}, p);
    }
  }

  lemma SumSet(b: Bucket, db: Store, k: Key, acc: Account)
    ensures Sum(b, db[k := acc]) == Sum(b, db) - Weight(b, k, Load(db, k)) + Weight(b, k, acc)
  {
    SumRemove(b, db[k := acc], k);
    assert db[k := acc] - {k} == db - {k};
    if k in db {
      SumRemove(b, db, k);
    } else {
      assert db - {k} == db;
    }
  }

  /** No account is in debt. */
  ghost predicate NonNegative(db: Store) {
    forall k | k in db :: 0 <= db[k].balance && 0 <= db[k].frozen
  }

  lemma {:induction false} SumNonNegative(b: Bucket, db: Store)
    requires NonNegative(db)
    ensures 0 <= Sum(b, db)
    decreases |db|
  {
    if db != map[] {
      var k := Pick(db);
      Fewer(db, k);
      SumNonNegative(b, db - {k});
    }
  }

  lemma SumOfOne(b: Bucket, db: Store, k: Key)
    requires NonNegative(db)
    ensures Weight(b, k, Load(db, k)) <= Sum(b, db)
  {
    SumNonNegative(b, db);
    if k in db {
      SumRemove(b, db, k);
      SumNonNegative(b, db - {k});
    }
  }

  lemma SumOfTwo(b: Bucket, db: Store, k: Key, k': Key)
    requires NonNegative(db) && k != k'
    ensures Weight(b, k, Load(db, k)) + Weight(b, k', Load(db, k')) <= Sum(b, db)
  {
    if k in db {
      SumRemove(b, db, k);
      SumOfOne(b, db - {k}, k');
    } else {
      SumOfOne(b, db, k');
    }
  }

  // Postings without wrap-around.

  /** The account can take the posting: both amounts stay in 0..2^63-1. */
  predicate Fits(db: Store, p: Posting) {
    var acc := Load(db, p.key);
    0 <= acc.balance + p.balance <= MAX_INT64 && 0 <= acc.frozen + p.frozen <= MAX_INT64
  }

  ghost function Effect(b: Bucket, p: Posting): int {
    match b
    case MainAccounts => if p.key.Main? then p.balance else 0
    case Inside(e) => if p.key.Exec? && p.key.execaddr == e then p.balance + p.frozen else 0
  }

  ghost function Net(b: Bucket, ps: seq<Posting>): int {
    if ps == [] then 0 else Net(b, ps[..|ps| - 1]) + Effect(b, ps[|ps| - 1])
  }

  /** Every posting fits, one after the other: no addition wraps. */
  ghost predicate AllFit(db: Store, ps: seq<Posting>) {
    ps != [] ==> AllFit(db, ps[..|ps| - 1]) && Fits(Post(db, ps[..|ps| - 1]), ps[|ps| - 1])
  }

  lemma SumAdjust(b: Bucket, db: Store, p: Posting)
    requires Fits(db, p)
    ensures Sum(b, Adjust(db, p)) == Sum(b, db) + Effect(b, p)
  {
    SumSet(b, db, p.key, Adjusted(Load(db, p.key), p));
  }

  /** Double-entry bookkeeping: without wrap-around a bucket changes by the net of the postings. */
  lemma {:induction false} SumPost(b: Bucket, db: Store, ps: seq<Posting>)
    requires AllFit(db, ps)
    ensures Sum(b, Post(db, ps)) == Sum(b, db) + Net(b, ps)
  {
    if ps != [] {
      SumPost(b, db, ps[..|ps| - 1]);
      SumAdjust(b, Post(db, ps[..|ps| - 1]), ps[|ps| - 1]);
    }
  }

  ghost predicate Distinct(ps: seq<Posting>) {
    forall i, j | 0 <= i < j < |ps| :: ps[i].key != ps[j].key
  }

  lemma {:induction false} PostElsewhere(db: Store, ps: seq<Posting>, k: Key)
    requires forall p | p in ps :: p.key != k
    ensures Load(Post(db, ps), k) == Load(db, k) && (k in Post(db, ps) <==> k in db)
  {
    if ps != [] {
      PostElsewhere(db, ps[..|ps| - 1], k);
    }
  }

  /** A posting that fits changes its account by exactly its amounts. */
  lemma {:induction false} PostThere(db: Store, ps: seq<Posting>, i: nat)
    requires Distinct(ps) && i < |ps| && Fits(db, ps[i])
    ensures ps[i].key in Post(db, ps)
    ensures var acc, p := Load(db, ps[i].key), ps[i];
      Load(Post(db, ps), p.key) == acc.(balance := acc.balance + p.balance, frozen := acc.frozen + p.frozen)
  {
    var n := |ps| - 1;
    if i < n {
      PostThere(db, ps[..n], i);
    } else {
      PostElsewhere(db, ps[..n], ps[i].key);
    }
  }

  /** Postings to different accounts that each fit also fit one after the other. */
  lemma {:induction false} AllFitIf(db: Store, ps: seq<Posting>)
    requires Distinct(ps) && forall p | p in ps :: Fits(db, p)
    ensures AllFit(db, ps)
  {
    if ps != [] {
      var n := |ps| - 1;
      AllFitIf(db, ps[..n]);
      PostElsewhere(db, ps[..n], ps[n].key);
      assert ps[n] in ps;
    }
  }

  // The invariant.

  /** Accounts sit under their own address and hold int64 amounts. */
  ghost predicate WellKeyed(db: Store) {
    forall k | k in db :: db[k].addr == k.addr && Int64(db[k].balance) && Int64(db[k].frozen)
  }

  /** The main balance of every contract covers the balances and frozen amounts inside it. */
  ghost predicate Solvent(db: Store, contracts: set<string>) {
    forall e | e in contracts :: Sum(Inside(e), db) <= Load(db, Main(e)).balance
  }

  ghost predicate Good(db: Store, contracts: set<string>) {
    && WellKeyed(db) && NonNegative(db) && Solvent(db, contracts)
    && Sum(MainAccounts, db) <= MAX_INT64
    && forall k | k in db && k.Exec? :: k.execaddr in contracts
  }

  lemma GoodInitially(contracts: set<string>)
    ensures Good(map[], contracts)
  {}

  /** Only contracts hold accounts of others, and genesis amounts are valid. */
  predicate Regular(op: Op, contracts: set<string>) {
    match op
    case TransferToExec(_, to, _) => to in contracts
    case TransferWithdraw(_, to, _) => to in contracts
    case ExecFrozen(_, e, _) => e in contracts
    case ExecActive(_, e, _) => e in contracts
    case ExecTransfer(_, _, e, _) => e in contracts
    case ExecTransferFrozen(_, _, e, _) => e in contracts
    case ExecDepositFrozen(_, e, _) => e in contracts
    case GenesisInit(_, amount) => 0 <= amount
    case GenesisInitExec(addr, e, amount) => e in contracts && addr != e && CheckAmount(amount)
    case _ => true
  }

  /** Whose main balance shrinks without a matching entry inside it. */
  function Payer(op: Op): Option<string> {
    match op
    case Transfer(sender, _, _) => Some(sender)
    case TransferToExec(sender, _, _) => Some(sender)
    case Burn(addr, _) => Some(addr)
    case _ => None
  }

  predicate PayerOutside(op: Op, contracts: set<string>) {
    Payer(op).Some? ==> Payer(op).value !in contracts
  }

  /** If a contract pays, what it has left covers the accounts inside it. */
  ghost predicate CanPay(db: Store, contracts: set<string>, op: Op) {
    Payer(op).Some? && Payer(op).value in contracts ==>
      Sum(Inside(Payer(op).value), db) + op.amount <= Load(db, Main(Payer(op).value)).balance
  }

  /** The coins an operation brings into being. */
  function Issued(op: Op): int {
    match op
    case ExecIssueCoins(_, amount) => amount
    case ExecDepositFrozen(_, _, amount) => amount
    case Mint(_, amount) => amount
    case Burn(_, amount) => -amount
    case GenesisInit(_, amount) => amount
    case GenesisInitExec(_, _, amount) => amount
    case _ => 0
  }

  /** An account inside a contract is covered by the contract's main balance, which is covered by the
      total. */
  lemma Covered(db: Store, contracts: set<string>, k: Key)
    requires Good(db, contracts)
    ensures 0 <= Load(db, k).balance <= MAX_INT64 && 0 <= Load(db, k).frozen <= MAX_INT64
    ensures k.Main? ==> Load(db, k).balance <= Sum(MainAccounts, db)
    ensures k.Exec? && k.execaddr in contracts ==>
      Load(db, k).balance + Load(db, k).frozen <= Sum(Inside(k.execaddr), db) <= Load(db, Main(k.execaddr)).balance
  {
    if k.Main? {
      SumOfOne(MainAccounts, db, k);
    } else {
      SumOfOne(Inside(k.execaddr), db, k);
      SumOfOne(MainAccounts, db, Main(k.execaddr));
    }
  }

  /** On amounts in range the int64 comparisons are the mathematical ones. */
  lemma Exact(amount: int, wanted: int)
    requires 0 <= amount <= MAX_INT64 && CheckAmount(wanted)
    ensures Short(amount, wanted) <==> amount < wanted
  {}

  lemma SendFits(db: Store, contracts: set<string>, sender: string, to: string, amount: int)
    requires Good(db, contracts) && CheckAmount(amount) && sender != to
    requires !Short(Load(db, Main(sender)).balance, amount)
    ensures Fits(db, Posting(Main(sender), -amount, 0)) && Fits(db, Posting(Main(to), amount, 0))
  {
    hide Sum, WellKeyed, Solvent, Wrap;
    Covered(db, contracts, Main(sender));
    Covered(db, contracts, Main(to));
    Exact(Load(db, Main(sender)).balance, amount);
    SumOfTwo(MainAccounts, db, Main(sender), Main(to));
  }

  /** Moving an amount between two accounts of one contract, or within one. */
  lemma InsideFits(db: Store, contracts: set<string>, sender: string, to: string, e: string, amount: int)
    requires Good(db, contracts) && CheckAmount(amount) && e in contracts
    ensures !Short(Load(db, Exec(sender, e)).balance, amount) ==>
      && Fits(db, Posting(Exec(sender, e), -amount, 0)) && Fits(db, Posting(Exec(sender, e), -amount, amount))
      && (sender != to ==> Fits(db, Posting(Exec(to, e), amount, 0)))
    ensures !Short(Load(db, Exec(sender, e)).frozen, amount) ==>
      && Fits(db, Posting(Exec(sender, e), 0, -amount)) && Fits(db, Posting(Exec(sender, e), amount, -amount))
      && (sender != to ==> Fits(db, Posting(Exec(to, e), amount, 0)))
  {
    hide Sum, WellKeyed, Solvent, Wrap;
    Covered(db, contracts, Exec(sender, e));
    Covered(db, contracts, Exec(to, e));
    Covered(db, contracts, Main(e));
    Exact(Load(db, Exec(sender, e)).balance, amount);
    Exact(Load(db, Exec(sender, e)).frozen, amount);
    if sender != to {
      SumOfTwo(Inside(e), db, Exec(sender, e), Exec(to, e));
    }
  }

  /** What was sent to a contract may enter an account inside it. */
  lemma DepositFits(db: Store, contracts: set<string>, addr: string, e: string, amount: int)
    requires Good(db, contracts) && 0 <= amount && e in contracts && Fits(db, Posting(Main(e), amount, 0))
    ensures Fits(db, Posting(Exec(addr, e), amount, 0)) && Fits(db, Posting(Exec(addr, e), 0, amount))
  {
    hide Sum, WellKeyed, Solvent;
    Covered(db, contracts, Exec(addr, e));
  }

  lemma BurnFits(db: Store, contracts: set<string>, addr: string, amount: int)
    requires Good(db, contracts) && 0 <= amount <= Load(db, Main(addr)).balance
    ensures Fits(db, Posting(Main(addr), -amount, 0))
  {
    hide Sum, WellKeyed, Solvent;
    Covered(db, contracts, Main(addr));
  }

  /** New coins, which may also enter an account inside a contract. */
  lemma NewFits(db: Store, contracts: set<string>, addr: string, e: string, amount: int)
    requires Good(db, contracts) && 0 <= amount && Sum(MainAccounts, db) + amount <= MAX_INT64
    ensures Fits(db, Posting(Main(e), amount, 0))
    ensures e in contracts ==>
      Fits(db, Posting(Exec(addr, e), amount, 0)) && Fits(db, Posting(Exec(addr, e), 0, amount))
  {
    hide Sum, WellKeyed, Solvent;
    Covered(db, contracts, Main(e));
    if e in contracts {
      DepositFits(db, contracts, addr, e, amount);
    }
  }

  /** No addition of an operation that passes its checks wraps around. */
  lemma OpFits(db: Store, contracts: set<string>, miners: seq<string>, op: Op)
    requires Good(db, contracts) && Regular(op, contracts) && Check(db, miners, op).None?
    requires Sum(MainAccounts, db) + Issued(op) <= MAX_INT64
    ensures Distinct(Postings(op)) && forall p | p in Postings(op) :: Fits(db, p)
  {
    hide Good, Sum, Short, Fits, Unsafe;
    match op
    case Transfer(sender, to, amount) => SendFits(db, contracts, sender, to, amount);
    case TransferToExec(sender, to, amount) =>
      SendFits(db, contracts, sender, to, amount);
      DepositFits(db, contracts, sender, to, amount);
    case TransferWithdraw(sender, to, amount) =>
      SendFits(db, contracts, to, sender, amount);
      InsideFits(db, contracts, sender, sender, to, amount);
    case ExecFrozen(addr, e, amount) => InsideFits(db, contracts, addr, addr, e, amount);
    case ExecActive(addr, e, amount) => InsideFits(db, contracts, addr, addr, e, amount);
    case ExecTransfer(sender, to, e, amount) => InsideFits(db, contracts, sender, to, e, amount);
    case ExecTransferFrozen(sender, to, e, amount) => InsideFits(db, contracts, sender, to, e, amount);
    case ExecIssueCoins(e, amount) => NewFits(db, contracts, e, e, amount);
    case ExecDepositFrozen(addr, e, amount) => NewFits(db, contracts, addr, e, amount);
    case Mint(addr, amount) => NewFits(db, contracts, addr, addr, amount);
    case Burn(addr, amount) => BurnFits(db, contracts, addr, amount);
    case GenesisInit(addr, amount) => NewFits(db, contracts, addr, addr, amount);
    case GenesisInitExec(addr, e, amount) => NewFits(db, contracts, addr, e, amount);
  }

  lemma NetOne(b: Bucket, p: Posting)
    ensures Net(b, [p]) == Effect(b, p)
  {}

  lemma NetTwo(b: Bucket, p: Posting, q: Posting)
    ensures Net(b, [p, q]) == Effect(b, p) + Effect(b, q)
  {
    assert [p, q][..1] == [p];
    NetOne(b, p);
  }

  lemma NetThree(b: Bucket, p: Posting, q: Posting, r: Posting)
    ensures Net(b, [p, q, r]) == Effect(b, p) + Effect(b, q) + Effect(b, r)
  {
    assert [p, q, r][..2] == [p, q];
    NetTwo(b, p, q);
  }

  ghost function NetOf(b: Bucket, op: Op): int {
    var ps := Postings(op);
    match |ps|
    case 1 => Effect(b, ps[0])
    case 2 => Effect(b, ps[0]) + Effect(b, ps[1])
    case _ => Effect(b, ps[0]) + Effect(b, ps[1]) + Effect(b, ps[2])
  }

  lemma NetIs(b: Bucket, op: Op)
    ensures Net(b, Postings(op)) == NetOf(b, op)
  {
    hide Net, Effect;
    var ps := Postings(op);
    match |ps| {
      case 1 => NetOne(b, ps[0]); assert ps == [ps[0]];
      case 2 => NetTwo(b, ps[0], ps[1]); assert ps == [ps[0], ps[1]];
      case _ => NetThree(b, ps[0], ps[1], ps[2]); assert ps == [ps[0], ps[1], ps[2]];
    }
  }

  /** The main total changes by the issued amount. */
  lemma NetMain(op: Op)
    ensures NetOf(MainAccounts, op) == Issued(op)
  {}

  /** What enters a contract's books also enters its main account, and only the payer loses more. */
  lemma NetInside(db: Store, contracts: set<string>, miners: seq<string>, op: Op, e: string)
    requires Regular(op, contracts) && Check(db, miners, op).None? && e in contracts
    requires Distinct(Postings(op)) && forall p | p in Postings(op) :: Fits(db, p)
    ensures var change := Load(Post(db, Postings(op)), Main(e)).balance - Load(db, Main(e)).balance;
      if Payer(op) == Some(e) then NetOf(Inside(e), op) == 0 && change == -op.amount
      else NetOf(Inside(e), op) <= change
  {
    hide Wrap, Post;
    var ps := Postings(op);
    if p :| p in ps && p.key == Main(e) {
      var i :| 0 <= i < |ps| && ps[i] == p;
      PostThere(db, ps, i);
    } else {
      PostElsewhere(db, ps, Main(e));
    }
  }

  /** Postings that fit leave accounts under their addresses, within int64 and not in debt. */
  lemma PostKeeps(db: Store, ps: seq<Posting>)
    requires WellKeyed(db) && NonNegative(db) && Distinct(ps) && forall p | p in ps :: Fits(db, p)
    ensures WellKeyed(Post(db, ps)) && NonNegative(Post(db, ps))
    ensures forall k | k in Post(db, ps) :: k in db || exists p :: p in ps && p.key == k
  {
    forall k | k in Post(db, ps)
      ensures Post(db, ps)[k].addr == k.addr && Int64(Post(db, ps)[k].balance) && Int64(Post(db, ps)[k].frozen)
      ensures 0 <= Post(db, ps)[k].balance && 0 <= Post(db, ps)[k].frozen
      ensures k in db || exists p :: p in ps && p.key == k
    {
      if p :| p in ps && p.key == k {
        var i :| 0 <= i < |ps| && ps[i] == p;
        PostThere(db, ps, i);
      } else {
        PostElsewhere(db, ps, k);
      }
    }
  }

  /** A successful operation changes the main total by what it issues, no addition wraps, and the ledger
      stays good exactly when no contract pays more than it can. */
  lemma StepGood(db: Store, contracts: set<string>, miners: seq<string>, op: Op)
    requires Good(db, contracts) && Regular(op, contracts) && Check(db, miners, op).None?
    requires Sum(MainAccounts, db) + Issued(op) <= MAX_INT64
    ensures AllFit(db, Postings(op))
    ensures Sum(MainAccounts, Next(db, miners, op)) == Sum(MainAccounts, db) + Issued(op)
    ensures Good(Next(db, miners, op), contracts) <==> CanPay(db, contracts, op)
  {
    hide Sum, Post, Check, Effect, NetOf;
    var ps := Postings(op);
    OpFits(db, contracts, miners, op);
    AllFitIf(db, ps);
    PostKeeps(db, ps);
    SumPost(MainAccounts, db, ps);
    NetIs(MainAccounts, op);
    NetMain(op);
    forall e | e in contracts
      ensures Sum(Inside(e), Post(db, ps)) <= Load(Post(db, ps), Main(e)).balance <==>
              (Payer(op) == Some(e) ==> CanPay(db, contracts, op))
    {
      SumPost(Inside(e), db, ps);
      NetIs(Inside(e), op);
      NetInside(db, contracts, miners, op, e);
    }
    forall p | p in ps && p.key.Exec?
      ensures p.key.execaddr in contracts
    {}
  }

  /** No regular operation panics, so one that fails leaves the store as it was. */
  lemma FailedStep(db: Store, contracts: set<string>, miners: seq<string>, op: Op)
    requires Regular(op, contracts) && Check(db, miners, op).Some?
    ensures Next(db, miners, op) == db && Check(db, miners, op) != Some(Panicked)
  {}

  /** A contract whose coins all belong to its users sends some of them away. */
  lemma ContractPays()
    ensures var db := map[Main("c") := Account(10, 0, "c"), Exec("a", "c") := Account(10, 0, "a")];
      && Good(db, {"c"}) && Check(db, [], Transfer("c", "b", 1)).None?
      && !Good(Next(db, [], Transfer("c", "b", 1)), {"c"})
  {
    var m, x := Account(10, 0, "c"), Account(10, 0, "a");
    var empty: Store := map[];
    var db := empty[Main("c") := m][Exec("a", "c") := x];
    SumSet(MainAccounts, empty, Main("c"), m);
    SumSet(Inside("c"), empty, Main("c"), m);
    SumSet(MainAccounts, empty[Main("c") := m], Exec("a", "c"), x);
    SumSet(Inside("c"), empty[Main("c") := m], Exec("a", "c"), x);
    assert db == map[Main("c") := Account(10, 0, "c"), Exec("a", "c") := Account(10, 0, "a")];
    StepGood(db, {"c"}, [], Transfer("c", "b", 1));
  }

  // Runs.

  function Run(db: Store, miners: seq<string>, ops: seq<Op>): Store {
    if ops == [] then db else Next(Run(db, miners, ops[..|ops| - 1]), miners, ops[|ops| - 1])
  }

  /** The coins issued by the operations that succeeded. */
  function Supply(db: Store, miners: seq<string>, ops: seq<Op>): int {
    if ops == [] then 0
    else
      var n := |ops| - 1;
      Supply(db, miners, ops[..n])
      + if Check(Run(db, miners, ops[..n]), miners, ops[n]).None? then Issued(ops[n]) else 0
  }

  /** The supply never leaves the int64 range. */
  ghost predicate Bounded(db: Store, miners: seq<string>, ops: seq<Op>) {
    forall n | 0 <= n <= |ops| :: Sum(MainAccounts, db) + Supply(db, miners, ops[..n]) <= MAX_INT64
  }

  /** Operation `n` fails, or a contract that pays in it can afford to. */
  ghost predicate PayableAt(db: Store, contracts: set<string>, miners: seq<string>, ops: seq<Op>, n: nat)
    requires n < |ops|
  {
    var before := Run(db, miners, ops[..n]);
    Check(before, miners, ops[n]).None? ==> CanPay(before, contracts, ops[n])
  }

  ghost predicate Payable(db: Store, contracts: set<string>, miners: seq<string>, ops: seq<Op>) {
    forall n | 0 <= n < |ops| :: PayableAt(db, contracts, miners, ops, n)
  }

  /** What holds of a run holds of its first steps. */
  lemma FirstSteps(db: Store, contracts: set<string>, miners: seq<string>, ops: seq<Op>, n: nat)
    requires n <= |ops|
    ensures Bounded(db, miners, ops) ==>
      && Bounded(db, miners, ops[..n]) && Sum(MainAccounts, db) + Supply(db, miners, ops[..n]) <= MAX_INT64
    ensures Payable(db, contracts, miners, ops) ==> Payable(db, contracts, miners, ops[..n])
  {
    hide Sum, Supply, Run, Check, CanPay;
    forall k | 0 <= k <= n
      ensures ops[..n][..k] == ops[..k] && (k < n ==> ops[..n][k] == ops[k])
    {}
    if Payable(db, contracts, miners, ops) {
      forall k | 0 <= k < n
        ensures PayableAt(db, contracts, miners, ops[..n], k)
      {
        assert PayableAt(db, contracts, miners, ops, k);
      }
    }
  }

  /** One more step of a run. */
  lemma RunStep(db: Store, miners: seq<string>, ops: seq<Op>, n: nat)
    requires n < |ops|
    ensures Run(db, miners, ops[..n + 1]) == Next(Run(db, miners, ops[..n]), miners, ops[n])
    ensures Supply(db, miners, ops[..n + 1]) == Supply(db, miners, ops[..n])
            + if Check(Run(db, miners, ops[..n]), miners, ops[n]).None? then Issued(ops[n]) else 0
  {
    hide Next, Check;
    assert ops[..n + 1][..n] == ops[..n];
  }

  /** Solvency and the conservation of coins over every run. */
  lemma {:induction false} RunGood(db: Store, contracts: set<string>, miners: seq<string>, ops: seq<Op>)
    requires Good(db, contracts) && Bounded(db, miners, ops) && Payable(db, contracts, miners, ops)
    requires forall op | op in ops :: Regular(op, contracts)
    ensures Good(Run(db, miners, ops), contracts)
    ensures Sum(MainAccounts, Run(db, miners, ops)) == Sum(MainAccounts, db) + Supply(db, miners, ops)
  {
    if ops != [] {
      hide Good, Sum, Next, Check, Regular, Run, Supply, Bounded, CanPay;
      var n := |ops| - 1;
      var before := Run(db, miners, ops[..n]);
      FirstSteps(db, contracts, miners, ops, n);
      FirstSteps(db, contracts, miners, ops, n + 1);
      RunGood(db, contracts, miners, ops[..n]);
      RunStep(db, miners, ops, n);
      assert ops[..n + 1] == ops;
      assert ops[n] in ops && PayableAt(db, contracts, miners, ops, n);
      if Check(before, miners, ops[n]).None? {
        StepGood(before, contracts, miners, ops[n]);
      } else {
        FailedStep(before, contracts, miners, ops[n]);
      }
    }
  }

  /** The ledger is good after every step of a run exactly when no contract pays more than it can. */
  lemma RunGoodIff(db: Store, contracts: set<string>, miners: seq<string>, ops: seq<Op>)
    requires Good(db, contracts) && Bounded(db, miners, ops) && forall op | op in ops :: Regular(op, contracts)
    ensures (forall n | 0 <= n <= |ops| :: Good(Run(db, miners, ops[..n]), contracts)) <==>
            Payable(db, contracts, miners, ops)
  {
    hide Good, Sum, Run, Bounded, Payable, Regular;
    if Payable(db, contracts, miners, ops) {
      forall n | 0 <= n <= |ops|
        ensures Good(Run(db, miners, ops[..n]), contracts)
      {
        FirstSteps(db, contracts, miners, ops, n);
        RunGood(db, contracts, miners, ops[..n]);
      }
    }
    if forall n | 0 <= n <= |ops| :: Good(Run(db, miners, ops[..n]), contracts) {
      GoodIsPayable(db, contracts, miners, ops, |ops|);
      assert ops[..|ops|] == ops;
    }
  }

  lemma PayablePush(db: Store, contracts: set<string>, miners: seq<string>, ops: seq<Op>, n: nat)
    requires n < |ops| && Payable(db, contracts, miners, ops[..n]) && PayableAt(db, contracts, miners, ops, n)
    ensures Payable(db, contracts, miners, ops[..n + 1])
  {
    hide Run, Check, CanPay;
    var first := ops[..n + 1];
    forall k | 0 <= k <= n
      ensures PayableAt(db, contracts, miners, first, k)
    {
      assert first[..k] == ops[..k];
      if k < n {
        assert ops[..n][..k] == ops[..k];
        assert PayableAt(db, contracts, miners, ops[..n], k);
      }
    }
  }

  lemma {:induction false} GoodIsPayable(db: Store, contracts: set<string>, miners: seq<string>, ops: seq<Op>, n: nat)
    requires Good(db, contracts) && Bounded(db, miners, ops) && forall op | op in ops :: Regular(op, contracts)
    requires n <= |ops| && forall k | 0 <= k <= n :: Good(Run(db, miners, ops[..k]), contracts)
    ensures Payable(db, contracts, miners, ops[..n])
  {
    if n > 0 {
      hide Good, Sum, Next, Check, Regular, Run, Supply, Bounded, CanPay, Payable;
      var k := n - 1;
      var before := Run(db, miners, ops[..k]);
      GoodIsPayable(db, contracts, miners, ops, k);
      FirstSteps(db, contracts, miners, ops, k);
      FirstSteps(db, contracts, miners, ops, n);
      RunGood(db, contracts, miners, ops[..k]);
      RunStep(db, miners, ops, k);
      assert ops[k] in ops;
      if Check(before, miners, ops[k]).None? {
        StepGood(before, contracts, miners, ops[k]);
      }
      PayablePush(db, contracts, miners, ops, k);
    }
  }

  /** From the empty store, as long as only addresses that are no contract pay. */
  lemma RunFromEmpty(contracts: set<string>, miners: seq<string>, ops: seq<Op>)
    requires Bounded(map[], miners, ops)
    requires forall op | op in ops :: Regular(op, contracts) && PayerOutside(op, contracts)
    ensures Good(Run(map[], miners, ops), contracts)
    ensures Sum(MainAccounts, Run(map[], miners, ops)) == Supply(map[], miners, ops)
  {
    hide Good, Check, Regular, Bounded, Run, Supply;
    GoodInitially(contracts);
    assert forall n | 0 <= n < |ops| :: ops[n] in ops;
    RunGood(map[], contracts, miners, ops);
  }
}
