/** What each operation does to each account, in plain numbers: on a good ledger it is accepted exactly when
    the amounts are there, and then the accounts involved change by the amount and no other account does. */
module LedgerEffects {
  import opened Accounts
  import opened Int64s
  import opened Options
  import opened Ledgers

  /** The account with the posting's amounts added. */
  ghost function Plus(acc: Account, p: Posting): Account {
    acc.(balance := acc.balance + p.balance, frozen := acc.frozen + p.frozen)
  }

  /** Postings that fit move the accounts that they name and no other. */
  lemma Posted(db: Store, ps: seq<Posting>)
    requires Distinct(ps) && forall p | p in ps :: Fits(db, p)
    ensures forall i | 0 <= i < |ps| :: Load(Post(db, ps), ps[i].key) == Plus(Load(db, ps[i].key), ps[i])
    ensures forall k | (forall p | p in ps :: p.key != k) :: Load(Post(db, ps), k) == Load(db, k)
  {
    hide Post, Fits, Distinct;
    forall i | 0 <= i < |ps|
      ensures Load(Post(db, ps), ps[i].key) == Plus(Load(db, ps[i].key), ps[i])
    {
      assert ps[i] in ps;
      PostThere(db, ps, i);
    }
    forall k | forall p | p in ps :: p.key != k
      ensures Load(Post(db, ps), k) == Load(db, k)
    {
      PostElsewhere(db, ps, k);
    }
  }

  lemma PostedOne(db: Store, p: Posting)
    requires Distinct([p]) && forall q | q in [p] :: Fits(db, q)
    ensures forall k :: Load(Post(db, [p]), k) == if k == p.key then Plus(Load(db, k), p) else Load(db, k)
  {
    hide Post, Fits, Load, Plus, Distinct;
    var ps := [p];
    Posted(db, ps);
    assert ps[0] == p;
  }

  lemma PostedTwo(db: Store, p: Posting, q: Posting)
    requires Distinct([p, q]) && forall r | r in [p, q] :: Fits(db, r)
    ensures forall k ::
      Load(Post(db, [p, q]), k) ==
      if k == p.key then Plus(Load(db, k), p) else if k == q.key then Plus(Load(db, k), q) else Load(db, k)
  {
    hide Post, Fits, Load, Plus, Distinct;
    var ps := [p, q];
    Posted(db, ps);
    assert ps[0] == p && ps[1] == q;
  }

  lemma PostedThree(db: Store, p: Posting, q: Posting, r: Posting)
    requires Distinct([p, q, r]) && forall x | x in [p, q, r] :: Fits(db, x)
    ensures forall k ::
      Load(Post(db, [p, q, r]), k) ==
      if k == p.key then Plus(Load(db, k), p)
      else if k == q.key then Plus(Load(db, k), q)
      else if k == r.key then Plus(Load(db, k), r)
      else Load(db, k)
  {
    hide Post, Fits, Load, Plus, Distinct;
    var ps := [p, q, r];
    Posted(db, ps);
    assert ps[0] == p && ps[1] == q && ps[2] == r;
  }

  /** The amounts of a good ledger are int64 and not negative. */
  lemma Amounts(db: Store, contracts: set<string>, key: Key)
    requires Good(db, contracts)
    ensures 0 <= Load(db, key).balance <= MAX_INT64 && 0 <= Load(db, key).frozen <= MAX_INT64
  {}

  lemma Enough(db: Store, contracts: set<string>, key: Key, amount: int)
    requires Good(db, contracts) && 0 < amount < MAX_COIN
    ensures Short(Load(db, key).balance, amount) <==> Load(db, key).balance < amount
    ensures Short(Load(db, key).frozen, amount) <==> Load(db, key).frozen < amount
  {
    hide Good, Short, Load;
    Amounts(db, contracts, key);
    Exact(Load(db, key).balance, amount);
    Exact(Load(db, key).frozen, amount);
  }

  lemma Addable(db: Store, contracts: set<string>, key: Key, amount: int)
    requires Good(db, contracts) && 0 <= amount <= MAX_INT64
    ensures Unsafe(Load(db, key).balance, amount) <==> Load(db, key).balance + amount > MAX_TOKEN_BALANCE
  {
    hide Good, Load;
    Amounts(db, contracts, key);
  }

  /** From main account to main account. */
  lemma TransferEffect(db: Store, contracts: set<string>, miners: seq<string>, sender: string, to: string, amount: int)
    requires Good(db, contracts)
    ensures var op := Transfer(sender, to, amount);
      && Check(db, miners, op) == (if !(0 < amount < MAX_COIN) then Some(Amount)
                                   else if sender == to then Some(SendSameToRecv)
                                   else if Load(db, Main(sender)).balance < amount then Some(NoBalance)
                                   else None)
      && (Check(db, miners, op).Some? ==> Next(db, miners, op) == db)
      && (Check(db, miners, op).None? ==>
            forall k :: Load(Next(db, miners, op), k) ==
              var acc := Load(db, k);
              if k == Main(sender) then acc.(balance := acc.balance - amount)
              else if k == Main(to) then acc.(balance := acc.balance + amount)
              else acc)
  {
    hide Good, Short, Post, Fits, Sum, Load, Unsafe, Distinct;
    var op := Transfer(sender, to, amount);
    if 0 < amount < MAX_COIN {
      Enough(db, contracts, Main(sender), amount);
    }
    if Check(db, miners, op).None? {
      MainFits(db, contracts);
      OpFits(db, contracts, miners, op);
      PostedTwo(db, Postings(op)[0], Postings(op)[1]);
    }
  }

  lemma MainFits(db: Store, contracts: set<string>)
    requires Good(db, contracts)
    ensures Sum(MainAccounts, db) <= MAX_INT64
  {}

  /** Into a contract: the main accounts move and the sender has the amount inside. */
  lemma TransferToExecEffect(db: Store, contracts: set<string>, miners: seq<string>, sender: string, to: string,
                             amount: int)
    requires Good(db, contracts) && to in contracts
    ensures var op := TransferToExec(sender, to, amount);
      && Check(db, miners, op) == (if !(0 < amount < MAX_COIN) then Some(Amount)
                                   else if sender == to then Some(SendSameToRecv)
                                   else if Load(db, Main(sender)).balance < amount then Some(NoBalance)
                                   else None)
      && (Check(db, miners, op).Some? ==> Next(db, miners, op) == db)
      && (Check(db, miners, op).None? ==>
            forall k :: Load(Next(db, miners, op), k) ==
              var acc := Load(db, k);
              if k == Main(sender) then acc.(balance := acc.balance - amount)
              else if k == Main(to) || k == Exec(sender, to) then acc.(balance := acc.balance + amount)
              else acc)
  {
    hide Good, Short, Post, Fits, Sum, Load, Unsafe, Distinct;
    var op := TransferToExec(sender, to, amount);
    if 0 < amount < MAX_COIN {
      Enough(db, contracts, Main(sender), amount);
    }
    if Check(db, miners, op).None? {
      MainFits(db, contracts);
      OpFits(db, contracts, miners, op);
      PostedThree(db, Postings(op)[0], Postings(op)[1], Postings(op)[2]);
    }
  }

  /** Out of a contract. */
  lemma TransferWithdrawEffect(db: Store, contracts: set<string>, miners: seq<string>, sender: string, to: string,
                               amount: int)
    requires Good(db, contracts) && to in contracts
    ensures var op := TransferWithdraw(sender, to, amount);
      && Check(db, miners, op) == (if !(0 < amount < MAX_COIN) then Some(Amount)
                                   else if Load(db, Main(to)).balance < amount then Some(NoBalance)
                                   else if sender == to then Some(SendSameToRecv)
                                   else if Load(db, Exec(sender, to)).balance < amount then Some(NoBalance)
                                   else None)
      && (Check(db, miners, op).Some? ==> Next(db, miners, op) == db)
      && (Check(db, miners, op).None? ==>
            forall k :: Load(Next(db, miners, op), k) ==
              var acc := Load(db, k);
              if k == Main(to) || k == Exec(sender, to) then acc.(balance := acc.balance - amount)
              else if k == Main(sender) then acc.(balance := acc.balance + amount)
              else acc)
  {
    hide Good, Short, Post, Fits, Sum, Load, Unsafe, Distinct;
    var op := TransferWithdraw(sender, to, amount);
    if 0 < amount < MAX_COIN {
      Enough(db, contracts, Main(to), amount);
      Enough(db, contracts, Exec(sender, to), amount);
    }
    if Check(db, miners, op).None? {
      MainFits(db, contracts);
      OpFits(db, contracts, miners, op);
      PostedThree(db, Postings(op)[0], Postings(op)[1], Postings(op)[2]);
    }
  }

  /** From balance to frozen amount within one account. */
  lemma ExecFrozenEffect(db: Store, contracts: set<string>, miners: seq<string>, addr: string, execaddr: string,
                         amount: int)
    requires Good(db, contracts) && execaddr in contracts
    ensures var op := ExecFrozen(addr, execaddr, amount);
      && Check(db, miners, op) == (if addr == execaddr then Some(SendSameToRecv)
                                   else if !(0 < amount < MAX_COIN) then Some(Amount)
                                   else if Load(db, Exec(addr, execaddr)).balance < amount then Some(NoBalance)
                                   else None)
      && (Check(db, miners, op).Some? ==> Next(db, miners, op) == db)
      && (Check(db, miners, op).None? ==>
            forall k :: Load(Next(db, miners, op), k) ==
              var acc := Load(db, k);
              if k == Exec(addr, execaddr) then acc.(balance := acc.balance - amount, frozen := acc.frozen + amount)
              else acc)
  {
    hide Good, Short, Post, Fits, Sum, Load, Unsafe, Distinct;
    var op := ExecFrozen(addr, execaddr, amount);
    if 0 < amount < MAX_COIN {
      Enough(db, contracts, Exec(addr, execaddr), amount);
    }
    if Check(db, miners, op).None? {
      MainFits(db, contracts);
      OpFits(db, contracts, miners, op);
      PostedOne(db, Postings(op)[0]);
    }
  }

  /** And back. */
  lemma ExecActiveEffect(db: Store, contracts: set<string>, miners: seq<string>, addr: string, execaddr: string,
                         amount: int)
    requires Good(db, contracts) && execaddr in contracts
    ensures var op := ExecActive(addr, execaddr, amount);
      && Check(db, miners, op) == (if addr == execaddr then Some(SendSameToRecv)
                                   else if !(0 < amount < MAX_COIN) then Some(Amount)
                                   else if Load(db, Exec(addr, execaddr)).frozen < amount then Some(NoBalance)
                                   else None)
      && (Check(db, miners, op).Some? ==> Next(db, miners, op) == db)
      && (Check(db, miners, op).None? ==>
            forall k :: Load(Next(db, miners, op), k) ==
              var acc := Load(db, k);
              if k == Exec(addr, execaddr) then acc.(balance := acc.balance + amount, frozen := acc.frozen - amount)
              else acc)
  {
    hide Good, Short, Post, Fits, Sum, Load, Unsafe, Distinct;
    var op := ExecActive(addr, execaddr, amount);
    if 0 < amount < MAX_COIN {
      Enough(db, contracts, Exec(addr, execaddr), amount);
    }
    if Check(db, miners, op).None? {
      MainFits(db, contracts);
      OpFits(db, contracts, miners, op);
      PostedOne(db, Postings(op)[0]);
    }
  }

  /** From balance to balance inside a contract. */
  lemma ExecTransferEffect(db: Store, contracts: set<string>, miners: seq<string>, sender: string, to: string,
                           execaddr: string, amount: int)
    requires Good(db, contracts) && execaddr in contracts
    ensures var op := ExecTransfer(sender, to, execaddr, amount);
      && Check(db, miners, op) == (if sender == to then Some(SendSameToRecv)
                                   else if !(0 < amount < MAX_COIN) then Some(Amount)
                                   else if Load(db, Exec(sender, execaddr)).balance < amount then Some(NoBalance)
                                   else None)
      && (Check(db, miners, op).Some? ==> Next(db, miners, op) == db)
      && (Check(db, miners, op).None? ==>
            forall k :: Load(Next(db, miners, op), k) ==
              var acc := Load(db, k);
              if k == Exec(sender, execaddr) then acc.(balance := acc.balance - amount)
              else if k == Exec(to, execaddr) then acc.(balance := acc.balance + amount)
              else acc)
  {
    hide Good, Short, Post, Fits, Sum, Load, Unsafe, Distinct;
    var op := ExecTransfer(sender, to, execaddr, amount);
    if 0 < amount < MAX_COIN {
      Enough(db, contracts, Exec(sender, execaddr), amount);
    }
    if Check(db, miners, op).None? {
      MainFits(db, contracts);
      OpFits(db, contracts, miners, op);
      PostedTwo(db, Postings(op)[0], Postings(op)[1]);
    }
  }

  /** From the frozen amount of the sender to the balance of the receiver. */
  lemma ExecTransferFrozenEffect(db: Store, contracts: set<string>, miners: seq<string>, sender: string, to: string,
                                 execaddr: string, amount: int)
    requires Good(db, contracts) && execaddr in contracts
    ensures var op := ExecTransferFrozen(sender, to, execaddr, amount);
      && Check(db, miners, op) == (if sender == to then Some(SendSameToRecv)
                                   else if !(0 < amount < MAX_COIN) then Some(Amount)
                                   else if Load(db, Exec(sender, execaddr)).frozen < amount then Some(NoBalance)
                                   else None)
      && (Check(db, miners, op).Some? ==> Next(db, miners, op) == db)
      && (Check(db, miners, op).None? ==>
            forall k :: Load(Next(db, miners, op), k) ==
              var acc := Load(db, k);
              if k == Exec(sender, execaddr) then acc.(frozen := acc.frozen - amount)
              else if k == Exec(to, execaddr) then acc.(balance := acc.balance + amount)
              else acc)
  {
    hide Good, Short, Post, Fits, Sum, Load, Unsafe, Distinct;
    var op := ExecTransferFrozen(sender, to, execaddr, amount);
    if 0 < amount < MAX_COIN {
      Enough(db, contracts, Exec(sender, execaddr), amount);
    }
    if Check(db, miners, op).None? {
      MainFits(db, contracts);
      OpFits(db, contracts, miners, op);
      PostedTwo(db, Postings(op)[0], Postings(op)[1]);
    }
  }

  /** New coins for a contract that may issue them. */
  lemma ExecIssueCoinsEffect(db: Store, contracts: set<string>, miners: seq<string>, execaddr: string, amount: int)
    requires Good(db, contracts) && Sum(MainAccounts, db) + amount <= MAX_INT64
    ensures var op := ExecIssueCoins(execaddr, amount);
      && Check(db, miners, op) == (if execaddr !in miners then Some(NotAllowDeposit)
                                   else if !(0 < amount < MAX_COIN) then Some(Amount)
                                   else None)
      && (Check(db, miners, op).Some? ==> Next(db, miners, op) == db)
      && (Check(db, miners, op).None? ==>
            forall k :: Load(Next(db, miners, op), k) ==
              var acc := Load(db, k);
              if k == Main(execaddr) then acc.(balance := acc.balance + amount) else acc)
  {
    hide Good, Short, Post, Fits, Sum, Load, Unsafe, Distinct;
    var op := ExecIssueCoins(execaddr, amount);
    if Check(db, miners, op).None? {
      OpFits(db, contracts, miners, op);
      PostedOne(db, Postings(op)[0]);
    }
  }

  /** New coins for a contract, frozen inside it for an address. */
  lemma ExecDepositFrozenEffect(db: Store, contracts: set<string>, miners: seq<string>, addr: string,
                                execaddr: string, amount: int)
    requires Good(db, contracts) && execaddr in contracts && Sum(MainAccounts, db) + amount <= MAX_INT64
    ensures var op := ExecDepositFrozen(addr, execaddr, amount);
      && Check(db, miners, op) == (if addr == execaddr then Some(SendSameToRecv)
                                   else if execaddr !in miners then Some(NotAllowDeposit)
                                   else if !(0 < amount < MAX_COIN) then Some(Amount)
                                   else None)
      && (Check(db, miners, op).Some? ==> Next(db, miners, op) == db)
      && (Check(db, miners, op).None? ==>
            forall k :: Load(Next(db, miners, op), k) ==
              var acc := Load(db, k);
              if k == Main(execaddr) then acc.(balance := acc.balance + amount)
              else if k == Exec(addr, execaddr) then acc.(frozen := acc.frozen + amount)
              else acc)
  {
    hide Good, Short, Post, Fits, Sum, Load, Unsafe, Distinct;
    var op := ExecDepositFrozen(addr, execaddr, amount);
    if Check(db, miners, op).None? {
      OpFits(db, contracts, miners, op);
      PostedTwo(db, Postings(op)[0], Postings(op)[1]);
    }
  }

  /** New coins for an address, up to the limit of a balance. */
  lemma MintEffect(db: Store, contracts: set<string>, miners: seq<string>, addr: string, amount: int)
    requires Good(db, contracts) && Sum(MainAccounts, db) + amount <= MAX_INT64
    ensures var op := Mint(addr, amount);
      && (Check(db, miners, op).None? <==>
            0 < amount < MAX_COIN && Load(db, Main(addr)).balance + amount <= MAX_TOKEN_BALANCE)
      && (Check(db, miners, op).Some? ==> Check(db, miners, op) == Some(Amount) && Next(db, miners, op) == db)
      && (Check(db, miners, op).None? ==>
            forall k :: Load(Next(db, miners, op), k) ==
              var acc := Load(db, k);
              if k == Main(addr) then acc.(balance := acc.balance + amount) else acc)
  {
    hide Good, Short, Post, Fits, Sum, Load, Unsafe, Distinct;
    var op := Mint(addr, amount);
    if 0 < amount < MAX_COIN {
      Addable(db, contracts, Main(addr), amount);
    }
    if Check(db, miners, op).None? {
      OpFits(db, contracts, miners, op);
      PostedOne(db, Postings(op)[0]);
    }
  }

  lemma BurnEffect(db: Store, contracts: set<string>, miners: seq<string>, addr: string, amount: int)
    requires Good(db, contracts)
    ensures var op := Burn(addr, amount);
      && Check(db, miners, op) == (if !(0 < amount < MAX_COIN) then Some(Amount)
                                   else if Load(db, Main(addr)).balance < amount then Some(NoBalance)
                                   else None)
      && (Check(db, miners, op).Some? ==> Next(db, miners, op) == db)
      && (Check(db, miners, op).None? ==>
            forall k :: Load(Next(db, miners, op), k) ==
              var acc := Load(db, k);
              if k == Main(addr) then acc.(balance := acc.balance - amount) else acc)
  {
    hide Good, Short, Post, Fits, Sum, Load, Unsafe, Distinct;
    var op := Burn(addr, amount);
    if Check(db, miners, op).None? {
      MainFits(db, contracts);
      OpFits(db, contracts, miners, op);
      PostedOne(db, Postings(op)[0]);
    }
  }

  lemma GenesisInitEffect(db: Store, contracts: set<string>, miners: seq<string>, addr: string, amount: int)
    requires Good(db, contracts) && 0 <= amount && Sum(MainAccounts, db) + amount <= MAX_INT64
    ensures var op := GenesisInit(addr, amount);
      && (Check(db, miners, op).None? <==> Load(db, Main(addr)).balance + amount <= MAX_TOKEN_BALANCE)
      && (Check(db, miners, op).Some? ==> Check(db, miners, op) == Some(Amount) && Next(db, miners, op) == db)
      && (Check(db, miners, op).None? ==>
            forall k :: Load(Next(db, miners, op), k) ==
              var acc := Load(db, k);
              if k == Main(addr) then acc.(balance := acc.balance + amount) else acc)
  {
    hide Good, Short, Post, Fits, Load, Unsafe, Distinct, Sum;
    var op := GenesisInit(addr, amount);
    MainNonNegative(db, contracts);
    Addable(db, contracts, Main(addr), amount);
    if Check(db, miners, op).None? {
      OpFits(db, contracts, miners, op);
      PostedOne(db, Postings(op)[0]);
    }
  }

  lemma MainNonNegative(db: Store, contracts: set<string>)
    requires Good(db, contracts)
    ensures 0 <= Sum(MainAccounts, db)
  {
    SumNonNegative(MainAccounts, db);
  }

  /** New coins for a contract, held inside it by an address. */
  lemma GenesisInitExecEffect(db: Store, contracts: set<string>, miners: seq<string>, addr: string, execaddr: string,
                              amount: int)
    requires Good(db, contracts) && execaddr in contracts && addr != execaddr && 0 < amount < MAX_COIN
    requires Sum(MainAccounts, db) + amount <= MAX_INT64
    ensures var op := GenesisInitExec(addr, execaddr, amount);
      && (Check(db, miners, op).None? <==> Load(db, Main(execaddr)).balance + amount <= MAX_TOKEN_BALANCE)
      && (Check(db, miners, op).Some? ==> Check(db, miners, op) == Some(Amount) && Next(db, miners, op) == db)
      && (Check(db, miners, op).None? ==>
            forall k :: Load(Next(db, miners, op), k) ==
              var acc := Load(db, k);
              if k == Main(execaddr) || k == Exec(addr, execaddr) then acc.(balance := acc.balance + amount)
              else acc)
  {
    hide Good, Short, Post, Fits, Sum, Load, Unsafe, Distinct;
    var op := GenesisInitExec(addr, execaddr, amount);
    Addable(db, contracts, Main(execaddr), amount);
    if Check(db, miners, op).None? {
      OpFits(db, contracts, miners, op);
      PostedTwo(db, Postings(op)[0], Postings(op)[1]);
    }
  }
}
