/** account/account.go, account/execaccount.go and account/genesis.go: load, change and save accounts. */
module AccountDBs {
  import opened Accounts
  import opened Int64s
  import opened Options
  import opened Ledgers

  /** A receipt lists the accounts as they were saved. */
  datatype Entry = Entry(key: Key, acc: Account)

  function Written(db: Store, kv: seq<Entry>): Store {
    if kv == [] then db else Written(db, kv[..|kv| - 1])[kv[|kv| - 1].key := kv[|kv| - 1].acc]
  }

  lemma WrittenNone(db: Store)
    ensures Written(db, []) == db
  {}

  lemma WrittenOne(db: Store, e: Entry)
    ensures Written(db, [e]) == db[e.key := e.acc]
  {}

  lemma WrittenTwo(db: Store, e: Entry, f: Entry)
    ensures Written(db, [e, f]) == db[e.key := e.acc][f.key := f.acc]
  {
    assert [e, f][..1] == [e];
    WrittenOne(db, e);
  }

  lemma {:induction false} WrittenConcat(db: Store, a: seq<Entry>, b: seq<Entry>)
    ensures Written(db, a + b) == Written(Written(db, a), b)
    decreases |b|
  {
    if b == [] {
      assert a + b == a;
    } else {
      var k := |b| - 1;
      WrittenConcat(db, a, b[..k]);
      assert (a + b)[..|a + b| - 1] == a + b[..k];
    }
  }

  lemma PostOne(db: Store, p: Posting)
    ensures Post(db, [p]) == Adjust(db, p)
  {}

  lemma PostTwo(db: Store, p: Posting, q: Posting)
    ensures Post(db, [p, q]) == Adjust(Adjust(db, p), q)
  {
    assert [p, q][..1] == [p];
    PostOne(db, p);
  }

  lemma PostThree(db: Store, p: Posting, q: Posting, r: Posting)
    ensures Post(db, [p, q, r]) == Adjust(Adjust(Adjust(db, p), q), r)
  {
    assert [p, q, r][..2] == [p, q];
    PostTwo(db, p, q);
  }

  /** Saving two different accounts is posting to both. */
  lemma TwoPostings(db: Store, p: Posting, q: Posting)
    requires p.key != q.key
    ensures Post(db, [p, q]) ==
            Written(db, [Entry(p.key, Adjusted(Load(db, p.key), p)), Entry(q.key, Adjusted(Load(db, q.key), q))])
  {
    PostTwo(db, p, q);
    WrittenTwo(db, Entry(p.key, Adjusted(Load(db, p.key), p)), Entry(q.key, Adjusted(Load(db, q.key), q)));
  }

  class AccountDB {
    var db: Store
    /** The addresses of the contracts in GetMinerExecs. */
    const miners: seq<string>

    ghost predicate Valid()
      reads this
    {
      WellKeyed(db)
    }

    constructor (miners: seq<string>)
      ensures Valid() && db == map[] && this.miners == miners
    {
      db := map[];
      this.miners := miners;
    }

    function LoadAccount(addr: string): Account
      reads this
    {
      Load(db, Main(addr))
    }

    function LoadExecAccount(addr: string, execaddr: string): Account
      reads this
    {
      Load(db, Exec(addr, execaddr))
    }

    /** Saves the accounts, each under the address it carries. */
    method SaveKVSet(kv: seq<Entry>)
      requires Valid() && forall e | e in kv :: e.acc.addr == e.key.addr && Int64(e.acc.balance) && Int64(e.acc.frozen)
      modifies this`db
      ensures Valid() && db == Written(old(db), kv)
    {
      for i := 0 to |kv|
        invariant Valid() && db == Written(old(db), kv[..i])
      {
        assert kv[..i + 1][..i] == kv[..i];
        db := db[kv[i].key := kv[i].acc];
      }
      assert kv[..|kv|] == kv;
    }

    method CheckTransfer(sender: string, amount: int) returns (err: Option<Error>)
      ensures err == if !CheckAmount(amount) then Some(Amount)
                     else if Short(Load(db, Main(sender)).balance, amount) then Some(NoBalance)
                     else None
    {
      if !CheckAmount(amount) {
        return Some(Amount);
      }
      if Wrap(LoadAccount(sender).balance - amount) < 0 {
        return Some(NoBalance);
      }
      return None;
    }

    method Transfer(sender: string, to: string, amount: int) returns (kv: seq<Entry>, err: Option<Error>)
      requires Valid()
      modifies this`db
      ensures Valid() && db == Written(old(db), kv)
      ensures err == Check(old(db), miners, Op.Transfer(sender, to, amount))
      ensures db == Next(old(db), miners, Op.Transfer(sender, to, amount))
    {
      hide Wrap, Written, Post;
      WrittenNone(db);
      kv := [];
      if !CheckAmount(amount) {
        return kv, Some(Amount);
      }
      var accFrom, accTo := LoadAccount(sender), LoadAccount(to);
      if accFrom.addr == accTo.addr {
        return kv, Some(SendSameToRecv);
      }
      if Wrap(accFrom.balance - amount) < 0 {
        return kv, Some(NoBalance);
      }
      accFrom := accFrom.(balance := Wrap(accFrom.balance - amount));
      accTo := accTo.(balance := Wrap(accTo.balance + amount));
      kv := [Entry(Main(accFrom.addr), accFrom), Entry(Main(accTo.addr), accTo)];
      SaveKVSet(kv);
      TwoPostings(old(db), Posting(Main(sender), -amount, 0), Posting(Main(to), amount, 0));
      return kv, None;
    }

    method DepositBalance(execaddr: string, amount: int) returns (kv: seq<Entry>, err: Option<Error>)
      requires Valid()
      modifies this`db
      ensures Valid() && db == Written(old(db), kv)
      ensures err == if CheckAmount(amount) then None else Some(Amount)
      ensures db == if err.None? then Adjust(old(db), Posting(Main(execaddr), amount, 0)) else old(db)
    {
      kv := [];
      if !CheckAmount(amount) {
        return kv, Some(Amount);
      }
      var acc := LoadAccount(execaddr);
      acc := acc.(balance := Wrap(acc.balance + amount));
      kv := [Entry(Main(acc.addr), acc)];
      SaveKVSet(kv);
      WrittenOne(old(db), kv[0]);
      return kv, None;
    }

    method Mint(addr: string, amount: int) returns (kv: seq<Entry>, err: Option<Error>)
      requires Valid()
      modifies this`db
      ensures Valid() && db == Written(old(db), kv)
      ensures err == Check(old(db), miners, Op.Mint(addr, amount)) && db == Next(old(db), miners, Op.Mint(addr, amount))
    {
      kv := [];
      if !CheckAmount(amount) {
        return kv, Some(Amount);
      }
      var acc := LoadAccount(addr);
      var balance;
      balance, err := SafeAdd(acc.balance, amount);
      if err.Some? {
        return;
      }
      acc := acc.(balance := balance);
      kv := [Entry(Main(acc.addr), acc)];
      SaveKVSet(kv);
      WrittenOne(old(db), kv[0]);
      PostOne(old(db), Posting(Main(addr), amount, 0));
    }

    method Burn(addr: string, amount: int) returns (kv: seq<Entry>, err: Option<Error>)
      requires Valid()
      modifies this`db
      ensures Valid() && db == Written(old(db), kv)
      ensures err == Check(old(db), miners, Op.Burn(addr, amount)) && db == Next(old(db), miners, Op.Burn(addr, amount))
    {
      kv := [];
      if !CheckAmount(amount) {
        return kv, Some(Amount);
      }
      var acc := LoadAccount(addr);
      if acc.balance < amount {
        return kv, Some(NoBalance);
      }
      acc := acc.(balance := Wrap(acc.balance - amount));
      kv := [Entry(Main(acc.addr), acc)];
      SaveKVSet(kv);
      WrittenOne(old(db), kv[0]);
      PostOne(old(db), Posting(Main(addr), -amount, 0));
      return kv, None;
    }

    /** Refuses a sum that overflows or exceeds the token limit. */
    static method SafeAdd(balance: int, amount: int) returns (sum: int, err: Option<Error>)
      requires Int64(balance) && Int64(amount)
      ensures sum == if Unsafe(balance, amount) then balance else Wrap(balance + amount)
      ensures err == if Unsafe(balance, amount) then Some(Amount) else None
      ensures 0 <= balance && 0 <= amount ==>
        (err.None? <==> balance + amount <= MAX_TOKEN_BALANCE) && (err.None? ==> sum == balance + amount)
    {
      if Wrap(balance + amount) < amount || Wrap(balance + amount) > MAX_TOKEN_BALANCE {
        return balance, Some(Amount);
      }
      return Wrap(balance + amount), None;
    }

    /** Moves an amount between balance and frozen amount of one account inside a contract. */
    method ExecFrozen(addr: string, execaddr: string, amount: int) returns (kv: seq<Entry>, err: Option<Error>)
      requires Valid()
      modifies this`db
      ensures Valid() && db == Written(old(db), kv)
      ensures err == Check(old(db), miners, Op.ExecFrozen(addr, execaddr, amount))
      ensures db == Next(old(db), miners, Op.ExecFrozen(addr, execaddr, amount))
    {
      kv := [];
      if addr == execaddr {
        return kv, Some(SendSameToRecv);
      }
      if !CheckAmount(amount) {
        return kv, Some(Amount);
      }
      var acc := LoadExecAccount(addr, execaddr);
      if Wrap(acc.balance - amount) < 0 {
        return kv, Some(NoBalance);
      }
      acc := acc.(balance := Wrap(acc.balance - amount), frozen := Wrap(acc.frozen + amount));
      kv := [Entry(Exec(acc.addr, execaddr), acc)];
      SaveKVSet(kv);
      WrittenOne(old(db), kv[0]);
      PostOne(old(db), Posting(Exec(addr, execaddr), -amount, amount));
      return kv, None;
    }

    method ExecActive(addr: string, execaddr: string, amount: int) returns (kv: seq<Entry>, err: Option<Error>)
      requires Valid()
      modifies this`db
      ensures Valid() && db == Written(old(db), kv)
      ensures err == Check(old(db), miners, Op.ExecActive(addr, execaddr, amount))
      ensures db == Next(old(db), miners, Op.ExecActive(addr, execaddr, amount))
    {
      kv := [];
      if addr == execaddr {
        return kv, Some(SendSameToRecv);
      }
      if !CheckAmount(amount) {
        return kv, Some(Amount);
      }
      var acc := LoadExecAccount(addr, execaddr);
      if Wrap(acc.frozen - amount) < 0 {
        return kv, Some(NoBalance);
      }
      acc := acc.(balance := Wrap(acc.balance + amount), frozen := Wrap(acc.frozen - amount));
      kv := [Entry(Exec(acc.addr, execaddr), acc)];
      SaveKVSet(kv);
      WrittenOne(old(db), kv[0]);
      PostOne(old(db), Posting(Exec(addr, execaddr), amount, -amount));
      return kv, None;
    }

    method ExecTransfer(sender: string, to: string, execaddr: string, amount: int)
      returns (kv: seq<Entry>, err: Option<Error>)
      requires Valid()
      modifies this`db
      ensures Valid() && db == Written(old(db), kv)
      ensures err == Check(old(db), miners, Op.ExecTransfer(sender, to, execaddr, amount))
      ensures db == Next(old(db), miners, Op.ExecTransfer(sender, to, execaddr, amount))
    {
      hide Wrap, Written, Post;
      WrittenNone(db);
      kv := [];
      if sender == to {
        return kv, Some(SendSameToRecv);
      }
      if !CheckAmount(amount) {
        return kv, Some(Amount);
      }
      var accFrom, accTo := LoadExecAccount(sender, execaddr), LoadExecAccount(to, execaddr);
      if Wrap(accFrom.balance - amount) < 0 {
        return kv, Some(NoBalance);
      }
      accFrom := accFrom.(balance := Wrap(accFrom.balance - amount));
      accTo := accTo.(balance := Wrap(accTo.balance + amount));
      kv := [Entry(Exec(accFrom.addr, execaddr), accFrom), Entry(Exec(accTo.addr, execaddr), accTo)];
      SaveKVSet(kv);
      TwoPostings(old(db), Posting(Exec(sender, execaddr), -amount, 0), Posting(Exec(to, execaddr), amount, 0));
      return kv, None;
    }

    method ExecTransferFrozen(sender: string, to: string, execaddr: string, amount: int)
      returns (kv: seq<Entry>, err: Option<Error>)
      requires Valid()
      modifies this`db
      ensures Valid() && db == Written(old(db), kv)
      ensures err == Check(old(db), miners, Op.ExecTransferFrozen(sender, to, execaddr, amount))
      ensures db == Next(old(db), miners, Op.ExecTransferFrozen(sender, to, execaddr, amount))
    {
      hide Wrap, Written, Post;
      WrittenNone(db);
      kv := [];
      if sender == to {
        return kv, Some(SendSameToRecv);
      }
      if !CheckAmount(amount) {
        return kv, Some(Amount);
      }
      var accFrom, accTo := LoadExecAccount(sender, execaddr), LoadExecAccount(to, execaddr);
      if Wrap(accFrom.frozen - amount) < 0 {
        return kv, Some(NoBalance);
      }
      accFrom := accFrom.(frozen := Wrap(accFrom.frozen - amount));
      accTo := accTo.(balance := Wrap(accTo.balance + amount));
      kv := [Entry(Exec(accFrom.addr, execaddr), accFrom), Entry(Exec(accTo.addr, execaddr), accTo)];
      SaveKVSet(kv);
      TwoPostings(old(db), Posting(Exec(sender, execaddr), 0, -amount), Posting(Exec(to, execaddr), amount, 0));
      return kv, None;
    }

    /** Adds to an account inside a contract, to the balance or to the frozen amount. */
    method ExecDeposit(addr: string, execaddr: string, amount: int) returns (kv: seq<Entry>, err: Option<Error>)
      requires Valid()
      modifies this`db
      ensures Valid() && db == Written(old(db), kv)
      ensures err == if addr == execaddr then Some(SendSameToRecv)
                     else if !CheckAmount(amount) then Some(Amount)
                     else None
      ensures db == if err.None? then Adjust(old(db), Posting(Exec(addr, execaddr), amount, 0)) else old(db)
    {
      kv := [];
      if addr == execaddr {
        return kv, Some(SendSameToRecv);
      }
      if !CheckAmount(amount) {
        return kv, Some(Amount);
      }
      var acc := LoadExecAccount(addr, execaddr);
      acc := acc.(balance := Wrap(acc.balance + amount));
      kv := [Entry(Exec(acc.addr, execaddr), acc)];
      SaveKVSet(kv);
      WrittenOne(old(db), kv[0]);
      return kv, None;
    }

    method DepositFrozen(addr: string, execaddr: string, amount: int) returns (kv: seq<Entry>, err: Option<Error>)
      requires Valid()
      modifies this`db
      ensures Valid() && db == Written(old(db), kv)
      ensures err == if addr == execaddr then Some(SendSameToRecv)
                     else if !CheckAmount(amount) then Some(Amount)
                     else None
      ensures db == if err.None? then Adjust(old(db), Posting(Exec(addr, execaddr), 0, amount)) else old(db)
    {
      kv := [];
      if addr == execaddr {
        return kv, Some(SendSameToRecv);
      }
      if !CheckAmount(amount) {
        return kv, Some(Amount);
      }
      var acc := LoadExecAccount(addr, execaddr);
      acc := acc.(frozen := Wrap(acc.frozen + amount));
      kv := [Entry(Exec(acc.addr, execaddr), acc)];
      SaveKVSet(kv);
      WrittenOne(old(db), kv[0]);
      return kv, None;
    }

    method ExecWithdraw(execaddr: string, addr: string, amount: int) returns (kv: seq<Entry>, err: Option<Error>)
      requires Valid()
      modifies this`db
      ensures Valid() && db == Written(old(db), kv)
      ensures err == if addr == execaddr then Some(SendSameToRecv)
                     else if !CheckAmount(amount) then Some(Amount)
                     else if Short(Load(old(db), Exec(addr, execaddr)).balance, amount) then Some(NoBalance)
                     else None
      ensures db == if err.None? then Adjust(old(db), Posting(Exec(addr, execaddr), -amount, 0)) else old(db)
    {
      kv := [];
      if addr == execaddr {
        return kv, Some(SendSameToRecv);
      }
      if !CheckAmount(amount) {
        return kv, Some(Amount);
      }
      var acc := LoadExecAccount(addr, execaddr);
      if Wrap(acc.balance - amount) < 0 {
        return kv, Some(NoBalance);
      }
      acc := acc.(balance := Wrap(acc.balance - amount));
      kv := [Entry(Exec(acc.addr, execaddr), acc)];
      SaveKVSet(kv);
      WrittenOne(old(db), kv[0]);
      return kv, None;
    }

    /** Sends coins to a contract and books them inside it; the deposit cannot fail after the transfer. */
    method TransferToExec(sender: string, to: string, amount: int) returns (kv: seq<Entry>, err: Option<Error>)
      requires Valid()
      modifies this`db
      ensures Valid() && db == Written(old(db), kv)
      ensures err == Check(old(db), miners, Op.TransferToExec(sender, to, amount)) && err != Some(Panicked)
      ensures db == Next(old(db), miners, Op.TransferToExec(sender, to, amount))
    {
      hide Wrap, WellKeyed, Written;
      kv, err := Transfer(sender, to, amount);
      if err.Some? {
        return;
      }
      var kv2;
      kv2, err := ExecDeposit(sender, to, amount);
      WrittenConcat(old(db), kv, kv2);
      kv := kv + kv2;
      if err.Some? {
        return kv, Some(Panicked);
      }
      var p, q := Posting(Main(sender), -amount, 0), Posting(Main(to), amount, 0);
      var r := Posting(Exec(sender, to), amount, 0);
      PostTwo(old(db), p, q);
      PostThree(old(db), p, q, r);
    }

    /** Takes coins out of a contract; the transfer cannot fail after the withdrawal. */
    method TransferWithdraw(sender: string, to: string, amount: int) returns (kv: seq<Entry>, err: Option<Error>)
      requires Valid()
      modifies this`db
      ensures Valid() && db == Written(old(db), kv)
      ensures err == Check(old(db), miners, Op.TransferWithdraw(sender, to, amount)) && err != Some(Panicked)
      ensures db == Next(old(db), miners, Op.TransferWithdraw(sender, to, amount))
    {
      hide Wrap, WellKeyed, Written;
      kv := [];
      WrittenNone(db);
      err := CheckTransfer(to, amount);
      if err.Some? {
        return;
      }
      kv, err := ExecWithdraw(to, sender, amount);
      if err.Some? {
        return;
      }
      var kv2;
      kv2, err := Transfer(to, sender, amount);
      WrittenConcat(old(db), kv, kv2);
      kv := kv + kv2;
      if err.Some? {
        return kv, Some(Panicked);
      }
      var p, q := Posting(Exec(sender, to), -amount, 0), Posting(Main(to), -amount, 0);
      var r := Posting(Main(sender), amount, 0);
      PostTwo(Adjust(old(db), p), q, r);
      PostThree(old(db), p, q, r);
    }

    method ExecIssueCoins(execaddr: string, amount: int) returns (kv: seq<Entry>, err: Option<Error>)
      requires Valid()
      modifies this`db
      ensures Valid() && db == Written(old(db), kv)
      ensures err == Check(old(db), miners, Op.ExecIssueCoins(execaddr, amount))
      ensures db == Next(old(db), miners, Op.ExecIssueCoins(execaddr, amount))
    {
      kv := [];
      var allow, i := false, 0;
      while i < |miners| && !allow
        invariant 0 <= i <= |miners| && (allow <==> execaddr in miners[..i])
      {
        assert miners[..i + 1] == miners[..i] + [miners[i]];
        if miners[i] == execaddr {
          allow := true;
        }
        i := i + 1;
      }
      assert miners[..|miners|] == miners;
      if !allow {
        return kv, Some(NotAllowDeposit);
      }
      kv, err := DepositBalance(execaddr, amount);
      PostOne(old(db), Posting(Main(execaddr), amount, 0));
    }

    method ExecDepositFrozen(addr: string, execaddr: string, amount: int) returns (kv: seq<Entry>, err: Option<Error>)
      requires Valid()
      modifies this`db
      ensures Valid() && db == Written(old(db), kv)
      ensures err == Check(old(db), miners, Op.ExecDepositFrozen(addr, execaddr, amount))
      ensures db == Next(old(db), miners, Op.ExecDepositFrozen(addr, execaddr, amount))
    {
      hide Wrap, WellKeyed, Written;
      kv := [];
      if addr == execaddr {
        WrittenNone(db);
        return kv, Some(SendSameToRecv);
      }
      kv, err := ExecIssueCoins(execaddr, amount);
      if err.Some? {
        return;
      }
      var kv2;
      kv2, err := DepositFrozen(addr, execaddr, amount);
      WrittenConcat(old(db), kv, kv2);
      kv := kv + kv2;
      var p, q := Posting(Main(execaddr), amount, 0), Posting(Exec(addr, execaddr), 0, amount);
      PostOne(old(db), p);
      PostTwo(old(db), p, q);
    }

    method GenesisInit(addr: string, amount: int) returns (kv: seq<Entry>, err: Option<Error>)
      requires Valid() && Int64(amount)
      modifies this`db
      ensures Valid() && db == Written(old(db), kv)
      ensures err == Check(old(db), miners, Op.GenesisInit(addr, amount))
      ensures db == Next(old(db), miners, Op.GenesisInit(addr, amount))
    {
      kv := [];
      var acc := LoadAccount(addr);
      var balance;
      balance, err := SafeAdd(acc.balance, amount);
      if err.Some? {
        return;
      }
      acc := acc.(balance := balance);
      kv := [Entry(Main(acc.addr), acc)];
      SaveKVSet(kv);
      WrittenOne(old(db), kv[0]);
      PostOne(old(db), Posting(Main(addr), amount, 0));
    }

    /** The only operation that may panic after it has saved something. */
    method GenesisInitExec(addr: string, amount: int, execaddr: string) returns (kv: seq<Entry>, err: Option<Error>)
      requires Valid() && Int64(amount)
      modifies this`db
      ensures Valid() && db == Written(old(db), kv)
      ensures err == Check(old(db), miners, Op.GenesisInitExec(addr, execaddr, amount))
      ensures db == Next(old(db), miners, Op.GenesisInitExec(addr, execaddr, amount))
    {
      hide Wrap, WellKeyed, Written;
      kv, err := GenesisInit(execaddr, amount);
      if err.Some? {
        return;
      }
      var kv2;
      kv2, err := ExecDeposit(addr, execaddr, amount);
      WrittenConcat(old(db), kv, kv2);
      kv := kv + kv2;
      var p, q := Posting(Main(execaddr), amount, 0), Posting(Exec(addr, execaddr), amount, 0);
      PostOne(old(db), p);
      PostTwo(old(db), p, q);
      if err.Some? {
        assert [p, q][..1] == [p];
        return kv, Some(Panicked);
      }
    }
  }
}
