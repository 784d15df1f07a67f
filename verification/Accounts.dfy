/** The account record of types/account: balances are int64. */
module Accounts {
  datatype Account = Account(balance: int, frozen: int, addr: string)
}
