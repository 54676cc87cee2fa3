/** The bank itself: one object owning the list of accounts, whose
    operations change that list in place. Each operation reports which of its
    branches ran and leaves the list exactly as the matching function of
    module Accounts describes. */
module Banking {
  import opened Accounts

  class Bank {
    var accounts: seq<Account>

    /** A bank starts with the accounts read back from its data file, or with
        none when there is no file; reading and decoding the file happen
        outside this model, so their result is a parameter. */
    constructor (loaded: seq<Account>)
      ensures accounts == loaded
    {
      accounts := loaded;
    }

    method OpenAccount(number: int, balance: int, owner: string) returns (outcome: Outcome)
      modifies this
      ensures Step(outcome, accounts) == Opened(old(accounts), number, balance, owner)
    {
      if HasNumber(accounts, number) {
        return Duplicate;
      }
      accounts := accounts + [Account(number, balance, owner)];
      outcome := Ok;
    }

    method Deposit(number: int, amount: int) returns (outcome: Outcome)
      modifies this
      ensures Step(outcome, accounts) == Deposited(old(accounts), number, amount)
    {
      var found := FindAccount(accounts, number);
      if found.None? {
        return NotFound;
      }
      if amount <= 0 {
        return InvalidAmount;
      }
      var i := found.value;
      accounts := accounts[i := accounts[i].(balance := accounts[i].balance + amount)];
      outcome := Ok;
    }

    method Withdraw(number: int, amount: int) returns (outcome: Outcome)
      modifies this
      ensures Step(outcome, accounts) == Withdrawn(old(accounts), number, amount)
    {
      var found := FindAccount(accounts, number);
      if found.None? {
        return NotFound;
      }
      if amount <= 0 {
        return InvalidAmount;
      }
      var i := found.value;
      if accounts[i].balance < amount {
        return Insufficient;
      }
      accounts := accounts[i := accounts[i].(balance := accounts[i].balance - amount)];
      outcome := Ok;
    }

    method Transfer(source: int, destination: int, amount: int) returns (outcome: Outcome)
      modifies this
      ensures Step(outcome, accounts) == Transferred(old(accounts), source, destination, amount)
    {
      var from := FindAccount(accounts, source);
      var to := FindAccount(accounts, destination);
      if from.None? || to.None? {
        return NotFound;
      }
      if amount <= 0 {
        return InvalidAmount;
      }
      var i, j := from.value, to.value;
      if accounts[i].balance < amount {
        return Insufficient;
      }
      // Debit first, then credit through the destination's index: when both
      // indices are the same account the two updates cancel out.
      accounts := accounts[i := accounts[i].(balance := accounts[i].balance - amount)];
      accounts := accounts[j := accounts[j].(balance := accounts[j].balance + amount)];
      outcome := Ok;
    }
  }

  /** A session that uses the bank only through the contracts above: two
      accounts are opened, money is moved from the first to the second, and
      an overdraft is refused without touching the balance. */
  method Session()
  {
    var bank := new Bank([]);
    var o := bank.OpenAccount(100, 500, "Alice");
    assert o == Ok;
    o := bank.OpenAccount(200, 0, "Bob");
    assert o == Ok;
    assert FindAccount(bank.accounts, 100) == Some(0);
    assert FindAccount(bank.accounts, 200) == Some(1);
    o := bank.OpenAccount(100, 7, "Carol");
    assert o == Duplicate;
    o := bank.Transfer(100, 200, 300);
    assert o == Ok;
    assert bank.accounts == [Account(100, 200, "Alice"), Account(200, 300, "Bob")];
    o := bank.Withdraw(100, 500);
    assert o == Insufficient;
    assert bank.accounts[0].balance == 200;
  }
}
