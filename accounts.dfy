/** The account records of the bank and, as pure functions over the list of
    accounts, what each operation of the store does to that list.

    The store keeps its accounts in an ordered list that may in principle hold
    two records with the same number (nothing but account opening guards
    against that), and every lookup takes the FIRST record with the wanted
    number. A reference to an account is modelled by that record's index. */
module Accounts {

  datatype Option<+T> = None | Some(value: T)

  /** One bank account: its number, its balance in whole currency units and
      its owner's name. */
  datatype Account = Account(number: int, balance: int, owner: string)

  /** Which branch of an operation ran. */
  datatype Outcome = Ok | Duplicate | NotFound | InvalidAmount | Insufficient

  /** The outcome of an operation together with the list of accounts after it. */
  datatype Step = Step(outcome: Outcome, accounts: seq<Account>)

  /** Some account in the list has this number: the membership test that
      guards account opening. */
  predicate HasNumber(s: seq<Account>, number: int)
    ensures HasNumber(s, number) <==> exists a :: a in s && a.number == number
  {
    exists i :: 0 <= i < |s| && s[i].number == number
  }

  /** No two accounts in the list share a number. */
  predicate UniqueNumbers(s: seq<Account>)
  {
    forall i, j :: 0 <= i < j < |s| ==> s[i].number != s[j].number
  }

  /** Both lists have the same length and, position by position, the same
      account numbers and owners; only balances may differ. */
  predicate SameShape(s: seq<Account>, t: seq<Account>)
  {
    |s| == |t| &&
    forall k :: 0 <= k < |s| ==> s[k].number == t[k].number && s[k].owner == t[k].owner
  }

  /** `t` is `s` with the balance of the account at index `i` moved by
      `delta` and every other account left exactly as it was. */
  predicate ChangedOnlyAt(s: seq<Account>, t: seq<Account>, i: nat, delta: int)
  {
    |t| == |s| && i < |s| &&
    t[i] == s[i].(balance := s[i].balance + delta) &&
    forall k :: 0 <= k < |s| && k != i ==> t[k] == s[k]
  }

  /** Every balance in the list is non-negative. */
  predicate NonNegativeBalances(s: seq<Account>)
  {
    forall k :: 0 <= k < |s| ==> s[k].balance >= 0
  }

  /** The sum of all balances in the list. */
  function Total(s: seq<Account>): int
  {
    if s == [] then 0 else s[0].balance + Total(s[1..])
  }

  /** The account at index `i` with its balance moved by `delta`. */
  function Adjust(s: seq<Account>, i: nat, delta: int): seq<Account>
    requires i < |s|
  {
    s[i := s[i].(balance := s[i].balance + delta)]
  }

  /** The lookup every operation starts with: the index of the first account
      carrying `number`, or None when no account does. */
  function FindAccount(s: seq<Account>, number: int): (r: Option<nat>)
    ensures r.None? <==> !HasNumber(s, number)
    ensures r.Some? ==> r.value < |s| && s[r.value].number == number
    ensures r.Some? ==> forall k :: 0 <= k < r.value ==> s[k].number != number
  {
    if s == [] then None
    else if s[0].number == number then Some(0)
    else
      match FindAccount(s[1..], number)
      case None =>
        assert forall k :: 1 <= k < |s| ==> s[k] == s[1..][k - 1];
        None
      case Some(k) => Some(k + 1)
  }

  /** Opening an account: rejected when the number is already in use,
      otherwise the new record is appended at the end. The opening balance is
      not checked. */
  function Opened(s: seq<Account>, number: int, balance: int, owner: string): (r: Step)
    ensures r.outcome == Ok || r.outcome == Duplicate
    ensures r.outcome == Duplicate <==> HasNumber(s, number)
    ensures r.outcome == Duplicate ==> r.accounts == s
    ensures r.outcome == Ok ==>
      |r.accounts| == |s| + 1 && r.accounts[..|s|] == s &&
      r.accounts[|s|] == Account(number, balance, owner)
    ensures UniqueNumbers(s) ==> UniqueNumbers(r.accounts)
  {
    if HasNumber(s, number) then Step(Duplicate, s)
    else Step(Ok, s + [Account(number, balance, owner)])
  }

  /** Depositing: a missing account is reported before a non-positive
      amount; on success only the found account's balance grows, by exactly
      `amount`. */
  function Deposited(s: seq<Account>, number: int, amount: int): (r: Step)
    ensures SameShape(s, r.accounts)
    ensures r.outcome in {Ok, NotFound, InvalidAmount}
    ensures r.outcome == NotFound <==> !HasNumber(s, number)
    ensures r.outcome == InvalidAmount <==> HasNumber(s, number) && amount <= 0
    ensures r.outcome != Ok ==> r.accounts == s
    ensures r.outcome == Ok ==> ChangedOnlyAt(s, r.accounts, FindAccount(s, number).value, amount)
  {
    match FindAccount(s, number)
    case None => Step(NotFound, s)
    case Some(i) =>
      if amount <= 0 then Step(InvalidAmount, s)
      else Step(Ok, Adjust(s, i, amount))
  }

  /** Withdrawing: a missing account, then a non-positive amount, then a
      balance below the amount are rejected in that order; on success only
      the found account's balance shrinks, by exactly `amount`, and stays
      non-negative. */
  function Withdrawn(s: seq<Account>, number: int, amount: int): (r: Step)
    ensures SameShape(s, r.accounts)
    ensures r.outcome in {Ok, NotFound, InvalidAmount, Insufficient}
    ensures r.outcome == NotFound <==> !HasNumber(s, number)
    ensures r.outcome == InvalidAmount <==> HasNumber(s, number) && amount <= 0
    ensures r.outcome == Insufficient <==>
      HasNumber(s, number) && amount > 0 && s[FindAccount(s, number).value].balance < amount
    ensures r.outcome != Ok ==> r.accounts == s
    ensures r.outcome == Ok ==>
      var i := FindAccount(s, number).value;
      ChangedOnlyAt(s, r.accounts, i, -amount) && r.accounts[i].balance >= 0
  {
    match FindAccount(s, number)
    case None => Step(NotFound, s)
    case Some(i) =>
      if amount <= 0 then Step(InvalidAmount, s)
      else if s[i].balance < amount then Step(Insufficient, s)
      else Step(Ok, Adjust(s, i, -amount))
  }

  /** Transferring: a missing source or destination, then a non-positive
      amount, then a source balance below the amount are rejected in that
      order. On success the source is debited first and the destination
      credited afterwards, both through the index of their first record, so
      a transfer from an account to itself leaves it as it was. */
  function Transferred(s: seq<Account>, source: int, destination: int, amount: int): (r: Step)
    ensures SameShape(s, r.accounts)
    ensures r.outcome in {Ok, NotFound, InvalidAmount, Insufficient}
    ensures r.outcome == NotFound <==> !HasNumber(s, source) || !HasNumber(s, destination)
    ensures r.outcome == InvalidAmount <==>
      HasNumber(s, source) && HasNumber(s, destination) && amount <= 0
    ensures r.outcome == Insufficient <==>
      HasNumber(s, source) && HasNumber(s, destination) && amount > 0 &&
      s[FindAccount(s, source).value].balance < amount
    ensures r.outcome != Ok ==> r.accounts == s
    ensures source == destination ==> r.accounts == s
    ensures r.outcome == Ok && source != destination ==>
      var i, j := FindAccount(s, source).value, FindAccount(s, destination).value;
      i != j &&
      r.accounts[i] == s[i].(balance := s[i].balance - amount) &&
      r.accounts[j] == s[j].(balance := s[j].balance + amount) &&
      r.accounts[i].balance >= 0 &&
      forall k :: 0 <= k < |s| && k != i && k != j ==> r.accounts[k] == s[k]
  {
    match (FindAccount(s, source), FindAccount(s, destination))
    case (None, _) => Step(NotFound, s)
    case (_, None) => Step(NotFound, s)
    case (Some(i), Some(j)) =>
      if amount <= 0 then Step(InvalidAmount, s)
      else if s[i].balance < amount then Step(Insufficient, s)
      else Step(Ok, Adjust(Adjust(s, i, -amount), j, amount))
  }

  // ---------------------------------------------------------------------
  // Properties relating the operations to each other and to the totals.

  /** Moving one balance by `delta` moves the sum of all balances by
      `delta`. */
  lemma {:induction false} TotalAdjust(s: seq<Account>, i: nat, delta: int)
    requires i < |s|
    ensures Total(Adjust(s, i, delta)) == Total(s) + delta
  {
    if i > 0 {
      TotalAdjust(s[1..], i - 1, delta);
      assert Adjust(s, i, delta)[1..] == Adjust(s[1..], i - 1, delta);
    }
  }

  /** Appending an account adds its balance to the sum. */
  lemma {:induction false} TotalAppend(s: seq<Account>, a: Account)
    ensures Total(s + [a]) == Total(s) + a.balance
  {
    if s != [] {
      TotalAppend(s[1..], a);
      assert (s + [a])[1..] == s[1..] + [a];
    }
  }

  /** A successful opening adds the opening balance to the total; a
      rejected one leaves it unchanged. */
  lemma OpenTotal(s: seq<Account>, number: int, balance: int, owner: string)
    ensures var r := Opened(s, number, balance, owner);
      Total(r.accounts) == if r.outcome == Ok then Total(s) + balance else Total(s)
  {
    if !HasNumber(s, number) {
      TotalAppend(s, Account(number, balance, owner));
    }
  }

  /** A successful deposit raises the total by the amount. */
  lemma DepositTotal(s: seq<Account>, number: int, amount: int)
    ensures var r := Deposited(s, number, amount);
      Total(r.accounts) == if r.outcome == Ok then Total(s) + amount else Total(s)
  {
    if FindAccount(s, number).Some? && amount > 0 {
      TotalAdjust(s, FindAccount(s, number).value, amount);
    }
  }

  /** A successful withdrawal lowers the total by the amount. */
  lemma WithdrawTotal(s: seq<Account>, number: int, amount: int)
    ensures var r := Withdrawn(s, number, amount);
      Total(r.accounts) == if r.outcome == Ok then Total(s) - amount else Total(s)
  {
    var r := Withdrawn(s, number, amount);
    if r.outcome == Ok {
      TotalAdjust(s, FindAccount(s, number).value, -amount);
    }
  }

  /** Every transfer, successful or not, leaves the sum of all balances
      unchanged. */
  lemma TransferConservesTotal(s: seq<Account>, source: int, destination: int, amount: int)
    ensures Total(Transferred(s, source, destination, amount).accounts) == Total(s)
  {
    var r := Transferred(s, source, destination, amount);
    if r.outcome == Ok {
      var i, j := FindAccount(s, source).value, FindAccount(s, destination).value;
      TotalAdjust(s, i, -amount);
      TotalAdjust(Adjust(s, i, -amount), j, amount);
    }
  }

  /** Lists with the same numbers position by position answer every lookup
      the same way. */
  lemma FindAccountSameShape(s: seq<Account>, t: seq<Account>, number: int)
    requires SameShape(s, t)
    ensures FindAccount(s, number) == FindAccount(t, number)
  {
  }

  /** Once an account is opened under a fresh number, looking that number up
      finds the new record at the end of the list. */
  lemma OpenThenFind(s: seq<Account>, number: int, balance: int, owner: string)
    requires !HasNumber(s, number)
    ensures var r := Opened(s, number, balance, owner);
      FindAccount(r.accounts, number) == Some(|s|) &&
      r.accounts[|s|] == Account(number, balance, owner)
  {
  }

  /** Opening another account never moves an existing one: every number
      already present, or different from the new one, is found at the same
      index before and after. */
  lemma OpenKeepsLookups(s: seq<Account>, number: int, newNumber: int, balance: int, owner: string)
    requires number != newNumber || HasNumber(s, number)
    ensures FindAccount(Opened(s, newNumber, balance, owner).accounts, number) == FindAccount(s, number)
  {
  }

  /** Deposits, withdrawals and transfers never move an account: a number is
      found at the same index before and after. */
  lemma LookupsStable(s: seq<Account>, number: int, other: int, destination: int, amount: int)
    ensures FindAccount(Deposited(s, other, amount).accounts, number) == FindAccount(s, number)
    ensures FindAccount(Withdrawn(s, other, amount).accounts, number) == FindAccount(s, number)
    ensures FindAccount(Transferred(s, other, destination, amount).accounts, number) == FindAccount(s, number)
  {
    FindAccountSameShape(s, Deposited(s, other, amount).accounts, number);
    FindAccountSameShape(s, Withdrawn(s, other, amount).accounts, number);
    FindAccountSameShape(s, Transferred(s, other, destination, amount).accounts, number);
  }

  /** Unique numbers stay unique across every operation. */
  lemma UniqueNumbersPreserved(s: seq<Account>, number: int, other: int, amount: int, balance: int, owner: string)
    requires UniqueNumbers(s)
    ensures UniqueNumbers(Opened(s, number, balance, owner).accounts)
    ensures UniqueNumbers(Deposited(s, number, amount).accounts)
    ensures UniqueNumbers(Withdrawn(s, number, amount).accounts)
    ensures UniqueNumbers(Transferred(s, number, other, amount).accounts)
  {
  }

  /** Deposits, withdrawals and transfers never drive a balance below zero:
      if no balance was negative before, none is after. */
  lemma NonNegativeBalancesPreserved(s: seq<Account>, number: int, other: int, amount: int)
    requires NonNegativeBalances(s)
    ensures NonNegativeBalances(Deposited(s, number, amount).accounts)
    ensures NonNegativeBalances(Withdrawn(s, number, amount).accounts)
    ensures NonNegativeBalances(Transferred(s, number, other, amount).accounts)
  {
  }

  /** Unlike the other operations, opening does not guard the sign: an
      account can be opened with a negative balance. */
  lemma OpenAcceptsNegativeBalance(s: seq<Account>, number: int, balance: int, owner: string)
    requires !HasNumber(s, number) && balance < 0
    ensures var r := Opened(s, number, balance, owner);
      r.outcome == Ok && !NonNegativeBalances(r.accounts)
  {
  }
}
