# Bank account store — a verified model

The repository is a console banking tool. Its only real logic is the `Bank`
class in `Program.cs`. That class keeps a `List<BankAccount>`, and each
record holds an account number, a balance and an owner. It offers four
operations that change the list: open an account, deposit, withdraw and
transfer. Opening checks whether the number is already taken with
`accounts.Any(...)` (Program.cs:57), modelled by `HasNumber`. The other three
start from one lookup, `FindAccount`, which returns the first account with the
given number, or `null` when there is none (Program.cs:199).

This project models that store in two modules:

- `Accounts` (`accounts.dfy`) holds the `Account` record and the lookup.
  It also says, as one pure function per operation, what the operation does
  to the list of accounts: `Opened`, `Deposited`, `Withdrawn` and
  `Transferred`. Each function returns a `Step`, which pairs the branch that
  ran (`Ok`, `Duplicate`, `NotFound`, `InvalidAmount` or `Insufficient`)
  with the resulting list. The lemmas about totals, lookups, uniqueness and
  non-negative balances are stated over these functions.
- `Banking` (`bank.dfy`) holds the `Bank` class. Its field `accounts` is
  updated in place by methods with the source's names. Each method is
  proved to leave exactly the outcome and list that its function in
  `Accounts` describes.

In the source, `FindAccount` returns a reference, and the balance is changed
through that reference. Here the list is a `seq<Account>` of values, so a
reference is modelled as the index of the first record with the wanted
number, and the update lands at that index. A transfer debits the source
index first. It then credits the destination index in the list that is
already updated. So a transfer from an account to itself nets to no change,
just as the two `+=`/`-=` statements on one object do in the source.

Guards are checked in the source's order:

- account not found, then amount `<= 0`, then balance `< amount`;
- for a transfer, both lookups come before the amount check.

Every rejection leaves the list untouched.

Three facts about the code shape the model:

- `FindAccount` returns `null` when nothing matches (Program.cs:199). This is
  modelled as `None`.
- The store is a list. After a load from file (Program.cs:179) it can hold
  duplicate numbers. Lookups therefore take the first match, and uniqueness of
  numbers is proved to be preserved by the operations, not assumed of every
  list.
- The operations report new balances only by printing them. The model returns
  the outcome alone.

## Model

| member | source | states |
|---|---|---|
| `Accounts.HasNumber` | Program.cs:57 | true exactly when some account in the list carries the number, the test `Any` makes before opening |
| `Accounts.FindAccount` | Program.cs:197-200 | returns None exactly when no account has the number; otherwise an index in range whose account has the number and before which no account has it (the first match) |
| `Accounts.Opened` | Program.cs:55-66 | rejected as Duplicate exactly when the number is already present, leaving the list unchanged; otherwise the old list is kept as a prefix and exactly one record with the given number, balance and owner is appended; unique numbers stay unique |
| `Accounts.Deposited` | Program.cs:83-101 | NotFound exactly when the number is absent, InvalidAmount exactly when it is present and amount <= 0, and then the list is unchanged; on Ok only the first matching account changes, its balance rising by exactly amount; numbers, owners and length never change |
| `Accounts.Withdrawn` | Program.cs:103-127 | NotFound, InvalidAmount and Insufficient each hold exactly when their guard is the first one to fail, and then the list is unchanged; on Ok only the first matching account changes, its balance falling by exactly amount and staying >= 0; numbers, owners and length never change |
| `Accounts.Transferred` | Program.cs:129-158 | NotFound when either number is absent, then InvalidAmount, then Insufficient on the source balance, each exactly when its guard is the first to fail and each leaving the list unchanged; a self-transfer changes nothing; otherwise only the source and destination change, the source falling and the destination rising by amount, the source staying >= 0; numbers, owners and length never change |
| `Accounts.OpenTotal` | Program.cs:55-64 | a successful opening raises the sum of all balances by the opening balance; a rejected one leaves it as it was |
| `Accounts.DepositTotal` | Program.cs:93-99 | a successful deposit raises the sum of all balances by exactly the amount; any other outcome leaves it as it was |
| `Accounts.WithdrawTotal` | Program.cs:113-125 | a successful withdrawal lowers the sum of all balances by exactly the amount; any other outcome leaves it as it was |
| `Accounts.TransferConservesTotal` | Program.cs:152-153 | every transfer, successful or not, leaves the sum of all balances unchanged |
| `Accounts.FindAccountSameShape` | Program.cs:197-200 | two lists with the same account numbers at every position give the same answer to every lookup |
| `Accounts.OpenThenFind` | Program.cs:55-64 | after an account is opened under a number not yet in use, looking that number up finds the new record, at the end of the list |
| `Accounts.LookupsStable` | Program.cs:83-158 | deposits, withdrawals and transfers never move an account: every number is found at the same index before and after |
| `Accounts.OpenKeepsLookups` | Program.cs:55-64 | a later opening never moves an existing account: every number that is already present, or differs from the new one, is found at the same index before and after |
| `Accounts.UniqueNumbersPreserved` | Program.cs:55-158 | if no two accounts share a number, none do after any opening, deposit, withdrawal or transfer |
| `Accounts.NonNegativeBalancesPreserved` | Program.cs:103-158 | if no balance is negative, none is after any deposit, withdrawal or transfer |
| `Accounts.OpenAcceptsNegativeBalance` | Program.cs:55-64 | opening does not check the sign of the opening balance: under a fresh number, any negative opening balance is accepted, and the list then holds a negative balance |
| `Banking.Bank.constructor` | Program.cs:49-53 | the bank starts with exactly the given list, which stands for what the load produced |
| `Banking.Bank.OpenAccount` | Program.cs:55-66 | the outcome and the new list are exactly those of `Opened` on the old list |
| `Banking.Bank.Deposit` | Program.cs:83-101 | the outcome and the new list are exactly those of `Deposited` on the old list |
| `Banking.Bank.Withdraw` | Program.cs:103-127 | the outcome and the new list are exactly those of `Withdrawn` on the old list |
| `Banking.Bank.Transfer` | Program.cs:129-158 | the outcome and the new list are exactly those of `Transferred` on the old list, debit before credit |

## Left out

- Accounts.Deposited: balances are unbounded integers. The 32-bit wrap-around of `Balance += amount` (Program.cs:99) is not modelled.
- Accounts.Transferred: the same holds for the credit to the destination (Program.cs:153). The debit cannot wrap, because it runs only when the balance is at least the positive amount.
- Accounts.DepositTotal: relies on unbounded integers; in C# a deposit onto a balance near `int.MaxValue` wraps and the total does not rise by the amount (Program.cs:99).
- Accounts.TransferConservesTotal: relies on unbounded integers; a credit that wraps the destination balance (Program.cs:153) breaks conservation in C#.
- Accounts.NonNegativeBalancesPreserved: relies on unbounded integers; in C# a deposit or credit that wraps past `int.MaxValue` turns a balance negative (Program.cs:99, 153).
- Banking.Bank.Deposit: does not model 32-bit wrap-around, as for `Accounts.Deposited`.
- Banking.Bank.Transfer: does not model 32-bit wrap-around, as for `Accounts.Transferred`.
- Console messages (Program.cs:59, 65, 74-80, 89-157) are I/O. Only the branch they report is modelled, as the `Outcome` value. The new balances the messages print can be read from the resulting list.
- `SaveDataToFile`, `LoadDataFromFile` and `CloseBank` (Program.cs:159-196) are file I/O and JSON serialization through a library whose format is not visible here. The constructor takes the loaded list as a parameter instead. A load that yields `null`, or a failed load, is not modelled.
- `DisplayAccountInfo` (Program.cs:68-82) only prints the result of `FindAccount`.
- `Program.Main` (Program.cs:204-296) is the interactive menu loop and its input parsing.
- A `null` owner name is not modelled; owners are plain strings.
- `BankAccount`'s parameterless constructor (Program.cs:31-34) is used only by JSON deserialization, which is left out.
