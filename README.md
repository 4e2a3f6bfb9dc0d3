# pix-bank ledger, modelled in Dafny

pix-bank is a small in-memory bank. Amounts are `long` cents. It has:

- **Accounts.** Each is found by any of its PIX keys. It has a balance and an append-only trail of `MoneyAudit` records.
- **Investment products.** Each has a sequential id, a yield percentage and a minimum stake.
- **Investment wallets.** At most one per account. Each holds money moved out of its account and earns its product's percentage on each yield round.

This project models that ledger core:

- **`Wallet`**: the credit and debit rules of the abstract wallet, as pure functions over the balance. It adds a replay of a sequence of calls, with lemmas about what a history of calls leaves behind.
- **`Accounts.AccountWallet`**: the checking account.
  - A class with the account's keys, balance and trail.
  - Its mutators follow `Wallet.addMoney` / `Wallet.reduceMoney` exactly.
  - The constructor that can throw becomes `Open`, which returns a `Result`.
- **`Investments.InvestmentWallet`**: the investment wallet.
  - It has its own balance and trail, a credit with no guard, a debit with no guard and no audit record, and the yield step with Java's truncating division.
  - Its constructor debits the linked account.
- **`Money.Money`**: a money token with its own audit list.
- **`Commons`**:
  - the shared funds check (`NoFundsEnough`);
  - `generateMoney`, which makes `funds` distinct tokens that all equal each other.
- **`AccountRepo.AccountRepository`**: the account registry.
  - Creation rejects keys that are already in use, reporting the first such key.
  - Lookup returns the first owner of a key.
  - Also: deposit, withdrawal and transfer.
  - Invariants: keys stay disjoint across accounts; a transfer moves money between two accounts and keeps their total.
- **`InvestmentRepo.InvestmentRepository`**: the investment registry.
  - Products are numbered 1, 2, 3, ... in creation order.
  - At most one wallet per account, compared by reference.
  - Operations: deposit into a wallet, redemption (a wallet whose balance reaches 0 is removed), and the yield round over all wallets.
- **`Errors`**: one error constructor per exception class of the `exception` package. An `IllegalArgument` constructor, with its reason, stands for `java.lang.IllegalArgumentException`.
- **`Values`**: the records `MoneyAudit` and `Investment` and the enum `BankService`.
- **`JavaText`**: the Java arithmetic and text the core relies on:
  - truncating `/` and `%`;
  - `Long.toString`;
  - `String.format("%02d", …)`;
  - the `R$` rendering `c/100 + "," + %02d(c%100)`.

Each audit record is given a `Stamp(id, at)`, one per record. It stands for `UUID.randomUUID()` and `OffsetDateTime.now()`. So randomness and the clock are parameters and the model is deterministic.

Points where the code's behaviour is easy to miss, each modelled as written:

- **`AccountRepository.create`** checks the new keys only against keys already registered. A list that repeats one of its own keys is accepted. `Create` states this precisely, and proves that global uniqueness is kept when the given list has no repeats of its own.
- **`InvestmentRepository.withdraw`** does not leave the state unchanged on every error:
  - The funds check passes a non-positive amount.
  - The wallet's `reduceMoney` then changes the wallet's balance: it grows by `-funds`.
  - Only after that does the account's `addMoney` throw.
  - `InvestmentRepo.InvestmentRepository.Withdraw` states this partial change.
- **`InvestmentRepository.deposit`** gets its errors from the account's `reduceMoney` (`IllegalArgument`: not positive / insufficient balance). It does not throw `NoFundsEnough`.
- **`InvestmentRepository.create`** does not check the rate. From a non-negative start, every yield round keeps a wallet's balance non-negative as long as its product pays at least -100 percent (`Investments.YieldNonNegative`). Below -100 percent that fails: a yield of -200 percent takes 100 cents to -100 (`Investments.YieldNegativeExample`). `InvestmentRepo.InvestmentRepository.UpdateAmount` therefore keeps wallet solvency only under that condition on the rates.
- **The `InvestmentWallet` constructor** has a third record, "Aplicação em …". It is added to the copy returned by `getFinancialTransactions()`, so it never reaches the account. The account's trail grows by exactly one record.

## Model

| member | source | states |
|---|---|---|
| Wallet.Credit | src/Main/java/model/Wallet.java:49-60 | a credit is accepted exactly when the amount is positive, and then the balance grows by exactly that amount; otherwise `IllegalArgument(NotPositive)` |
| Wallet.Debit | src/Main/java/model/Wallet.java:70-88 | a debit is accepted exactly when 0 < amount <= balance, leaving a balance in [0, balance) lowered by the amount; the two refusals in source order (not positive first, then insufficient balance) |
| Wallet.ReplayAppend | src/Main/java/model/Wallet.java:49-88 | replaying one more call continues from the balance the earlier calls left |
| Wallet.ReplayNonNegative | src/Main/java/model/Wallet.java:70-88 | from a non-negative balance, no sequence of credits and debits makes the balance negative |
| Wallet.ReplayIsAuditedSum | src/Main/java/model/Wallet.java:49-88 | after any sequence of calls, the balance is the start plus the signed sum of exactly the accepted calls (those that append an audit record), each accepted amount is positive, and no more calls are accepted than made |
| JavaText.JavaDivision | src/Main/java/model/InvestmentWallet.java:118 | Java's truncating `/` and `%`: quotient-remainder identity, the sign and bound of the remainder, agreement with Euclidean division for non-negative operands, sign symmetry of the quotient |
| JavaText.NatToString | src/Main/java/model/AccountWallet.java:44 | the decimal rendering of a long is non-empty, all digits, without a leading zero, a single digit exactly for values below 10 |
| JavaText.ParseNatToString | src/Main/java/model/AccountWallet.java:44 | the decimal rendering reads back to the same number |
| JavaText.ReaisRoundTrip | src/Main/java/model/AccountWallet.java:44 | for non-negative cents the `R$` rendering has a comma followed by exactly two digits; the digits before it read back as `c/100` and the two after it as `c%100` |
| Accounts.AccountWallet.constructor | src/Main/java/model/Wallet.java:37-40 | a new wallet starts with balance 0, an empty trail and the given keys (its service is fixed to ACCOUNT) |
| Accounts.AccountWallet.Open | src/Main/java/model/AccountWallet.java:28-32 | building an account succeeds exactly when the opening deposit is positive; the new account then holds the keys, that balance and exactly one ACCOUNT record of the deposit |
| Accounts.AccountWallet.AddMoney | src/Main/java/model/Wallet.java:49-60 | a non-positive amount is refused with nothing changed; otherwise the balance grows by the amount and exactly one ACCOUNT record is appended; the new balance is the `Wallet` rule's |
| Accounts.AccountWallet.ReduceMoney | src/Main/java/model/Wallet.java:70-88 | refusals as in the rule with nothing changed; otherwise returns the amount, the balance drops by it and stays non-negative, and exactly one ACCOUNT record is appended; the new balance is the `Wallet` rule's |
| Accounts.AccountWallet.FinancialTransactions | src/Main/java/model/Wallet.java:95-97 | the trail as a detached value: same records in the same order, and changing it cannot change the wallet |
| Accounts.AccountWallet.Funds | src/Main/java/model/Wallet.java:104-106 | the getter returns the current balance and changes nothing |
| Accounts.AccountText | src/Main/java/model/AccountWallet.java:41-46 | the layout of the account's text: it opens with `AccountWallet{pix=`, the key list and the amount each occupy their own slice, and it closes with `}` |
| Accounts.AccountWallet.ToString | src/Main/java/model/AccountWallet.java:41-46 | the account's text opens with `AccountWallet{pix=`, then the rendered key list; the rendered balance sits just before the closing `}` |
| Accounts.AccountWallet.ToStringShowsBalance | src/Main/java/model/AccountWallet.java:44 | for a non-negative balance, the two digits before the closing brace follow a comma and read back as `balance % 100` |
| Investments.YieldBounds | src/Main/java/model/InvestmentWallet.java:117-119 | for non-negative balance and rate the yield is the floored percentage: it never lowers the balance and never credits more than `balance*percent/100` |
| Investments.YieldNegative | src/Main/java/model/InvestmentWallet.java:118 | for a negative balance the truncating division rounds the earnings toward zero, mirroring the positive case |
| Investments.YieldNonNegative | src/Main/java/model/InvestmentWallet.java:117-119 | a rate of at least -100 percent never takes a non-negative balance below zero |
| Investments.YieldBelowMinusHundred | src/Main/java/model/InvestmentWallet.java:117-119 | below -100 percent a positive balance falls to 0 or below; at -200 percent or lower it always goes negative |
| Investments.YieldNegativeExample | src/Main/java/model/InvestmentWallet.java:118 | the concrete case: 100 cents at -200 percent yield -100 cents |
| Investments.InvestmentWallet.constructor | src/Main/java/model/InvestmentWallet.java:46-49 | the wallet is linked to its product and account and starts with balance 0 and an empty trail |
| Investments.InvestmentWallet.Open | src/Main/java/model/InvestmentWallet.java:46-74 | it succeeds exactly when 0 < amount <= the account's balance, with the account's refusal otherwise and the account unchanged. On success the account loses the amount with exactly one record (the initial-withdrawal text naming the product's stake), and the wallet holds the amount with one INVESTMENT record |
| Investments.InvestmentWallet.AddMoney | src/Main/java/model/InvestmentWallet.java:82-90 | no guard: the balance changes by the amount, whatever its sign, and one INVESTMENT record is appended |
| Investments.InvestmentWallet.ReduceMoney | src/Main/java/model/InvestmentWallet.java:98-101 | no guard and no record: returns the amount, the balance drops by it, the trail is untouched |
| Investments.InvestmentWallet.UpdateAmount | src/Main/java/model/InvestmentWallet.java:117-126 | the balance becomes the yield of the old balance at the given rate (never lower for non-negative inputs), with one record naming the rate |
| Investments.InvestmentWallet.FinancialTransactions | src/Main/java/model/InvestmentWallet.java:133-135 | the wallet's own trail as a detached value |
| Investments.InvestmentWallet.Funds | src/Main/java/model/InvestmentWallet.java:108-110 | the getter returns the wallet's own balance (the shadowing field) and changes nothing |
| Money.Money.constructor | src/Main/java/model/Money.java:29-31 | a token starts with a history of exactly the given record |
| Money.Money.AddHistory | src/Main/java/model/Money.java:38-40 | the record is appended; earlier records stay in place |
| Money.Money.Equals | src/Main/java/model/Money.java:14 | two tokens are equal exactly when their histories have the same length and equal records at every position |
| Money.EqualsIsEquivalence | src/Main/java/model/Money.java:14 | token equality is reflexive, symmetric and transitive |
| Commons.CheckFunds | src/Main/java/repository/CommonsRepository.java:31-35 | the check fails, with `NoFundsEnough`, exactly when the funds are below the amount |
| Commons.CheckFundsBoundary | src/Main/java/repository/CommonsRepository.java:31-35 | spending exactly the whole balance passes, one cent more fails, and any passing amount is at most the funds |
| Commons.GenerateMoney | src/Main/java/repository/CommonsRepository.java:46-49 | a negative size is refused; otherwise exactly `funds` new tokens, pairwise distinct objects, each holding the one ACCOUNT record, and all equal under `Money`'s value equality |
| AccountRepo.FirstWithKey | src/Main/java/repository/AccountRepository.java:67-72 | the index of the first key list containing the key, none earlier contains it; none exactly when no list contains it |
| AccountRepo.FirstClash | src/Main/java/repository/AccountRepository.java:22-29 | the first of the given keys already in use, none before it in use; none exactly when no given key is in use |
| AccountRepo.InFlatten | src/Main/java/repository/AccountRepository.java:23 | a key is among all keys in use exactly when some account holds it |
| AccountRepo.FlattenAppend | src/Main/java/repository/AccountRepository.java:31 | appending an account appends its keys to the keys in use |
| AccountRepo.AppendKeepsDisjoint | src/Main/java/repository/AccountRepository.java:21-33 | appending an account none of whose keys is in use keeps every key owned by at most one account |
| AccountRepo.UniqueKeysAfterAppend | src/Main/java/repository/AccountRepository.java:21-33 | if the keys in use and the new keys each have no repeats, and none of the new keys is in use, then the combined keys have no repeats |
| AccountRepo.MovedSteps | src/Main/java/repository/AccountRepository.java:63-64 | debiting one balance and then crediting another by the same amount is the transfer `Moved`, and keeps the total |
| AccountRepo.MovedKeepsSum | src/Main/java/repository/AccountRepository.java:53-66 | a transfer keeps the sum of all balances, also from an account to itself |
| AccountRepo.MovedKeepsNonNegative | src/Main/java/repository/AccountRepository.java:53-66 | a covered transfer keeps every balance non-negative |
| AccountRepo.AccountRepository.constructor | src/Main/java/repository/AccountRepository.java:19 | the registry starts empty and valid |
| AccountRepo.AccountRepository.Create | src/Main/java/repository/AccountRepository.java:21-33 | refuses with `PixInUse` of the first given key already in use; then `IllegalArgument` for a non-positive deposit. It succeeds exactly when neither applies, and then appends one new account with the keys, the deposit and its record. Keys stay disjoint; keys stay unique when the list has no repeats of its own |
| AccountRepo.AccountRepository.FindByPix | src/Main/java/repository/AccountRepository.java:67-72 | the first registered account holding the key; `AccountNotFound(key)` exactly when none holds it |
| AccountRepo.AccountRepository.Deposit | src/Main/java/repository/AccountRepository.java:35-38 | `AccountNotFound` for an unknown key, `IllegalArgument` for a non-positive amount, each with every balance and trail unchanged. Otherwise only the key's account is credited by the amount, with exactly one record. No account is overdrawn afterwards either |
| AccountRepo.AccountRepository.Withdraw | src/Main/java/repository/AccountRepository.java:40-51 | errors in source order (not found, `NoFundsEnough`, not positive) with nothing changed. Otherwise returns the amount; only that account is debited, with one record "Saque no valor de: R$…". Solvency is kept |
| AccountRepo.AccountRepository.TransferMoney | src/Main/java/repository/AccountRepository.java:53-66 | errors in source order (source not found, `NoFundsEnough`, target not found, not positive) with every balance and trail unchanged. Otherwise both legs happen: the balances are the transfer `Moved`, and the two trails gain the sent and received records in that order. The total of all balances is always kept, and solvency too |
| AccountRepo.AccountRepository.MoveFunds | src/Main/java/repository/AccountRepository.java:63-64 | the two legs: a non-positive amount is refused before any change; an accepted debit is always followed by the credit |
| AccountRepo.AccountRepository.List | src/Main/java/repository/AccountRepository.java:74-76 | the registered accounts, in order, as a copy |
| InvestmentRepo.FirstWithId | src/Main/java/repository/InvestmentRepository.java:136-142 | the first product with the id, none earlier has it; none exactly when no product has it |
| InvestmentRepo.ConsecutiveIdsLookup | src/Main/java/repository/InvestmentRepository.java:44-49 | with ids numbered consecutively, the lookup by id is the offset into the list, and ids outside the range find nothing |
| InvestmentRepo.FirstWalletWithKey | src/Main/java/repository/InvestmentRepository.java:151-158 | the first wallet whose account holds the key; none exactly when no linked account holds it |
| InvestmentRepo.AccountsOf | src/Main/java/repository/InvestmentRepository.java:62 | the linked accounts, one per wallet, in order |
| InvestmentRepo.FirstIndexOf | src/Main/java/repository/InvestmentRepository.java:117 | the first occurrence of the wallet (by reference), which `List.remove` takes out |
| InvestmentRepo.RemoveAt | src/Main/java/repository/InvestmentRepository.java:117 | the list without that one element: the ones before stay, the ones after shift down by one |
| InvestmentRepo.RemoveAtKeepsOnePerAccount | src/Main/java/repository/InvestmentRepository.java:116-118 | removing a wallet keeps at most one wallet per account, and its account then backs none |
| InvestmentRepo.NoWalletForKeyAfterRemoval | src/Main/java/repository/InvestmentRepository.java:116-118 | after the removal, for linked accounts with disjoint keys, the emptied account's key finds no wallet |
| InvestmentRepo.AppendKeepsNonNegative | src/Main/java/repository/InvestmentRepository.java:70 | registering a wallet that is not below zero keeps every wallet balance non-negative |
| InvestmentRepo.RemoveAtKeepsNonNegative | src/Main/java/repository/InvestmentRepository.java:117 | removing a wallet keeps every remaining balance non-negative |
| InvestmentRepo.Redeem | src/Main/java/repository/InvestmentRepository.java:112-114 | the wallet always loses `funds`, with no record; the account then gains it with one record exactly when it is positive, and otherwise refuses with nothing changed on its side |
| InvestmentRepo.InvestmentRepository.constructor | src/Main/java/repository/InvestmentRepository.java:24-34 | counter 0, no products, no wallets; valid, with no wallet below zero |
| InvestmentRepo.InvestmentRepository.Create | src/Main/java/repository/InvestmentRepository.java:44-49 | the counter advances by one and the product with the next id (1 for the first) is appended; rate and stake are not checked |
| InvestmentRepo.InvestmentRepository.FindById | src/Main/java/repository/InvestmentRepository.java:136-142 | a product with that id, from the list; `InvestmentNotFound(id)` exactly when none has it |
| InvestmentRepo.InvestmentRepository.FindByIdSequential | src/Main/java/repository/InvestmentRepository.java:44-49 | in a valid registry, `findById(id)` is the id-th product created when 1 <= id <= counter, and not found otherwise |
| InvestmentRepo.InvestmentRepository.FindWalletByAccountPix | src/Main/java/repository/InvestmentRepository.java:151-158 | the first registered wallet whose account holds the key; `WalletNotFound` exactly when none does |
| InvestmentRepo.InvestmentRepository.InitInvestment | src/Main/java/repository/InvestmentRepository.java:60-72 | errors in source order (`AccountWithInvestment`, `InvestmentNotFound`, `NoFundsEnough`, `IllegalArgument` for a non-positive stake), each leaving the registry and the account unchanged. Otherwise one new wallet is appended, holding the stake; the account is debited by the stake with one record. At most one wallet per account is kept, and no wallet goes below zero |
| InvestmentRepo.InvestmentRepository.Register | src/Main/java/repository/InvestmentRepository.java:69-70 | for an account without a wallet that can cover the stake, it succeeds exactly when the stake is positive; then the new wallet holding the stake is appended and the account is debited with one record. A refusal changes nothing. Keeps one wallet per account and no wallet below zero |
| InvestmentRepo.InvestmentRepository.Deposit | src/Main/java/repository/InvestmentRepository.java:83-96 | `WalletNotFound`, then the account's refusals (not positive, insufficient balance), each with nothing changed. Otherwise the account loses and the wallet gains the amount, so their total is kept; each gets one record ("Aporte de R$…" on the wallet). Every other wallet and account is untouched, and no wallet goes below zero |
| InvestmentRepo.InvestmentRepository.Withdraw | src/Main/java/repository/InvestmentRepository.java:107-120 | `WalletNotFound`, then `NoFundsEnough` against the wallet, each with nothing changed. A non-positive amount changes the wallet's balance and then fails. Otherwise the wallet loses the amount (with no record) and the account gains it with one record, so their total is kept. The wallet is removed exactly when its balance reaches 0; when the linked accounts' keys are disjoint, its key then finds no wallet. Other wallets are untouched, and no wallet goes below zero |
| InvestmentRepo.InvestmentRepository.Settle | src/Main/java/repository/InvestmentRepository.java:112-118 | after the funds check: the wallet always loses the amount, and a non-positive one is then refused with the account and the registry unchanged. Otherwise the account gains the amount with one record, and the wallet is removed exactly when its balance is 0. Keeps one wallet per account and no wallet below zero |
| InvestmentRepo.InvestmentRepository.UpdateAmount | src/Main/java/repository/InvestmentRepository.java:125-127 | every registered wallet's balance becomes the yield at its own product's rate, with exactly one record naming the rate; no account changes. No wallet goes below zero when every linked product pays at least -100 percent |
| InvestmentRepo.InvestmentRepository.List | src/Main/java/repository/InvestmentRepository.java:174-176 | the products in creation order |
| InvestmentRepo.InvestmentRepository.ListWallets | src/Main/java/repository/InvestmentRepository.java:165-167 | the registered wallets in order |

## Left out

- `AccountRepository.getHistory`: it groups a trail by timestamp truncated to seconds, and time is only an opaque `Instant` here.
- `System.out.println` in `transferMoney`: console output has no effect on the ledger.
- `Main.java`: the console menu is I/O over this core.
- Long overflow: balances, amounts and `balance * percent` are unbounded integers, not 64-bit `long` with wrap-around.
- `Wallet.toString`, `InvestmentWallet.toString` and `Investment.toString`: they are only rendered for display.
- Accounts.AccountWallet.ToString: states where the key list and the amount sit in the text and that the cents read back; it does not state that the whole text reads back into keys and balance.
- Exception messages: an error carries no text. `AccountNotFound` carries the key and `InvestmentNotFound` the id their messages name. `AccountWithInvestment` carries nothing, although its message renders the account with `toString`.
- `listWallets` returns the live list, and `investments` is given out the same way by `list`. Here both are sequence values, so the aliasing that lets a caller change the registry is not captured.
- The inherited `Wallet.balance` / `transactionHistory` of an investment wallet, and `reduceMoney(long, String)` called on one: the subclass shadows the fields and nothing calls that method on it.
- Accounts.AccountWallet.FinancialTransactions: states only that the copy equals the trail; that a Java caller may add to the copy without effect is the value semantics of `seq`.
