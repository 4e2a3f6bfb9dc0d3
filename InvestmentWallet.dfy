/** model/InvestmentWallet.java: a position in one Investment, linked to
    the account that funds it. The class declares its own `balance` and
    `transactionHistory`, which hide the fields it inherits from Wallet;
    every member it uses reads and writes its own pair, so those are the
    fields modelled here (the inherited pair stays at 0 and [] and is
    never read). */
module Investments {
  import opened Errors
  import opened Values
  import opened JavaText
  import opened Accounts

  /** The balance after `updateAmount(percent)`: the truncated
      `balance * percent / 100` of earnings is added. */
  function Yield(balance: int, percent: int): int
  {
    balance + JavaDiv(balance * percent, 100)
  }

  /** Yield agrees with the mathematical floor for a non-negative
      balance and rate, so it never shrinks such a balance; the earnings
      of a positive balance are never more than `percent` percent of it. */
  lemma YieldBounds(balance: int, percent: int)
    requires balance >= 0 && percent >= 0
    ensures Yield(balance, percent) == balance + balance * percent / 100
    ensures balance <= Yield(balance, percent)
    ensures 100 * (Yield(balance, percent) - balance) <= balance * percent
  {
    JavaDivision(balance * percent, 100);
  }

  /** A rate of at least -100 percent never takes a non-negative balance
      below zero: the truncated loss is at most the whole balance. */
  lemma YieldNonNegative(balance: int, percent: int)
    requires balance >= 0 && percent >= -100
    ensures Yield(balance, percent) >= 0
  {
    JavaDivision(balance * percent, 100);
    assert balance * percent >= -100 * balance;
  }

  /** Scaling a non-negative balance by a larger factor gives at least as much. */
  lemma ScaledAtLeast(balance: int, factor: int, bound: int)
    requires balance >= 0 && factor >= bound
    ensures balance * factor >= bound * balance
  {
    assert balance * factor - bound * balance == balance * (factor - bound);
  }

  /** A hundredth of at least `100 * b` is at least `b`. */
  lemma HundredthAtLeast(x: int, b: int)
    requires x >= 100 * b
    ensures x / 100 >= b
  {
  }

  /** Below -100 percent the truncated loss is at least the whole
      balance, and from -200 percent on it is more: an investment created
      with such a rate, which nothing refuses, takes its wallets to zero
      or below on the next yield round. */
  lemma YieldBelowMinusHundred(balance: int, percent: int)
    requires balance > 0 && percent < -100
    ensures Yield(balance, percent) <= 0
    ensures percent <= -200 ==> Yield(balance, percent) < 0
  {
    var loss := balance * -percent;
    assert balance * percent == -loss;
    JavaDivision(loss, 100);
    assert Yield(balance, percent) == balance - loss / 100;
    ScaledAtLeast(balance, -percent, 100);
    HundredthAtLeast(loss, balance);
    if percent <= -200 {
      ScaledAtLeast(balance, -percent, 200);
      HundredthAtLeast(loss, balance + 1);
    }
  }

  /** The smallest case: a balance of one real at -200 percent. */
  lemma YieldNegativeExample()
    ensures Yield(100, -200) == -100
  {
    assert JavaDiv(-20000, 100) == -200;
  }

  /** For a negative balance Java truncates toward zero: the loss is
      rounded toward zero, the mirror image of the gain of `-balance`. */
  lemma YieldNegative(balance: int, percent: int)
    requires balance < 0
    ensures Yield(balance, percent) - balance == -(Yield(-balance, percent) + balance)
  {
    assert (-balance) * percent == -(balance * percent);
    JavaDivision(balance * percent, 100);
  }

  /** The description of the debit the constructor makes on the account
      (InvestmentWallet.java:52-54); it names the investment's stake,
      not the amount debited. */
  function InitialWithdrawalDescription(investment: Investment): string
  {
    "Aplicação inicial em investimento " + LongToString(investment.id) + " " +
    " no valor de R$" + Reais(investment.initialFunds)
  }

  function InitialInvestmentDescription(amount: int): string
  {
    "Investimento inicial: R$" + Reais(amount)
  }

  function AppliedDescription(investment: Investment): string
  {
    "Aplicação em " + LongToString(investment.id)
  }

  function YieldDescription(percent: int): string
  {
    "rendimentos (" + LongToString(percent) + "%)"
  }

  class InvestmentWallet {
    /** Wallet.service, fixed by `super(INVESTMENT)`. */
    const service: BankService := INVESTMENT
    const investment: Investment
    const account: AccountWallet
    var balance: int
    var history: seq<MoneyAudit>

    /** `super(INVESTMENT)` and the two references, before the account
        is debited. */
    constructor (investment: Investment, account: AccountWallet)
      ensures this.investment == investment && this.account == account
      ensures balance == 0 && history == []
    {
      this.investment := investment;
      this.account := account;
      balance := 0;
      history := [];
    }

    /** `new InvestmentWallet(investment, account, amount)`. The account's
        reduceMoney either throws, and nothing changes, or debits `amount`
        with one audit record; the wallet starts with that balance and
        one record of its own. The record the constructor then adds to
        `account.getFinancialTransactions()` goes to a copy, so the
        account's trail grows by exactly one. `copyStamp` is what that
        lost record would have carried. */
    static method Open(investment: Investment, account: AccountWallet, amount: int,
                       debitStamp: Stamp, walletStamp: Stamp, copyStamp: Stamp)
      returns (r: Result<InvestmentWallet>)
      modifies account
      ensures r.Success? <==> 0 < amount <= old(account.balance)
      ensures amount <= 0 ==> r == Failure(IllegalArgument(NotPositive))
      ensures 0 < amount && old(account.balance) < amount ==> r == Failure(IllegalArgument(InsufficientBalance))
      ensures r.Failure? ==> account.balance == old(account.balance) && account.history == old(account.history)
      ensures r.Success? ==>
        && fresh(r.value)
        && r.value.investment == investment && r.value.account == account
        && r.value.balance == amount
        && r.value.history == [Audit(walletStamp, INVESTMENT, InitialInvestmentDescription(amount))]
        && account.balance == old(account.balance) - amount
        && account.history == old(account.history) + [Audit(debitStamp, ACCOUNT, InitialWithdrawalDescription(investment))]
    {
      var wallet := new InvestmentWallet(investment, account);
      var debited := account.ReduceMoney(amount, InitialWithdrawalDescription(investment), debitStamp);
      if debited.Failure? {
        return Failure(debited.error);
      }
      wallet.balance := debited.value;
      wallet.history := wallet.history + [Audit(walletStamp, INVESTMENT, InitialInvestmentDescription(amount))];
      var copy := account.FinancialTransactions();
      copy := copy + [Audit(copyStamp, INVESTMENT, AppliedDescription(investment))];
      return Success(wallet);
    }

    /** InvestmentWallet.addMoney: no positivity check, always one record. */
    method AddMoney(amount: int, description: string, s: Stamp)
      modifies this
      ensures balance == old(balance) + amount
      ensures history == old(history) + [Audit(s, INVESTMENT, description)]
    {
      balance := balance + amount;
      history := history + [Audit(s, INVESTMENT, description)];
    }

    /** InvestmentWallet.reduceMoney(long): no guard and no audit record. */
    method ReduceMoney(amount: int) returns (r: int)
      modifies this
      ensures r == amount
      ensures balance == old(balance) - amount
      ensures history == old(history)
    {
      balance := balance - amount;
      return amount;
    }

    /** InvestmentWallet.getFunds: the class's own balance. */
    function Funds(): (r: int)
      reads this
      ensures r == balance
    {
      balance
    }

    /** InvestmentWallet.updateAmount: adds the truncated yield and
        records the percentage applied. */
    method UpdateAmount(percent: int, s: Stamp)
      modifies this
      ensures balance == Yield(old(balance), percent)
      ensures old(balance) >= 0 && percent >= 0 ==> balance >= old(balance)
      ensures history == old(history) + [Audit(s, INVESTMENT, YieldDescription(percent))]
    {
      var earnings := JavaDiv(balance * percent, 100);
      balance := balance + earnings;
      history := history + [Audit(s, INVESTMENT, YieldDescription(percent))];
      if old(balance) >= 0 && percent >= 0 {
        YieldBounds(old(balance), percent);
      }
    }

    /** InvestmentWallet.getFinancialTransactions: a copy of the wallet's
        own trail. */
    function FinancialTransactions(): (h: seq<MoneyAudit>)
      reads this
      ensures h == history
    {
      history
    }
  }
}
