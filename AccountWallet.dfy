/** model/AccountWallet.java together with the members it inherits from
    model/Wallet.java: a bank account addressed by PIX keys, with a
    balance in cents and an append-only audit trail. */
module Accounts {
  import opened Errors
  import opened Values
  import opened JavaText
  import Wallet

  /** The layout of AccountWallet.toString around the rendered key list
      and amount: each occupies its own slice of the text. */
  function AccountText(keys: string, amount: string): (r: string)
    ensures |r| == 31 + |keys| + |amount|
    ensures r[..18] == "AccountWallet{pix=" && r[|r| - 1] == '}'
    ensures r[18..18 + |keys|] == keys
    ensures r[|r| - 1 - |amount|..|r| - 1] == amount
  {
    var head := "AccountWallet{" + "pix=";
    var r := head + keys + ", balance=R$" + amount + "}";
    assert r == head + (keys + (", balance=R$" + (amount + "}")));
    r
  }

  class AccountWallet {
    /** Wallet.service, fixed by `super(ACCOUNT)`. */
    const service: BankService := ACCOUNT
    /** The PIX keys, exactly as given; never changed afterwards. */
    const pix: seq<string>
    var balance: int
    var history: seq<MoneyAudit>

    /** `super(ACCOUNT)` and the key list: the state before the initial
        deposit, with balance 0 and an empty trail. */
    constructor (pix: seq<string>)
      ensures this.pix == pix
      ensures balance == 0 && history == []
    {
      this.pix := pix;
      balance := 0;
      history := [];
    }

    /** `new AccountWallet(amount, pix, depositDescription)`: the blank
        account takes its initial deposit through AddMoney, whose guard
        makes the construction throw for a non-positive amount. */
    static method Open(amount: int, pix: seq<string>, depositDescription: string, s: Stamp)
      returns (r: Result<AccountWallet>)
      ensures r.Success? <==> amount > 0
      ensures r.Failure? ==> r.error == IllegalArgument(NotPositive)
      ensures r.Success? ==>
        && fresh(r.value)
        && r.value.pix == pix
        && r.value.balance == amount
        && r.value.history == [Audit(s, ACCOUNT, depositDescription)]
    {
      var account := new AccountWallet(pix);
      var added := account.AddMoney(amount, depositDescription, s);
      if added.Fail? {
        return Failure(added.error);
      }
      return Success(account);
    }

    /** Wallet.addMoney. */
    method AddMoney(amount: int, description: string, s: Stamp) returns (r: Outcome)
      modifies this
      ensures r.Pass? <==> amount > 0
      ensures r.Fail? ==> r.error == IllegalArgument(NotPositive)
      ensures r.Fail? ==> balance == old(balance) && history == old(history)
      ensures r.Pass? ==> balance == old(balance) + amount
      ensures r.Pass? ==> history == old(history) + [Audit(s, ACCOUNT, description)]
      ensures balance == Wallet.Replay(old(balance), [Wallet.Add(amount)])
    {
      var c := Wallet.Credit(balance, amount);
      if c.Failure? {
        return Fail(c.error);
      }
      balance := c.value;
      history := history + [Audit(s, service, description)];
      return Pass;
    }

    /** Wallet.reduceMoney: refuses a non-positive amount, then an
        overdraft; otherwise debits and returns the amount. */
    method ReduceMoney(amount: int, description: string, s: Stamp) returns (r: Result<int>)
      modifies this
      ensures r.Success? <==> 0 < amount <= old(balance)
      ensures amount <= 0 ==> r == Failure(IllegalArgument(NotPositive))
      ensures 0 < amount && old(balance) < amount ==> r == Failure(IllegalArgument(InsufficientBalance))
      ensures r.Failure? ==> balance == old(balance) && history == old(history)
      ensures r.Success? ==> r.value == amount && balance == old(balance) - amount >= 0
      ensures r.Success? ==> history == old(history) + [Audit(s, ACCOUNT, description)]
      ensures balance == Wallet.Replay(old(balance), [Wallet.Reduce(amount)])
    {
      var d := Wallet.Debit(balance, amount);
      if d.Failure? {
        return Failure(d.error);
      }
      balance := d.value;
      history := history + [Audit(s, service, description)];
      return Success(amount);
    }

    /** Wallet.getFinancialTransactions: a copy of the trail. As a
        sequence value it shares nothing with the account, so whatever a
        caller appends to it leaves the trail as it was. */
    function FinancialTransactions(): (h: seq<MoneyAudit>)
      reads this
      ensures h == history
    {
      history
    }

    /** Wallet.getFunds: the current balance, read without change. */
    function Funds(): (r: int)
      reads this
      ensures r == balance
    {
      balance
    }

    /** AccountWallet.toString: the key list and the balance in reais with
        two cent digits. */
    function ToString(): (r: string)
      reads this
      ensures |r| == 31 + |ListToString(pix)| + |Reais(balance)|
      ensures r[..18] == "AccountWallet{pix=" && r[|r| - 1] == '}'
      ensures r[18..18 + |ListToString(pix)|] == ListToString(pix)
      ensures r[|r| - 1 - |Reais(balance)|..|r| - 1] == Reais(balance)
    {
      AccountText(ListToString(pix), Reais(Funds()))
    }

    /** For a non-negative balance the text shows the cents: the closing
        brace is preceded by a comma and two digits that read back as
        `balance % 100`, and before the comma the digits of `balance / 100`. */
    lemma ToStringShowsBalance()
      requires balance >= 0
      ensures var s := ToString();
        && s[|s| - 4] == ','
        && AllDigits(s[|s| - 3..|s| - 1])
        && ParseDigits(s[|s| - 3..|s| - 1]) == balance % 100
    {
      var s := ToString();
      var a := Reais(balance);
      ReaisRoundTrip(balance);
      assert s[|s| - 1 - |a|..|s| - 1] == a;
      assert s[|s| - 3..|s| - 1] == a[|a| - 2..];
      assert s[|s| - 4] == a[|a| - 3];
    }
  }
}
