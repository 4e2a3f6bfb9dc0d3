/** repository/InvestmentRepository.java: the investment definitions with
    their sequential ids, and the registry of investment wallets with at
    most one wallet per account. */
module InvestmentRepo {
  import opened Errors
  import opened Values
  import opened JavaText
  import opened Accounts
  import opened Investments
  import opened Commons
  import AccountRepo

  /** The position of the first definition with the given id: what
      `findById` returns. */
  function FirstWithId(invs: seq<Investment>, id: int): (r: Option<nat>)
    ensures r.Some? ==> r.value < |invs| && invs[r.value].id == id
    ensures r.Some? ==> forall j :: 0 <= j < r.value ==> invs[j].id != id
    ensures r.None? <==> forall j :: 0 <= j < |invs| ==> invs[j].id != id
  {
    if invs == [] then None
    else if invs[0].id == id then Some(0)
    else match FirstWithId(invs[1..], id)
      case None => None
      case Some(i) => Some(i + 1)
  }

  /** Definitions numbered consecutively from `base + 1` are found by
      their offset. */
  lemma {:induction false} ConsecutiveIdsLookup(invs: seq<Investment>, base: int, id: int)
    requires forall i :: 0 <= i < |invs| ==> invs[i].id == base + i + 1
    ensures FirstWithId(invs, id) == if base < id <= base + |invs| then Some(id - base - 1) else None
  {
    if invs != [] {
      ConsecutiveIdsLookup(invs[1..], base + 1, id);
    }
  }

  /** The position of the first wallet whose account holds the key: what
      `findWalletByAccountPix` returns. */
  function FirstWalletWithKey(ws: seq<InvestmentWallet>, key: string): (r: Option<nat>)
    ensures r.Some? ==> r.value < |ws| && key in ws[r.value].account.pix
    ensures r.Some? ==> forall j :: 0 <= j < r.value ==> key !in ws[j].account.pix
    ensures r.None? <==> forall j :: 0 <= j < |ws| ==> key !in ws[j].account.pix
  {
    if ws == [] then None
    else if key in ws[0].account.pix then Some(0)
    else match FirstWalletWithKey(ws[1..], key)
      case None => None
      case Some(i) => Some(i + 1)
  }

  /** The account behind each wallet, in registry order. */
  function AccountsOf(ws: seq<InvestmentWallet>): (r: seq<AccountWallet>)
    ensures |r| == |ws| && forall i :: 0 <= i < |ws| ==> r[i] == ws[i].account
  {
    seq(|ws|, i requires 0 <= i < |ws| => ws[i].account)
  }

  /** No account backs two wallets (accounts compared as references). */
  predicate OneWalletPerAccount(ws: seq<InvestmentWallet>)
  {
    forall i, j :: 0 <= i < j < |ws| ==> ws[i].account != ws[j].account
  }

  /** The position of the first occurrence of `w` (by reference): the
      element `List.remove(Object)` takes out. */
  function FirstIndexOf(ws: seq<InvestmentWallet>, w: InvestmentWallet): (r: Option<nat>)
    ensures r.Some? ==> r.value < |ws| && ws[r.value] == w
    ensures r.Some? ==> forall j :: 0 <= j < r.value ==> ws[j] != w
    ensures r.None? <==> w !in ws
  {
    if ws == [] then None
    else if ws[0] == w then Some(0)
    else match FirstIndexOf(ws[1..], w)
      case None => None
      case Some(i) => Some(i + 1)
  }

  /** The list without its element at `i`: `List.remove` of an element that
      occurs once. */
  function RemoveAt(ws: seq<InvestmentWallet>, i: nat): (r: seq<InvestmentWallet>)
    requires i < |ws|
    ensures |r| == |ws| - 1
    ensures forall j :: 0 <= j < i ==> r[j] == ws[j]
    ensures forall j :: i <= j < |r| ==> r[j] == ws[j + 1]
  {
    ws[..i] + ws[i + 1..]
  }

  /** No wallet of the list is below zero. */
  ghost predicate NonNegativeBalances(ws: seq<InvestmentWallet>)
    reads ws
  {
    forall i :: 0 <= i < |ws| ==> ws[i].balance >= 0
  }

  /** Adding a wallet that is not below zero keeps every balance so. */
  lemma AppendKeepsNonNegative(ws: seq<InvestmentWallet>, w: InvestmentWallet)
    requires NonNegativeBalances(ws) && w.balance >= 0
    ensures NonNegativeBalances(ws + [w])
  {
  }

  /** Taking a wallet out leaves no negative balance behind. */
  lemma RemoveAtKeepsNonNegative(ws: seq<InvestmentWallet>, i: nat)
    requires i < |ws| && NonNegativeBalances(ws)
    ensures NonNegativeBalances(RemoveAt(ws, i))
  {
  }

  /** Removing a wallet keeps one wallet per account, and the removed
      wallet's account then backs none. */
  lemma RemoveAtKeepsOnePerAccount(ws: seq<InvestmentWallet>, i: nat)
    requires i < |ws| && OneWalletPerAccount(ws)
    ensures OneWalletPerAccount(RemoveAt(ws, i))
    ensures forall j :: 0 <= j < |RemoveAt(ws, i)| ==> RemoveAt(ws, i)[j].account != ws[i].account
  {
    var r := RemoveAt(ws, i);
    forall j, k | 0 <= j < k < |r| ensures r[j].account != r[k].account {
      var j', k' := if j < i then j else j + 1, if k < i then k else k + 1;
      assert r[j] == ws[j'] && r[k] == ws[k'] && j' < k';
    }
    forall j | 0 <= j < |r| ensures r[j].account != ws[i].account {
      if j < i { assert r[j] == ws[j]; } else { assert r[j] == ws[j + 1]; }
    }
  }

  /** Once an account no longer backs any wallet, a key that only it holds
      among the linked accounts finds no wallet. */
  lemma NoWalletForKeyAfterRemoval(ws: seq<InvestmentWallet>, i: nat, key: string)
    requires i < |ws| && OneWalletPerAccount(ws)
    requires key in ws[i].account.pix
    requires AccountRepo.KeysDisjoint(AccountRepo.PixLists(AccountsOf(ws)))
    ensures FirstWalletWithKey(RemoveAt(ws, i), key).None?
  {
    var r := RemoveAt(ws, i);
    var lists := AccountRepo.PixLists(AccountsOf(ws));
    forall j | 0 <= j < |r| ensures key !in r[j].account.pix {
      var j' := if j < i then j else j + 1;
      assert r[j] == ws[j'] && j' != i;
      assert key in lists[i];
      assert key !in lists[j'];
    }
  }

  /** The two legs of withdraw (InvestmentRepository.java:112-114): the
      wallet gives up `funds` without a record, whatever its sign, and
      then the account's addMoney either refuses a non-positive amount,
      leaving the wallet already changed, or takes it with one record. */
  method Redeem(wallet: InvestmentWallet, funds: int, investmentDescription: string, s: Stamp)
    returns (r: Outcome)
    modifies wallet, wallet.account
    ensures r.Pass? <==> funds > 0
    ensures r.Fail? ==> r.error == IllegalArgument(NotPositive)
    ensures wallet.balance == old(wallet.balance) - funds && wallet.history == old(wallet.history)
    ensures r.Fail? ==> (wallet.account.balance == old(wallet.account.balance)
                         && wallet.account.history == old(wallet.account.history))
    ensures r.Pass? ==> (wallet.account.balance == old(wallet.account.balance) + funds
                         && wallet.account.history == old(wallet.account.history)
                              + [Audit(s, ACCOUNT, investmentDescription)])
  {
    var withdrawnAmount := wallet.ReduceMoney(funds);
    r := wallet.account.AddMoney(withdrawnAmount, investmentDescription, s);
  }

  function DepositDescription(funds: int): string
  {
    "Aporte de R$" + Reais(funds)
  }

  class InvestmentRepository {
    var nextId: int
    var investments: seq<Investment>
    var wallets: seq<InvestmentWallet>

    /** The counter equals the number of definitions and they are numbered
        1, 2, 3, ... in order; no account backs two wallets. */
    ghost predicate Valid()
      reads this
    {
      && nextId == |investments|
      && (forall i :: 0 <= i < |investments| ==> investments[i].id == i + 1)
      && OneWalletPerAccount(wallets)
    }

    /** The accounts that back a wallet. */
    function Linked(): set<AccountWallet>
      reads this
    {
      set i | 0 <= i < |wallets| :: wallets[i].account
    }

    /** No investment wallet is below zero. */
    ghost predicate WalletsSolvent()
      reads this, wallets
    {
      NonNegativeBalances(wallets)
    }

    /** Every product behind a registered wallet pays at least -100 percent. */
    predicate RatesAtLeastMinusHundred()
      reads this
    {
      forall i :: 0 <= i < |wallets| ==> wallets[i].investment.tax >= -100
    }

    function WalletIndex(pix: string): Option<nat>
      reads this
    {
      FirstWalletWithKey(wallets, pix)
    }

    /** Whether `account` itself (the same object) backs a registered
        wallet; an equal-looking but distinct account does not count. */
    function HasWallet(account: AccountWallet): bool
      reads this
    {
      account in AccountsOf(wallets)
    }

    constructor ()
      ensures Valid() && WalletsSolvent()
      ensures nextId == 0 && investments == [] && wallets == []
    {
      nextId := 0;
      investments := [];
      wallets := [];
    }

    /** InvestmentRepository.create: the next id, 1 for the first call,
        and the definition appended. Neither rate nor stake is checked. */
    method Create(tax: int, initialFunds: int, nome: string) returns (investment: Investment)
      requires Valid()
      modifies this
      ensures Valid()
      ensures investment == Investment(|old(investments)| + 1, tax, initialFunds, nome)
      ensures investments == old(investments) + [investment]
      ensures nextId == old(nextId) + 1 && wallets == old(wallets)
    {
      nextId := nextId + 1;
      investment := Investment(nextId, tax, initialFunds, nome);
      investments := investments + [investment];
    }

    /** InvestmentRepository.findById. */
    function FindById(id: int): (r: Result<Investment>)
      reads this
      ensures r.Failure? <==> forall j :: 0 <= j < |investments| ==> investments[j].id != id
      ensures r.Failure? ==> r.error == InvestmentNotFound(id)
      ensures r.Success? ==> r.value.id == id && r.value in investments
    {
      match FirstWithId(investments, id)
      case Some(i) => Success(investments[i])
      case None => Failure(InvestmentNotFound(id))
    }

    /** With sequential ids, `findById(id)` is the id-th definition created. */
    lemma FindByIdSequential(id: int)
      requires Valid()
      ensures FindById(id) == if 1 <= id <= nextId then Success(investments[id - 1])
                              else Failure(InvestmentNotFound(id))
    {
      ConsecutiveIdsLookup(investments, 0, id);
    }

    /** InvestmentRepository.findWalletByAccountPix. */
    function FindWalletByAccountPix(pix: string): (r: Result<InvestmentWallet>)
      reads this
      ensures r.Failure? <==> forall j :: 0 <= j < |wallets| ==> pix !in wallets[j].account.pix
      ensures r.Failure? ==> r.error == WalletNotFound
      ensures r.Success? ==> r.value in wallets && pix in r.value.account.pix
      ensures r.Success? ==> WalletIndex(pix).Some? && r.value == wallets[WalletIndex(pix).value]
    {
      match WalletIndex(pix)
      case Some(i) => Success(wallets[i])
      case None => Failure(WalletNotFound)
    }

    /** InvestmentRepository.initInvestment. The one-wallet-per-account
        check comes first, then the id lookup, then the funds check; the
        wallet's construction then debits the stake, whose own guard
        refuses a non-positive stake. */
    method InitInvestment(account: AccountWallet, id: int,
                          debitStamp: Stamp, walletStamp: Stamp, copyStamp: Stamp)
      returns (r: Result<InvestmentWallet>)
      requires Valid()
      modifies this, account
      ensures Valid()
      ensures old(WalletsSolvent()) ==> WalletsSolvent()
      ensures investments == old(investments) && nextId == old(nextId)
      ensures old(HasWallet(account)) ==> r == Failure(AccountWithInvestment)
      ensures !old(HasWallet(account)) && FindById(id).Failure? ==> r == Failure(InvestmentNotFound(id))
      ensures (!old(HasWallet(account)) && FindById(id).Success?
               && old(account.balance) < FindById(id).value.initialFunds) ==> r == Failure(NoFundsEnough)
      ensures (!old(HasWallet(account)) && FindById(id).Success?
               && FindById(id).value.initialFunds <= 0
               && FindById(id).value.initialFunds <= old(account.balance)) ==> r == Failure(IllegalArgument(NotPositive))
      ensures r.Success? <==> (!old(HasWallet(account)) && FindById(id).Success?
                               && 0 < FindById(id).value.initialFunds <= old(account.balance))
      ensures r.Failure? ==> (wallets == old(wallets)
        && account.balance == old(account.balance) && account.history == old(account.history))
      ensures r.Success? ==> var stake := FindById(id).value.initialFunds;
        && fresh(r.value)
        && wallets == old(wallets) + [r.value]
        && r.value.account == account && r.value.investment == FindById(id).value
        && r.value.balance == stake
        && |r.value.history| == 1
        && account.balance == old(account.balance) - stake
        && account.history == old(account.history)
             + [Audit(debitStamp, ACCOUNT, InitialWithdrawalDescription(FindById(id).value))]
    {
      if |wallets| > 0 {
        var accountsInUse := AccountsOf(wallets);
        if account in accountsInUse {
          return Failure(AccountWithInvestment);
        }
      }
      var found := FindById(id);
      if found.Failure? {
        return Failure(found.error);
      }
      var investment := found.value;
      var check := CheckFunds(account.Funds(), investment.initialFunds);
      if check.Fail? {
        return Failure(check.error);
      }
      r := Register(account, investment, debitStamp, walletStamp, copyStamp);
    }

    /** The last two lines of initInvestment (InvestmentRepository.java:69-70)
        once the checks have passed: the wallet is built, which debits the
        stake or refuses a non-positive one, and is then registered. */
    method Register(account: AccountWallet, investment: Investment,
                    debitStamp: Stamp, walletStamp: Stamp, copyStamp: Stamp)
      returns (r: Result<InvestmentWallet>)
      requires Valid()
      requires !HasWallet(account) && investment.initialFunds <= account.balance
      modifies this, account
      ensures Valid()
      ensures investments == old(investments) && nextId == old(nextId)
      ensures r.Success? <==> investment.initialFunds > 0
      ensures r.Failure? ==> (r == Failure(IllegalArgument(NotPositive)) && wallets == old(wallets)
        && account.balance == old(account.balance) && account.history == old(account.history))
      ensures r.Success? ==> (fresh(r.value)
        && wallets == old(wallets) + [r.value]
        && r.value.account == account && r.value.investment == investment
        && r.value.balance == investment.initialFunds
        && |r.value.history| == 1
        && account.balance == old(account.balance) - investment.initialFunds
        && account.history == old(account.history)
             + [Audit(debitStamp, ACCOUNT, InitialWithdrawalDescription(investment))])
      ensures old(WalletsSolvent()) ==> WalletsSolvent()
    {
      var built := InvestmentWallet.Open(investment, account, investment.initialFunds,
                                          debitStamp, walletStamp, copyStamp);
      if built.Failure? {
        return Failure(built.error);
      }
      var wallet := built.value;
      assert forall i :: 0 <= i < |wallets| ==> wallets[i].account != account;
      if old(WalletsSolvent()) {
        AppendKeepsNonNegative(wallets, wallet);
      }
      wallets := wallets + [wallet];
      return Success(wallet);
    }

    /** InvestmentRepository.deposit: the account's reduceMoney (with its
        own guards, not the NoFundsEnough check) runs first, so a refused
        debit leaves the wallet untouched; the wallet is then credited the
        same amount. */
    method Deposit(pix: string, funds: int, investmentDescription: string,
                   accountStamp: Stamp, walletStamp: Stamp)
      returns (r: Result<InvestmentWallet>)
      requires Valid()
      modifies wallets, Linked()
      ensures old(WalletsSolvent()) ==> WalletsSolvent()
      ensures WalletIndex(pix).None? ==> r == Failure(WalletNotFound)
      ensures WalletIndex(pix).Some? && funds <= 0 ==> r == Failure(IllegalArgument(NotPositive))
      ensures (WalletIndex(pix).Some? && 0 < funds
               && old(wallets[WalletIndex(pix).value].account.balance) < funds) ==>
        r == Failure(IllegalArgument(InsufficientBalance))
      ensures r.Success? <==> (WalletIndex(pix).Some?
                               && 0 < funds <= old(wallets[WalletIndex(pix).value].account.balance))
      ensures forall j :: 0 <= j < |wallets| && (r.Failure? || j != WalletIndex(pix).value) ==>
        && wallets[j].balance == old(wallets[j].balance)
        && wallets[j].history == old(wallets[j].history)
        && wallets[j].account.balance == old(wallets[j].account.balance)
        && wallets[j].account.history == old(wallets[j].account.history)
      ensures r.Success? ==> var w := wallets[WalletIndex(pix).value];
        && r.value == w
        && w.balance == old(w.balance) + funds
        && w.account.balance == old(w.account.balance) - funds
        && w.balance + w.account.balance == old(w.balance + w.account.balance)
        && w.history == old(w.history) + [Audit(walletStamp, INVESTMENT, DepositDescription(funds))]
        && w.account.history == old(w.account.history) + [Audit(accountStamp, ACCOUNT, investmentDescription)]
    {
      var found := FindWalletByAccountPix(pix);
      if found.Failure? {
        return Failure(found.error);
      }
      var wallet := found.value;
      ghost var i := WalletIndex(pix).value;
      assert wallet == wallets[i];
      assert forall j :: 0 <= j < |wallets| && j != i ==> wallets[j] != wallet && wallets[j].account != wallet.account;
      var transferredAmount := wallet.account.ReduceMoney(funds, investmentDescription, accountStamp);
      if transferredAmount.Failure? {
        return Failure(transferredAmount.error);
      }
      var depositDescription := DepositDescription(funds);
      wallet.AddMoney(transferredAmount.value, depositDescription, walletStamp);
      return Success(wallet);
    }

    /** InvestmentRepository.withdraw. The funds check is against the
        wallet; the wallet's reduceMoney has no guard and runs before the
        account's addMoney, so a non-positive amount passes the check,
        changes the wallet's balance and only then throws. After an
        accepted redemption the wallet leaves the registry exactly when
        its balance is 0. */
    method Withdraw(pix: string, funds: int, investmentDescription: string, s: Stamp)
      returns (r: Result<InvestmentWallet>)
      requires Valid()
      modifies this, wallets, Linked()
      ensures Valid()
      ensures old(WalletsSolvent()) ==> WalletsSolvent()
      ensures investments == old(investments) && nextId == old(nextId)
      ensures old(WalletIndex(pix)).None? ==> r == Failure(WalletNotFound)
      ensures (old(WalletIndex(pix)).Some? && old(wallets[WalletIndex(pix).value].balance) < funds) ==>
        r == Failure(NoFundsEnough)
      ensures (old(WalletIndex(pix)).Some? && funds <= 0 && funds <= old(wallets[WalletIndex(pix).value].balance)) ==>
        r == Failure(IllegalArgument(NotPositive))
      ensures r.Success? <==> (old(WalletIndex(pix)).Some?
                               && 0 < funds <= old(wallets[WalletIndex(pix).value].balance))
      ensures r.Failure? ==> wallets == old(wallets)
      ensures forall j :: 0 <= j < |old(wallets)| &&
                          (old(WalletIndex(pix)).None? || j != old(WalletIndex(pix)).value) ==>
        && old(wallets[j]).balance == old(wallets[j].balance)
        && old(wallets[j]).history == old(wallets[j].history)
        && old(wallets[j]).account.balance == old(wallets[j].account.balance)
        && old(wallets[j]).account.history == old(wallets[j].account.history)
      ensures (old(WalletIndex(pix)).Some? && old(wallets[WalletIndex(pix).value].balance) < funds) ==>
        var w := old(wallets[WalletIndex(pix).value]);
        && w.balance == old(w.balance) && w.history == old(w.history)
        && w.account.balance == old(w.account.balance) && w.account.history == old(w.account.history)
      ensures r.Success? ==> var i := old(WalletIndex(pix)).value; var w := old(wallets[i]);
        && r.value == w
        && w.balance == old(w.balance) - funds
        && w.history == old(w.history)
        && w.account.balance == old(w.account.balance) + funds
        && w.balance + w.account.balance == old(w.balance + w.account.balance)
        && w.account.history == old(w.account.history) + [Audit(s, ACCOUNT, investmentDescription)]
        && wallets == if w.balance == 0 then RemoveAt(old(wallets), i) else old(wallets)
      ensures (r.Failure? && old(WalletIndex(pix)).Some? && funds <= 0 && funds <= old(wallets[WalletIndex(pix).value].balance)) ==>
        var w := old(wallets[WalletIndex(pix).value]);
        && w.balance == old(w.balance) - funds
        && w.history == old(w.history)
        && w.account.balance == old(w.account.balance)
        && w.account.history == old(w.account.history)
      ensures (r.Success? && r.value.balance == 0
               && AccountRepo.KeysDisjoint(AccountRepo.PixLists(AccountsOf(old(wallets))))) ==>
        FindWalletByAccountPix(pix) == Failure(WalletNotFound)
    {
      var found := FindWalletByAccountPix(pix);
      if found.Failure? {
        return Failure(found.error);
      }
      var wallet := found.value;
      ghost var i := WalletIndex(pix).value;
      assert wallet == wallets[i];
      assert forall j :: 0 <= j < |wallets| && j != i ==> wallets[j] != wallet && wallets[j].account != wallet.account;
      var check := CheckFunds(wallet.Funds(), funds);
      if check.Fail? {
        return Failure(check.error);
      }
      r := Settle(wallet, i, funds, investmentDescription, s);
      if r.Success? && wallet.balance == 0 && AccountRepo.KeysDisjoint(AccountRepo.PixLists(AccountsOf(old(wallets)))) {
        NoWalletForKeyAfterRemoval(old(wallets), i, pix);
      }
    }

    /** The part of withdraw after the funds check has passed for the
        wallet at position `i` (InvestmentRepository.java:112-118): the two
        legs, then the removal of a wallet whose balance is 0. Only the
        wallet, its account and the registry list change. */
    method Settle(wallet: InvestmentWallet, ghost i: nat, funds: int, investmentDescription: string, s: Stamp)
      returns (r: Result<InvestmentWallet>)
      requires Valid()
      requires i < |wallets| && wallets[i] == wallet && funds <= wallet.balance
      modifies this, wallet, wallet.account
      ensures Valid()
      ensures investments == old(investments) && nextId == old(nextId)
      ensures r.Success? <==> funds > 0
      ensures r.Failure? ==> r == Failure(IllegalArgument(NotPositive)) && wallets == old(wallets)
      ensures wallet.balance == old(wallet.balance) - funds && wallet.history == old(wallet.history)
      ensures r.Failure? ==> (wallet.account.balance == old(wallet.account.balance)
                              && wallet.account.history == old(wallet.account.history))
      ensures r.Success? ==> (r.value == wallet
        && wallet.account.balance == old(wallet.account.balance) + funds
        && wallet.account.history == old(wallet.account.history) + [Audit(s, ACCOUNT, investmentDescription)]
        && wallets == if wallet.balance == 0 then RemoveAt(old(wallets), i) else old(wallets))
      ensures old(WalletsSolvent()) ==> WalletsSolvent()
    {
      assert forall j :: 0 <= j < |wallets| && j != i ==> wallets[j] != wallet;
      var added := Redeem(wallet, funds, investmentDescription, s);
      if old(WalletsSolvent()) {
        forall j | 0 <= j < |wallets| ensures wallets[j].balance >= 0 {
          if j != i {
            assert wallets[j].balance == old(wallets[j].balance);
          }
        }
      }
      if added.Fail? {
        return Failure(added.error);
      }
      if wallet.Funds() == 0 {
        RemoveAtKeepsOnePerAccount(wallets, i);
        if old(WalletsSolvent()) {
          RemoveAtKeepsNonNegative(wallets, i);
        }
        var position := FirstIndexOf(wallets, wallet);
        assert position == Some(i);
        wallets := RemoveAt(wallets, position.value);
      }
      return Success(wallet);
    }

    /** InvestmentRepository.updateAmount: every registered wallet earns
        its investment's rate, in registry order, each with one audit
        record; no account is touched. `stampAt(i)` stamps the record of
        the i-th wallet. */
    method UpdateAmount(stampAt: nat -> Stamp)
      requires Valid()
      modifies wallets
      ensures old(WalletsSolvent()) && RatesAtLeastMinusHundred() ==> WalletsSolvent()
      ensures forall j :: 0 <= j < |wallets| ==>
        && wallets[j].balance == Yield(old(wallets[j].balance), wallets[j].investment.tax)
        && wallets[j].history == old(wallets[j].history)
             + [Audit(stampAt(j), INVESTMENT, YieldDescription(wallets[j].investment.tax))]
        && wallets[j].account.balance == old(wallets[j].account.balance)
        && wallets[j].account.history == old(wallets[j].account.history)
    {
      assert forall j, k :: 0 <= j < k < |wallets| ==> wallets[j] != wallets[k];
      var i := 0;
      while i < |wallets|
        invariant 0 <= i <= |wallets|
        invariant forall j :: 0 <= j < i ==>
          && wallets[j].balance == Yield(old(wallets[j].balance), wallets[j].investment.tax)
          && wallets[j].history == old(wallets[j].history)
               + [Audit(stampAt(j), INVESTMENT, YieldDescription(wallets[j].investment.tax))]
        invariant forall j :: i <= j < |wallets| ==>
          wallets[j].balance == old(wallets[j].balance) && wallets[j].history == old(wallets[j].history)
      {
        var w := wallets[i];
        w.UpdateAmount(w.investment.tax, stampAt(i));
        i := i + 1;
      }
      if old(WalletsSolvent()) && RatesAtLeastMinusHundred() {
        forall j | 0 <= j < |wallets| ensures wallets[j].balance >= 0 {
          YieldNonNegative(old(wallets[j].balance), wallets[j].investment.tax);
        }
      }
    }

    /** InvestmentRepository.list, as a sequence value. */
    function List(): (r: seq<Investment>)
      reads this
      ensures |r| == |investments| && forall i :: 0 <= i < |r| ==> r[i] == investments[i]
    {
      investments
    }

    /** InvestmentRepository.listWallets, as a sequence value. */
    function ListWallets(): (r: seq<InvestmentWallet>)
      reads this
      ensures |r| == |wallets| && forall i :: 0 <= i < |r| ==> r[i] == wallets[i]
    {
      wallets
    }
  }
}
