/** repository/AccountRepository.java: the ordered registry of accounts,
    PIX-key uniqueness, and the deposit, withdrawal and transfer
    operations. */
module AccountRepo {
  import opened Errors
  import opened Values
  import opened JavaText
  import opened Accounts
  import opened Commons

  /** The key lists of the accounts, in registry order. */
  function PixLists(accts: seq<AccountWallet>): (r: seq<seq<string>>)
    ensures |r| == |accts| && forall i :: 0 <= i < |accts| ==> r[i] == accts[i].pix
  {
    seq(|accts|, i requires 0 <= i < |accts| => accts[i].pix)
  }

  /** All keys in use: every account's keys, account after account. */
  function Flatten(lists: seq<seq<string>>): seq<string>
  {
    if lists == [] then [] else lists[0] + Flatten(lists[1..])
  }

  lemma {:induction false} InFlatten(lists: seq<seq<string>>, k: string)
    ensures k in Flatten(lists) <==> exists i :: 0 <= i < |lists| && k in lists[i]
  {
    if lists != [] {
      InFlatten(lists[1..], k);
      assert forall i :: 1 <= i < |lists| ==> lists[i] == lists[1..][i - 1];
    }
  }

  lemma {:induction false} FlattenAppend(lists: seq<seq<string>>, l: seq<string>)
    ensures Flatten(lists + [l]) == Flatten(lists) + l
  {
    if lists == [] {
      assert [l][1..] == [];
    } else {
      assert (lists + [l])[1..] == lists[1..] + [l];
      FlattenAppend(lists[1..], l);
    }
  }

  /** The position of the first list holding `key`: the account
      `findByPix` returns. */
  function FirstWithKey(lists: seq<seq<string>>, key: string): (r: Option<nat>)
    ensures r.Some? ==> r.value < |lists| && key in lists[r.value]
    ensures r.Some? ==> forall j :: 0 <= j < r.value ==> key !in lists[j]
    ensures r.None? <==> forall j :: 0 <= j < |lists| ==> key !in lists[j]
  {
    if lists == [] then None
    else if key in lists[0] then Some(0)
    else match FirstWithKey(lists[1..], key)
      case None => None
      case Some(i) => Some(i + 1)
  }

  /** The position of the first key of `pix` that is already in use: the
      one `create` reports. */
  function FirstClash(pix: seq<string>, inUse: seq<string>): (r: Option<nat>)
    ensures r.Some? ==> r.value < |pix| && pix[r.value] in inUse
    ensures r.Some? ==> forall j :: 0 <= j < r.value ==> pix[j] !in inUse
    ensures r.None? <==> forall j :: 0 <= j < |pix| ==> pix[j] !in inUse
  {
    if pix == [] then None
    else if pix[0] in inUse then Some(0)
    else match FirstClash(pix[1..], inUse)
      case None => None
      case Some(i) => Some(i + 1)
  }

  /** No key belongs to two different accounts. */
  predicate KeysDisjoint(lists: seq<seq<string>>)
  {
    forall i, j, k :: 0 <= i < |lists| && 0 <= j < |lists| && i != j && k in lists[i] ==> k !in lists[j]
  }

  predicate NoDuplicates(s: seq<string>)
  {
    forall i, j :: 0 <= i < j < |s| ==> s[i] != s[j]
  }

  /** Appending a key list none of whose keys is in use keeps the accounts'
      keys pairwise disjoint. */
  lemma AppendKeepsDisjoint(lists: seq<seq<string>>, pix: seq<string>)
    requires KeysDisjoint(lists)
    requires forall j :: 0 <= j < |pix| ==> pix[j] !in Flatten(lists)
    ensures KeysDisjoint(lists + [pix])
  {
    var all := lists + [pix];
    forall i, j, k | 0 <= i < |all| && 0 <= j < |all| && i != j && k in all[i]
      ensures k !in all[j]
    {
      if i == |lists| {
        InFlatten(lists, k);
      } else if j == |lists| {
        InFlatten(lists, k);
        assert all[i] == lists[i];
      }
    }
  }

  /** If every key was in use at most once and the new list repeats none
      of its keys, every key is still in use at most once afterwards. */
  lemma UniqueKeysAfterAppend(lists: seq<seq<string>>, pix: seq<string>)
    requires NoDuplicates(Flatten(lists)) && NoDuplicates(pix)
    requires forall j :: 0 <= j < |pix| ==> pix[j] !in Flatten(lists)
    ensures NoDuplicates(Flatten(lists + [pix]))
  {
    FlattenAppend(lists, pix);
    var a, all := Flatten(lists), Flatten(lists) + pix;
    forall i, j | 0 <= i < j < |all| ensures all[i] != all[j] {
      if i < |a| && j >= |a| {
        assert all[j] == pix[j - |a|];
        assert all[i] in a;
      }
    }
  }

  ghost function BalancesOf(accts: seq<AccountWallet>): seq<int>
    reads accts
  {
    seq(|accts|, i requires 0 <= i < |accts| reads accts => accts[i].balance)
  }

  ghost function HistoriesOf(accts: seq<AccountWallet>): seq<seq<MoneyAudit>>
    reads accts
  {
    seq(|accts|, i requires 0 <= i < |accts| reads accts => accts[i].history)
  }

  function Sum(s: seq<int>): int
  {
    if s == [] then 0 else s[0] + Sum(s[1..])
  }

  /** Changing one balance changes the total by exactly the difference. */
  lemma {:induction false} SumUpdate(s: seq<int>, i: nat, v: int)
    requires i < |s|
    ensures Sum(s[i := v]) == Sum(s) - s[i] + v
  {
    if i > 0 {
      assert s[i := v][1..] == s[1..][i - 1 := v];
      SumUpdate(s[1..], i - 1, v);
    }
  }

  /** The balances after moving `amount` from position `i` to position `k`
      (the same position when one account pays itself). */
  function Moved(b: seq<int>, i: nat, k: nat, amount: int): seq<int>
    requires i < |b| && k < |b|
  {
    var debited := b[i := b[i] - amount];
    debited[k := debited[k] + amount]
  }

  /** A debit at `i` followed by a credit at `k` is the move from `i` to `k`. */
  lemma MovedSteps(b0: seq<int>, b1: seq<int>, b2: seq<int>, i: nat, k: nat, amount: int)
    requires i < |b0| && k < |b0|
    requires b1 == b0[i := b0[i] - amount] && b2 == b1[k := b1[k] + amount]
    ensures b2 == Moved(b0, i, k, amount) && Sum(b2) == Sum(b0)
  {
    MovedKeepsSum(b0, i, k, amount);
  }

  predicate NonNegative(b: seq<int>)
  {
    forall j :: 0 <= j < |b| ==> b[j] >= 0
  }

  /** A move of a positive amount the payer covers overdraws nobody. */
  lemma MovedKeepsNonNegative(b: seq<int>, i: nat, k: nat, amount: int)
    requires i < |b| && k < |b| && 0 < amount <= b[i]
    requires NonNegative(b)
    ensures NonNegative(Moved(b, i, k, amount))
  {
  }

  /** Moving money between accounts keeps the total over all accounts. */
  lemma {:induction false} MovedKeepsSum(b: seq<int>, i: nat, k: nat, amount: int)
    requires i < |b| && k < |b|
    ensures Sum(Moved(b, i, k, amount)) == Sum(b)
  {
    var debited := b[i := b[i] - amount];
    SumUpdate(b, i, b[i] - amount);
    assert Sum(debited) == Sum(b) - amount;
    SumUpdate(debited, k, debited[k] + amount);
    assert Moved(b, i, k, amount) == debited[k := debited[k] + amount];
  }

  function SentDescription(transfDescription: string, targetPix: string): string
  {
    "Transferência PIX enviada de " + transfDescription + " para conta " + targetPix
  }

  function ReceivedDescription(transfDescription: string, sourcePix: string): string
  {
    "Transferência PIX recebida de " + transfDescription + " da conta " + sourcePix
  }

  function WithdrawDescription(amount: int): string
  {
    "Saque no valor de: R$" + Reais(amount)
  }

  class AccountRepository {
    var accounts: seq<AccountWallet>

    /** Accounts are distinct objects, and no key belongs to two of them. */
    ghost predicate Valid()
      reads this
    {
      && (forall i, j :: 0 <= i < j < |accounts| ==> accounts[i] != accounts[j])
      && KeysDisjoint(PixLists(accounts))
    }

    /** No account is overdrawn. */
    ghost predicate Solvent()
      reads this, accounts
    {
      NonNegative(Balances())
    }

    ghost function Balances(): seq<int>
      reads this, accounts
    {
      BalancesOf(accounts)
    }

    ghost function Histories(): seq<seq<MoneyAudit>>
      reads this, accounts
    {
      HistoriesOf(accounts)
    }

    /** Every key of every account, in registry order. */
    function InUse(): seq<string>
      reads this
    {
      Flatten(PixLists(accounts))
    }

    /** The registry position of the account `findByPix(key)` returns. */
    function IndexOf(key: string): Option<nat>
      reads this
    {
      FirstWithKey(PixLists(accounts), key)
    }

    constructor ()
      ensures Valid() && accounts == []
    {
      accounts := [];
    }

    /** AccountRepository.create: refuses, with the first of the given
        keys already in use, before any account is built; otherwise an
        account built with the initial deposit is appended. The given list
        is not checked for repeats of its own. */
    method Create(pix: seq<string>, initialFunds: int, depositDescription: string, s: Stamp)
      returns (r: Result<AccountWallet>)
      requires Valid()
      modifies this
      ensures Valid()
      ensures var clash := FirstClash(pix, old(InUse()));
        clash.Some? ==> r == Failure(PixInUse(pix[clash.value]))
      ensures FirstClash(pix, old(InUse())).None? && initialFunds <= 0 ==>
        r == Failure(IllegalArgument(NotPositive))
      ensures r.Success? <==> FirstClash(pix, old(InUse())).None? && initialFunds > 0
      ensures r.Failure? ==> accounts == old(accounts)
      ensures r.Success? ==>
        && fresh(r.value)
        && accounts == old(accounts) + [r.value]
        && r.value.pix == pix
        && r.value.balance == initialFunds
        && r.value.history == [Audit(s, ACCOUNT, depositDescription)]
      ensures r.Success? && NoDuplicates(old(InUse())) && NoDuplicates(pix) ==> NoDuplicates(InUse())
    {
      if |accounts| > 0 {
        var pixInUse := Flatten(PixLists(accounts));
        var i := 0;
        while i < |pix|
          invariant 0 <= i <= |pix|
          invariant forall j :: 0 <= j < i ==> pix[j] !in pixInUse
        {
          if pix[i] in pixInUse {
            return Failure(PixInUse(pix[i]));
          }
          i := i + 1;
        }
      }
      var built := AccountWallet.Open(initialFunds, pix, depositDescription, s);
      if built.Failure? {
        return Failure(built.error);
      }
      var newAccount := built.value;
      ghost var before := PixLists(accounts);
      accounts := accounts + [newAccount];
      assert PixLists(accounts) == before + [pix];
      AppendKeepsDisjoint(before, pix);
      if NoDuplicates(Flatten(before)) && NoDuplicates(pix) {
        UniqueKeysAfterAppend(before, pix);
      }
      return Success(newAccount);
    }

    /** AccountRepository.findByPix: the first account holding the key. */
    function FindByPix(key: string): (r: Result<AccountWallet>)
      reads this
      ensures r.Failure? <==> forall i :: 0 <= i < |accounts| ==> key !in accounts[i].pix
      ensures r.Failure? ==> r.error == AccountNotFound(key)
      ensures r.Success? ==> exists i :: (0 <= i < |accounts| && accounts[i] == r.value
        && key in r.value.pix && forall j :: 0 <= j < i ==> key !in accounts[j].pix)
    {
      match IndexOf(key)
      case Some(i) => Success(accounts[i])
      case None => Failure(AccountNotFound(key))
    }

    /** AccountRepository.deposit: credits the account the key resolves to
        and no other. */
    method Deposit(pix: string, fundsAmount: int, depositDescription: string, s: Stamp)
      returns (r: Outcome)
      requires Valid()
      modifies accounts
      ensures IndexOf(pix).None? ==> r == Fail(AccountNotFound(pix))
      ensures IndexOf(pix).Some? && fundsAmount <= 0 ==> r == Fail(IllegalArgument(NotPositive))
      ensures r.Pass? <==> IndexOf(pix).Some? && fundsAmount > 0
      ensures r.Fail? ==> Balances() == old(Balances()) && Histories() == old(Histories())
      ensures r.Pass? ==> var i := IndexOf(pix).value;
        && Balances() == old(Balances())[i := old(Balances()[i]) + fundsAmount]
        && Histories() == old(Histories())[i := old(Histories()[i]) + [Audit(s, ACCOUNT, depositDescription)]]
      ensures old(Solvent()) ==> Solvent()
    {
      var found := FindByPix(pix);
      if found.Failure? {
        return Fail(found.error);
      }
      var target := found.value;
      ghost var i := IndexOf(pix).value;
      assert target == accounts[i];
      r := target.AddMoney(fundsAmount, depositDescription, s);
    }

    /** AccountRepository.withdraw: the funds check comes first and throws
        NoFundsEnough; the debit's own guard then refuses a non-positive
        amount. */
    method Withdraw(pix: string, amount: int, s: Stamp) returns (r: Result<int>)
      requires Valid()
      modifies accounts
      ensures IndexOf(pix).None? ==> r == Failure(AccountNotFound(pix))
      ensures IndexOf(pix).Some? && old(accounts[IndexOf(pix).value].balance) < amount ==>
        r == Failure(NoFundsEnough)
      ensures IndexOf(pix).Some? && amount <= 0 && amount <= old(accounts[IndexOf(pix).value].balance) ==>
        r == Failure(IllegalArgument(NotPositive))
      ensures r.Success? <==> IndexOf(pix).Some? && 0 < amount <= old(accounts[IndexOf(pix).value].balance)
      ensures r.Failure? ==> Balances() == old(Balances()) && Histories() == old(Histories())
      ensures r.Success? ==> var i := IndexOf(pix).value;
        && r.value == amount
        && Balances() == old(Balances())[i := old(Balances()[i]) - amount]
        && Histories() == old(Histories())[i := old(Histories()[i]) + [Audit(s, ACCOUNT, WithdrawDescription(amount))]]
      ensures old(Solvent()) ==> Solvent()
    {
      var found := FindByPix(pix);
      if found.Failure? {
        return Failure(found.error);
      }
      var source := found.value;
      ghost var i := IndexOf(pix).value;
      assert source == accounts[i];
      var check := CheckFunds(source.Funds(), amount);
      if check.Fail? {
        return Failure(check.error);
      }
      var withdrawDescription := WithdrawDescription(amount);
      var amountWithdrawn := source.ReduceMoney(amount, withdrawDescription, s);
      return amountWithdrawn;
    }

    /** AccountRepository.transferMoney: the source lookup, the funds check
        and the target lookup all happen before any change; the debit's
        guard refuses a non-positive amount, and after an accepted debit
        the credit cannot fail. So either both legs happen or neither. */
    method TransferMoney(sourcePix: string, targetPix: string, amount: int, transfDescription: string,
                         sourceStamp: Stamp, targetStamp: Stamp)
      returns (r: Outcome)
      requires Valid()
      modifies accounts
      ensures IndexOf(sourcePix).None? ==> r == Fail(AccountNotFound(sourcePix))
      ensures IndexOf(sourcePix).Some? && old(accounts[IndexOf(sourcePix).value].balance) < amount ==>
        r == Fail(NoFundsEnough)
      ensures (IndexOf(sourcePix).Some? && amount <= old(accounts[IndexOf(sourcePix).value].balance)
               && IndexOf(targetPix).None?) ==> r == Fail(AccountNotFound(targetPix))
      ensures (IndexOf(sourcePix).Some? && IndexOf(targetPix).Some?
               && amount <= 0 && amount <= old(accounts[IndexOf(sourcePix).value].balance)) ==>
        r == Fail(IllegalArgument(NotPositive))
      ensures r.Pass? <==> (IndexOf(sourcePix).Some? && IndexOf(targetPix).Some?
                            && 0 < amount <= old(accounts[IndexOf(sourcePix).value].balance))
      ensures r.Fail? ==> Balances() == old(Balances()) && Histories() == old(Histories())
      ensures r.Pass? ==> var i, k := IndexOf(sourcePix).value, IndexOf(targetPix).value;
        var debited := old(Histories())[i := old(Histories()[i]) + [Audit(sourceStamp, ACCOUNT, SentDescription(transfDescription, targetPix))]];
        && Balances() == Moved(old(Balances()), i, k, amount)
        && Histories() == debited[k := debited[k] + [Audit(targetStamp, ACCOUNT, ReceivedDescription(transfDescription, sourcePix))]]
      ensures Sum(Balances()) == Sum(old(Balances()))
      ensures old(Solvent()) ==> Solvent()
    {
      var foundSource := FindByPix(sourcePix);
      if foundSource.Failure? {
        return Fail(foundSource.error);
      }
      var source := foundSource.value;
      ghost var i := IndexOf(sourcePix).value;
      assert source == accounts[i];
      var check := CheckFunds(source.Funds(), amount);
      if check.Fail? {
        return check;
      }
      var foundTarget := FindByPix(targetPix);
      if foundTarget.Failure? {
        return Fail(foundTarget.error);
      }
      var target := foundTarget.value;
      ghost var k := IndexOf(targetPix).value;
      assert target == accounts[k];

      var sourceDescription := SentDescription(transfDescription, targetPix);
      var targetDescription := ReceivedDescription(transfDescription, sourcePix);
      r := MoveFunds(source, target, i, k, amount, sourceDescription, targetDescription, sourceStamp, targetStamp);
      if r.Pass? {
        MovedKeepsSum(old(Balances()), i, k, amount);
        if old(Solvent()) {
          MovedKeepsNonNegative(old(Balances()), i, k, amount);
        }
      }
    }

    /** The two legs of transferMoney (lines 63-64) once both accounts are
        resolved and the funds check has passed: the debit's guard refuses
        a non-positive amount before anything changes, and the credit of
        an accepted debit cannot fail. */
    method MoveFunds(source: AccountWallet, target: AccountWallet, ghost i: nat, ghost k: nat, amount: int, sourceDescription: string, targetDescription: string,
                     sourceStamp: Stamp, targetStamp: Stamp)
      returns (r: Outcome)
      requires Valid()
      requires i < |accounts| && k < |accounts| && source == accounts[i] && target == accounts[k]
      requires amount <= source.balance
      modifies accounts
      ensures r.Pass? <==> amount > 0
      ensures r.Fail? ==> r.error == IllegalArgument(NotPositive)
      ensures r.Fail? ==> Balances() == old(Balances()) && Histories() == old(Histories())
      ensures r.Pass? ==>
        var debited := old(Histories())[i := old(Histories()[i]) + [Audit(sourceStamp, ACCOUNT, sourceDescription)]];
        && Balances() == Moved(old(Balances()), i, k, amount)
        && Histories() == debited[k := debited[k] + [Audit(targetStamp, ACCOUNT, targetDescription)]]
    {
      ghost var b0, h0 := Balances(), Histories();
      var transferred := source.ReduceMoney(amount, sourceDescription, sourceStamp);
      if transferred.Failure? {
        return Fail(transferred.error);
      }
      ghost var b1, h1 := Balances(), Histories();
      assert b1 == b0[i := b0[i] - amount];
      assert h1 == h0[i := h0[i] + [Audit(sourceStamp, ACCOUNT, sourceDescription)]];
      var added := target.AddMoney(transferred.value, targetDescription, targetStamp);
      assert added.Pass?;
      assert Histories() == h1[k := h1[k] + [Audit(targetStamp, ACCOUNT, targetDescription)]];
      MovedSteps(b0, b1, Balances(), i, k, amount);
      return Pass;
    }

    /** AccountRepository.list: the accounts in registration order, as a
        sequence value a caller cannot use to change the registry. */
    function List(): (r: seq<AccountWallet>)
      reads this
      ensures |r| == |accounts| && forall i :: 0 <= i < |r| ==> r[i] == accounts[i]
    {
      accounts
    }
  }
}
