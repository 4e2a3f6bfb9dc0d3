/** repository/CommonsRepository.java: the shared funds guard and the
    generation of money tokens. */
module Commons {
  import opened Errors
  import opened Values
  import opened Money

  /** checkFundsForTransaction: throws NoFundsEnough exactly when the
      wallet's funds are below the amount. It is given the funds, which
      is all it reads, so it cannot change the wallet. */
  function CheckFunds(funds: int, amount: int): (r: Outcome)
    ensures r.Fail? <==> funds < amount
    ensures r.Fail? ==> r.error == NoFundsEnough
  {
    if funds < amount then Fail(NoFundsEnough) else Pass
  }

  /** Spending all of what a wallet holds is allowed; one cent more is not. */
  lemma CheckFundsBoundary(funds: int)
    ensures CheckFunds(funds, funds) == Pass
    ensures CheckFunds(funds, funds + 1) == Fail(NoFundsEnough)
    ensures forall amount :: CheckFunds(funds, amount).Pass? ==> amount <= funds
  {
  }

  /** generateMoney: `funds` distinct, new tokens, each holding a history of
      the one ACCOUNT record made from the given id and description.
      Stream.limit throws for a negative size. `now` is the moment the
      record is made. */
  method GenerateMoney(transactionId: Uuid, funds: int, description: string, now: Instant)
    returns (r: Result<seq<Money>>)
    ensures r.Failure? <==> funds < 0
    ensures r.Failure? ==> r.error == IllegalArgument(NegativeSize)
    ensures r.Success? ==> |r.value| == funds
    ensures r.Success? ==> forall i :: 0 <= i < |r.value| ==>
      fresh(r.value[i]) && r.value[i].history == [MoneyAudit(transactionId, ACCOUNT, description, now)]
    ensures r.Success? ==> forall i, j :: 0 <= i < j < |r.value| ==>
      r.value[i] != r.value[j] && r.value[i].Equals(r.value[j])
  {
    var h := MoneyAudit(transactionId, ACCOUNT, description, now);
    if funds < 0 {
      return Failure(IllegalArgument(NegativeSize));
    }
    var tokens: seq<Money> := [];
    while |tokens| < funds
      invariant |tokens| <= funds
      invariant forall i :: 0 <= i < |tokens| ==> fresh(tokens[i]) && tokens[i].history == [h]
      invariant forall i, j :: 0 <= i < j < |tokens| ==> tokens[i] != tokens[j]
    {
      var m := new Money(h);
      tokens := tokens + [m];
    }
    return Success(tokens);
  }
}
