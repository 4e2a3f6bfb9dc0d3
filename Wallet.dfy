/** The balance rules shared by every wallet (model/Wallet.java): the
    guards of addMoney and reduceMoney, and what any sequence of those
    calls does to a balance. The class AccountWallet performs these
    rules on its own state. */
module Wallet {
  import opened Errors

  /** addMoney: a non-positive amount is refused, any other raises the balance. */
  function Credit(balance: int, amount: int): (r: Result<int>)
    ensures r.Success? <==> amount > 0
    ensures r.Success? ==> r.value > balance && r.value - balance == amount
    ensures r.Failure? ==> r.error == IllegalArgument(NotPositive)
  {
    if amount <= 0 then Failure(IllegalArgument(NotPositive)) else Success(balance + amount)
  }

  /** reduceMoney: a non-positive amount is refused first, then an
      overdraft; an accepted debit never leaves the balance negative. */
  function Debit(balance: int, amount: int): (r: Result<int>)
    ensures r.Success? <==> 0 < amount <= balance
    ensures r.Success? ==> 0 <= r.value < balance && balance - r.value == amount
    ensures amount <= 0 ==> r == Failure(IllegalArgument(NotPositive))
    ensures amount > 0 && amount > balance ==> r == Failure(IllegalArgument(InsufficientBalance))
  {
    if amount <= 0 then Failure(IllegalArgument(NotPositive))
    else if amount > balance then Failure(IllegalArgument(InsufficientBalance))
    else Success(balance - amount)
  }

  /** One call on a wallet. */
  datatype WalletOp = Add(amount: int) | Reduce(amount: int)

  function Apply(balance: int, op: WalletOp): Result<int>
  {
    match op
    case Add(a) => Credit(balance, a)
    case Reduce(a) => Debit(balance, a)
  }

  /** The balance after the calls `ops` in order; a refused call throws
      before changing anything, so it leaves the balance as it was. */
  function Replay(balance: int, ops: seq<WalletOp>): int
    decreases |ops|
  {
    if ops == [] then balance
    else
      var r := Apply(balance, ops[0]);
      Replay(if r.Success? then r.value else balance, ops[1..])
  }

  /** The calls of `ops` that are accepted: each appends one audit record. */
  function Accepted(balance: int, ops: seq<WalletOp>): seq<WalletOp>
    decreases |ops|
  {
    if ops == [] then []
    else
      var r := Apply(balance, ops[0]);
      if r.Success? then [ops[0]] + Accepted(r.value, ops[1..])
      else Accepted(balance, ops[1..])
  }

  /** +amount for every credit, -amount for every debit. */
  function Signed(ops: seq<WalletOp>): int
  {
    if ops == [] then 0
    else (match ops[0] case Add(a) => a case Reduce(a) => -a) + Signed(ops[1..])
  }

  /** Replaying one more call continues from where the earlier calls left off. */
  lemma {:induction false} ReplayAppend(balance: int, ops: seq<WalletOp>, op: WalletOp)
    ensures Replay(balance, ops + [op]) == Replay(Replay(balance, ops), [op])
    decreases |ops|
  {
    if ops != [] {
      var r := Apply(balance, ops[0]);
      assert (ops + [op])[1..] == ops[1..] + [op];
      ReplayAppend(if r.Success? then r.value else balance, ops[1..], op);
    }
  }

  /** From a non-negative balance, no sequence of calls makes it negative. */
  lemma {:induction false} ReplayNonNegative(balance: int, ops: seq<WalletOp>)
    requires balance >= 0
    ensures Replay(balance, ops) >= 0
    decreases |ops|
  {
    if ops != [] {
      var r := Apply(balance, ops[0]);
      ReplayNonNegative(if r.Success? then r.value else balance, ops[1..]);
    }
  }

  /** The balance is the start plus the signed amounts of exactly the
      calls that wrote an audit record, and each of those moved a
      positive amount. */
  lemma {:induction false} ReplayIsAuditedSum(balance: int, ops: seq<WalletOp>)
    ensures Replay(balance, ops) == balance + Signed(Accepted(balance, ops))
    ensures forall i :: 0 <= i < |Accepted(balance, ops)| ==> Accepted(balance, ops)[i].amount > 0
    ensures |Accepted(balance, ops)| <= |ops|
    decreases |ops|
  {
    if ops != [] {
      var r := Apply(balance, ops[0]);
      ReplayIsAuditedSum(if r.Success? then r.value else balance, ops[1..]);
      if r.Success? {
        assert ([ops[0]] + Accepted(r.value, ops[1..]))[1..] == Accepted(r.value, ops[1..]);
      }
    }
  }
}
