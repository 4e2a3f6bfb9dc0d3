/** The failures the ledger can signal. Each exception class of the
    `exception` package is one constructor, carrying the datum its message
    names; java.lang.IllegalArgumentException, thrown by the wallet guards
    and by Stream.limit, is IllegalArgument with the reason it reports. */
module Errors {

  datatype ArgumentProblem =
    | NotPositive          // "Valor deve ser positivo"
    | InsufficientBalance  // "Saldo insuficiente"
    | NegativeSize         // Stream.limit of a negative size

  datatype Error =
    | AccountNotFound(pix: string)
    | AccountWithInvestment
    | InvestmentNotFound(id: int)
    | NoFundsEnough
    | PixInUse(pix: string)
    | WalletNotFound
    | IllegalArgument(reason: ArgumentProblem)

  /** The value of an operation that returns one, or the failure it threw. */
  datatype Result<+T> = Success(value: T) | Failure(error: Error) {
    predicate IsFailure() { Failure? }
    function PropagateFailure<U>(): Result<U>
      requires Failure?
    {
      Failure(error)
    }
    function Extract(): T
      requires Success?
    {
      value
    }
  }

  datatype Option<+T> = None | Some(value: T)

  /** The outcome of an operation that returns nothing (a Java `void`). */
  datatype Outcome = Pass | Fail(error: Error)
}
