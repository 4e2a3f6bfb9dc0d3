/** The behaviour-free values of the `model` package: the service tag,
    the audit record and the investment definition. */
module Values {

  /** model/BankService.java */
  datatype BankService = ACCOUNT | INVESTMENT

  /** A java.util.UUID, as its 128 bits. */
  type Uuid = bv128

  /** An OffsetDateTime, as nanoseconds from an arbitrary origin. */
  type Instant = int

  /** What UUID.randomUUID() and OffsetDateTime.now() yield when one audit
      record is made; the caller supplies it, so the model stays
      deterministic. */
  datatype Stamp = Stamp(id: Uuid, at: Instant)

  /** model/MoneyAudit.java: one immutable ledger event. */
  datatype MoneyAudit = MoneyAudit(
    transactionId: Uuid,
    targetService: BankService,
    description: string,
    createdAt: Instant)

  /** The record a wallet of service `service` appends, stamped by `s`. */
  function Audit(s: Stamp, service: BankService, description: string): (m: MoneyAudit)
  {
    MoneyAudit(s.id, service, description, s.at)
  }

  /** model/Investment.java: an investment product. `tax` is a yield
      percentage, `initialFunds` a stake in cents; neither is validated. */
  datatype Investment = Investment(id: int, tax: int, initialFunds: int, nome: string)
}
