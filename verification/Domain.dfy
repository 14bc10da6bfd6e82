/** The value types shared by every part of the model: cycle states, attempt outcomes,
    failure codes and the units of time. */
module Domain {

  datatype Option<+T> = None | Some(value: T)

  /** `mandate_cycles.state`. */
  datatype State = Pending | Scheduled | InFlight | Unknown | Held | Recovered | Escalated | Abandoned

  /** `attempts.outcome`; SQL NULL is `None`. */
  datatype Outcome = Success | Failure | Timeout | AbandonedStale

  datatype Rail = UpiAutopay | Enach

  datatype FailureClass = RetryNow | RetryLater | Terminal | ManualReview

  /** A failure code as the bank spells it. The constructors without arguments are the
      codes of the classification table; `Other` is every string outside the table. */
  datatype FailureCode =
    | InsufficientFunds
    | MandateRevoked
    | AmountExceedsLimit
    | PreDebitNoticeMissing
    | PspUnavailable
    | PayerAuthPending
    | TechnicalDecline
    | BankUnreachable
    | AccountFrozen
    | Other(name: string)

  const MAX_ATTEMPTS := 4

  /** Instants and durations are whole nanoseconds; instants count from 1970-01-01T00:00Z. */
  type Time = int

  const SECOND: Time := 1_000_000_000
  const MINUTE: Time := 60 * SECOND
  const HOUR: Time := 60 * MINUTE
  const DAY: Time := 24 * HOUR

  /** The pre-debit notice must be delivered this long before the debit. */
  const NOTICE_LEAD: Time := 24 * HOUR
}
