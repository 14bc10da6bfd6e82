/** internal/classify/classify.go: the failure table consulted by worker and scheduler. */
module Classification {
  import opened Domain

  /** The table's class for a code, and whether the table has the code at all. */
  function Classify(code: FailureCode): (FailureClass, bool) {
    match code
    case InsufficientFunds => (RetryLater, true)
    case MandateRevoked => (Terminal, true)
    case AmountExceedsLimit => (Terminal, true)
    case PreDebitNoticeMissing => (RetryLater, true)
    case PspUnavailable => (RetryNow, true)
    case PayerAuthPending => (RetryNow, true)
    case TechnicalDecline => (RetryNow, true)
    case BankUnreachable => (RetryNow, true)
    case AccountFrozen => (ManualReview, true)
    case Other(_) => (ManualReview, false)
  }

  /** The two classes that end automatic retries. */
  predicate Final(class_: FailureClass) {
    class_ == Terminal || class_ == ManualReview
  }

  /** Codes the table itself maps to a class that ends automatic retries. */
  predicate Stops(code: FailureCode) {
    Classify(code).1 && Final(Classify(code).0)
  }

  /** The table's codes by what they mean for a cycle: retried, ended for good, ended for a human. */
  const RETRIED: set<FailureCode> :=
    {InsufficientFunds, PreDebitNoticeMissing, PspUnavailable, PayerAuthPending, TechnicalDecline, BankUnreachable}
  const ENDED: set<FailureCode> := {MandateRevoked, AmountExceedsLimit, AccountFrozen}

  /** Every code is retried, ends the cycle, or is outside the table; for a code outside it the table
      answers manual review. */
  lemma CodesSplit(code: FailureCode)
    ensures code in RETRIED <==> Classify(code).1 && !Final(Classify(code).0)
    ensures code in ENDED <==> Stops(code)
    ensures code.Other? <==> !Classify(code).1
    ensures code.Other? ==> Classify(code).0 == ManualReview
  {
  }

  /** The classes a worker may end up with for a code: the table's for a mapped code, and any
      class at all for an unmapped one, which the worker asks an outside adviser about. */
  predicate WorkerMayClassify(code: FailureCode, class_: FailureClass) {
    Classify(code).1 ==> class_ == Classify(code).0
  }
}
