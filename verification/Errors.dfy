/** Python exceptions as data: a call either returns a value or raises one of these. */
module Errors {
  import opened Sequences

  datatype Mismatch = BadStatus | NoTransferLog | WrongPayer | WrongPayee | WrongAmount | WrongAsset

  datatype Exn =
    | KeyError
    | ValueError
    | TypeError
    | AttributeError
    | DecimalOverflow
    | InvalidOperation
    | OverflowError
    | ValidationError
    | ConnectionError
    | TransportError
    | ParsingError
    | AgentError(message: string)
    // payments.errors
    | NoSatisfiableOffer
    | OfferOverCap(amount: real, cap: real)
    | InfiniteOfferOverCap(cap: real)
    | NetworkNotAllowed
    | InsufficientBalance
    | EndpointUnreachable
    | BalanceCheckUnavailable
    | UnexpectedStatus(status: int)
    | SettlementRejected(rejectedHash: Option<string>)
    | SettlementNotConfirmed(pendingHash: string)
    | SettlementMismatch(mismatches: seq<Mismatch>, mismatchHash: Option<string>)
    | SpendPermissionUnauthorized
    // evals.guardrail
    | VendorNotOffered
    | PriceAnomaly
    | DuplicatePurchaseAttempt

  datatype Result<+T> = Ok(value: T) | Err(error: Exn) {
    predicate IsFailure() {
      Err?
    }
    function PropagateFailure<U>(): Result<U>
      requires Err?
    {
      Err(error)
    }
    function Extract(): T
      requires Ok?
    {
      value
    }
  }
}
