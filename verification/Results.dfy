/** Failure-carrying results and the error codes the modelled operations answer with. */
module Results {
  datatype Option<+T> = None | Some(value: T) {
    function GetOr(default: T): T {
      if Some? then value else default
    }
  }

  datatype Error =
    | CreditOverflow | BotNotFound | InsufficientCredits | NotAReversal
    | NotFound | InvalidState | ValidationFailed | Conflict
    | NotOwner | OwnTask | TaskNotOpen | SubmissionLimit | SlotsExhausted | ClaimInvalid | ClaimRequired
    | NoAvailableBudget | InsufficientReservation | HasReservations | NothingToRefund | IllegalTransition
    | NotPaid | ReconciliationFailed | TransactionAborted
    | ProductInactive | IdempotencyConflict

  /** Usable with `:-`: the first failure ends a transaction, as an early return does. */
  datatype Result<+T> = Ok(value: T) | Err(error: Error) {
    predicate IsFailure() {
      Err?
    }

    function PropagateFailure<U>(): Result<U>
      requires Err?
    {
      Err(error)
    }

    function Extract(): T
      requires Ok?
    {
      value
    }
  }

  function Need(condition: bool, error: Error): Result<()> {
    if condition then Ok(()) else Err(error)
  }
}
