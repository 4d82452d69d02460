/** Failure-carrying results: the node's exceptions become `Failure` values. */
module Wrappers {
  datatype Option<+T> = None | Some(value: T)

  datatype Error =
    | UtxoNotFound
    | IndexAlreadyAdded
    | IndexAlreadySpent
    | ClaimFailed
    | FeeTooLow
    | WrongConcilium
    | BadCoinbase
    | BadHeight
    | BadParent
    | UnexpectedFork
    | MergeConflict
    | Malformed
    | UnknownWitness
    | WrongAddress
    | RoundsNotInitialised

  datatype Result<+T> = Success(value: T) | Failure(error: Error) {
    predicate IsFailure() {
      Failure?
    }

    function PropagateFailure<U>(): Result<U>
      requires Failure?
    {
      Failure(error)
    }

    function Extract(): T
      requires Success?
    {
      value
    }
  }
}
