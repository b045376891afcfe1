/** Shared vocabulary of the rewards shop: the error taxonomy, result wrappers
    and the life-cycle states of an order. */
module ShopTypes {

  /** Why an operation was refused. The first four are the rule service's own
      refusals; ConstraintViolation is what the relational store raises when a
      write would break a declared constraint (a UNIQUE column or a foreign key). */
  datatype Error =
    | InvalidInput
    | NotFound
    | InsufficientFunds
    | InvalidState
    | ConstraintViolation

  /** A value that may be absent, such as a row looked up by id. */
  datatype Option<T> = None | Some(value: T)

  /** The value of an operation that either succeeds with a value or fails. */
  datatype Result<T> = Ok(value: T) | Err(error: Error)

  /** The value of an operation that succeeds with no value or fails. */
  datatype Outcome = Done | Fail(error: Error)

  /** The `status` column of an order. `Pending` is the column default and the
      only initial state; the other two are terminal. */
  datatype Status = Pending | Fulfilled | Cancelled

  predicate IsTerminal(s: Status) {
    s != Pending
  }
}
