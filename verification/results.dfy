/** The outcome of one contract call.  A call either completes with a new
    value or reverts with one of the contract's custom errors; a revert
    applies none of the call's effects. */
module Results {

  datatype Result<+T, +E> = Ok(value: T) | Err(error: E)
}
