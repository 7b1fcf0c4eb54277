/** Outcomes of the modelled operations.  The source signals failure by raising one of
    the language's built-in exceptions; each kind that the core can raise is a
    constructor of `Error`, and an operation that can raise returns a `Result`. */
module Results {

  /** The exception kinds the core can raise. */
  datatype Error =
    | IndexError          // list or string index out of range, pop from an empty list
    | KeyError(key: string)  // a reaction-centre label missing from the label table
    | ValueError          // a token that is not a decimal integer
    | AssertionError      // a failed `assert` statement

  /** Either the value an operation returns or the exception it raises. */
  datatype Result<+T> = Ok(value: T) | Err(error: Error) {

    predicate IsFailure() {
      Err?
    }

    function PropagateFailure<U>(): Result<U>
      requires Err?
    {
      Err(error)
    }

    function Extract(): T
      requires Ok?
    {
      value
    }
  }

  /** An optional value, for definitions that are only meaningful under conditions. */
  datatype Option<+T> = None | Some(value: T)
}
