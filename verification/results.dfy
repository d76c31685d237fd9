/** The library's single failure kind, the domain error, and the failure-compatible
    datatypes that carry it. Each constructor of DomainError stands for one place in
    the scalar type that raises the error, so callers can tell the causes apart. */
module Results {

  datatype DomainError =
    | NotFinite               // construction from a NaN or infinite value
    | AdditionOverflow        // a sum outside the finite range
    | SubtractionOverflow     // a difference outside the finite range
    | MultiplicationOverflow  // a product outside the finite range
    | DivisionByZero          // a divisor exactly equal to zero
    | DivisionOverflow        // a quotient outside the finite range

  /** A value, or the domain error that stopped its computation. */
  datatype Result<+T> = Ok(value: T) | Err(error: DomainError) {

    predicate IsFailure() {
      Err?
    }

    function PropagateFailure<U>(): Result<U>
      requires Err?
    {
      Err(error)
    }

    function Extract(): T
      requires Ok?
    {
      value
    }
  }

  /** Whether an in-place operation ran to completion or stopped on an error. */
  datatype Outcome = Pass | Fail(error: DomainError)
}
