/** Outcomes of the assembler's operations. The assembler aborts (panics) on an
    exhausted operand cursor, on an operand that does not parse and on a program
    of more than 1024 words; here each abort is an explicit failure value. */
module Results {

  datatype Option<+T> = None | Some(value: T)

  datatype Failure =
    | MissingOperand                  // a token was asked for and none was left
    | MalformedOperand(token: string) // the token is not a decimal number in range
    | TooManyInstructions             // more than 1024 encoded words

  datatype Result<+T> = Ok(value: T) | Err(failure: Failure) {
    predicate IsFailure() { Err? }

    function PropagateFailure<U>(): Result<U>
      requires Err?
    {
      Err(failure)
    }

    function Extract(): T
      requires Ok?
    {
      value
    }
  }
}
