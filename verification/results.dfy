/**
  The failures of the RPAL front end and the failure-compatible result
  type every stage returns.  The C program prints a diagnostic and calls
  exit(1); here each of those exits is a value.
 */
module Results {

  /** The lexemes and token kinds the diagnostics talk about. */
  datatype Error =
    | BadChar(c: char)                      // a character of no class at a token start
    | BadEscape(c: char)                    // a backslash not followed by t, n, \ or '
    | BadStringChar(c: char)                // a character a string may not hold
    | UnexpectedEnd                         // the C dereferences an empty token list
    | Expected(found: string, wanted: string) // a mandatory match failed

  datatype Result<+T> = Ok(value: T) | Err(error: Error) {

    predicate IsFailure() {
      Err?
    }

    function PropagateFailure<U>(): Result<U>
      requires Err?
    {
      Err(error)
    }

    function Extract(): T
      requires Ok?
    {
      value
    }
  }
}
