/** Failure values of the screener-expression compiler and the result wrappers
    that carry them. Every exception the compiler raises is one `Error`. */
module Errors {

  /** The failures of compiling a filter expression, one constructor per
      error message. The scanner's errors carry no offset. */
  datatype Error =
    | UnexpectedCharacter(c: char)   // scanner: no lexeme starts with `c`
    | UnterminatedString             // scanner: end of input before the closing quote
    | InvalidNumber(numeral: string) // scanner: the digits-and-dots run is not a valid numeral
    | ExpectColon                    // parser: no ':' inside `subject[lower:upper]`
    | ExpectRightBracket             // parser: no ']' closing `subject[lower:upper]`
    | ExpectRightParen               // parser: no ')' closing a group
    | ExpectExpression               // parser: no primary where one is required
    | EmptyStringIndex               // serialiser: first character of an empty string

  datatype Option<+T> = None | Some(value: T) {
    predicate IsFailure() { None? }

    function PropagateFailure<U>(): Option<U>
      requires None?
    {
      None
    }

    function Extract(): T
      requires Some?
    {
      value
    }
  }

  /** A value, or the error that aborted the computation (usable with `:-`). */
  datatype Result<+T> = Ok(value: T) | Err(error: Error) {
    predicate IsFailure() { Err? }

    function PropagateFailure<U>(): Result<U>
      requires Err?
    {
      Err(error)
    }

    function Extract(): T
      requires Ok?
    {
      value
    }
  }
}
