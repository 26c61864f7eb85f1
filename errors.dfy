/** The error type of the equation front end and the result wrappers its stages return. */
module Errors {

  /** `EquationParseError`: the only three failures the front end can report. */
  datatype EquationParseError = LiteralParseError | UnknownFunction | NoMatch

  /** A stage's result: a value, or the error that stopped the stage. */
  datatype Result<T> = Ok(value: T) | Err(error: EquationParseError)

  datatype Option<T> = None | Some(value: T)
}
