/** Error kinds and the failure-carrying result types shared by the model. */
module Failures {

  /** What the exclusion rule can raise; each carries the offending text. */
  datatype Error =
    | UnrecognizedSyntax(line: string)   // initialize: the line matches no rule shape
    | MalformedTimeBlock(block: string)  // ranges: a time block fails its micro-grammar
    | InvalidDate(text: string)          // ranges: the date of a single-day rule does not parse

  /** The value of an operation that either succeeds or raises an Error. */
  datatype Result<T> = Ok(value: T) | Err(error: Error)

  /** The outcome of an operation that returns nothing but may raise an Error. */
  datatype Outcome = Pass | Fail(error: Error)

  datatype Option<T> = None | Some(value: T)
}
