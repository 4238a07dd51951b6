/** Small result types used in place of Java's null and of the parser's ParseError exception. */
module Wrappers {

  /** A value that may be missing: Java's `null` for a statement the parser did not build. */
  datatype Option<+T> = None | Some(value: T)

  /** The outcome of one parsing routine: a value, or the syntax error that Java throws as
      `ParseError` (the diagnostic itself has already been written when `Fail` is returned). */
  datatype Outcome<+T> = Ok(value: T) | Fail {

    predicate IsFailure() {
      Fail?
    }

    function PropagateFailure<U>(): Outcome<U>
      requires Fail?
    {
      Fail
    }

    function Extract(): T
      requires Ok?
    {
      value
    }
  }
}
