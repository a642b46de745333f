/** Failure-carrying datatypes shared by the converter and the emitter.

    The original signals every failure by raising `ValueError` (or, for an
    unknown operator, by a failing dictionary lookup).  Here each kind of
    failure becomes one constructor of `CompileError`: the two raises for
    missing operands (ThreeAdressCode.py:24 and 31) share one, and so do the
    two for parentheses (lines 57 and 66).  Every operation that can raise
    returns a `Result`.
 */
module Errors {

  /** The error taxonomy of the compiler core. */
  datatype CompileError =
    | MismatchedParentheses   // a `)` with no `(` below it, or a `(` left at the end
    | UnknownOperator         // a precedence lookup on a symbol outside the table
    | InsufficientOperands    // an operator met with fewer than two stack entries
    | UnresolvedExpression    // the operand stack did not end with exactly one entry

  datatype Option<+T> = None | Some(value: T)

  /** Either a value or the error that aborted the computation. */
  datatype Result<+T> = Ok(value: T) | Err(error: CompileError) {

    predicate IsFailure() {
      Err?
    }

    function PropagateFailure<U>(): Result<U>
      requires Err?
    {
      Err(error)
    }

    function Extract(): T
      requires Ok?
    {
      value
    }
  }
}
