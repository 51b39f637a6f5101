/** The Java exceptions the modelled code raises or wraps, and a Result type
    that carries either a value or the exception that replaced it. */
module Exceptions {

  /** The exception kinds that matter to the model; messages are not modelled. */
  datatype Exception =
    | ArithmeticException                        // integer division or remainder by zero
    | IOException                                // storage could not delete the old output
    | SparkException                             // the distributed job failed in some stage
    | LopsException                              // an instruction could not be generated
    | UnsupportedOperationException              // an operation or opcode is not defined
    | DMLRuntimeException(cause: Exception)      // a runtime failure wrapping its cause

  /** Either a value or the exception thrown instead of returning one. */
  datatype Result<+T> = Ok(value: T) | Err(error: Exception) {

    predicate IsFailure() {
      Err?
    }

    function PropagateFailure<U>(): Result<U>
      requires Err?
    {
      Err(error)
    }

    function Extract(): T
      requires Ok?
    {
      value
    }
  }
}
