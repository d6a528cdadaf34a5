/** The exceptions the library raises, the result type that carries them, and
    the shape of a Python argument that may be a name or a position. */
module Errors {

  datatype Error =
    | TypeError       // an argument of the wrong Python type
    | ValueError      // an argument of the right type but an unacceptable value
    | IndexError      // a position out of range
    | KeyError        // a name or a label that is not present
    | AttributeError  // a method called on an object that does not have it
    | AxisAlignError  // two axes of the same name that cannot be matched

  /** Either a value or the exception that was raised instead; usable with `:-`. */
  datatype Result<+R> = Ok(value: R) | Err(error: Error) {
    predicate IsFailure() {
      Err?
    }

    function PropagateFailure<U>(): Result<U>
      requires Err?
    {
      Err(error)
    }

    function Extract(): R
      requires Ok?
    {
      value
    }
  }

  datatype Option<+R> = None | Some(value: R)

  /** A Python object passed where an axis name (`str`) or an axis id
      (`int` position or `str` name) is expected. */
  datatype Arg = IntArg(i: int) | StrArg(s: string) | OtherArg
}
