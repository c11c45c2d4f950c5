/** Option and Result wrappers, and the Python exceptions the modelled code raises. */
module Outcomes {

  datatype Option<+T> = None | Some(value: T)

  /** The exceptions raised by the modelled functions, named as Python names them. */
  datatype Error =
    | KeyError(key: string)
    | ValueError(message: string)
    | TypeError(message: string)
    | IndexError(message: string)
    | ZeroDivisionError
    | UndefinedValueError(name: string)
    | UnboundLocalError(name: string)
    | FileNotFoundError(path: string)

  datatype Result<+T> = Ok(value: T) | Err(error: Error) {
    predicate IsFailure() { Err? }

    function PropagateFailure<U>(): Result<U>
      requires Err?
    {
      Err(error)
    }

    function Extract(): T
      requires Ok?
    {
      value
    }
  }
}
