// Option and Result values used throughout the model. A Python function that
// returns None becomes an Option; one that raises becomes a Result whose error
// names the exception class the interpreter would raise.

module Wrappers {

  datatype Option<T> = None | Some(value: T)
  {
    predicate IsSome() { this.Some? }

    function GetOr(default: T): T
    {
      match this
      case None => default
      case Some(v) => v
    }
  }

  /** The Python exception classes that the modelled code raises. */
  datatype PyError =
    | ValueError(message: string)
    | TypeError(message: string)
    | KeyError(message: string)
    | NotImplementedError(message: string)
    | ColumnMismatchError(message: string)
    | EngineError(message: string)
    | AttributeError(message: string)
    | IndexError(message: string)
    | ShapeError(message: string)

  datatype Result<T> = Ok(value: T) | Err(error: PyError)
  {
    predicate IsOk() { this.Ok? }
  }
}
