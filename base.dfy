/** Result and error types shared by every module of the model. */
module Base {

  datatype Option<T> = None | Some(value: T)

  /** The exceptions the repository raises, by Python class, with their message. */
  datatype Error =
    | ValueError(msg: string)
    | IndexError(msg: string)
    | TypeError(msg: string)
    | KeyError(msg: string)
    | ParseError(msg: string)   // GameFileParseError
  {
    function Message(): string {
      match this
      case ValueError(m) => m
      case IndexError(m) => m
      case TypeError(m) => m
      case KeyError(m) => m
      case ParseError(m) => m
    }
  }

  /** A value, or the exception that replaced it. */
  datatype Result<T> = Ok(value: T) | Err(error: Error)

  /** The outcome of an operation that returns nothing (Python `None`) or raises. */
  datatype Outcome = Pass | Fail(error: Error)
}
