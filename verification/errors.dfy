/** Exception kinds raised by the device layer, and the result wrappers the
    model uses in place of Python's `raise`. */
module Errors {

  /** The exception classes the protocol, mock and scanner code raise.
      Each carries the message text the source builds (where the model
      builds it) so that callers can inspect it. */
  datatype Error =
    | DeviceComError(msg: string)
    | ProtocolError(msg: string)
    | SerialException(msg: string)
    | OSError(msg: string)
    | RuntimeError(msg: string)
    | ValueError(msg: string)
    | TypeError(msg: string)
    | NotImplementedError(msg: string)
    | TimeoutError(msg: string)
    | StructError(msg: string)
    | ZeroDivisionError(msg: string)
    | IndexError(msg: string)
    | Empty(msg: string)
    | Full(msg: string)
  {
    /** The faults that negotiation lets escape instead of trying the next version. */
    predicate IsSerialOrOS()
    {
      SerialException? || OSError?
    }

    /** The faults the scan worker reports instead of letting them escape. */
    predicate IsSerialOrTimeout()
    {
      SerialException? || TimeoutError?
    }
  }

  datatype Option<+T> = None | Some(value: T)

  /** A computation that either yields a value or raises an `Error`. */
  datatype Result<+T> = Ok(value: T) | Err(error: Error)
  {
    predicate IsFailure()
    {
      Err?
    }

    function PropagateFailure<U>(): Result<U>
      requires Err?
    {
      Err(error)
    }

    function Extract(): T
      requires Ok?
    {
      value
    }
  }
}
