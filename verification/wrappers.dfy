/** Failure-compatible result types shared by every layer of the driver model,
    and the two kinds of error the driver raises: transport errors
    (boost::system::system_error) and the driver's own Exception. */
module Wrappers {

  datatype Option<+T> = None | Some(value: T)

  /** The transport error codes the retry policy distinguishes. */
  datatype SysCode = Eof | BrokenPipe | OtherSys(code: int)

  datatype Error =
    | SystemError(code: SysCode)   // raised by the socket layer
    | Exception(msg: string)       // OrientPP::Exception, carrying its what() text

  /** The what() text of a system error; platform-provided, so only fixed per code. */
  function SysText(c: SysCode): string
  {
    match c
    case Eof => "End of file"
    case BrokenPipe => "Broken pipe"
    case OtherSys(_) => "system error"
  }

  function What(e: Error): string
  {
    match e
    case SystemError(c) => SysText(c)
    case Exception(m) => m
  }

  /** True of the two transport failures after which the driver reconnects. */
  predicate IsConnectionLoss(e: Error)
  {
    e.SystemError? && (e.code.Eof? || e.code.BrokenPipe?)
  }

  datatype Result<+T> = Ok(value: T) | Err(error: Error) {

    predicate IsFailure() {
      Err?
    }

    function PropagateFailure<U>(): Result<U>
      requires Err?
    {
      Err(error)
    }

    function Extract(): T
      requires Ok?
    {
      value
    }
  }
}
