/** The failure vocabulary shared by every module: an optional value, a
    result that is either a value or one of the errors the library raises,
    and the errors themselves. Each error names the PHP exception (or PHP
    engine error) that the corresponding code path throws. */
module Errors {

  datatype Option<+T> = None | Some(value: T)

  datatype Error =
    // InvalidArgumentException from addServer / addFunction / unregister
    | InvalidHost(host: string)
    | InvalidPort(port: int)
    | ServerAlreadyRegistered(server: string)
    | FunctionAlreadyRegistered(name: string)
    | FunctionNotRegistered(name: string)
    // TypeError: a port token that PHP cannot coerce to the `?int` parameter
    | PortNotInteger(token: string)
    // Exceptions raised by Task
    | UnknownJobType(jobType: int)
    | InvalidCallbackType(kind: int)
    // TypeError: a non-array value passed to Task's `array $arg` parameter
    | ArgumentNotArray
    // Exceptions raised by Set::getTask
    | UnknownHandle(handle: string)
    | NoTaskByHandle(handle: string)
    // Exceptions raised by the client dispatcher
    | ErrorOccurred
    | InvalidFunction(name: string)
    // Engine errors in the client loop: array_shift on a missing or empty
    // waiting list, array_rand on an empty pool, an undefined task key
    | NoPendingSubmission(conn: nat)
    | NoOpenConnection
    | TaskKeyMissing(index: nat)
    // Exceptions raised by the worker
    | NoServerConnected
    | JobNotAssigned
    | ConnectionLost(server: string)
    | HandlerException(reason: string)
    // Engine errors in the worker that no `catch (\Exception)` intercepts
    | FunctionNotCallable(name: string)
    | HandlerEngineError(detail: string)
    // Exceptions raised by the administrative client
    | CouldNotConnect(host: string)
    | QueueSizeNotNumeric(size: string)
    | InvalidFunctionName(name: string)
    | ServerIsShutDown
    | ServerReportedError(errorCode: string, errorMessage: string)
    | Unterminated
    // TypeError: an error code that `Exception`'s `int $code` parameter refuses
    | ErrorCodeNotInteger(errorCode: string)

  datatype Result<+T> = Ok(value: T) | Err(error: Error) {
    predicate IsFailure() { Err? }

    function PropagateFailure<U>(): Result<U>
      requires Err?
    {
      Err(error)
    }

    function Extract(): T
      requires Ok?
    {
      value
    }
  }
}
