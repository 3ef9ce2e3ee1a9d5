/** What a controller or middleware answers, without the web framework around it. */
module Http {
  import opened Wrappers

  /** A JSON reply: the status code and either the `result` or the `error` message. */
  datatype Reply<+T> = Reply(status: int, body: Result<T, string>)

  /** The decision of a middleware: call `next()` or answer with an error status. */
  datatype Gate = Next | Deny(status: int, message: string)

  function Fail<T>(status: int, message: string): Reply<T> {
    Reply(status, Err(message))
  }
}
