/** Values shared by every module: optional values, the exceptions the
    services throw, and a result type that carries either. */
module Common {

  datatype Option<+T> = None | Some(value: T) {
    /** The JavaScript `x ?? d` on a value that may be null or undefined. */
    function GetOr(d: T): T {
      if Some? then value else d
    }
  }

  /** The NestJS exceptions the services throw (and the plain `Error` the
      gateway throws), each with the message the source gives it. */
  datatype Failure =
    | BadRequest(message: string)
    | Forbidden(message: string)
    | NotFound(message: string)
    | Unauthorized(message: string)
    | PlainError(message: string)

  datatype Result<+T> = Ok(value: T) | Err(failure: Failure)

  datatype Unit = Unit

  type UserId = string
  type ServerId = string
  type ChannelId = string
  type ThreadId = string
  type MessageId = string
  type AttachmentId = string
  type InviteId = string
  type TokenId = string

  /** Timestamps (`new Date()` in the source) as milliseconds on a logical clock. */
  type Time = int

  /** An opaque JSON payload that the code forwards without looking inside. */
  type Json = string
}
