/**
  The services signal every failure with a `CustomError`: an error kind, which the
  request layer turns into an HTTP status, and a human-readable message.
*/
module Errors {

  datatype ErrorKind = BadRequest | Unauthorized | InternalServer

  datatype CustomError = CustomError(kind: ErrorKind, message: string)

  /**
    A `catch` block that rethrows whatever it caught as an internal-server error
    (`CustomError.internarlServer(`${error}`)`). Only the kind is modelled faithfully;
    the message keeps the caught error's message.
  */
  function Rethrown(caught: CustomError): (e: CustomError)
    ensures e.kind == InternalServer
    ensures e.message == caught.message
  {
    CustomError(InternalServer, caught.message)
  }
}
