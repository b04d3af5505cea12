/** Results and the exceptions the authentication core raises. */
module Exceptions {

  datatype Option<+T> = None | Some(value: T)

  /** The exceptions thrown on the paths of the core, each with the message it carries. */
  datatype Exception =
    | Unauthorized(message: string)    // NestJS UnauthorizedException, HTTP 401
    | InvalidCredentials               // InvalidCredentialsException, HTTP 401, fixed message
    | NotFound(message: string)        // NestJS NotFoundException, HTTP 404
    | TokenExpiredError                // jsonwebtoken: the token's exp has passed
    | JsonWebTokenError                // jsonwebtoken: any other verification failure
    | SignError                        // the Error jsonwebtoken's sign throws on options it refuses
    | CacheReplyError(message: string) // an error reply from the Redis server
    | TypeError(message: string)       // a JavaScript TypeError

  /** A promise that resolves with a value or rejects with an exception. */
  datatype Result<+T> = Ok(value: T) | Err(error: Exception)

  /** The message NestJS gives a NotFoundException built without arguments. */
  const NotFoundDefaultMessage := "Not Found"
}
