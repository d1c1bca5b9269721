/**
 * `CustomError` and `CustomException<T>`: an error pairs an HTTP status code
 * with a message, and the exception thrown for it carries both.
 */
module Exceptions {

  /** The `System.Net.HttpStatusCode` values the errors use. */
  datatype HttpStatusCode = BadRequest | NotFound | InternalServerError
  {
    /** The numeric value of the status code. */
    function Code(): int
    {
      match this
      case BadRequest => 400
      case NotFound => 404
      case InternalServerError => 500
    }
  }

  datatype CustomError = CustomError(statusCode: HttpStatusCode, message: string)

  /** The `StatusCode` and `Message` of a thrown `CustomException<T>`. */
  datatype CustomException = CustomException(statusCode: HttpStatusCode, message: string)

  /** `new XCustomException(error)`: the base constructor copies the error's status code and message. */
  function Raise(error: CustomError): (e: CustomException)
    ensures e.statusCode == error.statusCode && e.message == error.message
  {
    CustomException(error.statusCode, error.message)
  }
}
