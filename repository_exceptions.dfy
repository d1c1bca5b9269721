/** `RepositoryCustomError`, and what `RecordRepository` and `EntryRepository` throw. */
module RepositoryExceptions {
  import opened Results
  import opened Exceptions

  datatype RepositoryCustomError = UnavailableKey | TimeOutServer

  /** The `CustomError` each kind stands for; the timeout message is fixed. */
  function Error(kind: RepositoryCustomError): CustomError
  {
    match kind
    case UnavailableKey => CustomError(BadRequest, "Could not find a valid key for the record")
    case TimeOutServer => CustomError(InternalServerError, "Timeout while attempting to connect to MongoDB server")
  }

  /**
   * An exception leaving a repository: a `RepositoryCustomException`, with
   * the server address that `RecordRepository` scrapes for a timeout (`None`
   * where none is passed), or a `MongoException` of the driver passed on.
   */
  datatype RepositoryException =
    | Custom(error: RepositoryCustomError, address: Option<string>)
    | DriverException(message: string)

  /** The `StatusCode` and `Message` of a custom exception; `None` for a driver exception. */
  function Thrown(x: RepositoryException): Option<CustomException>
  {
    match x
    case Custom(kind, _) => Some(Raise(Error(kind)))
    case DriverException(_) => None
  }

  /** The exact status codes and messages of the table. */
  lemma ErrorTable()
    ensures Raise(Error(UnavailableKey)) == CustomException(BadRequest, "Could not find a valid key for the record")
    ensures Raise(Error(TimeOutServer)) == CustomException(InternalServerError, "Timeout while attempting to connect to MongoDB server")
    ensures Error(UnavailableKey).statusCode.Code() == 400
    ensures Error(TimeOutServer).statusCode.Code() == 500
  {
  }

  /** A timeout's status code and message are the same whatever address was scraped. */
  lemma TimeoutIgnoresAddress(a1: Option<string>, a2: Option<string>)
    ensures Thrown(Custom(TimeOutServer, a1)) == Thrown(Custom(TimeOutServer, a2))
    ensures Thrown(Custom(TimeOutServer, a1)).value.statusCode.Code() == 500
  {
  }
}
