/**
 * The errors thrown by `RegisterRepository` and `MongoDbService`. Both use
 * error members that their error classes do not define:
 * `RegisterRepository` throws `RepositoryCustomError.KeyNotInformed` and
 * `RegisterNotFound` and calls the parameterless `TimeOutServer` with an
 * address; `MongoDbService` throws `MongoDbCustomError.KeyNotInformed` and
 * `UnavailableKey` and calls `TimeOutServer` with an address, where
 * `MongoDbCustomError` defines only `RegisterNotFound`. The errors are
 * therefore modelled by name only, without status codes.
 */
module LegacyErrors {
  import opened Results
  import opened Store
  import opened RetryInsert
  import AddressScraper

  datatype LegacyError =
    | KeyNotInformed
    | RegisterNotFound
    | UnavailableKey
    | TimeOutServer(address: string)
    | DriverException(message: string)

  /** The address reported for a timeout, scraped with ASCII word and digit classes. */
  function TimeoutAddress(message: string): string
  {
    AddressScraper.ServerAddress(message, AddressScraper.AsciiWord, AddressScraper.AsciiDigit)
  }

  /** The error for a server fault: a timeout carries the scraped address, a driver failure is passed on. */
  function ServerFailure(fault: Fault): (e: LegacyError)
    requires fault != Healthy
    ensures fault.TimesOut? <==> e.TimeOutServer?
    ensures fault.TimesOut? ==> e.address == TimeoutAddress(fault.message)
    ensures fault.Fails? ==> e == DriverException(fault.message)
  {
    match fault
    case TimesOut(m) => TimeOutServer(TimeoutAddress(m))
    case Fails(m) => DriverException(m)
  }

  /** What the public insert returns for an insert that ended with `end`. */
  function InsertResult(end: InsertEnd): (r: Result<Guid, LegacyError>)
    ensures r.Success? <==> end.Stored?
    ensures r.Success? ==> r.value == end.key
    ensures r == Failure(UnavailableKey) <==> end == KeysExhausted
    ensures end.TimedOut? ==> r == Failure(ServerFailure(TimesOut(end.message)))
    ensures end.Failed? ==> r == Failure(ServerFailure(Fails(end.message)))
  {
    match end
    case Stored(key) => Success(key)
    case KeysExhausted => Failure(UnavailableKey)
    case TimedOut(m) => Failure(ServerFailure(TimesOut(m)))
    case Failed(m) => Failure(ServerFailure(Fails(m)))
  }

  /** An update fails as not found exactly when the server reports a count of zero. */
  function UpdateResultOf(reported: UpdateResult): (r: Result<(), LegacyError>)
    ensures r.Failure? <==> reported.isModifiedCountAvailable && reported.modifiedCount == 0
    ensures r.Failure? ==> r.error == RegisterNotFound
  {
    if reported.isModifiedCountAvailable && reported.modifiedCount == 0 then Failure(RegisterNotFound) else Success(())
  }
}
