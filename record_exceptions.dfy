/** `RecordCustomError`: the errors of the record service and their status codes and messages. */
module RecordExceptions {
  import opened Exceptions

  datatype RecordCustomError = KeyNotInformed | RecordNotFound | ValueNotInformed

  /** The `CustomError` each kind stands for. */
  function Error(kind: RecordCustomError): CustomError
  {
    match kind
    case KeyNotInformed => CustomError(BadRequest, "Informed key is null or empty")
    case RecordNotFound => CustomError(NotFound, "Record not found")
    case ValueNotInformed => CustomError(BadRequest, "Informed value is null or empty")
  }

  /** The exact status codes and messages of the table. */
  lemma ErrorTable()
    ensures Raise(Error(KeyNotInformed)) == CustomException(BadRequest, "Informed key is null or empty")
    ensures Raise(Error(RecordNotFound)) == CustomException(NotFound, "Record not found")
    ensures Raise(Error(ValueNotInformed)) == CustomException(BadRequest, "Informed value is null or empty")
    ensures Error(KeyNotInformed).statusCode.Code() == 400
    ensures Error(RecordNotFound).statusCode.Code() == 404
    ensures Error(ValueNotInformed).statusCode.Code() == 400
  {
  }

  /** The thrown exception identifies the error kind, and only `RecordNotFound` is a 404. */
  lemma KindsAreDistinguishable(k1: RecordCustomError, k2: RecordCustomError)
    ensures Raise(Error(k1)) == Raise(Error(k2)) <==> k1 == k2
    ensures Error(k1).statusCode == NotFound <==> k1 == RecordNotFound
  {
  }
}
