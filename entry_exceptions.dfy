/** `EntryCustomError`: the errors of the entry service and their status codes and messages. */
module EntryExceptions {
  import opened Exceptions
  import RecordExceptions

  datatype EntryCustomError = KeyNotInformed | RecordNotFound | ValueNotInformed

  /** The `CustomError` each kind stands for. */
  function Error(kind: EntryCustomError): CustomError
  {
    match kind
    case KeyNotInformed => CustomError(BadRequest, "Informed key is null or empty")
    case RecordNotFound => CustomError(NotFound, "Entry not found")
    case ValueNotInformed => CustomError(BadRequest, "Informed value is null or empty")
  }

  /** The exact status codes and messages of the table. */
  lemma ErrorTable()
    ensures Raise(Error(KeyNotInformed)) == CustomException(BadRequest, "Informed key is null or empty")
    ensures Raise(Error(RecordNotFound)) == CustomException(NotFound, "Entry not found")
    ensures Raise(Error(ValueNotInformed)) == CustomException(BadRequest, "Informed value is null or empty")
    ensures Error(KeyNotInformed).statusCode.Code() == 400
    ensures Error(RecordNotFound).statusCode.Code() == 404
    ensures Error(ValueNotInformed).statusCode.Code() == 400
  {
  }

  /** The thrown exception identifies the error kind, and only `RecordNotFound` is a 404. */
  lemma KindsAreDistinguishable(k1: EntryCustomError, k2: EntryCustomError)
    ensures Raise(Error(k1)) == Raise(Error(k2)) <==> k1 == k2
    ensures Error(k1).statusCode == NotFound <==> k1 == RecordNotFound
  {
  }

  /** The kind of the record table with the same name. */
  function AsRecordError(kind: EntryCustomError): RecordExceptions.RecordCustomError
  {
    match kind
    case KeyNotInformed => RecordExceptions.KeyNotInformed
    case RecordNotFound => RecordExceptions.RecordNotFound
    case ValueNotInformed => RecordExceptions.ValueNotInformed
  }

  /**
   * The entry table agrees with the record table on every status code and on
   * every message but one: not found says "Entry not found", not "Record not found".
   */
  lemma AgreesWithRecordTable(kind: EntryCustomError)
    ensures Error(kind).statusCode == RecordExceptions.Error(AsRecordError(kind)).statusCode
    ensures Error(kind).message == RecordExceptions.Error(AsRecordError(kind)).message <==> kind != RecordNotFound
  {
  }
}
