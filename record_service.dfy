/**
 * `RecordService`: checks its arguments, makes at most one repository call,
 * and turns the repository's answer into a result or a `RecordCustomError`.
 * The repository is given as the answers it would return (`RecordRepository`),
 * and every operation also reports the calls it made.
 */
module RecordService {
  import opened Results
  import opened Store
  import opened RecordExceptions
  import opened RepositoryExceptions

  /** A `Record` is a key and a value; the mapping from stored documents is the identity. */
  type Record = Document

  /** The answers of an `IRecordRepository`: a value, or the repository exception it throws. */
  datatype RecordRepository = RecordRepository(
    insert: string -> Result<Guid, RepositoryException>,
    update: (Guid, string) -> Result<int, RepositoryException>,
    delete: Guid -> Result<int, RepositoryException>,
    get: Guid -> Result<Option<Record>, RepositoryException>,
    getAll: Result<Option<seq<Record>>, RepositoryException>)

  /** One call the service makes on its repository. */
  datatype RepositoryCall =
    | InsertCall(value: string)
    | UpdateCall(key: Guid, value: string)
    | DeleteCall(key: Guid)
    | GetCall(key: Guid)
    | GetAllCall

  /** A failed service call: the service's own error, or a repository exception passed through. */
  datatype ServiceError = Rejected(error: RecordCustomError) | Propagated(failure: RepositoryException)

  /** A service call's result, with the repository calls it made. */
  datatype Outcome<+T> = Outcome(result: Result<T, ServiceError>, calls: seq<RepositoryCall>)

  /** A repository answer as the service returns it: exceptions pass through unchanged. */
  function Propagate<T>(answer: Result<T, RepositoryException>): (r: Result<T, ServiceError>)
    ensures r.Success? <==> answer.Success?
    ensures r.Success? ==> r.value == answer.value
    ensures r.Failure? ==> r.error == Propagated(answer.error)
  {
    match answer
    case Success(v) => Success(v)
    case Failure(x) => Failure(Propagated(x))
  }

  /** `ValidateKey`: `Guid.Empty` is the only key rejected. */
  function ValidateKey(key: Guid): (r: Option<RecordCustomError>)
    ensures r == None <==> key != EmptyGuid
    ensures r != None ==> r.value == KeyNotInformed
  {
    if key == EmptyGuid then Some(KeyNotInformed) else None
  }

  /** The result of an update or delete given the count the repository returned: zero means not found. */
  function CheckCount(answer: Result<int, RepositoryException>): (r: Result<(), ServiceError>)
    ensures r.Success? <==> answer.Success? && answer.value != 0
    ensures answer == Success(0) ==> r == Failure(Rejected(RecordNotFound))
    ensures answer.Failure? ==> r == Failure(Propagated(answer.error))
  {
    match answer
    case Success(count) => if count == 0 then Failure(Rejected(RecordNotFound)) else Success(())
    case Failure(x) => Failure(Propagated(x))
  }

  /** `DeleteRecordAsync`. */
  function DeleteRecord(repository: RecordRepository, key: Guid): (o: Outcome<()>)
    ensures key == EmptyGuid ==> o == Outcome(Failure(Rejected(KeyNotInformed)), [])
    ensures key != EmptyGuid ==> o.calls == [DeleteCall(key)]
    ensures o.result.Success? <==> key != EmptyGuid && repository.delete(key).Success? && repository.delete(key).value != 0
    ensures key != EmptyGuid && repository.delete(key) == Success(0) ==> o.result == Failure(Rejected(RecordNotFound))
    ensures key != EmptyGuid && repository.delete(key).Failure? ==> o.result == Failure(Propagated(repository.delete(key).error))
  {
    match ValidateKey(key)
    case Some(error) => Outcome(Failure(Rejected(error)), [])
    case None => Outcome(CheckCount(repository.delete(key)), [DeleteCall(key)])
  }

  /** `GetRecordAsync`: a `null` record is reported as not found. */
  function GetRecord(repository: RecordRepository, key: Guid): (o: Outcome<Record>)
    ensures key == EmptyGuid ==> o == Outcome(Failure(Rejected(KeyNotInformed)), [])
    ensures key != EmptyGuid ==> o.calls == [GetCall(key)]
    ensures o.result.Success? <==> key != EmptyGuid && repository.get(key).Success? && repository.get(key).value.Some?
    ensures o.result.Success? ==> o.result.value == repository.get(key).value.value
    ensures key != EmptyGuid && repository.get(key) == Success(None) ==> o.result == Failure(Rejected(RecordNotFound))
    ensures key != EmptyGuid && repository.get(key).Failure? ==> o.result == Failure(Propagated(repository.get(key).error))
  {
    match ValidateKey(key)
    case Some(error) => Outcome(Failure(Rejected(error)), [])
    case None =>
      var result :=
        match repository.get(key)
        case Success(None) => Failure(Rejected(RecordNotFound))
        case Success(Some(record)) => Success(record)
        case Failure(x) => Failure(Propagated(x));
      Outcome(result, [GetCall(key)])
  }

  /** `GetRecordsAsync`: a `null` or empty list is reported as not found. */
  function GetRecords(repository: RecordRepository): (o: Outcome<seq<Record>>)
    ensures o.calls == [GetAllCall]
    ensures o.result.Success? <==>
      repository.getAll.Success? && repository.getAll.value.Some? && |repository.getAll.value.value| > 0
    ensures o.result.Success? ==> o.result.value == repository.getAll.value.value
    ensures repository.getAll == Success(None) || repository.getAll == Success(Some([])) ==>
      o.result == Failure(Rejected(RecordNotFound))
    ensures repository.getAll.Failure? ==> o.result == Failure(Propagated(repository.getAll.error))
  {
    var result :=
      match repository.getAll
      case Success(None) => Failure(Rejected(RecordNotFound))
      case Success(Some(records)) => if |records| == 0 then Failure(Rejected(RecordNotFound)) else Success(records)
      case Failure(x) => Failure(Propagated(x));
    Outcome(result, [GetAllCall])
  }

  /** `InsertRecordAsync`: a `null` or empty value is rejected; otherwise the repository's answer is returned. */
  function InsertRecord(repository: RecordRepository, value: Option<string>): (o: Outcome<Guid>)
    ensures IsNullOrEmpty(value) ==> o == Outcome(Failure(Rejected(ValueNotInformed)), [])
    ensures !IsNullOrEmpty(value) ==> o == Outcome(Propagate(repository.insert(value.value)), [InsertCall(value.value)])
  {
    if IsNullOrEmpty(value) then Outcome(Failure(Rejected(ValueNotInformed)), [])
    else Outcome(Propagate(repository.insert(value.value)), [InsertCall(value.value)])
  }

  /** `UpdateRecordAsync`: the key is checked before the value, and a count of zero means not found. */
  function UpdateRecord(repository: RecordRepository, key: Guid, newValue: Option<string>): (o: Outcome<()>)
    ensures key == EmptyGuid ==> o == Outcome(Failure(Rejected(KeyNotInformed)), [])
    ensures key != EmptyGuid && IsNullOrEmpty(newValue) ==> o == Outcome(Failure(Rejected(ValueNotInformed)), [])
    ensures key != EmptyGuid && !IsNullOrEmpty(newValue) ==> o.calls == [UpdateCall(key, newValue.value)]
    ensures o.result.Success? <==>
      key != EmptyGuid && !IsNullOrEmpty(newValue)
      && repository.update(key, newValue.value).Success? && repository.update(key, newValue.value).value != 0
    ensures key != EmptyGuid && !IsNullOrEmpty(newValue) && repository.update(key, newValue.value) == Success(0) ==>
      o.result == Failure(Rejected(RecordNotFound))
    ensures key != EmptyGuid && !IsNullOrEmpty(newValue) && repository.update(key, newValue.value).Failure? ==>
      o.result == Failure(Propagated(repository.update(key, newValue.value).error))
  {
    match ValidateKey(key)
    case Some(error) => Outcome(Failure(Rejected(error)), [])
    case None =>
      if IsNullOrEmpty(newValue) then Outcome(Failure(Rejected(ValueNotInformed)), [])
      else Outcome(CheckCount(repository.update(key, newValue.value)), [UpdateCall(key, newValue.value)])
  }

  /**
   * The argument checks guard the repository: a call is rejected by the
   * service's own checks exactly when it reaches no repository method, and
   * such a rejection is never a not-found error.
   */
  lemma RejectedCallsNeverReachRepository(repository: RecordRepository, key: Guid, value: Option<string>)
    ensures DeleteRecord(repository, key).calls == [] <==> DeleteRecord(repository, key).result == Failure(Rejected(KeyNotInformed))
    ensures GetRecord(repository, key).calls == [] <==> GetRecord(repository, key).result == Failure(Rejected(KeyNotInformed))
    ensures InsertRecord(repository, value).calls == [] <==> InsertRecord(repository, value).result == Failure(Rejected(ValueNotInformed))
    ensures var o := UpdateRecord(repository, key, value);
      o.calls == [] <==> o.result == Failure(Rejected(KeyNotInformed)) || o.result == Failure(Rejected(ValueNotInformed))
  {
  }
}
