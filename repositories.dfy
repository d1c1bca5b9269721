/**
 * The three repositories of the application: `RecordRepository`,
 * `EntryRepository` and `RegisterRepository`. Each wraps one MongoDB
 * collection; every call may meet a server fault, supplied by the caller,
 * and an insert draws its keys from a supplied sequence of generated GUIDs.
 */
module Repositories {
  import opened Results
  import opened Store
  import opened RetryInsert
  import opened Configuration
  import opened RepositoryExceptions
  import LegacyErrors

  /** The modified count a record or entry update returns: zero when the server does not report one. */
  function ModifiedCount(reported: UpdateResult): (n: int)
    ensures !reported.isModifiedCountAvailable ==> n == 0
    ensures reported.isModifiedCountAvailable ==> n == reported.modifiedCount
  {
    if reported.isModifiedCountAvailable then reported.modifiedCount else 0
  }

  /** The first document of a lookup, or `null` when nothing matched. */
  function FirstOrNull(found: seq<Document>): (r: Option<Document>)
    ensures r == None <==> |found| == 0
    ensures r.Some? ==> r.value == found[0]
  {
    if |found| == 0 then None else Some(found[0])
  }

  /** What `RecordRepository` throws for a server fault: a timeout carries the scraped address. */
  function RecordFailure(fault: Fault): (x: RepositoryException)
    requires fault != Healthy
    ensures fault.TimesOut? ==> x == Custom(TimeOutServer, Some(LegacyErrors.TimeoutAddress(fault.message)))
    ensures fault.Fails? ==> x == DriverException(fault.message)
  {
    match fault
    case TimesOut(m) => Custom(TimeOutServer, Some(LegacyErrors.TimeoutAddress(m)))
    case Fails(m) => DriverException(m)
  }

  /** What `EntryRepository` throws for a server fault: a timeout carries no address. */
  function EntryFailure(fault: Fault): (x: RepositoryException)
    requires fault != Healthy
    ensures fault.TimesOut? ==> x == Custom(TimeOutServer, None)
    ensures fault.Fails? ==> x == DriverException(fault.message)
  {
    match fault
    case TimesOut(_) => Custom(TimeOutServer, None)
    case Fails(m) => DriverException(m)
  }

  /**
   * A record or entry repository's answer to a call at a server meeting
   * `fault`: `value` when the server answers, the exception `failure` makes
   * of the fault otherwise.
   */
  function Answer<T>(fault: Fault, value: T, failure: Fault --> RepositoryException): (r: Result<T, RepositoryException>)
    requires forall f: Fault :: f != Healthy ==> failure.requires(f)
    ensures r.Success? <==> fault == Healthy
    ensures r.Success? ==> r.value == value
    ensures r.Failure? ==> r.error == failure(fault)
  {
    if fault == Healthy then Success(value) else Failure(failure(fault))
  }

  /** The count a delete returns: one when a document with `key` was there. */
  function DeletedCount(docs: map<Guid, string>, key: Guid): (n: nat)
    ensures n == 1 <==> key in docs
    ensures n <= 1
  {
    if key in docs then 1 else 0
  }

  /** The document stored under `key`, or `null`. */
  function Lookup(docs: map<Guid, string>, key: Guid): (r: Option<Document>)
    ensures r.Some? <==> key in docs
    ensures r.Some? ==> r.value.key == key && r.value.value == docs[key]
  {
    if key in docs then Some(Document(key, docs[key])) else None
  }

  /** What a record or entry insert returns, given how its server faults are reported. */
  function InsertResult(end: InsertEnd, failure: Fault --> RepositoryException): (r: Result<Guid, RepositoryException>)
    requires forall f: Fault :: f != Healthy ==> failure.requires(f)
    ensures r.Success? <==> end.Stored?
    ensures r.Success? ==> r.value == end.key
    ensures end == KeysExhausted ==> r == Failure(Custom(UnavailableKey, None))
    ensures end.TimedOut? ==> r == Failure(failure(TimesOut(end.message)))
    ensures end.Failed? ==> r == Failure(failure(Fails(end.message)))
  {
    match end
    case Stored(key) => Success(key)
    case KeysExhausted => Failure(Custom(UnavailableKey, None))
    case TimedOut(m) => Failure(failure(TimesOut(m)))
    case Failed(m) => Failure(failure(Fails(m)))
  }

  /** `RecordRepository`. */
  class RecordRepository {
    const collection: Collection
    const databaseName: string
    const collectionName: string

    constructor (config: RepositoryConfiguration, collection: Collection)
      requires CheckArguments(true, Some(config)) == None
      ensures this.collection == collection
      ensures databaseName == config.mongoDatabase.value && collectionName == config.mongoCollection.value
    {
      this.collection := collection;
      databaseName := config.mongoDatabase.value;
      collectionName := config.mongoCollection.value;
    }

    /** The constructor with its argument checks: either a repository or the first argument it rejects. */
    static method Create(mapperGiven: bool, config: Option<RepositoryConfiguration>, collection: Collection)
      returns (r: Result<RecordRepository, ArgumentError>)
      ensures r.Failure? <==> CheckArguments(mapperGiven, config).Some?
      ensures r.Failure? ==> r.error == CheckArguments(mapperGiven, config).value
      ensures r.Success? ==> fresh(r.value) && r.value.collection == collection
    {
      var check := CheckArguments(mapperGiven, config);
      if check.Some? {
        return Failure(check.value);
      }
      var repository := new RecordRepository(config.value, collection);
      return Success(repository);
    }

    /** `InsertRecordAsync`: the key under which the value was stored, after up to four attempts. */
    method InsertRecord(value: string, keys: seq<NewGuid>, faults: seq<Fault>) returns (r: Result<Guid, RepositoryException>)
      requires |keys| > InsertMaxAttempts && |faults| > InsertMaxAttempts
      modifies collection
      ensures var run := Run(old(collection.docs), keys, faults, InsertMaxAttempts + 1);
        && r == InsertResult(run.end, RecordFailure)
        && collection.docs == DocsAfter(old(collection.docs), value, run.end)
        && collection.calls == old(collection.calls) + Attempted(value, keys, run.attempts)
    {
      var end := InsertWhileTrue(collection, value, keys, faults);
      r := InsertResult(end, RecordFailure);
    }

    /** `UpdateRecordAsync`: the modified count the server reports, or zero. */
    method UpdateRecord(key: Guid, newValue: string, fault: Fault, reported: UpdateResult) returns (r: Result<int, RepositoryException>)
      modifies collection
      ensures r == Answer(fault, ModifiedCount(reported), RecordFailure)
      ensures collection.docs ==
        if fault == Healthy && key in old(collection.docs) then old(collection.docs)[key := newValue] else old(collection.docs)
      ensures collection.calls == old(collection.calls) + [UpdateOneCall(key, newValue)]
    {
      var reply := collection.UpdateOne(key, newValue, fault, reported);
      match reply
      case Done(result) => r := Success(ModifiedCount(result));
      case Raised(f) => r := Failure(RecordFailure(f));
    }

    /** `DeleteRecordAsync`: one when a record was removed, zero otherwise. */
    method DeleteRecord(key: Guid, fault: Fault) returns (r: Result<int, RepositoryException>)
      modifies collection
      ensures r == Answer(fault, DeletedCount(old(collection.docs), key), RecordFailure)
      ensures collection.docs == if fault == Healthy then old(collection.docs) - {key} else old(collection.docs)
      ensures collection.calls == old(collection.calls) + [FindOneAndDeleteCall(key)]
    {
      var reply := collection.FindOneAndDelete(key, fault);
      match reply
      case Done(deleted) => r := Success(if deleted.Some? then 1 else 0);
      case Raised(f) => r := Failure(RecordFailure(f));
    }

    /** `GetRecordAsync`: the record stored under `key`, or `null`. */
    method GetRecord(key: Guid, fault: Fault) returns (r: Result<Option<Document>, RepositoryException>)
      modifies collection`calls
      ensures r == Answer(fault, Lookup(collection.docs, key), RecordFailure)
      ensures collection.calls == old(collection.calls) + [FindCall(key)]
    {
      var reply := collection.Find(key, fault);
      match reply
      case Done(found) => r := Success(FirstOrNull(found));
      case Raised(f) => r := Failure(RecordFailure(f));
    }

    /** `GetRecordsAsync`: every record once, an empty list for an empty collection. */
    method GetRecords(fault: Fault) returns (r: Result<seq<Document>, RepositoryException>)
      modifies collection`calls
      ensures fault == Healthy ==> r.Success? && Lists(r.value, collection.docs)
      ensures fault == Healthy && collection.docs == map[] ==> r == Success([])
      ensures fault != Healthy ==> r == Failure(RecordFailure(fault))
      ensures collection.calls == old(collection.calls) + [FindAllCall]
    {
      var reply := collection.FindAll(fault);
      match reply
      case Done(records) =>
        if |records| == 0 {
          r := Success([]);
        } else {
          r := Success(records);
        }
      case Raised(f) => r := Failure(RecordFailure(f));
    }
  }

  /** `EntryRepository`. */
  class EntryRepository {
    const collection: Collection
    const databaseName: string
    const collectionName: string

    constructor (config: RepositoryConfiguration, collection: Collection)
      requires CheckArguments(true, Some(config)) == None
      ensures this.collection == collection
      ensures databaseName == config.mongoDatabase.value && collectionName == config.mongoCollection.value
    {
      this.collection := collection;
      databaseName := config.mongoDatabase.value;
      collectionName := config.mongoCollection.value;
    }

    /** The constructor with its argument checks: either a repository or the first argument it rejects. */
    static method Create(mapperGiven: bool, config: Option<RepositoryConfiguration>, collection: Collection)
      returns (r: Result<EntryRepository, ArgumentError>)
      ensures r.Failure? <==> CheckArguments(mapperGiven, config).Some?
      ensures r.Failure? ==> r.error == CheckArguments(mapperGiven, config).value
      ensures r.Success? ==> fresh(r.value) && r.value.collection == collection
    {
      var check := CheckArguments(mapperGiven, config);
      if check.Some? {
        return Failure(check.value);
      }
      var repository := new EntryRepository(config.value, collection);
      return Success(repository);
    }

    /**
     * `InsertEntryAsync`: the key under which the value was stored, after up
     * to three attempts. A fourth key is drawn after the third duplicate but
     * never used.
     */
    method InsertEntry(value: string, keys: seq<NewGuid>, faults: seq<Fault>) returns (r: Result<Guid, RepositoryException>)
      requires |keys| > InsertMaxAttempts && |faults| >= InsertMaxAttempts
      modifies collection
      ensures var run := Run(old(collection.docs), keys, faults, InsertMaxAttempts);
        && r == InsertResult(run.end, EntryFailure)
        && collection.docs == DocsAfter(old(collection.docs), value, run.end)
        && collection.calls == old(collection.calls) + Attempted(value, keys, run.attempts)
    {
      var end := InsertForAttempts(collection, value, keys, faults);
      r := InsertResult(end, EntryFailure);
    }

    /** `UpdateEntryAsync`: the modified count the server reports, or zero. */
    method UpdateEntry(key: Guid, newValue: string, fault: Fault, reported: UpdateResult) returns (r: Result<int, RepositoryException>)
      modifies collection
      ensures r == Answer(fault, ModifiedCount(reported), EntryFailure)
      ensures collection.docs ==
        if fault == Healthy && key in old(collection.docs) then old(collection.docs)[key := newValue] else old(collection.docs)
      ensures collection.calls == old(collection.calls) + [UpdateOneCall(key, newValue)]
    {
      var reply := collection.UpdateOne(key, newValue, fault, reported);
      match reply
      case Done(result) => r := Success(ModifiedCount(result));
      case Raised(f) => r := Failure(EntryFailure(f));
    }

    /** `DeleteEntryAsync`: one when an entry was removed, zero otherwise. */
    method DeleteEntry(key: Guid, fault: Fault) returns (r: Result<int, RepositoryException>)
      modifies collection
      ensures r == Answer(fault, DeletedCount(old(collection.docs), key), EntryFailure)
      ensures collection.docs == if fault == Healthy then old(collection.docs) - {key} else old(collection.docs)
      ensures collection.calls == old(collection.calls) + [FindOneAndDeleteCall(key)]
    {
      var reply := collection.FindOneAndDelete(key, fault);
      match reply
      case Done(deleted) => r := Success(if deleted.Some? then 1 else 0);
      case Raised(f) => r := Failure(EntryFailure(f));
    }

    /** `GetEntryAsync`: the entry stored under `key`, or `null`. */
    method GetEntry(key: Guid, fault: Fault) returns (r: Result<Option<Document>, RepositoryException>)
      modifies collection`calls
      ensures r == Answer(fault, Lookup(collection.docs, key), EntryFailure)
      ensures collection.calls == old(collection.calls) + [FindCall(key)]
    {
      var reply := collection.Find(key, fault);
      match reply
      case Done(found) => r := Success(FirstOrNull(found));
      case Raised(f) => r := Failure(EntryFailure(f));
    }

    /** `GetEntriesAsync`: every entry once, the shared empty collection for an empty store. */
    method GetEntries(fault: Fault) returns (r: Result<seq<Document>, RepositoryException>)
      modifies collection`calls
      ensures fault == Healthy ==> r.Success? && Lists(r.value, collection.docs)
      ensures fault == Healthy && collection.docs == map[] ==> r == Success([])
      ensures fault != Healthy ==> r == Failure(EntryFailure(fault))
      ensures collection.calls == old(collection.calls) + [FindAllCall]
    {
      var reply := collection.FindAll(fault);
      match reply
      case Done(entries) =>
        if |entries| == 0 {
          r := Success([]);
        } else {
          r := Success(entries);
        }
      case Raised(f) => r := Failure(EntryFailure(f));
    }
  }

  /**
   * `RegisterRepository`: checks the key itself, reports a missing document
   * as `RegisterNotFound`, and returns nothing from update and delete.
   */
  class RegisterRepository {
    const collection: Collection
    const databaseName: string
    const collectionName: string

    constructor (config: RepositoryConfiguration, collection: Collection)
      requires CheckArguments(true, Some(config)) == None
      ensures this.collection == collection
      ensures databaseName == config.mongoDatabase.value && collectionName == config.mongoCollection.value
    {
      this.collection := collection;
      databaseName := config.mongoDatabase.value;
      collectionName := config.mongoCollection.value;
    }

    /** The constructor with its argument checks: either a repository or the first argument it rejects. */
    static method Create(mapperGiven: bool, config: Option<RepositoryConfiguration>, collection: Collection)
      returns (r: Result<RegisterRepository, ArgumentError>)
      ensures r.Failure? <==> CheckArguments(mapperGiven, config).Some?
      ensures r.Failure? ==> r.error == CheckArguments(mapperGiven, config).value
      ensures r.Success? ==> fresh(r.value) && r.value.collection == collection
    {
      var check := CheckArguments(mapperGiven, config);
      if check.Some? {
        return Failure(check.value);
      }
      var repository := new RegisterRepository(config.value, collection);
      return Success(repository);
    }

    /** `InsertRegisterAsync`: the key under which the value was stored, after up to four attempts. */
    method InsertRegister(value: string, keys: seq<NewGuid>, faults: seq<Fault>) returns (r: Result<Guid, LegacyErrors.LegacyError>)
      requires |keys| > InsertMaxAttempts && |faults| > InsertMaxAttempts
      modifies collection
      ensures var run := Run(old(collection.docs), keys, faults, InsertMaxAttempts + 1);
        && r == LegacyErrors.InsertResult(run.end)
        && collection.docs == DocsAfter(old(collection.docs), value, run.end)
        && collection.calls == old(collection.calls) + Attempted(value, keys, run.attempts)
    {
      var end := InsertWhileTrue(collection, value, keys, faults);
      r := LegacyErrors.InsertResult(end);
    }

    /** `UpdateRegisterAsync`: rejects the empty key before touching the store. */
    method UpdateRegister(key: Guid, newValue: string, fault: Fault, reported: UpdateResult) returns (r: Result<(), LegacyErrors.LegacyError>)
      modifies collection
      ensures key == EmptyGuid ==> r == Failure(LegacyErrors.KeyNotInformed)
      ensures key != EmptyGuid && fault == Healthy ==> r == LegacyErrors.UpdateResultOf(reported)
      ensures key != EmptyGuid && fault != Healthy ==> r == Failure(LegacyErrors.ServerFailure(fault))
      ensures collection.docs ==
        if key != EmptyGuid && fault == Healthy && key in old(collection.docs) then old(collection.docs)[key := newValue]
        else old(collection.docs)
      ensures collection.calls == if key == EmptyGuid then old(collection.calls) else old(collection.calls) + [UpdateOneCall(key, newValue)]
    {
      if key == EmptyGuid {
        return Failure(LegacyErrors.KeyNotInformed);
      }
      var reply := collection.UpdateOne(key, newValue, fault, reported);
      match reply
      case Done(result) => r := LegacyErrors.UpdateResultOf(result);
      case Raised(f) => r := Failure(LegacyErrors.ServerFailure(f));
    }

    /** `DeleteRegisterAsync`: rejects the empty key, and fails as not found when nothing was removed. */
    method DeleteRegister(key: Guid, fault: Fault) returns (r: Result<(), LegacyErrors.LegacyError>)
      modifies collection
      ensures key == EmptyGuid ==> r == Failure(LegacyErrors.KeyNotInformed)
      ensures key != EmptyGuid && fault == Healthy ==>
        r == if key in old(collection.docs) then Success(()) else Failure(LegacyErrors.RegisterNotFound)
      ensures key != EmptyGuid && fault != Healthy ==> r == Failure(LegacyErrors.ServerFailure(fault))
      ensures collection.docs == if key != EmptyGuid && fault == Healthy then old(collection.docs) - {key} else old(collection.docs)
      ensures collection.calls == if key == EmptyGuid then old(collection.calls) else old(collection.calls) + [FindOneAndDeleteCall(key)]
    {
      if key == EmptyGuid {
        return Failure(LegacyErrors.KeyNotInformed);
      }
      var reply := collection.FindOneAndDelete(key, fault);
      match reply
      case Done(deleted) => r := if deleted.Some? then Success(()) else Failure(LegacyErrors.RegisterNotFound);
      case Raised(f) => r := Failure(LegacyErrors.ServerFailure(f));
    }

    /** `GetRegisterAsync`: rejects the empty key, and fails as not found when no register matches. */
    method GetRegister(key: Guid, fault: Fault) returns (r: Result<Document, LegacyErrors.LegacyError>)
      modifies collection`calls
      ensures key == EmptyGuid ==> r == Failure(LegacyErrors.KeyNotInformed)
      ensures key != EmptyGuid && fault == Healthy ==>
        r == if key in collection.docs then Success(Document(key, collection.docs[key])) else Failure(LegacyErrors.RegisterNotFound)
      ensures key != EmptyGuid && fault != Healthy ==> r == Failure(LegacyErrors.ServerFailure(fault))
      ensures collection.calls == if key == EmptyGuid then old(collection.calls) else old(collection.calls) + [FindCall(key)]
    {
      if key == EmptyGuid {
        return Failure(LegacyErrors.KeyNotInformed);
      }
      var reply := collection.Find(key, fault);
      match reply
      case Done(found) => r := if |found| == 0 then Failure(LegacyErrors.RegisterNotFound) else Success(found[0]);
      case Raised(f) => r := Failure(LegacyErrors.ServerFailure(f));
    }

    /** `GetRegistersAsync`: every register once, with no special case for an empty collection. */
    method GetRegisters(fault: Fault) returns (r: Result<seq<Document>, LegacyErrors.LegacyError>)
      modifies collection`calls
      ensures fault == Healthy ==> r.Success? && Lists(r.value, collection.docs)
      ensures fault != Healthy ==> r == Failure(LegacyErrors.ServerFailure(fault))
      ensures collection.calls == old(collection.calls) + [FindAllCall]
    {
      var reply := collection.FindAll(fault);
      match reply
      case Done(registers) => r := Success(registers);
      case Raised(f) => r := Failure(LegacyErrors.ServerFailure(f));
    }
  }
}
