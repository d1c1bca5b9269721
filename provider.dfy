/**
 * `MongoDbService` of the provider assembly: the same operations as
 * `RegisterRepository`, configured without a mapper.
 */
module Provider {
  import opened Results
  import opened Store
  import opened RetryInsert
  import opened Configuration
  import opened LegacyErrors

  class MongoDbService {
    const collection: Collection
    const databaseName: string
    const collectionName: string

    constructor (config: RepositoryConfiguration, collection: Collection)
      requires CheckConfiguration(Some(config)) == None
      ensures this.collection == collection
      ensures databaseName == config.mongoDatabase.value && collectionName == config.mongoCollection.value
    {
      this.collection := collection;
      databaseName := config.mongoDatabase.value;
      collectionName := config.mongoCollection.value;
    }

    /** The constructor with its argument checks: either a service or the first argument it rejects. */
    static method Create(config: Option<RepositoryConfiguration>, collection: Collection)
      returns (r: Result<MongoDbService, ArgumentError>)
      ensures r.Failure? <==> CheckConfiguration(config).Some?
      ensures r.Failure? ==> r.error == CheckConfiguration(config).value
      ensures r.Success? ==> fresh(r.value) && r.value.collection == collection
    {
      var check := CheckConfiguration(config);
      if check.Some? {
        return Failure(check.value);
      }
      var service := new MongoDbService(config.value, collection);
      return Success(service);
    }

    /** `DeleteValueAsync`: rejects the empty key, and fails as not found when nothing was removed. */
    method DeleteValue(key: Guid, fault: Fault) returns (r: Result<(), LegacyError>)
      modifies collection
      ensures key == EmptyGuid ==> r == Failure(KeyNotInformed)
      ensures key != EmptyGuid && fault == Healthy ==>
        r == if key in old(collection.docs) then Success(()) else Failure(RegisterNotFound)
      ensures key != EmptyGuid && fault != Healthy ==> r == Failure(ServerFailure(fault))
      ensures collection.docs == if key != EmptyGuid && fault == Healthy then old(collection.docs) - {key} else old(collection.docs)
      ensures collection.calls == if key == EmptyGuid then old(collection.calls) else old(collection.calls) + [FindOneAndDeleteCall(key)]
    {
      if key == EmptyGuid {
        return Failure(KeyNotInformed);
      }
      var reply := collection.FindOneAndDelete(key, fault);
      match reply
      case Done(deleted) => r := if deleted.Some? then Success(()) else Failure(RegisterNotFound);
      case Raised(f) => r := Failure(ServerFailure(f));
    }

    /** `InsertValueAsync`: the key under which the value was stored, after up to four attempts. */
    method InsertValue(value: string, keys: seq<NewGuid>, faults: seq<Fault>) returns (r: Result<Guid, LegacyError>)
      requires |keys| > InsertMaxAttempts && |faults| > InsertMaxAttempts
      modifies collection
      ensures var run := Run(old(collection.docs), keys, faults, InsertMaxAttempts + 1);
        && r == InsertResult(run.end)
        && collection.docs == DocsAfter(old(collection.docs), value, run.end)
        && collection.calls == old(collection.calls) + Attempted(value, keys, run.attempts)
    {
      var end := InsertWhileTrue(collection, value, keys, faults);
      r := InsertResult(end);
    }

    /** `UpdateValueAsync`: rejects the empty key before touching the store. */
    method UpdateValue(key: Guid, newValue: string, fault: Fault, reported: UpdateResult) returns (r: Result<(), LegacyError>)
      modifies collection
      ensures key == EmptyGuid ==> r == Failure(KeyNotInformed)
      ensures key != EmptyGuid && fault == Healthy ==> r == UpdateResultOf(reported)
      ensures key != EmptyGuid && fault != Healthy ==> r == Failure(ServerFailure(fault))
      ensures collection.docs ==
        if key != EmptyGuid && fault == Healthy && key in old(collection.docs) then old(collection.docs)[key := newValue]
        else old(collection.docs)
      ensures collection.calls == if key == EmptyGuid then old(collection.calls) else old(collection.calls) + [UpdateOneCall(key, newValue)]
    {
      if key == EmptyGuid {
        return Failure(KeyNotInformed);
      }
      var reply := collection.UpdateOne(key, newValue, fault, reported);
      match reply
      case Done(result) => r := UpdateResultOf(result);
      case Raised(f) => r := Failure(ServerFailure(f));
    }

    /** `GetValueAsync`: rejects the empty key, and fails as not found when no register matches. */
    method GetValue(key: Guid, fault: Fault) returns (r: Result<Document, LegacyError>)
      modifies collection`calls
      ensures key == EmptyGuid ==> r == Failure(KeyNotInformed)
      ensures key != EmptyGuid && fault == Healthy ==>
        r == if key in collection.docs then Success(Document(key, collection.docs[key])) else Failure(RegisterNotFound)
      ensures key != EmptyGuid && fault != Healthy ==> r == Failure(ServerFailure(fault))
      ensures collection.calls == if key == EmptyGuid then old(collection.calls) else old(collection.calls) + [FindCall(key)]
    {
      if key == EmptyGuid {
        return Failure(KeyNotInformed);
      }
      var reply := collection.Find(key, fault);
      match reply
      case Done(found) => r := if |found| == 0 then Failure(RegisterNotFound) else Success(found[0]);
      case Raised(f) => r := Failure(ServerFailure(f));
    }

    /** `GetValuesAsync`: every register once. */
    method GetValues(fault: Fault) returns (r: Result<seq<Document>, LegacyError>)
      modifies collection`calls
      ensures fault == Healthy ==> r.Success? && Lists(r.value, collection.docs)
      ensures fault != Healthy ==> r == Failure(ServerFailure(fault))
      ensures collection.calls == old(collection.calls) + [FindAllCall]
    {
      var reply := collection.FindAll(fault);
      match reply
      case Done(registers) => r := Success(registers);
      case Raised(f) => r := Failure(ServerFailure(f));
    }
  }
}
