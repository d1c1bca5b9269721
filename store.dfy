/**
 * The MongoDB collection behind every repository, reduced to what the
 * repositories observe: a map from key to value, the failures the server may
 * raise instead of answering (supplied by the caller as an oracle), and a log
 * of the calls the collection received.
 */
module Store {
  import opened Results

  /** A `System.Guid`: 128 bits. */
  newtype Guid = x: int | 0 <= x < 0x1_0000_0000_0000_0000_0000_0000_0000_0000

  /** `Guid.Empty`, the all-zero identifier. */
  const EmptyGuid: Guid := 0

  /**
   * A result of `Guid.NewGuid()`. Version-4 identifiers always carry version
   * bits, so a generated key is never `Guid.Empty`; nothing else is assumed
   * about them (in particular not that they are distinct).
   */
  type NewGuid = g: Guid | g != EmptyGuid witness 1

  /** One stored document, as a value: its key and its string value. */
  datatype Document = Document(key: Guid, value: string)

  /** What goes wrong on the server for one call, if anything. */
  datatype Fault =
    | Healthy                    // the server answers
    | TimesOut(message: string)  // a `TimeoutException` with this message
    | Fails(message: string)     // some other `MongoException` with this message

  /**
   * The outcome of `InsertOneAsync`: stored, rejected because the key is
   * taken (the "duplicate key error collection" `MongoException`), a timeout,
   * or another `MongoException`.
   */
  datatype InsertOutcome = Ok | Duplicate | Timeout(message: string) | Other(message: string)

  /** The outcome of inserting a document with key `key` into `docs` when the server meets `fault`. */
  function InsertOutcomeOf(docs: map<Guid, string>, key: Guid, fault: Fault): InsertOutcome
  {
    match fault
    case Healthy => if key in docs then Duplicate else Ok
    case TimesOut(m) => Timeout(m)
    case Fails(m) => Other(m)
  }

  /** The driver's `UpdateResult`: whether a modified count is available, and that count. */
  datatype UpdateResult = UpdateResult(isModifiedCountAvailable: bool, modifiedCount: int)

  /** The answer to a read, update or delete: a value, or the fault the server raised. */
  datatype Reply<+T> = Done(value: T) | Raised(fault: Fault)

  /** One call received by the collection. */
  datatype StoreCall =
    | InsertOneCall(document: Document)
    | UpdateOneCall(key: Guid, value: string)
    | FindOneAndDeleteCall(key: Guid)
    | FindCall(key: Guid)
    | FindAllCall

  /**
   * The document object a repository builds and inserts (`RecordDto`,
   * `EntryDto`, `RegisterDto` and `MongoDbRegister` are the same shape):
   * its constructor draws the key from `Guid.NewGuid()`, here supplied.
   */
  class Dto {
    var key: Guid
    var value: string

    constructor (key: NewGuid, value: string)
      ensures this.key == key && this.value == value
    {
      this.key := key;
      this.value := value;
    }
  }

  /** Every `(key, value)` pair of `docs` appears in `r` exactly once. */
  ghost predicate Lists(r: seq<Document>, docs: map<Guid, string>)
  {
    && |r| == |docs|
    && (forall i :: 0 <= i < |r| ==> r[i].key in docs && docs[r[i].key] == r[i].value)
    && (forall i, j :: 0 <= i < j < |r| ==> r[i].key != r[j].key)
  }

  /** One MongoDB collection. */
  class Collection {
    var docs: map<Guid, string>
    ghost var calls: seq<StoreCall>

    constructor ()
      ensures docs == map[] && calls == []
    {
      docs := map[];
      calls := [];
    }

    /** `InsertOneAsync`: stores the document unless its key is taken or the server fails. */
    method InsertOne(d: Dto, fault: Fault) returns (outcome: InsertOutcome)
      modifies this
      ensures outcome == InsertOutcomeOf(old(docs), d.key, fault)
      ensures docs == if outcome == Ok then old(docs)[d.key := d.value] else old(docs)
      ensures calls == old(calls) + [InsertOneCall(Document(d.key, d.value))]
    {
      outcome := InsertOutcomeOf(docs, d.key, fault);
      if outcome == Ok {
        docs := docs[d.key := d.value];
      }
      calls := calls + [InsertOneCall(Document(d.key, d.value))];
    }

    /**
     * `UpdateOneAsync` with a key filter and a `Set` of the value. The
     * `UpdateResult` is whatever the server reports (`reported`); no rule
     * relating it to the stored values is assumed.
     */
    method UpdateOne(key: Guid, value: string, fault: Fault, reported: UpdateResult) returns (r: Reply<UpdateResult>)
      modifies this
      ensures fault == Healthy ==> r == Done(reported)
      ensures fault != Healthy ==> r == Raised(fault)
      ensures docs == if fault == Healthy && key in old(docs) then old(docs)[key := value] else old(docs)
      ensures calls == old(calls) + [UpdateOneCall(key, value)]
    {
      if fault == Healthy {
        r := Done(reported);
        if key in docs {
          docs := docs[key := value];
        }
      } else {
        r := Raised(fault);
      }
      calls := calls + [UpdateOneCall(key, value)];
    }

    /** `FindOneAndDeleteAsync` by key: removes the matching document and returns it, or `null`. */
    method FindOneAndDelete(key: Guid, fault: Fault) returns (r: Reply<Option<Document>>)
      modifies this
      ensures fault == Healthy ==> r == Done(if key in old(docs) then Some(Document(key, old(docs)[key])) else None)
      ensures fault != Healthy ==> r == Raised(fault)
      ensures docs == if fault == Healthy then old(docs) - {key} else old(docs)
      ensures calls == old(calls) + [FindOneAndDeleteCall(key)]
    {
      if fault == Healthy {
        r := Done(if key in docs then Some(Document(key, docs[key])) else None);
        docs := docs - {key};
      } else {
        r := Raised(fault);
      }
      calls := calls + [FindOneAndDeleteCall(key)];
    }

    /** `FindAsync` with a key filter, read to a list: the matching documents. */
    method Find(key: Guid, fault: Fault) returns (r: Reply<seq<Document>>)
      modifies this`calls
      ensures fault == Healthy ==> r == Done(if key in docs then [Document(key, docs[key])] else [])
      ensures fault != Healthy ==> r == Raised(fault)
      ensures calls == old(calls) + [FindCall(key)]
    {
      r := if fault == Healthy then Done(if key in docs then [Document(key, docs[key])] else []) else Raised(fault);
      calls := calls + [FindCall(key)];
    }

    /** `AsQueryable().ToListAsync()`: every document, each once, in an order the server chooses. */
    method FindAll(fault: Fault) returns (r: Reply<seq<Document>>)
      modifies this`calls
      ensures fault == Healthy ==> r.Done? && Lists(r.value, docs)
      ensures fault != Healthy ==> r == Raised(fault)
      ensures calls == old(calls) + [FindAllCall]
    {
      calls := calls + [FindAllCall];
      if fault != Healthy {
        return Raised(fault);
      }
      var rest := docs.Keys;
      var listed: seq<Document> := [];
      while rest != {}
        invariant rest <= docs.Keys
        invariant |listed| + |rest| == |docs|
        invariant forall i :: 0 <= i < |listed| ==> listed[i].key in docs && listed[i].key !in rest && docs[listed[i].key] == listed[i].value
        invariant forall i, j :: 0 <= i < j < |listed| ==> listed[i].key != listed[j].key
        decreases rest
      {
        var k :| k in rest;
        listed := listed + [Document(k, docs[k])];
        rest := rest - {k};
      }
      r := Done(listed);
    }
  }
}
