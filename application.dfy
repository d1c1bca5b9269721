/**
 * The services on top of the repositories: what `RecordService` and
 * `EntryService` return when their repository answers as the repository
 * classes are proved to over a collection `docs` whose server meets `fault`.
 */
module Application {
  import opened Results
  import opened Store
  import opened RetryInsert
  import opened RepositoryExceptions
  import opened Repositories
  import RS = RecordService
  import ES = EntryService
  import RecordExceptions
  import EntryExceptions

  /** Deleting through the record service succeeds exactly when the key is stored; otherwise the healthy answer is a 404. */
  lemma RecordDeleteSucceedsIffStored(repository: RS.RecordRepository, docs: map<Guid, string>, fault: Fault, key: Guid)
    requires forall k :: repository.delete(k) == Answer(fault, DeletedCount(docs, k), RecordFailure)
    ensures RS.DeleteRecord(repository, key).result.Success? <==> key != EmptyGuid && fault == Healthy && key in docs
    ensures key != EmptyGuid && fault == Healthy && key !in docs ==>
      RS.DeleteRecord(repository, key).result == Failure(RS.Rejected(RecordExceptions.RecordNotFound))
  {
  }

  /** Reading through the record service returns the stored value, or a 404 for a missing key. */
  lemma RecordGetReturnsStored(repository: RS.RecordRepository, docs: map<Guid, string>, fault: Fault, key: Guid)
    requires forall k :: repository.get(k) == Answer(fault, Lookup(docs, k), RecordFailure)
    ensures RS.GetRecord(repository, key).result.Success? <==> key != EmptyGuid && fault == Healthy && key in docs
    ensures RS.GetRecord(repository, key).result.Success? ==>
      RS.GetRecord(repository, key).result.value == Document(key, docs[key])
    ensures key != EmptyGuid && fault == Healthy && key !in docs ==>
      RS.GetRecord(repository, key).result == Failure(RS.Rejected(RecordExceptions.RecordNotFound))
  {
  }

  /** Listing through the record service fails as not found exactly when the collection is empty. */
  lemma RecordListingOfEmptyStoreIsNotFound(repository: RS.RecordRepository, docs: map<Guid, string>, fault: Fault, listing: seq<Document>)
    requires Lists(listing, docs)
    requires repository.getAll == Answer(fault, Some(listing), RecordFailure)
    ensures RS.GetRecords(repository).result.Success? <==> fault == Healthy && docs != map[]
    ensures RS.GetRecords(repository).result.Success? ==> Lists(RS.GetRecords(repository).result.value, docs)
    ensures fault == Healthy && docs == map[] ==>
      RS.GetRecords(repository).result == Failure(RS.Rejected(RecordExceptions.RecordNotFound))
  {
  }

  /**
   * An update the server does not acknowledge with a modified count is
   * reported by the record service as not found, whether or not the value
   * was stored.
   */
  lemma RecordUpdateNeedsModifiedCount(repository: RS.RecordRepository, reported: UpdateResult, key: Guid, value: string)
    requires forall k, v :: repository.update(k, v) == Answer(Healthy, ModifiedCount(reported), RecordFailure)
    requires key != EmptyGuid && value != ""
    ensures RS.UpdateRecord(repository, key, Some(value)).result.Success? <==>
      reported.isModifiedCountAvailable && reported.modifiedCount != 0
    ensures !reported.isModifiedCountAvailable ==>
      RS.UpdateRecord(repository, key, Some(value)).result == Failure(RS.Rejected(RecordExceptions.RecordNotFound))
  {
  }

  /**
   * Inserting through the record service: a non-empty value is stored under a
   * key no document had, or every one of the four keys tried was taken and the
   * service reports `UnavailableKey`.
   */
  lemma RecordInsertStoresUnderFreeKey(
    repository: RS.RecordRepository, docs: map<Guid, string>, keys: seq<NewGuid>, faults: seq<Fault>, value: string)
    requires |keys| > InsertMaxAttempts && |faults| > InsertMaxAttempts
    requires forall v :: repository.insert(v) == InsertResult(Run(docs, keys, faults, InsertMaxAttempts + 1).end, RecordFailure)
    requires value != ""
    ensures var o := RS.InsertRecord(repository, Some(value));
      o.result.Success? ==> o.result.value !in docs && o.result.value != EmptyGuid
    ensures var o := RS.InsertRecord(repository, Some(value));
      o.result == Failure(RS.Propagated(Custom(UnavailableKey, None))) <==>
        forall j :: 0 <= j <= InsertMaxAttempts ==> faults[j] == Healthy && keys[j] in docs
  {
    assert repository.insert(value) == InsertResult(Run(docs, keys, faults, InsertMaxAttempts + 1).end, RecordFailure);
    StoredKeyWasFree(docs, keys, faults, 0, InsertMaxAttempts + 1);
    ExhaustedIffAllDuplicates(docs, keys, faults, 0, InsertMaxAttempts + 1);
  }

  /**
   * Listing through the entry service passes the repository's answer on, so
   * an empty collection is a success with no entries, not a not-found error.
   */
  lemma EntryListingOfEmptyStoreSucceeds(repository: ES.EntryRepository, fault: Fault, listing: seq<Document>)
    requires Lists(listing, map[])
    requires repository.getAll == Answer(fault, Some(listing), EntryFailure)
    ensures fault == Healthy ==> ES.GetEntries(repository).result == Success(Some([]))
  {
  }

  /** Deleting through the entry service succeeds exactly when the key is stored; otherwise the healthy answer is a 404. */
  lemma EntryDeleteSucceedsIffStored(repository: ES.EntryRepository, docs: map<Guid, string>, fault: Fault, key: Guid)
    requires forall k :: repository.delete(k) == Answer(fault, DeletedCount(docs, k), EntryFailure)
    ensures ES.DeleteEntry(repository, key).result.Success? <==> key != EmptyGuid && fault == Healthy && key in docs
    ensures key != EmptyGuid && fault == Healthy && key !in docs ==>
      ES.DeleteEntry(repository, key).result == Failure(ES.Rejected(EntryExceptions.RecordNotFound))
  {
  }

  /** Reading through the entry service returns the stored value, or a 404 for a missing key. */
  lemma EntryGetReturnsStored(repository: ES.EntryRepository, docs: map<Guid, string>, fault: Fault, key: Guid)
    requires forall k :: repository.get(k) == Answer(fault, Lookup(docs, k), EntryFailure)
    ensures ES.GetEntry(repository, key).result.Success? <==> key != EmptyGuid && fault == Healthy && key in docs
    ensures ES.GetEntry(repository, key).result.Success? ==>
      ES.GetEntry(repository, key).result.value == Document(key, docs[key])
    ensures key != EmptyGuid && fault == Healthy && key !in docs ==>
      ES.GetEntry(repository, key).result == Failure(ES.Rejected(EntryExceptions.RecordNotFound))
  {
  }

  /**
   * Inserting through the entry service: a non-empty value is stored under a
   * key no document had, or every one of the three keys tried was taken.
   */
  lemma EntryInsertStoresUnderFreeKey(
    repository: ES.EntryRepository, docs: map<Guid, string>, keys: seq<NewGuid>, faults: seq<Fault>, value: string)
    requires |keys| > InsertMaxAttempts && |faults| >= InsertMaxAttempts
    requires forall v :: repository.insert(v) == InsertResult(Run(docs, keys, faults, InsertMaxAttempts).end, EntryFailure)
    requires value != ""
    ensures var o := ES.InsertEntry(repository, Some(value));
      o.result.Success? ==> o.result.value !in docs && o.result.value != EmptyGuid
    ensures var o := ES.InsertEntry(repository, Some(value));
      o.result == Failure(ES.Propagated(Custom(UnavailableKey, None))) <==>
        forall j :: 0 <= j < InsertMaxAttempts ==> faults[j] == Healthy && keys[j] in docs
  {
  }
}
