# MongoDB CRUD sample: service, repository and error-table model

This project models the core of a small .NET Web API that stores string
values in MongoDB under client-generated GUID keys. It covers four parts.

- **Services.** `RecordService` and `EntryService` check their
  arguments. Each then makes at most one repository call and turns a zero
  count or a `null` answer into a "not found" error. The repository is
  given as the answers it would return (a datatype of functions). Every
  service operation also reports the repository calls it made, so "no
  repository call on bad input" is a statement about that log.
- **Repositories.** `RecordRepository`, `EntryRepository`,
  `RegisterRepository` and the older `MongoDbService` are classes over a
  `Collection`. A `Collection` is a map from key to value plus a ghost
  log of the calls it received. Every store call meets a supplied
  server fault (healthy, a timeout, or another driver error). An insert
  draws its keys from a supplied sequence of `Guid.NewGuid()` results.
  The insert-with-retry loop is imperative. The `while (true)` version and
  the `for` version are both proved against one reference function,
  `RetryInsert.RunFrom`, with different bounds: up to 4 inserts in the
  `while (true)` version, and up to 3 in the `for` version.
- **Timeout diagnostics.** `GetMongoServerAddressFromTimeoutException` is a
  hand-coded scan for the leftmost `localhost:<digits>` match, framed by
  the regular expression's look-arounds.
- **Error tables.** These give the status code and message of every
  `RecordCustomError`, `EntryCustomError` and `RepositoryCustomError`.
  A thrown exception carries its error's status code and message.

The `Application` module joins the two layers. When a service's repository
answers as the repository classes are proved to, it proves these facts:

- a delete or get succeeds exactly when the key is stored;
- an empty store is a 404 for `GetRecords` and an empty success for
  `GetEntries`;
- an insert returns a key that was free (the repository's own contract
  then stores the value under that key).

`RegisterRepository` and `MongoDbService` throw error members that their
error classes do not define:

- `RegisterRepository` throws `RepositoryCustomError.KeyNotInformed` and
  `RepositoryCustomError.RegisterNotFound`, and calls the parameterless
  `TimeOutServer` with an address. Its `UnavailableKey` is defined.
- `MongoDbService` throws `MongoDbCustomError.KeyNotInformed` and
  `MongoDbCustomError.UnavailableKey`, and calls `TimeOutServer` with an
  address. `MongoDbCustomError` defines only `RegisterNotFound`.

Both are modelled as written, with a `LegacyError` datatype that names the
errors without status codes.

## Model

| member | source | states |
|---|---|---|
| Store.Dto.constructor | source/Infrastructure/MongoDockerSample.Infrastructure.Repository/Dtos/RecordDto.cs:15-19 | a new document holds the given value and a generated key, which is never `Guid.Empty` |
| RetryInsert.RunFrom | source/Infrastructure/MongoDockerSample.Infrastructure.Repository/Repositories/RecordRepository.cs:158-194 | reference insert run: it stops at the first attempt that is not a duplicate, and makes at least one and at most `bound` attempts |
| RetryInsert.RetriesOnlyOnDuplicates | source/Infrastructure/MongoDockerSample.Infrastructure.Repository/Repositories/RecordRepository.cs:171-179 | every attempt before the last one met a healthy server and a key already in use |
| RetryInsert.ExhaustedIffAllDuplicates | source/Infrastructure/MongoDockerSample.Infrastructure.Repository/Repositories/RecordRepository.cs:175-183 | the insert gives up with `UnavailableKey` exactly when all `bound` attempts were duplicates, and it then made all of them |
| RetryInsert.StoredKeyWasFree | source/Infrastructure/MongoDockerSample.Infrastructure.Repository/Repositories/RecordRepository.cs:165-170 | a stored document carries the last attempt's key, which was free and not `Guid.Empty`, and the server was healthy for that attempt |
| RetryInsert.FailureIsNotRetried | source/Infrastructure/MongoDockerSample.Infrastructure.Repository/Repositories/RecordRepository.cs:184-192 | a timeout or another driver error ends the insert at the attempt that met it |
| RetryInsert.FirstInsertSucceeds | source/Infrastructure/MongoDockerSample.Infrastructure.Repository/Repositories/RecordRepository.cs:160-169 | with a free first key and a healthy server, the insert stores under the first key after one attempt |
| RetryInsert.AttemptedKeepsValue | source/Infrastructure/MongoDockerSample.Infrastructure.Repository/Repositories/RecordRepository.cs:173-179 | the inserts sent are one per attempt, all with the same value, the i-th under the i-th key |
| RetryInsert.OneMoreAttempt | source/Infrastructure/MongoDockerSample.Infrastructure.Repository/Repositories/EntryRepository.cs:172-200 | allowing one more attempt changes an insert only when it had given up |
| RetryInsert.WhileLoopTriesOnceMore | source/Infrastructure/MongoDockerSample.Infrastructure.Repository/Repositories/RecordRepository.cs:175-183 | the `while (true)` loop and the `for` loop agree unless three duplicates come in a row; the `while` loop then makes a 4th insert, which stores iff its key is free and the server healthy |
| RetryInsert.InsertWhileTrue | source/Infrastructure/MongoDockerSample.Infrastructure.Repository/Repositories/RecordRepository.cs:158-194 | the `while (true)` loop ends as the run with bound 4; the store gains the value only under the stored key; the calls are exactly the attempted inserts |
| RetryInsert.InsertForAttempts | source/Infrastructure/MongoDockerSample.Infrastructure.Repository/Repositories/EntryRepository.cs:167-201 | the `for` loop ends as the run with bound 3, with the same store and call-log guarantees |
| AddressScraper.DigitRun | source/Infrastructure/MongoDockerSample.Infrastructure.Repository/Repositories/RecordRepository.cs:198 | `\d+` is greedy: the run of digits found is maximal |
| AddressScraper.FirstMatchFrom | source/Infrastructure/MongoDockerSample.Infrastructure.Repository/Repositories/RecordRepository.cs:198-206 | the match found is the leftmost; when none is found, no index matches |
| AddressScraper.ServerAddress | source/Infrastructure/MongoDockerSample.Infrastructure.Repository/Repositories/RecordRepository.cs:196-207 | `"<unspecified>"` exactly when nothing matches; otherwise the text of the leftmost match, `localhost:` followed by digits |
| AddressScraper.ScrapesHostAndPort | source/Infrastructure/MongoDockerSample.Infrastructure.Repository/Repositories/RecordRepository.cs:196-207 | from `"at localhost:27017"` the address is `localhost:27017` |
| AddressScraper.RejectsEmbeddedHost | source/Infrastructure/MongoDockerSample.Infrastructure.Repository/Repositories/RecordRepository.cs:198 | a `localhost` preceded by a word character does not match |
| Exceptions.Raise | source/Core/MongoDockerSample.Core.Domain/Exceptions/CustomException.cs:9-12 | the exception carries the error's status code and message |
| RecordExceptions.ErrorTable | source/Core/MongoDockerSample.Core.Domain/Exceptions/RecordCustomException.cs:14-21 | KeyNotInformed is 400 "Informed key is null or empty"; RecordNotFound is 404 "Record not found"; ValueNotInformed is 400 "Informed value is null or empty" |
| RecordExceptions.KindsAreDistinguishable | source/Core/MongoDockerSample.Core.Domain/Exceptions/RecordCustomException.cs:14-21 | the exception identifies the kind; only RecordNotFound is a 404 |
| EntryExceptions.ErrorTable | source/Core/MongoDockerSample.Core.Domain/Exceptions/EntryCustomException.cs:14-21 | the same codes, with RecordNotFound's message "Entry not found" |
| EntryExceptions.KindsAreDistinguishable | source/Core/MongoDockerSample.Core.Domain/Exceptions/EntryCustomException.cs:14-21 | the exception identifies the kind; only RecordNotFound is a 404 |
| EntryExceptions.AgreesWithRecordTable | source/Core/MongoDockerSample.Core.Domain/Exceptions/EntryCustomException.cs:17-18 | the entry table matches the record table on every status, and on every message except not found |
| RepositoryExceptions.ErrorTable | source/Infrastructure/MongoDockerSample.Infrastructure.Repository/Exceptions/RepositoryCustomException.cs:15-19 | UnavailableKey is 400 "Could not find a valid key for the record"; TimeOutServer is 500 "Timeout while attempting to connect to MongoDB server" |
| RepositoryExceptions.TimeoutIgnoresAddress | source/Infrastructure/MongoDockerSample.Infrastructure.Repository/Exceptions/RepositoryCustomException.cs:18-19 | a timeout's status and message are fixed whatever address was scraped |
| Configuration.CheckConfiguration | source/Infrastructure/MongoDockerSample.Infrastructure.Repository/Repositories/EntryRepository.cs:37-50 | the configuration is accepted iff it is present and names a server, a database and a collection; otherwise the first failing check, in source order, is reported |
| Configuration.CheckArguments | source/Infrastructure/MongoDockerSample.Infrastructure.Repository/Repositories/RecordRepository.cs:28-50 | a missing mapper is rejected before anything else; otherwise as the configuration checks |
| LegacyErrors.ServerFailure | source/Infrastructure/MongoDockerSample.Infrastructure.Repository/Repositories/RegisterRepository.cs:87-90 | a timeout becomes TimeOutServer with the scraped address; another driver error is passed on |
| LegacyErrors.InsertResult | source/Infrastructure/MongoDockerSample.Infrastructure.Repository/Repositories/RegisterRepository.cs:174-204 | an insert returns its key iff it stored; UnavailableKey iff all keys were taken; a timeout becomes TimeOutServer with the scraped address; another driver error is passed on |
| LegacyErrors.UpdateResultOf | source/Infrastructure/MongoDockerSample.Infrastructure.Repository/Repositories/RegisterRepository.cs:82-85 | an update is RegisterNotFound iff the count is available and zero; an unavailable count succeeds |
| Repositories.ModifiedCount | source/Infrastructure/MongoDockerSample.Infrastructure.Repository/Repositories/RecordRepository.cs:77 | the update count is the reported one when available, else zero |
| Repositories.FirstOrNull | source/Infrastructure/MongoDockerSample.Infrastructure.Repository/Repositories/RecordRepository.cs:110-115 | `null` iff nothing matched, else the first match |
| Repositories.DeletedCount | source/Infrastructure/MongoDockerSample.Infrastructure.Repository/Repositories/RecordRepository.cs:93 | one exactly when a document was there, else zero |
| Repositories.Lookup | source/Infrastructure/MongoDockerSample.Infrastructure.Repository/Repositories/RecordRepository.cs:107-115 | the stored document under the key, or `null` iff none |
| Repositories.RecordFailure | source/Infrastructure/MongoDockerSample.Infrastructure.Repository/Repositories/RecordRepository.cs:79-82 | a timeout becomes TimeOutServer with the scraped address; another driver error is passed on |
| Repositories.EntryFailure | source/Infrastructure/MongoDockerSample.Infrastructure.Repository/Repositories/EntryRepository.cs:81-85 | a timeout becomes TimeOutServer with no address; another driver error is passed on |
| Repositories.InsertResult | source/Infrastructure/MongoDockerSample.Infrastructure.Repository/Repositories/RecordRepository.cs:180-187 | an insert returns its key iff it stored, UnavailableKey when all keys were taken, and the fault otherwise |
| Repositories.Answer | source/Infrastructure/MongoDockerSample.Infrastructure.Repository/Repositories/RecordRepository.cs:73-82 | a value iff the server is healthy, the mapped fault otherwise |
| Repositories.RecordRepository.Create | source/Infrastructure/MongoDockerSample.Infrastructure.Repository/Repositories/RecordRepository.cs:28-56 | the constructor fails with exactly the first argument check that fails, else builds a repository on the collection |
| Repositories.RecordRepository.InsertRecord | source/Infrastructure/MongoDockerSample.Infrastructure.Repository/Repositories/RecordRepository.cs:58-64 | the result, the new store and the calls are those of the run with bound 4 |
| Repositories.RecordRepository.UpdateRecord | source/Infrastructure/MongoDockerSample.Infrastructure.Repository/Repositories/RecordRepository.cs:66-83 | returns the modified count or zero; the value changes only under an existing key on a healthy server |
| Repositories.RecordRepository.DeleteRecord | source/Infrastructure/MongoDockerSample.Infrastructure.Repository/Repositories/RecordRepository.cs:85-99 | returns 1 iff the key was stored and removes it |
| Repositories.RecordRepository.GetRecord | source/Infrastructure/MongoDockerSample.Infrastructure.Repository/Repositories/RecordRepository.cs:101-121 | returns the stored record or `null`, and the store is unchanged |
| Repositories.RecordRepository.GetRecords | source/Infrastructure/MongoDockerSample.Infrastructure.Repository/Repositories/RecordRepository.cs:123-142 | lists every record once; an empty store gives an empty list |
| Repositories.EntryRepository.Create | source/Infrastructure/MongoDockerSample.Infrastructure.Repository/Repositories/EntryRepository.cs:31-56 | the constructor fails with exactly the first argument check that fails |
| Repositories.EntryRepository.InsertEntry | source/Infrastructure/MongoDockerSample.Infrastructure.Repository/Repositories/EntryRepository.cs:58-64 | the result, the new store and the calls are those of the run with bound 3 |
| Repositories.EntryRepository.UpdateEntry | source/Infrastructure/MongoDockerSample.Infrastructure.Repository/Repositories/EntryRepository.cs:66-86 | returns the modified count or zero; a timeout carries no address |
| Repositories.EntryRepository.DeleteEntry | source/Infrastructure/MongoDockerSample.Infrastructure.Repository/Repositories/EntryRepository.cs:88-104 | returns 1 iff the key was stored and removes it |
| Repositories.EntryRepository.GetEntry | source/Infrastructure/MongoDockerSample.Infrastructure.Repository/Repositories/EntryRepository.cs:106-127 | returns the stored entry or `null` |
| Repositories.EntryRepository.GetEntries | source/Infrastructure/MongoDockerSample.Infrastructure.Repository/Repositories/EntryRepository.cs:129-150 | lists every entry once; an empty store gives the empty collection |
| Repositories.RegisterRepository.Create | source/Infrastructure/MongoDockerSample.Infrastructure.Repository/Repositories/RegisterRepository.cs:28-56 | the constructor fails with exactly the first argument check that fails |
| Repositories.RegisterRepository.InsertRegister | source/Infrastructure/MongoDockerSample.Infrastructure.Repository/Repositories/RegisterRepository.cs:58-64 | the result, the new store and the calls are those of the run with bound 4 |
| Repositories.RegisterRepository.UpdateRegister | source/Infrastructure/MongoDockerSample.Infrastructure.Repository/Repositories/RegisterRepository.cs:66-91 | `Guid.Empty` is rejected with no store call; otherwise RegisterNotFound iff the count is available and zero |
| Repositories.RegisterRepository.DeleteRegister | source/Infrastructure/MongoDockerSample.Infrastructure.Repository/Repositories/RegisterRepository.cs:93-115 | `Guid.Empty` is rejected with no store call; otherwise RegisterNotFound iff nothing was removed |
| Repositories.RegisterRepository.GetRegister | source/Infrastructure/MongoDockerSample.Infrastructure.Repository/Repositories/RegisterRepository.cs:117-142 | `Guid.Empty` is rejected with no store call; otherwise the stored register, or RegisterNotFound |
| Repositories.RegisterRepository.GetRegisters | source/Infrastructure/MongoDockerSample.Infrastructure.Repository/Repositories/RegisterRepository.cs:144-158 | lists every register once, an empty store included, with no error |
| Provider.MongoDbService.Create | source/Infrastructure/MongoDocker.Sample.Infrastructure.Provider/MongoDbService.cs:25-53 | the constructor fails with exactly the first configuration check that fails |
| Provider.MongoDbService.DeleteValue | source/Infrastructure/MongoDocker.Sample.Infrastructure.Provider/MongoDbService.cs:55-77 | `Guid.Empty` is rejected with no store call; otherwise RegisterNotFound iff nothing was removed |
| Provider.MongoDbService.InsertValue | source/Infrastructure/MongoDocker.Sample.Infrastructure.Provider/MongoDbService.cs:79-85 | the result, the new store and the calls are those of the run with bound 4 |
| Provider.MongoDbService.UpdateValue | source/Infrastructure/MongoDocker.Sample.Infrastructure.Provider/MongoDbService.cs:87-112 | `Guid.Empty` is rejected with no store call; otherwise RegisterNotFound iff the count is available and zero |
| Provider.MongoDbService.GetValue | source/Infrastructure/MongoDocker.Sample.Infrastructure.Provider/MongoDbService.cs:114-139 | `Guid.Empty` is rejected with no store call; otherwise the stored register, or RegisterNotFound |
| Provider.MongoDbService.GetValues | source/Infrastructure/MongoDocker.Sample.Infrastructure.Provider/MongoDbService.cs:141-153 | lists every register once |
| RecordService.Propagate | source/Core/MongoDockerSample.Core.Application/Services/RecordService.cs:55 | a repository answer passes through: the same value, or the same exception |
| RecordService.ValidateKey | source/Core/MongoDockerSample.Core.Application/Services/RecordService.cs:108-115 | `Guid.Empty` is the only key rejected, with KeyNotInformed |
| RecordService.CheckCount | source/Core/MongoDockerSample.Core.Application/Services/RecordService.cs:70-93 | RecordNotFound exactly when the count is zero; any other count succeeds |
| RecordService.DeleteRecord | source/Core/MongoDockerSample.Core.Application/Services/RecordService.cs:22-27 | an empty key fails with KeyNotInformed and no call; otherwise one delete call with the same key, succeeding iff the count is not zero |
| RecordService.GetRecord | source/Core/MongoDockerSample.Core.Application/Services/RecordService.cs:29-34 | an empty key fails with no call; otherwise `null` is RecordNotFound and a record is returned unchanged |
| RecordService.GetRecords | source/Core/MongoDockerSample.Core.Application/Services/RecordService.cs:36-47 | `null` or empty is RecordNotFound; otherwise the same sequence |
| RecordService.InsertRecord | source/Core/MongoDockerSample.Core.Application/Services/RecordService.cs:49-56 | a null or empty value fails with ValueNotInformed and no call; otherwise the repository's key is returned unchanged |
| RecordService.UpdateRecord | source/Core/MongoDockerSample.Core.Application/Services/RecordService.cs:58-68 | the key is checked before the value; both failures make no call; otherwise one update call, succeeding iff the count is not zero |
| RecordService.RejectedCallsNeverReachRepository | source/Core/MongoDockerSample.Core.Application/Services/RecordService.cs:22-68 | an operation makes no repository call exactly when its own argument check rejects the call |
| EntryService.Propagate | source/Core/MongoDockerSample.Core.Application/Services/EntryService.cs:46 | a repository answer passes through unchanged |
| EntryService.ValidateKey | source/Core/MongoDockerSample.Core.Application/Services/EntryService.cs:99-106 | `Guid.Empty` is the only key rejected, with KeyNotInformed |
| EntryService.CheckCount | source/Core/MongoDockerSample.Core.Application/Services/EntryService.cs:61-84 | RecordNotFound exactly when the count is zero |
| EntryService.DeleteEntry | source/Core/MongoDockerSample.Core.Application/Services/EntryService.cs:21-26 | an empty key fails with no call; otherwise one delete call, succeeding iff the count is not zero |
| EntryService.GetEntry | source/Core/MongoDockerSample.Core.Application/Services/EntryService.cs:28-33 | an empty key fails with no call; `null` is RecordNotFound; an entry is returned unchanged |
| EntryService.GetEntries | source/Core/MongoDockerSample.Core.Application/Services/EntryService.cs:35-38 | the repository's answer, passed through, never RecordNotFound |
| EntryService.InsertEntry | source/Core/MongoDockerSample.Core.Application/Services/EntryService.cs:40-47 | a null or empty value fails with ValueNotInformed and no call; otherwise the repository's key is returned unchanged |
| EntryService.UpdateEntry | source/Core/MongoDockerSample.Core.Application/Services/EntryService.cs:49-59 | the key is checked before the value; otherwise one update call, succeeding iff the count is not zero |
| EntryService.RejectedCallsNeverReachRepository | source/Core/MongoDockerSample.Core.Application/Services/EntryService.cs:21-59 | an operation makes no repository call exactly when its own argument check rejects the call |
| Application.RecordDeleteSucceedsIffStored | source/Core/MongoDockerSample.Core.Application/Services/RecordService.cs:83-93 | over a store, a service delete succeeds iff the key is stored; a missing key is RecordNotFound |
| Application.RecordGetReturnsStored | source/Core/MongoDockerSample.Core.Application/Services/RecordService.cs:95-106 | over a store, a service get returns the stored record iff it exists; a missing key is RecordNotFound |
| Application.RecordListingOfEmptyStoreIsNotFound | source/Core/MongoDockerSample.Core.Application/Services/RecordService.cs:36-47 | over a store, listing succeeds iff the store is non-empty, and then lists it |
| Application.RecordUpdateNeedsModifiedCount | source/Infrastructure/MongoDockerSample.Infrastructure.Repository/Repositories/RecordRepository.cs:75-77 | a service update succeeds iff the server reports a non-zero count; an unreported count is RecordNotFound |
| Application.RecordInsertStoresUnderFreeKey | source/Infrastructure/MongoDockerSample.Infrastructure.Repository/Repositories/RecordRepository.cs:158-194 | a service insert returns a key that was free; UnavailableKey iff all 4 keys were taken |
| Application.EntryListingOfEmptyStoreSucceeds | source/Core/MongoDockerSample.Core.Application/Services/EntryService.cs:35-38 | over an empty store, listing entries succeeds with no entries |
| Application.EntryDeleteSucceedsIffStored | source/Core/MongoDockerSample.Core.Application/Services/EntryService.cs:74-84 | over a store, a service delete succeeds iff the key is stored |
| Application.EntryGetReturnsStored | source/Core/MongoDockerSample.Core.Application/Services/EntryService.cs:86-97 | over a store, a service get returns the stored entry iff it exists |
| Application.EntryInsertStoresUnderFreeKey | source/Infrastructure/MongoDockerSample.Infrastructure.Repository/Repositories/EntryRepository.cs:167-201 | a service insert returns a key that was free; UnavailableKey iff all 3 keys were taken |

## Left out

- The MongoDB driver is replaced by `Store.Collection`. This covers `MongoClient`, `GetDatabase`/`GetCollection`, the filter and update builders, cursors and BSON attributes. Only the map semantics of insert, update-by-key, find-one-and-delete, find-by-key and find-all are kept.
- `GetMongoCollection` and its timeout catch are not modelled. Obtaining a collection handle makes no server call in the model.
- The `IsModifiedCountAvailable`/`ModifiedCount` values of an update are supplied by the caller. No rule links them to the stored values.
- `Repositories.ModifiedCount` does not model the `(int)` cast of the 64-bit count, because an update by key changes at most one document.
- Duplicate detection by the substring "duplicate key error collection" is modelled as the `Duplicate` outcome.
- `Guid.NewGuid()` is a supplied sequence of non-empty keys. No uniqueness or randomness is assumed.
- `InsertForAttempts` draws a 4th key after the 3rd duplicate. The key is never used, so the run does not depend on it.
- `async`/`Task` is not modelled; every operation is sequential. A service's argument check throws synchronously in the source, and the model reports it the same way as an asynchronous failure.
- AutoMapper is the identity. `Record`, `Entry`, `Register` and the four DTO classes are all one (key, value) shape.
- `AddressScraper.ServerAddress` takes `\w` and `\d` as parameters. The repositories pass ASCII classes, not the Unicode-aware classes of .NET.
- The `MongoDefaults.GuidRepresentation` assignment in the `MongoDbService` constructor is global driver state and is not modelled.
- `Provider.MongoDbService.GetValue` treats the find result as a list. It does not model the source reading the same driver cursor twice (`Any`, then `FirstOrDefault`).
- `LegacyErrors.LegacyError` carries no status codes, for either file. Most of its members have none in the source. Two do and are still dropped: `RegisterRepository`'s `UnavailableKey` (400 "Could not find a valid key for the record", the same entry as the `RepositoryExceptions` table) and `MongoDbService`'s `RegisterNotFound` (404 "Register not found" in `MongoDbCustomError`).
- A `null` value passed directly to a repository insert is not modelled (values are `string`). The services never pass one.
- The `ArgumentException` messages of the constructors are not modelled; only which check fails is kept.
- A driver exception's type beyond its message is not modelled.
- Controllers, startup, dependency injection, the exception middleware and the Swagger filter are out of scope, as are `RegisterService` (a pass-through) and the interfaces.

## Code and tests

The model follows the code where the repository's tests expect otherwise:

- `source/Core/MongoDockerSample.Core.Application.Tests/EntryServiceTests.cs:272-287` expects `GetEntriesAsync` to fail with RecordNotFound on an empty list. `EntryService.GetEntries` passes the answer through, and `Application.EntryListingOfEmptyStoreSucceeds` shows that an empty store gives an empty success.
- `source/Core/MongoDockerSample.Core.Application.Tests/RecordServiceTests.cs:31` inserts `It.IsAny<string>()`, which is `null` outside a setup, and expects success. `RecordService.InsertRecord` rejects a `null` value with ValueNotInformed.
