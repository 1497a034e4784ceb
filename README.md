# Legacy-migration import, modelled in Dafny

This project models the legacy-migration import of Mongock's MongoDB sync-v4 driver (`LegacyService`). The import reads every document of an old tracking collection and maps each one to a `ChangeEntry` through configurable field bindings. It saves each entry unless its `(changeId, author)` pair is already tracked. Then it checks an optional expected count. Anything the import throws goes through a fail-fast or lenient policy.

Modules:

- `Nullable`: Java references that may be null, as `Option`.
- `Exceptions`: `ChangockException` and foreign exceptions. Also `Result` and `Outcome`, which stand in for throwing.
- `ChangeEntries`: the change entry, its natural key `(changeId, author)`, and what "tracked" means.
- `EntryService`: an in-memory change-entry service (a class over a `seq` of entries).
- `Dates`: the date type that documents and change entries share.
- `Bson`: documents as maps from field name to a tagged BSON value, collections in cursor order, and `getString`/`getDate`.
- `LegacyService`: the operations of `LegacyService.java`. The two loops are methods. Each is proved equal to a function of its inputs: `MapFrom` for the mapping loop, and `SaveAll`/`Run` for `executeMigration`.
- `LegacyProperties`: the properties of those functions.

How the source's inputs are modelled:

- The execution id is a parameter.
- The database is a map from collection name to a `Collection`. A name with no collection behind it reads as an empty collection.
- A `Collection` can name a cursor position where the driver fails. A position below the number of documents fails when that document is fetched. The position equal to it fails at the last `hasNext`, after every document was delivered.
- The change-entry service refuses writes once it holds `capacity` entries. This is a deterministic stand-in for a persistence failure.

Three behaviours of the code that a reader might not expect:

- The counter `changesMigrated` counts every processed entry, skipped ones included (line 53). On success it equals the number of legacy documents, not the number saved.
- Validation runs inside the `try` (lines 42-43). Without fail-fast, a misconfiguration is swallowed like any other exception, and nothing is saved.
- A null configuration is dereferenced at line 38, before the `try` and before the null check at line 117. The resulting NullPointerException escapes unwrapped, whatever the fail-fast flag says.

## Model

| member | source | states |
|---|---|---|
| LegacyService.ValidateLegacyMigration | drivers/mongodb-sync-v4-driver/src/main/java/com/github/cloudyrock/mongock/driver/mongodb/sync/v4/changelogs/LegacyService.java:116-128 | Validation passes exactly when the configuration is non-null, its collection name is non-null and non-empty, its mapping fields are non-null, and the changeId and author bindings are non-null and non-empty. Otherwise it throws a ChangockException for misconfiguration. |
| LegacyService.DocumentStringValue | drivers/mongodb-sync-v4-driver/src/main/java/com/github/cloudyrock/mongock/driver/mongodb/sync/v4/changelogs/LegacyService.java:104-106 | An unset binding or an absent field gives null, never an empty string. A bound string field is read as that string, and a non-null result is always the document's own string there. A value that is neither a string nor null throws a ClassCastException naming the field. |
| LegacyService.DocumentDateValue | drivers/mongodb-sync-v4-driver/src/main/java/com/github/cloudyrock/mongock/driver/mongodb/sync/v4/changelogs/LegacyService.java:108-110 | The same rules for dates: an unset or absent field gives null, a bound date field is read as that date, and a value that is neither a date nor null throws a ClassCastException naming the field. |
| LegacyService.Metadata | drivers/mongodb-sync-v4-driver/src/main/java/com/github/cloudyrock/mongock/driver/mongodb/sync/v4/changelogs/LegacyService.java:94-102 | The metadata always maps "migration-type" to "legacy". It holds "original-metadata" exactly when the binding is set and the document holds a string there, and then that string is the value. It has no other keys. It throws exactly when reading the bound field throws, and then it throws that same ClassCastException. |
| LegacyService.GetMetadata | drivers/mongodb-sync-v4-driver/src/main/java/com/github/cloudyrock/mongock/driver/mongodb/sync/v4/changelogs/LegacyService.java:94-102 | Filling the map step by step, with the same early exception, gives exactly `Metadata`. |
| LegacyService.MapDocument | drivers/mongodb-sync-v4-driver/src/main/java/com/github/cloudyrock/mongock/driver/mongodb/sync/v4/changelogs/LegacyService.java:78-88 | A document maps exactly when all six reads succeed. The reads go in argument order, and the first read that throws decides the exception. A mapped entry carries the run's execution id, state EXECUTED and execution time -1, and each other part is the value read through its own binding. |
| LegacyService.GetOriginalMigrationAsChangeEntryList | drivers/mongodb-sync-v4-driver/src/main/java/com/github/cloudyrock/mongock/driver/mongodb/sync/v4/changelogs/LegacyService.java:68-92 | The loop over the cursor returns exactly `MapFrom` of the whole collection: either the mapped entries, or the first cursor or mapping exception. |
| LegacyService.Rethrow | drivers/mongodb-sync-v4-driver/src/main/java/com/github/cloudyrock/mongock/driver/mongodb/sync/v4/changelogs/LegacyService.java:59-64 | The catch block rethrows exactly when fail-fast is set, and then only as a ChangockException. A ChangockException is rethrown as it is. A foreign exception is wrapped with its cause kept. |
| LegacyService.ExecuteMigration | drivers/mongodb-sync-v4-driver/src/main/java/com/github/cloudyrock/mongock/driver/mongodb/sync/v4/changelogs/LegacyService.java:33-66 | The outcome and the store's final entries are exactly `Run` of the configuration, database, initial entries, capacity and execution id. |
| EntryService.ChangeEntryService.IsAlreadyExecuted | drivers/mongodb-sync-v4-driver/src/main/java/com/github/cloudyrock/mongock/driver/mongodb/sync/v4/changelogs/LegacyService.java:46 | The result is true exactly when some stored entry has the given changeId and author. |
| EntryService.ChangeEntryService.Save | drivers/mongodb-sync-v4-driver/src/main/java/com/github/cloudyrock/mongock/driver/mongodb/sync/v4/changelogs/LegacyService.java:48 | Save appends the entry. If the store is full, it throws and leaves the store unchanged. |
| LegacyProperties.MappingSucceeds | drivers/mongodb-sync-v4-driver/src/main/java/com/github/cloudyrock/mongock/driver/mongodb/sync/v4/changelogs/LegacyService.java:73-91 | Mapping succeeds exactly when the cursor fails at no position up to and including the end, and every document maps without a ClassCastException. |
| LegacyProperties.EndOfCursorFailure | drivers/mongodb-sync-v4-driver/src/main/java/com/github/cloudyrock/mongock/driver/mongodb/sync/v4/changelogs/LegacyService.java:74-76 | A cursor that fails at its last `hasNext`, after delivering every document, still makes the mapping throw. |
| LegacyProperties.MappingShape | drivers/mongodb-sync-v4-driver/src/main/java/com/github/cloudyrock/mongock/driver/mongodb/sync/v4/changelogs/LegacyService.java:73-91 | A successful mapping gives one entry per document, in cursor order. Entry k is the mapping of document k, with the shared execution id, EXECUTED and -1. |
| LegacyProperties.ImportedEntry | drivers/mongodb-sync-v4-driver/src/main/java/com/github/cloudyrock/mongock/driver/mongodb/sync/v4/changelogs/LegacyService.java:75-89 | Every entry of a successful mapping carries the run's single execution id, state EXECUTED and execution time -1. |
| LegacyProperties.MappingIgnoresExecutionId | drivers/mongodb-sync-v4-driver/src/main/java/com/github/cloudyrock/mongock/driver/mongodb/sync/v4/changelogs/LegacyService.java:75-79 | With another execution id, mapping fails the same way or gives the same entries under the new id. |
| LegacyProperties.SaveAllCounts | drivers/mongodb-sync-v4-driver/src/main/java/com/github/cloudyrock/mongock/driver/mongodb/sync/v4/changelogs/LegacyService.java:45-54 | The counter counts saved and skipped entries alike. After a complete loop it is the number of entries. After a refused save it is the position of the refused entry, which was untracked and met a full store. |
| LegacyProperties.SaveAllAppends | drivers/mongodb-sync-v4-driver/src/main/java/com/github/cloudyrock/mongock/driver/mongodb/sync/v4/changelogs/LegacyService.java:45-52 | The save loop keeps the old entries as a prefix. Every entry it adds is one of the changes, and its key was not tracked at the moment it was saved. |
| LegacyProperties.SaveAllTracksAll | drivers/mongodb-sync-v4-driver/src/main/java/com/github/cloudyrock/mongock/driver/mongodb/sync/v4/changelogs/LegacyService.java:45-52 | After a loop in which no save fails, every change's key is tracked. |
| LegacyProperties.SaveAllKeepsKeysUnique | drivers/mongodb-sync-v4-driver/src/main/java/com/github/cloudyrock/mongock/driver/mongodb/sync/v4/changelogs/LegacyService.java:45-52 | A store without duplicate keys has none after the loop, even when the changes repeat a pair. |
| LegacyProperties.SaveAllSavesFirstOccurrence | drivers/mongodb-sync-v4-driver/src/main/java/com/github/cloudyrock/mongock/driver/mongodb/sync/v4/changelogs/LegacyService.java:45-52 | Of the changes the loop reached, the first one with a key untracked in the initial store is the one saved. A later duplicate of that key is skipped in its favour. |
| LegacyProperties.SaveAllWhenAllTracked | drivers/mongodb-sync-v4-driver/src/main/java/com/github/cloudyrock/mongock/driver/mongodb/sync/v4/changelogs/LegacyService.java:45-53 | When every change is already tracked, the loop saves nothing, counts every change and throws nothing. |
| LegacyProperties.NullConfigurationEscapes | drivers/mongodb-sync-v4-driver/src/main/java/com/github/cloudyrock/mongock/driver/mongodb/sync/v4/changelogs/LegacyService.java:37-38 | A null configuration throws a NullPointerException, unwrapped, and saves nothing. |
| LegacyProperties.FailurePolicy | drivers/mongodb-sync-v4-driver/src/main/java/com/github/cloudyrock/mongock/driver/mongodb/sync/v4/changelogs/LegacyService.java:59-64 | Entries saved before an exception stay saved. Without fail-fast the call always returns normally. With fail-fast it throws exactly when the try body threw, and it throws only ChangockExceptions. |
| LegacyProperties.MisconfigurationFollowsFailFast | drivers/mongodb-sync-v4-driver/src/main/java/com/github/cloudyrock/mongock/driver/mongodb/sync/v4/changelogs/LegacyService.java:42-64 | A misconfigured, non-null configuration saves nothing. It throws a ChangockException for misconfiguration with fail-fast and returns normally without it. |
| LegacyProperties.MappingFailureSavesNothing | drivers/mongodb-sync-v4-driver/src/main/java/com/github/cloudyrock/mongock/driver/mongodb/sync/v4/changelogs/LegacyService.java:44 | A cursor or mapping failure happens before any save: the store is unchanged, and the outcome is the catch block applied to that exception. |
| LegacyProperties.CountCheck | drivers/mongodb-sync-v4-driver/src/main/java/com/github/cloudyrock/mongock/driver/mongodb/sync/v4/changelogs/LegacyService.java:53-57 | When every document maps and every save succeeds, the counter equals the number of legacy documents and every mapped key is tracked. A count mismatch is then thrown exactly when a count was expected and differs. It carries the expected and actual counts. |
| LegacyProperties.RunKeepsKeysUnique | drivers/mongodb-sync-v4-driver/src/main/java/com/github/cloudyrock/mongock/driver/mongodb/sync/v4/changelogs/LegacyService.java:45-52 | An import never introduces a duplicate (changeId, author) pair into the store, whatever the documents and configuration. |
| LegacyProperties.RunOnlyAppends | drivers/mongodb-sync-v4-driver/src/main/java/com/github/cloudyrock/mongock/driver/mongodb/sync/v4/changelogs/LegacyService.java:45-52 | An import keeps the old entries as a prefix. Every entry it adds carries the run's execution id, EXECUTED and -1, and had an untracked key when it was saved. |
| LegacyProperties.RunSavesFirstOccurrence | drivers/mongodb-sync-v4-driver/src/main/java/com/github/cloudyrock/mongock/driver/mongodb/sync/v4/changelogs/LegacyService.java:44-52 | Of the legacy documents sharing a (changeId, author) pair untracked before the run, the first in cursor order is the one imported, if the save loop reached it. |
| LegacyProperties.RerunChangesNothing | drivers/mongodb-sync-v4-driver/src/main/java/com/github/cloudyrock/mongock/driver/mongodb/sync/v4/changelogs/LegacyService.java:45-57 | After an import whose saves all went through, importing again under any execution id saves nothing and ends with the same outcome. |
| LegacyProperties.MetadataExample | drivers/mongodb-sync-v4-driver/src/main/java/com/github/cloudyrock/mongock/driver/mongodb/sync/v4/changelogs/LegacyService.java:94-102 | For {changeId: "c1", author: "a1", meta: "x"}, binding "meta" gives {migration-type: legacy, original-metadata: x}. Binding an absent field, or no field, gives {migration-type: legacy} only. |

## Left out

- `ListIndexesIterableDecorator` (drivers/mongodb-v3-driver) is not modelled. It only forwards `maxTime` and `batchSize` to the wrapped iterable. The lock-validity check it relies on, in `getInvoker()` and `MongoIterableDecorator`, is not part of this model.
- `getExecutionId` (lines 112-114) depends on the clock and on `java.util.Random`. The execution id is a parameter, so the model does not state the shape of the id or the 0..998 range of its suffix.
- Logging (lines 31, 40, 58, 63, 130-140) is a side channel only and is not modelled.
- MongoDB access (`getCollection`, `find`, the cursor) is replaced by a map of collections. The only driver failure modelled is a cursor failure at a chosen position.
- The `ChangeEntry` constructor (its class is not part of this model) is assumed to store its arguments as given and not to throw, whatever the arguments, null ones included.
- The real `ChangeEntryService` persistence is not part of this model. `isAlreadyExecuted` never fails here. `save` fails only when the in-memory store is full.
- The counter is an unbounded `nat` and the expected count an unbounded `int`. The 32-bit `int`/`Integer` wrap-around past 2^31 - 1 documents is not modelled.
- BSON values other than null, string and date are one tag, `BsonOther`. Reading one as a string or date throws a ClassCastException, as `Document.getString` and `getDate` do.
- Metadata values are strings: the two values the import ever stores are strings, though the Java map is typed `Map<String, Object>`.
- `ChangeState` has only the states EXECUTED and ROLLED_BACK. The import only ever writes EXECUTED.
