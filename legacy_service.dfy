/**
 * The legacy-migration import: it reads every document of an old tracking
 * collection, maps each to a change entry, saves the entries whose
 * (changeId, author) is not yet tracked, checks an optional expected count,
 * and applies a fail-fast or lenient policy to whatever it throws.
 *
 * Each imperative operation is a method proved equal to a function of its
 * inputs (`MapFrom`, `SaveAll`, `Run`); the properties of those functions
 * are proved in module LegacyProperties.
 */
module LegacyService {
  import opened Nullable
  import opened Exceptions
  import opened Dates
  import opened ChangeEntries
  import opened Bson
  import opened EntryService

  /** Names of the legacy document fields that hold each part of a change entry. */
  datatype MappingFields = MappingFields(
    changeId: Option<string>,
    author: Option<string>,
    timestamp: Option<string>,
    changeLogClass: Option<string>,
    changeSetMethod: Option<string>,
    metadata: Option<string>)

  /** The legacy-migration configuration. */
  datatype LegacyMigration = LegacyMigration(
    collectionName: Option<string>,
    mappingFields: Option<MappingFields>,
    changesCountExpectation: Option<int>,
    failFast: bool)

  const MigrationTypeKey := "migration-type"
  const LegacyMigrationType := "legacy"
  const OriginalMetadataKey := "original-metadata"
  /** The execution time recorded for imported entries: unknown. */
  const UnknownExecutionMillis := -1

  predicate IsEmpty(text: Option<string>) {
    text.None? || text.value == ""
  }

  /** Validation passes exactly when every mandatory part of the configuration is present and non-empty. */
  function ValidateLegacyMigration(legacyMigration: Option<LegacyMigration>): (r: Outcome)
    ensures r.Returned? <==>
      && legacyMigration.Some?
      && legacyMigration.value.collectionName.Some?
      && |legacyMigration.value.collectionName.value| > 0
      && legacyMigration.value.mappingFields.Some?
      && legacyMigration.value.mappingFields.value.changeId.Some?
      && |legacyMigration.value.mappingFields.value.changeId.value| > 0
      && legacyMigration.value.mappingFields.value.author.Some?
      && |legacyMigration.value.mappingFields.value.author.value| > 0
    ensures r.Threw? ==> r.exception == ChangockException(Misconfigured)
  {
    if || legacyMigration.None?
       || IsEmpty(legacyMigration.value.collectionName)
       || legacyMigration.value.mappingFields.None?
       || IsEmpty(legacyMigration.value.mappingFields.value.changeId)
       || IsEmpty(legacyMigration.value.mappingFields.value.author)
    then Threw(ChangockException(Misconfigured))
    else Returned
  }

  /**
   * The string under a bound field. An unset binding, an absent field and a
   * null value all give null; a string is read as it is; any other value
   * throws a ClassCastException naming the field.
   */
  function DocumentStringValue(changeDocument: Document, field: Option<string>): (r: Result<Option<string>>)
    ensures field.None? ==> r == Ok(None)
    ensures field.Some? && field.value !in changeDocument ==> r == Ok(None)
    ensures r.Ok? && r.value.Some? ==>
      field.Some? && field.value in changeDocument && changeDocument[field.value] == BsonString(r.value.value)
    ensures field.Some? && field.value in changeDocument && changeDocument[field.value].BsonString? ==>
      r == Ok(Some(changeDocument[field.value].s))
    ensures (field.Some? && field.value in changeDocument
             && !changeDocument[field.value].BsonString? && !changeDocument[field.value].BsonNull?) ==>
      r == Err(ForeignException(ClassCast(field.value)))
    ensures r.Err? ==>
      && field.Some? && field.value in changeDocument
      && !changeDocument[field.value].BsonString? && !changeDocument[field.value].BsonNull?
      && r.error == ForeignException(ClassCast(field.value))
  {
    if field.Some? then GetString(changeDocument, field.value) else Ok(None)
  }

  /** The date under a bound field, with the same null rules as `DocumentStringValue`. */
  function DocumentDateValue(changeDocument: Document, field: Option<string>): (r: Result<Option<Instant>>)
    ensures field.None? ==> r == Ok(None)
    ensures field.Some? && field.value !in changeDocument ==> r == Ok(None)
    ensures r.Ok? && r.value.Some? ==>
      field.Some? && field.value in changeDocument && changeDocument[field.value] == BsonDate(r.value.value)
    ensures field.Some? && field.value in changeDocument && changeDocument[field.value].BsonDate? ==>
      r == Ok(Some(changeDocument[field.value].date))
    ensures (field.Some? && field.value in changeDocument
             && !changeDocument[field.value].BsonDate? && !changeDocument[field.value].BsonNull?) ==>
      r == Err(ForeignException(ClassCast(field.value)))
    ensures r.Err? ==>
      && field.Some? && field.value in changeDocument
      && !changeDocument[field.value].BsonDate? && !changeDocument[field.value].BsonNull?
      && r.error == ForeignException(ClassCast(field.value))
  {
    if field.Some? then GetDate(changeDocument, field.value) else Ok(None)
  }

  /**
   * The metadata of an imported entry: always the migration type "legacy",
   * and the document's original metadata exactly when its binding is set and
   * the document holds a string there; no other keys.
   */
  function Metadata(changeDocument: Document, field: Option<string>): (r: Result<map<string, string>>)
    ensures r.Ok? ==> r.value.Keys <= {MigrationTypeKey, OriginalMetadataKey}
    ensures r.Ok? ==> MigrationTypeKey in r.value && r.value[MigrationTypeKey] == LegacyMigrationType
    ensures r.Ok? ==>
      (OriginalMetadataKey in r.value <==>
         field.Some? && field.value in changeDocument && changeDocument[field.value].BsonString?)
    ensures r.Ok? && OriginalMetadataKey in r.value ==>
      changeDocument[field.value] == BsonString(r.value[OriginalMetadataKey])
    ensures r.Err? <==> DocumentStringValue(changeDocument, field).Err?
    ensures r.Err? ==> r.error == DocumentStringValue(changeDocument, field).error
  {
    var originalMetadata :- if field.Some? then GetString(changeDocument, field.value) else Ok(None);
    var newMetadata := map[MigrationTypeKey := LegacyMigrationType];
    if originalMetadata.Some? then Ok(newMetadata[OriginalMetadataKey := originalMetadata.value])
    else Ok(newMetadata)
  }

  /** `getMetadata`: fills a fresh map entry by entry. */
  method GetMetadata(changeDocument: Document, field: Option<string>) returns (r: Result<map<string, string>>)
    ensures r == Metadata(changeDocument, field)
  {
    var newMetadata: map<string, string> := map[];
    newMetadata := newMetadata[MigrationTypeKey := LegacyMigrationType];
    var originalMetadata :- if field.Some? then GetString(changeDocument, field.value) else Ok(None);
    if originalMetadata.Some? {
      newMetadata := newMetadata[OriginalMetadataKey := originalMetadata.value];
    }
    return Ok(newMetadata);
  }

  /**
   * The change entry built from one legacy document: the run's execution id,
   * state EXECUTED, an unknown execution time, and every other part read
   * through its binding. The reads happen in argument order, so the first
   * failing one decides the exception.
   */
  function MapDocument(changeDocument: Document, mappingFields: MappingFields, executionId: string): (r: Result<ChangeEntry>)
    ensures r.Ok? ==>
      && r.value.executionId == executionId
      && r.value.state == Executed
      && r.value.executionMillis == UnknownExecutionMillis
    ensures r.Ok? ==>
      && DocumentStringValue(changeDocument, mappingFields.changeId) == Ok(r.value.changeId)
      && DocumentStringValue(changeDocument, mappingFields.author) == Ok(r.value.author)
      && DocumentDateValue(changeDocument, mappingFields.timestamp) == Ok(r.value.timestamp)
      && DocumentStringValue(changeDocument, mappingFields.changeLogClass) == Ok(r.value.changeLogClass)
      && DocumentStringValue(changeDocument, mappingFields.changeSetMethod) == Ok(r.value.changeSetMethod)
      && Metadata(changeDocument, mappingFields.metadata) == Ok(r.value.metadata)
    ensures var changeId, author, timestamp, changeLogClass, changeSetMethod, metadata :=
          DocumentStringValue(changeDocument, mappingFields.changeId),
          DocumentStringValue(changeDocument, mappingFields.author),
          DocumentDateValue(changeDocument, mappingFields.timestamp),
          DocumentStringValue(changeDocument, mappingFields.changeLogClass),
          DocumentStringValue(changeDocument, mappingFields.changeSetMethod),
          Metadata(changeDocument, mappingFields.metadata);
      && (r.Ok? <==> changeId.Ok? && author.Ok? && timestamp.Ok? && changeLogClass.Ok? && changeSetMethod.Ok? && metadata.Ok?)
      && (changeId.Err? ==> r == Err(changeId.error))
      && (changeId.Ok? && author.Err? ==> r == Err(author.error))
      && (changeId.Ok? && author.Ok? && timestamp.Err? ==> r == Err(timestamp.error))
      && (changeId.Ok? && author.Ok? && timestamp.Ok? && changeLogClass.Err? ==> r == Err(changeLogClass.error))
      && (changeId.Ok? && author.Ok? && timestamp.Ok? && changeLogClass.Ok? && changeSetMethod.Err? ==>
            r == Err(changeSetMethod.error))
      && (changeId.Ok? && author.Ok? && timestamp.Ok? && changeLogClass.Ok? && changeSetMethod.Ok? && metadata.Err? ==>
            r == Err(metadata.error))
  {
    var changeId :- DocumentStringValue(changeDocument, mappingFields.changeId);
    var author :- DocumentStringValue(changeDocument, mappingFields.author);
    var timestamp :- DocumentDateValue(changeDocument, mappingFields.timestamp);
    var changeLogClass :- DocumentStringValue(changeDocument, mappingFields.changeLogClass);
    var changeSetMethod :- DocumentStringValue(changeDocument, mappingFields.changeSetMethod);
    var metadata :- Metadata(changeDocument, mappingFields.metadata);
    Ok(ChangeEntry(executionId, changeId, author, timestamp, Executed,
                   changeLogClass, changeSetMethod, UnknownExecutionMillis, metadata))
  }

  /**
   * The entries of the documents from position `from` on, or the first
   * exception reading or mapping them. The cursor is asked for position
   * `from` first, so a failure declared at the end position (the last
   * `hasNext`) is raised too.
   */
  function MapFrom(originalCollection: Collection, from: nat, mappingFields: MappingFields, executionId: string): Result<seq<ChangeEntry>>
    requires from <= |originalCollection.docs|
    decreases |originalCollection.docs| - from
  {
    if originalCollection.failsAt == Some(from) then Err(ForeignException(CursorFailure))
    else if from == |originalCollection.docs| then Ok([])
    else
      var change :- MapDocument(originalCollection.docs[from], mappingFields, executionId);
      var rest :- MapFrom(originalCollection, from + 1, mappingFields, executionId);
      Ok([change] + rest)
  }

  /** `changes` followed by the entries of `rest`, unless `rest` is an exception. */
  function Prepend(changes: seq<ChangeEntry>, rest: Result<seq<ChangeEntry>>): Result<seq<ChangeEntry>> {
    if rest.Err? then rest else Ok(changes + rest.value)
  }

  lemma PrependNothing(rest: Result<seq<ChangeEntry>>)
    ensures Prepend([], rest) == rest
  {
    if rest.Ok? {
      assert [] + rest.value == rest.value;
    }
  }

  lemma PrependPrepend(first: seq<ChangeEntry>, second: seq<ChangeEntry>, rest: Result<seq<ChangeEntry>>)
    ensures Prepend(first, Prepend(second, rest)) == Prepend(first + second, rest)
  {
    if rest.Ok? {
      assert first + (second + rest.value) == (first + second) + rest.value;
    }
  }

  /** `getOriginalMigrationAsChangeEntryList`: maps every document, in cursor order, into a list. */
  method GetOriginalMigrationAsChangeEntryList(originalCollection: Collection, mappingFields: MappingFields, executionId: string)
    returns (r: Result<seq<ChangeEntry>>)
    ensures r == MapFrom(originalCollection, 0, mappingFields, executionId)
  {
    var originalMigrations: seq<ChangeEntry> := [];
    var next := 0;
    PrependNothing(MapFrom(originalCollection, 0, mappingFields, executionId));
    while next < |originalCollection.docs|
      invariant next <= |originalCollection.docs|
      invariant MapFrom(originalCollection, 0, mappingFields, executionId)
             == Prepend(originalMigrations, MapFrom(originalCollection, next, mappingFields, executionId))
    {
      if originalCollection.failsAt == Some(next) {
        return Err(ForeignException(CursorFailure));
      }
      var changeDocument := originalCollection.docs[next];
      var changeId :- DocumentStringValue(changeDocument, mappingFields.changeId);
      var author :- DocumentStringValue(changeDocument, mappingFields.author);
      var timestamp :- DocumentDateValue(changeDocument, mappingFields.timestamp);
      var changeLogClass :- DocumentStringValue(changeDocument, mappingFields.changeLogClass);
      var changeSetMethod :- DocumentStringValue(changeDocument, mappingFields.changeSetMethod);
      var metadata :- GetMetadata(changeDocument, mappingFields.metadata);
      var change := ChangeEntry(executionId, changeId, author, timestamp, Executed,
                                changeLogClass, changeSetMethod, UnknownExecutionMillis, metadata);
      assert MapFrom(originalCollection, next, mappingFields, executionId)
          == Prepend([change], MapFrom(originalCollection, next + 1, mappingFields, executionId));
      PrependPrepend(originalMigrations, [change], MapFrom(originalCollection, next + 1, mappingFields, executionId));
      originalMigrations := originalMigrations + [change];
      next := next + 1;
    }
    if originalCollection.failsAt == Some(next) {
      return Err(ForeignException(CursorFailure));
    }
    assert originalMigrations + [] == originalMigrations;
    return Ok(originalMigrations);
  }

  /** The state of the save loop: the store's entries, the counter, and what it threw, if anything. */
  datatype Progress = Progress(stored: seq<ChangeEntry>, migrated: nat, failure: Option<Exception>)

  function Counted(p: Progress, n: nat): Progress {
    p.(migrated := p.migrated + n)
  }

  /**
   * The save loop over `changes`, from a store holding `stored`: an entry
   * whose key is tracked at that moment is skipped, any other is saved; the
   * counter counts both; a refused save stops the loop.
   */
  function SaveAll(changes: seq<ChangeEntry>, stored: seq<ChangeEntry>, capacity: Option<nat>): Progress
    decreases |changes|
  {
    if changes == [] then Progress(stored, 0, None)
    else if Tracked(stored, KeyOf(changes[0])) then Counted(SaveAll(changes[1..], stored, capacity), 1)
    else if Full(stored, capacity) then Progress(stored, 0, Some(ForeignException(StoreFailure)))
    else Counted(SaveAll(changes[1..], stored + [changes[0]], capacity), 1)
  }

  /** The `try` body of `executeMigration`, for a non-null configuration. */
  function MigrationBody(legacyMigration: LegacyMigration, mongoDatabase: Database, stored: seq<ChangeEntry>,
                         capacity: Option<nat>, executionId: string): Progress
  {
    match ValidateLegacyMigration(Some(legacyMigration))
    case Threw(e) => Progress(stored, 0, Some(e))
    case Returned =>
      var collection := GetCollection(mongoDatabase, legacyMigration.collectionName.value);
      match MapFrom(collection, 0, legacyMigration.mappingFields.value, executionId)
      case Err(e) => Progress(stored, 0, Some(e))
      case Ok(changesToMigrate) =>
        var p := SaveAll(changesToMigrate, stored, capacity);
        var expectation := legacyMigration.changesCountExpectation;
        if p.failure.None? && expectation.Some? && expectation.value != p.migrated
        then p.(failure := Some(ChangockException(CountMismatch(expectation.value, p.migrated))))
        else p
  }

  /**
   * The `catch` block: with fail-fast every exception is rethrown as a
   * ChangockException (a foreign one wrapped); without it, it is swallowed.
   */
  function Rethrow(failFast: bool, ex: Exception): (r: Outcome)
    ensures r.Threw? <==> failFast
    ensures r.Threw? ==> r.exception.ChangockException?
    ensures r.Threw? && ex.ChangockException? ==> r.exception == ex
    ensures r.Threw? && ex.ForeignException? ==> r.exception.reason == Wrapped(ex.cause)
  {
    if failFast then Threw(if ex.ChangockException? then ex else ChangockException(Wrapped(ex.cause)))
    else Returned
  }

  datatype RunResult = RunResult(outcome: Outcome, stored: seq<ChangeEntry>)

  /** What `executeMigration` does: its outcome and the store's entries afterwards. */
  function Run(legacyMigration: Option<LegacyMigration>, mongoDatabase: Database, stored: seq<ChangeEntry>,
               capacity: Option<nat>, executionId: string): RunResult
  {
    if legacyMigration.None? then
      // the count expectation is read from the null reference before the try
      RunResult(Threw(ForeignException(NullPointer)), stored)
    else
      var p := MigrationBody(legacyMigration.value, mongoDatabase, stored, capacity, executionId);
      RunResult(if p.failure.Some? then Rethrow(legacyMigration.value.failFast, p.failure.value) else Returned,
                p.stored)
  }

  /** `executeMigration`, with the execution id passed in. */
  method ExecuteMigration(legacyMigration: Option<LegacyMigration>, mongoDatabase: Database,
                          changeEntryService: ChangeEntryService, executionId: string)
    returns (outcome: Outcome)
    modifies changeEntryService
    ensures RunResult(outcome, changeEntryService.entries)
         == Run(legacyMigration, mongoDatabase, old(changeEntryService.entries), changeEntryService.capacity, executionId)
  {
    if legacyMigration.None? {
      return Threw(ForeignException(NullPointer));
    }
    var migration := legacyMigration.value;
    var changesMigrated: nat := 0;
    var changesCountExpectation := migration.changesCountExpectation;
    var thrown: Option<Exception> := None;
    var validation := ValidateLegacyMigration(legacyMigration);
    if validation.Threw? {
      thrown := Some(validation.exception);
    } else {
      var collection := GetCollection(mongoDatabase, migration.collectionName.value);
      var changesToMigrate := GetOriginalMigrationAsChangeEntryList(collection, migration.mappingFields.value, executionId);
      if changesToMigrate.Err? {
        thrown := Some(changesToMigrate.error);
      } else {
        var changes := changesToMigrate.value;
        ghost var stored0 := changeEntryService.entries;
        var i := 0;
        while i < |changes| && thrown.None?
          invariant i <= |changes|
          invariant SaveAll(changes, stored0, changeEntryService.capacity)
                 == if thrown.None?
                    then Counted(SaveAll(changes[i..], changeEntryService.entries, changeEntryService.capacity), changesMigrated)
                    else Progress(changeEntryService.entries, changesMigrated, thrown)
          decreases |changes| - i, if thrown.None? then 1 else 0
        {
          var originalChange := changes[i];
          ghost var before := changeEntryService.entries;
          assert changes[i..][0] == originalChange && changes[i..][1..] == changes[i + 1..];
          var alreadyExecuted := changeEntryService.IsAlreadyExecuted(originalChange.changeId, originalChange.author);
          if !alreadyExecuted {
            var saved := changeEntryService.Save(originalChange);
            if saved.Threw? {
              thrown := Some(saved.exception);
              assert SaveAll(changes[i..], before, changeEntryService.capacity)
                  == Progress(before, 0, Some(ForeignException(StoreFailure)));
            } else {
              assert SaveAll(changes[i..], before, changeEntryService.capacity)
                  == Counted(SaveAll(changes[i + 1..], changeEntryService.entries, changeEntryService.capacity), 1);
            }
          } else {
            assert SaveAll(changes[i..], before, changeEntryService.capacity)
                == Counted(SaveAll(changes[i + 1..], before, changeEntryService.capacity), 1);
          }
          if thrown.None? {
            changesMigrated := changesMigrated + 1;
            i := i + 1;
          }
        }
        assert SaveAll(changes, stored0, changeEntryService.capacity)
            == Progress(changeEntryService.entries, changesMigrated, thrown);
        if thrown.None? && changesCountExpectation.Some? && changesCountExpectation.value != changesMigrated {
          thrown := Some(ChangockException(CountMismatch(changesCountExpectation.value, changesMigrated)));
        }
      }
    }
    outcome := if thrown.Some? then Rethrow(migration.failFast, thrown.value) else Returned;
  }
}
