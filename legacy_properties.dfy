/**
 * What the legacy import promises, proved about the functions that
 * `ExecuteMigration` and `GetOriginalMigrationAsChangeEntryList` are
 * proved equal to.
 */
module LegacyProperties {
  import opened Nullable
  import opened Exceptions
  import opened Dates
  import opened ChangeEntries
  import opened Bson
  import opened EntryService
  import opened LegacyService

  // ---------------------------------------------------------------- mapping

  /** Mapping succeeds exactly when the cursor fails at no position up to the end and every document maps. */
  lemma {:induction false} MappingSucceeds(c: Collection, from: nat, fields: MappingFields, executionId: string)
    requires from <= |c.docs|
    ensures MapFrom(c, from, fields, executionId).Ok? <==>
      && (forall k :: from <= k <= |c.docs| ==> c.failsAt != Some(k))
      && (forall k :: from <= k < |c.docs| ==> MapDocument(c.docs[k], fields, executionId).Ok?)
    decreases |c.docs| - from
  {
    if from < |c.docs| && c.failsAt != Some(from) && MapDocument(c.docs[from], fields, executionId).Ok? {
      MappingSucceeds(c, from + 1, fields, executionId);
    }
  }

  /** A cursor that fails at its last `hasNext`, after delivering every document, still fails the mapping. */
  lemma EndOfCursorFailure(docs: seq<Document>, fields: MappingFields, executionId: string)
    ensures MapFrom(Collection(docs, Some(|docs|)), 0, fields, executionId).Err?
  {
    MappingSucceeds(Collection(docs, Some(|docs|)), 0, fields, executionId);
  }

  /**
   * A successful mapping gives one entry per document, in cursor order,
   * each carrying the run's execution id, state EXECUTED and an unknown
   * execution time.
   */
  lemma {:induction false} MappingShape(c: Collection, from: nat, fields: MappingFields, executionId: string)
    requires from <= |c.docs|
    ensures var r := MapFrom(c, from, fields, executionId);
      r.Ok? ==>
        && |r.value| == |c.docs| - from
        && forall k :: 0 <= k < |r.value| ==>
             && MapDocument(c.docs[from + k], fields, executionId) == Ok(r.value[k])
             && r.value[k].executionId == executionId
             && r.value[k].state == Executed
             && r.value[k].executionMillis == UnknownExecutionMillis
    decreases |c.docs| - from
  {
    var r := MapFrom(c, from, fields, executionId);
    if from < |c.docs| && r.Ok? {
      var rest := MapFrom(c, from + 1, fields, executionId);
      MappingShape(c, from + 1, fields, executionId);
      assert r.value == [MapDocument(c.docs[from], fields, executionId).value] + rest.value;
      forall k | 0 <= k < |r.value|
        ensures MapDocument(c.docs[from + k], fields, executionId) == Ok(r.value[k])
      {
        if k > 0 {
          assert r.value[k] == rest.value[k - 1];
        }
      }
    }
  }

  /** Every entry of a successful mapping carries the run's execution id, EXECUTED and -1. */
  lemma ImportedEntry(c: Collection, fields: MappingFields, executionId: string, change: ChangeEntry)
    requires MapFrom(c, 0, fields, executionId).Ok?
    requires change in MapFrom(c, 0, fields, executionId).value
    ensures change.executionId == executionId && change.state == Executed && change.executionMillis == UnknownExecutionMillis
  {
    MappingShape(c, 0, fields, executionId);
    var changes := MapFrom(c, 0, fields, executionId).value;
    var k :| 0 <= k < |changes| && changes[k] == change;
  }

  /** The execution id is only copied into the entries: mapping with another id fails the same way or gives the same entries re-stamped. */
  lemma {:induction false} MappingIgnoresExecutionId(c: Collection, from: nat, fields: MappingFields, id1: string, id2: string)
    requires from <= |c.docs|
    ensures var r1, r2 := MapFrom(c, from, fields, id1), MapFrom(c, from, fields, id2);
      && (r1.Err? ==> r2 == r1)
      && (r1.Ok? ==> r2.Ok? && |r2.value| == |r1.value|
                     && forall k :: 0 <= k < |r1.value| ==> r2.value[k] == r1.value[k].(executionId := id2))
    decreases |c.docs| - from
  {
    if from < |c.docs| && c.failsAt != Some(from) {
      var d1, d2 := MapDocument(c.docs[from], fields, id1), MapDocument(c.docs[from], fields, id2);
      assert d1.Err? ==> d2 == d1;
      assert d1.Ok? ==> d2 == Ok(d1.value.(executionId := id2));
      MappingIgnoresExecutionId(c, from + 1, fields, id1, id2);
    }
  }

  // ------------------------------------------------------------- save loop

  /** A key tracked in a prefix of the store stays tracked. */
  lemma TrackedInExtension(prefix: seq<ChangeEntry>, entries: seq<ChangeEntry>, k: Key)
    requires |prefix| <= |entries| && entries[..|prefix|] == prefix
    requires Tracked(prefix, k)
    ensures Tracked(entries, k)
  {
    var i :| 0 <= i < |prefix| && KeyOf(prefix[i]) == k;
    assert entries[i] == prefix[i];
  }

  /**
   * The counter counts every processed entry, saved or skipped: all of them
   * when the loop completes; when a save is refused, the entries before the
   * refused one, which was untracked and met a full store.
   */
  lemma {:induction false} SaveAllCounts(changes: seq<ChangeEntry>, stored: seq<ChangeEntry>, capacity: Option<nat>)
    ensures var p := SaveAll(changes, stored, capacity);
      && (p.failure.None? ==> p.migrated == |changes|)
      && (p.failure.Some? ==>
            && p.migrated < |changes|
            && p.failure == Some(ForeignException(StoreFailure))
            && Full(p.stored, capacity)
            && !Tracked(p.stored, KeyOf(changes[p.migrated])))
    decreases |changes|
  {
    if changes != [] {
      var tail := changes[1..];
      if Tracked(stored, KeyOf(changes[0])) {
        SaveAllCounts(tail, stored, capacity);
      } else if !Full(stored, capacity) {
        SaveAllCounts(tail, stored + [changes[0]], capacity);
      }
    }
  }

  /**
   * The loop only appends: the old entries stay, and each new entry is one
   * of the changes whose key was not tracked at the moment it was saved.
   */
  lemma {:induction false} SaveAllAppends(changes: seq<ChangeEntry>, stored: seq<ChangeEntry>, capacity: Option<nat>)
    ensures var p := SaveAll(changes, stored, capacity);
      && |stored| <= |p.stored|
      && p.stored[..|stored|] == stored
      && forall j :: |stored| <= j < |p.stored| ==> p.stored[j] in changes && !Tracked(p.stored[..j], KeyOf(p.stored[j]))
    decreases |changes|
  {
    if changes != [] {
      var tail := changes[1..];
      if Tracked(stored, KeyOf(changes[0])) {
        SaveAllAppends(tail, stored, capacity);
      } else if !Full(stored, capacity) {
        var next := stored + [changes[0]];
        SaveAllAppends(tail, next, capacity);
        var p := SaveAll(tail, next, capacity);
        assert p.stored[..|stored|] == p.stored[..|next|][..|stored|];
        assert p.stored[..|stored|] == stored;
        forall j | |stored| <= j < |p.stored|
          ensures p.stored[j] in changes && !Tracked(p.stored[..j], KeyOf(p.stored[j]))
        {
          if j == |stored| {
            assert p.stored[j] == next[j] == changes[0];
            assert p.stored[..j] == stored;
          } else {
            assert p.stored[j] in tail;
          }
        }
      }
    }
  }

  /** The keys of all changes are tracked once the first one is and the rest are. */
  lemma TrackedHeadAndTail(changes: seq<ChangeEntry>, entries: seq<ChangeEntry>)
    requires changes != []
    requires Tracked(entries, KeyOf(changes[0]))
    requires forall k :: 0 <= k < |changes| - 1 ==> Tracked(entries, KeyOf(changes[1..][k]))
    ensures forall k :: 0 <= k < |changes| ==> Tracked(entries, KeyOf(changes[k]))
  {
    forall k | 0 < k < |changes|
      ensures Tracked(entries, KeyOf(changes[k]))
    {
      assert changes[k] == changes[1..][k - 1];
    }
  }

  /** After a loop that completes, the key of every change is tracked. */
  lemma {:induction false} SaveAllTracksAll(changes: seq<ChangeEntry>, stored: seq<ChangeEntry>, capacity: Option<nat>)
    ensures var p := SaveAll(changes, stored, capacity);
      p.failure.None? ==> forall k :: 0 <= k < |changes| ==> Tracked(p.stored, KeyOf(changes[k]))
    decreases |changes|
  {
    if changes != [] {
      var tail := changes[1..];
      var first := changes[0];
      if Tracked(stored, KeyOf(first)) {
        SaveAllTracksAll(tail, stored, capacity);
        SaveAllAppends(tail, stored, capacity);
        var p := SaveAll(tail, stored, capacity);
        TrackedInExtension(stored, p.stored, KeyOf(first));
        if p.failure.None? {
          TrackedHeadAndTail(changes, p.stored);
        }
      } else if !Full(stored, capacity) {
        var next := stored + [first];
        SaveAllTracksAll(tail, next, capacity);
        SaveAllAppends(tail, next, capacity);
        var p := SaveAll(tail, next, capacity);
        assert KeyOf(next[|stored|]) == KeyOf(first);
        TrackedInExtension(next, p.stored, KeyOf(first));
        if p.failure.None? {
          TrackedHeadAndTail(changes, p.stored);
        }
      }
    }
  }

  /** Duplicate keys are never introduced: a store without them keeps none. */
  lemma {:induction false} SaveAllKeepsKeysUnique(changes: seq<ChangeEntry>, stored: seq<ChangeEntry>, capacity: Option<nat>)
    requires NoDuplicateKeys(stored)
    ensures NoDuplicateKeys(SaveAll(changes, stored, capacity).stored)
  {
    SaveAllAppends(changes, stored, capacity);
    var s := SaveAll(changes, stored, capacity).stored;
    forall i, j | 0 <= i < j < |s|
      ensures KeyOf(s[i]) != KeyOf(s[j])
    {
      if j < |stored| {
        assert s[i] == stored[i] && s[j] == stored[j];
      } else {
        assert s[..j][i] == s[i];
      }
    }
  }

  /** A key tracked after appending one entry was tracked before or is that entry's key. */
  lemma TrackedAfterAppend(entries: seq<ChangeEntry>, change: ChangeEntry, k: Key)
    requires Tracked(entries + [change], k)
    ensures Tracked(entries, k) || KeyOf(change) == k
  {
    var i :| 0 <= i < |entries + [change]| && KeyOf((entries + [change])[i]) == k;
    if i < |entries| {
      assert (entries + [change])[i] == entries[i];
    }
  }

  /**
   * Of the changes the loop reached, the first one with a given untracked
   * key is the one saved: a later duplicate is skipped in its favour, so
   * cursor order decides which legacy record is imported.
   */
  lemma {:induction false} SaveAllSavesFirstOccurrence(changes: seq<ChangeEntry>, stored: seq<ChangeEntry>,
                                                       capacity: Option<nat>, k: nat)
    requires k < |changes|
    ensures var p := SaveAll(changes, stored, capacity);
      (&& k < p.migrated
       && !Tracked(stored, KeyOf(changes[k]))
       && forall j :: 0 <= j < k ==> KeyOf(changes[j]) != KeyOf(changes[k]))
      ==> changes[k] in p.stored
    decreases |changes|
  {
    var p := SaveAll(changes, stored, capacity);
    var tail := changes[1..];
    if k < p.migrated && !Tracked(stored, KeyOf(changes[k])) && forall j :: 0 <= j < k ==> KeyOf(changes[j]) != KeyOf(changes[k]) {
      if Tracked(stored, KeyOf(changes[0])) {
        assert k > 0;
        assert changes[k] == tail[k - 1];
        forall j | 0 <= j < k - 1
          ensures KeyOf(tail[j]) != KeyOf(tail[k - 1])
        {
          assert tail[j] == changes[j + 1];
        }
        SaveAllSavesFirstOccurrence(tail, stored, capacity, k - 1);
      } else {
        assert !Full(stored, capacity);
        var next := stored + [changes[0]];
        if k == 0 {
          SaveAllAppends(tail, next, capacity);
          var q := SaveAll(tail, next, capacity);
          assert q.stored[|stored|] == q.stored[..|next|][|stored|] == changes[0];
        } else {
          assert changes[k] == tail[k - 1];
          assert KeyOf(changes[0]) != KeyOf(changes[k]);
          if Tracked(next, KeyOf(changes[k])) {
            TrackedAfterAppend(stored, changes[0], KeyOf(changes[k]));
          }
          forall j | 0 <= j < k - 1
            ensures KeyOf(tail[j]) != KeyOf(tail[k - 1])
          {
            assert tail[j] == changes[j + 1];
          }
          SaveAllSavesFirstOccurrence(tail, next, capacity, k - 1);
        }
      }
    }
  }

  /** When every change is already tracked, the loop saves nothing and counts them all. */
  lemma {:induction false} SaveAllWhenAllTracked(changes: seq<ChangeEntry>, stored: seq<ChangeEntry>, capacity: Option<nat>)
    requires forall k :: 0 <= k < |changes| ==> Tracked(stored, KeyOf(changes[k]))
    ensures SaveAll(changes, stored, capacity) == Progress(stored, |changes|, None)
    decreases |changes|
  {
    if changes != [] {
      assert Tracked(stored, KeyOf(changes[0]));
      var tail := changes[1..];
      forall k | 0 <= k < |tail|
        ensures Tracked(stored, KeyOf(tail[k]))
      {
        assert tail[k] == changes[k + 1];
      }
      SaveAllWhenAllTracked(tail, stored, capacity);
    }
  }

  // ------------------------------------------------------------- whole run

  /** A null configuration is dereferenced before the `try`: the exception escapes unwrapped and nothing is saved. */
  lemma NullConfigurationEscapes(mongoDatabase: Database, stored: seq<ChangeEntry>, capacity: Option<nat>, executionId: string)
    ensures Run(None, mongoDatabase, stored, capacity, executionId) == RunResult(Threw(ForeignException(NullPointer)), stored)
  {
  }

  /**
   * The failure policy: whatever the `try` body saved stays saved; without
   * fail-fast the call always returns normally; with it, it throws exactly
   * when the body threw, and only ChangockExceptions.
   */
  lemma FailurePolicy(m: LegacyMigration, mongoDatabase: Database, stored: seq<ChangeEntry>, capacity: Option<nat>, executionId: string)
    ensures var b, r := MigrationBody(m, mongoDatabase, stored, capacity, executionId),
                        Run(Some(m), mongoDatabase, stored, capacity, executionId);
      && r.stored == b.stored
      && (!m.failFast ==> r.outcome == Returned)
      && (m.failFast ==> (r.outcome.Threw? <==> b.failure.Some?))
      && (r.outcome.Threw? ==> r.outcome.exception.ChangockException?)
  {
  }

  /** A misconfiguration saves nothing and, like any other exception of the body, is swallowed without fail-fast. */
  lemma MisconfigurationFollowsFailFast(m: LegacyMigration, mongoDatabase: Database, stored: seq<ChangeEntry>,
                                        capacity: Option<nat>, executionId: string)
    requires IsEmpty(m.collectionName) || m.mappingFields.None?
          || IsEmpty(m.mappingFields.value.changeId) || IsEmpty(m.mappingFields.value.author)
    ensures Run(Some(m), mongoDatabase, stored, capacity, executionId)
         == RunResult(if m.failFast then Threw(ChangockException(Misconfigured)) else Returned, stored)
  {
  }

  /** All documents are mapped before anything is saved: a read or mapping failure leaves the store as it was. */
  lemma MappingFailureSavesNothing(m: LegacyMigration, mongoDatabase: Database, stored: seq<ChangeEntry>,
                                   capacity: Option<nat>, executionId: string)
    requires ValidateLegacyMigration(Some(m)).Returned?
    requires MapFrom(GetCollection(mongoDatabase, m.collectionName.value), 0, m.mappingFields.value, executionId).Err?
    ensures var r := Run(Some(m), mongoDatabase, stored, capacity, executionId);
      && r.stored == stored
      && r.outcome == Rethrow(m.failFast,
           MapFrom(GetCollection(mongoDatabase, m.collectionName.value), 0, m.mappingFields.value, executionId).error)
  {
  }

  /**
   * When every document maps and every save succeeds, the counter equals
   * the number of legacy documents (skipped ones included), every mapped key
   * is tracked, and the body throws a count mismatch exactly when a count
   * was expected and differs.
   */
  lemma CountCheck(m: LegacyMigration, mongoDatabase: Database, stored: seq<ChangeEntry>, capacity: Option<nat>, executionId: string)
    requires ValidateLegacyMigration(Some(m)).Returned?
    requires MapFrom(GetCollection(mongoDatabase, m.collectionName.value), 0, m.mappingFields.value, executionId).Ok?
    requires SaveAll(MapFrom(GetCollection(mongoDatabase, m.collectionName.value), 0, m.mappingFields.value, executionId).value,
                     stored, capacity).failure.None?
    ensures var docs := GetCollection(mongoDatabase, m.collectionName.value).docs;
            var changes := MapFrom(GetCollection(mongoDatabase, m.collectionName.value), 0, m.mappingFields.value, executionId).value;
            var b := MigrationBody(m, mongoDatabase, stored, capacity, executionId);
      && b.migrated == |docs|
      && b.stored == SaveAll(changes, stored, capacity).stored
      && (forall k :: 0 <= k < |changes| ==> Tracked(b.stored, KeyOf(changes[k])))
      && (b.failure.None? <==> m.changesCountExpectation.None? || m.changesCountExpectation.value == |docs|)
      && (b.failure.Some? ==> b.failure.value == ChangockException(CountMismatch(m.changesCountExpectation.value, |docs|)))
  {
    var c := GetCollection(mongoDatabase, m.collectionName.value);
    var changes := MapFrom(c, 0, m.mappingFields.value, executionId).value;
    MappingShape(c, 0, m.mappingFields.value, executionId);
    SaveAllCounts(changes, stored, capacity);
    SaveAllTracksAll(changes, stored, capacity);
  }

  /** A store without duplicate keys has none after an import, whatever the documents, including duplicates among them. */
  lemma RunKeepsKeysUnique(legacyMigration: Option<LegacyMigration>, mongoDatabase: Database, stored: seq<ChangeEntry>,
                           capacity: Option<nat>, executionId: string)
    requires NoDuplicateKeys(stored)
    ensures NoDuplicateKeys(Run(legacyMigration, mongoDatabase, stored, capacity, executionId).stored)
  {
    if legacyMigration.Some? && ValidateLegacyMigration(legacyMigration).Returned? {
      var m := legacyMigration.value;
      var r := MapFrom(GetCollection(mongoDatabase, m.collectionName.value), 0, m.mappingFields.value, executionId);
      if r.Ok? {
        SaveAllKeepsKeysUnique(r.value, stored, capacity);
      }
    }
  }

  /**
   * An import only appends imported entries: the old entries stay in place,
   * and each new one carries the run's execution id, state EXECUTED and an
   * unknown execution time, and had a key not tracked when it was saved.
   */
  lemma RunOnlyAppends(legacyMigration: Option<LegacyMigration>, mongoDatabase: Database, stored: seq<ChangeEntry>,
                       capacity: Option<nat>, executionId: string)
    ensures var s := Run(legacyMigration, mongoDatabase, stored, capacity, executionId).stored;
      && |stored| <= |s|
      && s[..|stored|] == stored
      && forall j :: |stored| <= j < |s| ==>
           && s[j].executionId == executionId
           && s[j].state == Executed
           && s[j].executionMillis == UnknownExecutionMillis
           && !Tracked(s[..j], KeyOf(s[j]))
  {
    var s := Run(legacyMigration, mongoDatabase, stored, capacity, executionId).stored;
    if legacyMigration.Some? && ValidateLegacyMigration(legacyMigration).Returned? {
      var m := legacyMigration.value;
      var c := GetCollection(mongoDatabase, m.collectionName.value);
      var r := MapFrom(c, 0, m.mappingFields.value, executionId);
      if r.Ok? {
        SaveAllAppends(r.value, stored, capacity);
        forall j | |stored| <= j < |s|
          ensures s[j].executionId == executionId && s[j].state == Executed && s[j].executionMillis == UnknownExecutionMillis
        {
          ImportedEntry(c, m.mappingFields.value, executionId, s[j]);
        }
      }
    } else {
      assert s == stored;
    }
  }

  /**
   * Of two legacy documents with the same (changeId, author), untracked
   * before the run, the first in cursor order is the one imported, provided
   * the save loop reached it.
   */
  lemma RunSavesFirstOccurrence(m: LegacyMigration, mongoDatabase: Database, stored: seq<ChangeEntry>,
                                capacity: Option<nat>, executionId: string, k: nat)
    requires ValidateLegacyMigration(Some(m)).Returned?
    requires MapFrom(GetCollection(mongoDatabase, m.collectionName.value), 0, m.mappingFields.value, executionId).Ok?
    requires k < |MapFrom(GetCollection(mongoDatabase, m.collectionName.value), 0, m.mappingFields.value, executionId).value|
    ensures var changes := MapFrom(GetCollection(mongoDatabase, m.collectionName.value), 0, m.mappingFields.value, executionId).value;
      (&& k < SaveAll(changes, stored, capacity).migrated
       && !Tracked(stored, KeyOf(changes[k]))
       && forall j :: 0 <= j < k ==> KeyOf(changes[j]) != KeyOf(changes[k]))
      ==> changes[k] in Run(Some(m), mongoDatabase, stored, capacity, executionId).stored
  {
    var changes := MapFrom(GetCollection(mongoDatabase, m.collectionName.value), 0, m.mappingFields.value, executionId).value;
    SaveAllSavesFirstOccurrence(changes, stored, capacity, k);
  }

  /**
   * Importing again, under any execution id, after an import whose saves all
   * went through, saves nothing and ends the same way: each (changeId,
   * author) pair is saved at most once across runs.
   */
  lemma RerunChangesNothing(m: LegacyMigration, mongoDatabase: Database, stored: seq<ChangeEntry>, capacity: Option<nat>,
                            id1: string, id2: string)
    requires ValidateLegacyMigration(Some(m)).Returned?
    requires MapFrom(GetCollection(mongoDatabase, m.collectionName.value), 0, m.mappingFields.value, id1).Ok?
    requires SaveAll(MapFrom(GetCollection(mongoDatabase, m.collectionName.value), 0, m.mappingFields.value, id1).value,
                     stored, capacity).failure.None?
    ensures var first := Run(Some(m), mongoDatabase, stored, capacity, id1);
      Run(Some(m), mongoDatabase, first.stored, capacity, id2) == first
  {
    var c := GetCollection(mongoDatabase, m.collectionName.value);
    var fields := m.mappingFields.value;
    var changes1 := MapFrom(c, 0, fields, id1).value;
    var p1 := SaveAll(changes1, stored, capacity);
    SaveAllCounts(changes1, stored, capacity);
    SaveAllTracksAll(changes1, stored, capacity);
    MappingIgnoresExecutionId(c, 0, fields, id1, id2);
    var changes2 := MapFrom(c, 0, fields, id2).value;
    forall k | 0 <= k < |changes2|
      ensures Tracked(p1.stored, KeyOf(changes2[k]))
    {
      assert KeyOf(changes2[k]) == KeyOf(changes1[k]);
    }
    SaveAllWhenAllTracked(changes2, p1.stored, capacity);
  }

  // --------------------------------------------------------------- example

  /** The metadata of `{changeId: "c1", author: "a1", meta: "x"}`, with and without a metadata binding. */
  lemma MetadataExample()
    ensures var doc := map["changeId" := BsonString("c1"), "author" := BsonString("a1"), "meta" := BsonString("x")];
      && Metadata(doc, Some("meta")) == Ok(map[MigrationTypeKey := LegacyMigrationType, OriginalMetadataKey := "x"])
      && Metadata(doc, Some("other")) == Ok(map[MigrationTypeKey := LegacyMigrationType])
      && Metadata(doc, None) == Ok(map[MigrationTypeKey := LegacyMigrationType])
  {
  }
}
