/** The change entry: the durable record that one change set was executed. */
module ChangeEntries {
  import opened Nullable
  import opened Dates

  /** The states of a change entry that this model distinguishes. */
  datatype ChangeState = Executed | RolledBack

  datatype ChangeEntry = ChangeEntry(
    executionId: string,
    changeId: Option<string>,
    author: Option<string>,
    timestamp: Option<Instant>,
    state: ChangeState,
    changeLogClass: Option<string>,
    changeSetMethod: Option<string>,
    executionMillis: int,
    metadata: map<string, string>)

  /** The natural key of a change entry: its change id together with its author. */
  datatype Key = Key(changeId: Option<string>, author: Option<string>)

  function KeyOf(change: ChangeEntry): Key {
    Key(change.changeId, change.author)
  }

  /** Some stored entry has key `k`. */
  predicate Tracked(entries: seq<ChangeEntry>, k: Key) {
    exists i :: 0 <= i < |entries| && KeyOf(entries[i]) == k
  }

  /** No two stored entries share a key. */
  predicate NoDuplicateKeys(entries: seq<ChangeEntry>) {
    forall i, j :: 0 <= i < j < |entries| ==> KeyOf(entries[i]) != KeyOf(entries[j])
  }
}
