/**
 * An in-memory stand-in for the change-entry service the import writes to.
 * Its persistence is not part of this model; what the import relies on is
 * that `IsAlreadyExecuted` reports whether some stored entry has the given
 * change id and author, and that `Save` appends one entry or throws.
 */
module EntryService {
  import opened Nullable
  import opened Exceptions
  import opened ChangeEntries

  /**
   * The store refuses further writes once it holds `capacity` entries
   * (no capacity: it never refuses). This is the model's deterministic
   * stand-in for any persistence failure.
   */
  predicate Full(entries: seq<ChangeEntry>, capacity: Option<nat>) {
    capacity.Some? && |entries| >= capacity.value
  }

  class ChangeEntryService {
    var entries: seq<ChangeEntry>
    const capacity: Option<nat>

    constructor (initial: seq<ChangeEntry>, capacity: Option<nat>)
      ensures entries == initial && this.capacity == capacity
    {
      entries := initial;
      this.capacity := capacity;
    }

    method IsAlreadyExecuted(changeId: Option<string>, author: Option<string>) returns (executed: bool)
      ensures executed <==> exists i :: 0 <= i < |entries| && entries[i].changeId == changeId && entries[i].author == author
    {
      executed := Tracked(entries, Key(changeId, author));
    }

    method Save(change: ChangeEntry) returns (r: Outcome)
      modifies this
      ensures r == if Full(old(entries), capacity) then Threw(ForeignException(StoreFailure)) else Returned
      ensures entries == if r.Returned? then old(entries) + [change] else old(entries)
    {
      if Full(entries, capacity) {
        r := Threw(ForeignException(StoreFailure));
      } else {
        entries := entries + [change];
        r := Returned;
      }
    }
  }
}
