/** The bounded journal of namespace mutations: core/include/pathguard/mutation_journal.h. */
module MutationJournal {
  import opened Wrappers

  /** A journal of bounded capacity with one entry more, when there is room. */
  function Pushed<Entry>(journal: seq<Entry>, entry: Entry, capacity: nat): Option<seq<Entry>> {
    if |journal| < capacity then Some(journal + [entry]) else None
  }

  class Journal<Entry(0)> {
    const entries: array<Entry>
    var size: nat

    ghost predicate Valid()
      reads this
    {
      size <= entries.Length
    }

    /** The recorded entries, oldest first. */
    ghost function Contents(): seq<Entry>
      requires Valid()
      reads this, entries
    {
      entries[..size]
    }

    constructor (capacity: nat)
      ensures Valid() && fresh(entries) && entries.Length == capacity
      ensures Contents() == []
    {
      entries := new Entry[capacity];
      size := 0;
    }

    method Push(entry: Entry) returns (ok: bool)
      requires Valid()
      modifies this`size, entries
      ensures Valid()
      ensures ok == Pushed(old(Contents()), entry, entries.Length).Some?
      ensures Contents() == if ok then Pushed(old(Contents()), entry, entries.Length).value else old(Contents())
    {
      if size >= entries.Length {
        return false;
      }
      entries[size] := entry;
      size := size + 1;
      return true;
    }

    /** Removes the newest entry, so that a Pop undoes a successful Push. */
    method Pop() returns (ok: bool, entry: Entry)
      requires Valid()
      modifies this`size
      ensures Valid()
      ensures ok <==> old(Contents()) != []
      ensures ok ==> old(Contents()) == Contents() + [entry]
      ensures !ok ==> Contents() == old(Contents())
    {
      if size == 0 {
        entry := *;
        return false, entry;
      }
      size := size - 1;
      return true, entries[size];
    }

    method UpdateAt(index: nat, entry: Entry) returns (ok: bool)
      requires Valid()
      modifies entries
      ensures Valid()
      ensures ok <==> index < |old(Contents())|
      ensures Contents() == if ok then old(Contents())[index := entry] else old(Contents())
    {
      if index >= size {
        return false;
      }
      entries[index] := entry;
      return true;
    }

    method Clear()
      requires Valid()
      modifies this`size
      ensures Valid() && Contents() == []
    {
      size := 0;
    }
  }
}
