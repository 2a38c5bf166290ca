/**
 * Persistence of the agent record: one storage slot under the key
 * "agentData", used only when a storage backend is present. The clock is
 * a parameter of `Save`; serialising a string-valued record to JSON and
 * parsing it back gives the same record, so the slot holds records
 * directly.
 */
module Storage {
  import opened Options
  import opened Schema
  import Validation

  /** The key the record is stored under. */
  const StorageKey := "agentData"

  /** `{ ...data, completedAt: now }`: the record with its completion time
      set to `now`, replacing any the caller supplied. */
  function Stamp(r: Record, now: string): (s: Record)
    ensures CompletedAt in s && s[CompletedAt] == now
    ensures s.Keys == r.Keys + {CompletedAt}
    ensures forall k :: k in r && k != CompletedAt ==> s[k] == r[k]
  {
    r[CompletedAt := now]
  }

  /** Stamping twice is stamping once with the later time. */
  lemma StampTwice(r: Record, t1: string, t2: string)
    ensures Stamp(Stamp(r, t1), t2) == Stamp(r, t2)
  {
  }

  /** Two saves of the same record differ at most in the completion time. */
  lemma StampOnlyChangesTime(r: Record, t1: string, t2: string)
    ensures Stamp(r, t1) - {CompletedAt} == Stamp(r, t2) - {CompletedAt}
    ensures Stamp(r, t1) - {CompletedAt} == r - {CompletedAt}
  {
  }

  /** Stamping does not change what the validator says. */
  lemma StampKeepsVerdict(r: Record, now: string)
    ensures Validation.ExpectedErrors(Stamp(r, now)) == Validation.ExpectedErrors(r)
  {
    Validation.UncheckedFieldsIgnored(r, CompletedAt, now);
  }

  /** The storage seen by the module: whether a backend exists, and the
      content of the slot named `StorageKey`. */
  class AgentStore {
    const backendPresent: bool
    var slot: Option<Record>

    /** A store over a backend (present or not) whose slot holds `stored`. */
    constructor (backendPresent: bool, stored: Option<Record>)
      ensures this.backendPresent == backendPresent && slot == stored
    {
      this.backendPresent := backendPresent;
      slot := stored;
    }

    /** `loadFromStorage()`: the stored record, or none when the slot is
        empty or there is no backend. */
    function Load(): (r: Option<Record>)
      reads this
      ensures backendPresent ==> r == slot
      ensures !backendPresent ==> r == None
    {
      if backendPresent then slot else None
    }

    /** `saveToStorage(data)`: stamps the record, writes it into the slot
        when there is a backend, and returns it in either case. */
    method Save(r: Record, now: string) returns (saved: Record)
      modifies this
      ensures saved == Stamp(r, now)
      ensures slot == if backendPresent then Some(saved) else old(slot)
      ensures Load() == if backendPresent then Some(saved) else None
    {
      saved := Stamp(r, now);
      if backendPresent {
        slot := Some(saved);
      }
    }

    /** `clearStorage()`: empties the slot when there is a backend. */
    method Clear()
      modifies this
      ensures slot == if backendPresent then None else old(slot)
      ensures Load() == None
    {
      if backendPresent {
        slot := None;
      }
    }
  }

  /** With a backend, loading right after a save gives back what the save
      returned: the record with its completion time. */
  method SaveThenLoad(stored: Option<Record>, r: Record, now: string) returns (saved: Record, loaded: Option<Record>)
    ensures loaded == Some(saved)
    ensures saved - {CompletedAt} == r - {CompletedAt}
    ensures CompletedAt in saved && saved[CompletedAt] == now
  {
    var store := new AgentStore(true, stored);
    saved := store.Save(r, now);
    loaded := store.Load();
  }

  /** With a backend, loading after a clear, or from an empty slot, gives none. */
  method ClearThenLoad(stored: Option<Record>) returns (afterClear: Option<Record>, fromEmpty: Option<Record>)
    ensures afterClear == None && fromEmpty == None
  {
    var store := new AgentStore(true, stored);
    store.Clear();
    afterClear := store.Load();
    var empty := new AgentStore(true, None);
    fromEmpty := empty.Load();
  }

  /** Without a backend, nothing is ever stored and nothing is ever loaded,
      but a save still returns the stamped record. */
  method WithoutBackend(r: Record, now: string) returns (saved: Record, loaded: Option<Record>)
    ensures saved == Stamp(r, now)
    ensures loaded == None
  {
    var store := new AgentStore(false, None);
    saved := store.Save(r, now);
    store.Clear();
    loaded := store.Load();
  }
}
