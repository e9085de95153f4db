/** The per-run key-value store of memory/session_memory.py. */
module Memory {
  import opened Artifacts

  class SessionMemory {
    /** The `_store` dictionary. */
    var store: map<string, Value>

    /** A fresh memory is empty. */
    constructor ()
      ensures store == map[]
      ensures forall key, default :: Get(key, default) == default
    {
      store := map[];
    }

    /** `set(key, value)`: overwrites silently and touches no other key. */
    method Set(key: string, value: Value)
      modifies this
      ensures store == old(store)[key := value]
      ensures forall default :: Get(key, default) == value
      ensures forall k, default :: k != key ==> Get(k, default) == old(Get(k, default))
    {
      store := store[key := value];
    }

    /** `get(key, default)`: the stored value, or `default` when the key is absent. */
    function Get(key: string, default: Value): (v: Value)
      reads this
      ensures key in store ==> v == store[key]
      ensures key !in store ==> v == default
    {
      if key in store then store[key] else default
    }

    /** `to_dict()`: a copy of the whole store. */
    method ToDict() returns (snapshot: map<string, Value>)
      ensures snapshot == store
      ensures forall k, default :: (if k in snapshot then snapshot[k] else default) == Get(k, default)
    {
      snapshot := store;
    }
  }

  /** A snapshot taken before a `set` still shows the state it was taken in. */
  method SnapshotSurvivesSet(memory: SessionMemory, key: string, value: Value) returns (before: map<string, Value>)
    modifies memory
    ensures before == old(memory.store)
    ensures memory.store == old(memory.store)[key := value]
  {
    before := memory.ToDict();
    memory.Set(key, value);
  }
}
