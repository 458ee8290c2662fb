/**
 * `inMemoryAdapter` of packages/core/src/adapters.ts: a storage adapter over a `Map`
 * that `set` and `remove` change in place. The engine runs against one of these, and
 * out-of-band tampering is an outside call to `Set` on the same object.
 */
module Storage {
  import opened Wrappers

  class MemoryStore {
    /** The backing `Map<string, string>`. */
    var store: map<string, string>

    /** A fresh adapter starts with an empty map. */
    constructor ()
      ensures store == map[]
    {
      store := map[];
    }

    /** `get(key)`: the stored value, or absent (`null`) for a key never set or removed. */
    function Get(key: string): (r: Option<string>)
      reads this
      ensures r.Some? <==> key in store
      ensures r.Some? ==> r.value == store[key]
    {
      if key in store then Some(store[key]) else None
    }

    /** `set(key, value)`: afterwards `get(key)` returns `value`; every other key keeps its value. */
    method Set(key: string, value: string)
      modifies this
      ensures store == old(store)[key := value]
      ensures Get(key) == Some(value)
      ensures forall k :: k != key ==> Get(k) == old(Get(k))
    {
      store := store[key := value];
    }

    /** `remove(key)`: afterwards `get(key)` is absent; every other key keeps its value. */
    method Remove(key: string)
      modifies this
      ensures store == old(store) - {key}
      ensures Get(key) == None
      ensures forall k :: k != key ==> Get(k) == old(Get(k))
      ensures key !in old(store) ==> store == old(store)
    {
      store := store - {key};
    }
  }
}
