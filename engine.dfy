/**
 * `createAchievements` (packages/core/src/engine.ts) as an object: the closure's `let`
 * and `const` bindings are the fields, the returned functions are the methods, and each
 * method is proved to make exactly the transition module EngineSpec describes.
 *
 * The calls the engine makes into code it does not own (`onTamperDetected`, `onUnlock`,
 * each listener) are recorded in the ghost field `events`; the model does not call them.
 */
module Engine {
  import opened Wrappers
  import opened EngineSpec
  import EngineProps
  import Storage

  class AchievementEngine {
    const defs: seq<AchievementDef>
    const hash: string -> string
    const codec: Codec
    const storage: Storage.MemoryStore

    var unlockedIds: set<Id>
    var progress: map<Id, int>
    var items: map<Id, set<string>>
    var runtimeMaxProgress: map<Id, int>
    var toastQueue: seq<Id>
    var listeners: seq<ListenerId>
    ghost var events: seq<Event>

    function Cfg(): Config
      reads this
    {
      Config(defs, hash, codec)
    }

    function Memory(): Mem
      reads this
    {
      Mem(unlockedIds, progress, items, runtimeMaxProgress, toastQueue)
    }

    /** The world this object and its storage adapter represent. */
    ghost function Abs(): World
      reads this, storage
    {
      World(Memory(), storage.store, listeners, events)
    }

    ghost predicate Valid()
      reads this, storage
    {
      Inv(Abs())
    }

    /** `createAchievements({ definitions, storage, hash })` over the storage's current contents. */
    constructor (defs: seq<AchievementDef>, hash: string -> string, codec: Codec, storage: Storage.MemoryStore)
      modifies storage
      ensures this.storage == storage && Cfg() == Config(defs, hash, codec)
      ensures Abs() == Create(Config(defs, hash, codec), old(storage.store))
      ensures Valid()
    {
      this.defs := defs;
      this.hash := hash;
      this.codec := codec;
      this.storage := storage;
      unlockedIds := {};
      progress := map[];
      items := map[];
      runtimeMaxProgress := map[];
      toastQueue := [];
      listeners := [];
      events := [];
      new;
      var u, reportU := HydrateField(KEY_UNLOCKED, codec.parseUnlocked, {});
      var p, reportP := HydrateField(KEY_PROGRESS, codec.parseProgress, map[]);
      var i, reportI := HydrateField(KEY_ITEMS, codec.parseItems, map[]);
      unlockedIds := u;
      progress := p;
      items := i;
      events := reportU + reportP + reportI;
      EngineProps.CreateEstablishesInv(Cfg(), old(storage.store));
    }

    /** `verifyStoredIntegrity(key)`, read through the storage adapter. */
    function VerifyStoredIntegrity(key: string): (ok: bool)
      reads this, storage
      ensures ok == EngineSpec.VerifyStoredIntegrity(storage.store, hash, key)
    {
      match storage.Get(HashKey(key))
      case None => true
      case Some(storedHash) =>
        match storage.Get(key)
        case None => false
        case Some(data) => storedHash == hash(data)
    }

    method PersistData(key: string, value: string)
      modifies storage
      ensures storage.store == EngineSpec.PersistData(old(storage.store), hash, key, value)
    {
      storage.Set(key, value);
      storage.Set(HashKey(key), hash(value));
    }

    method RemoveData(key: string)
      modifies storage
      ensures storage.store == EngineSpec.RemoveData(old(storage.store), key)
    {
      storage.Remove(key);
      storage.Remove(HashKey(key));
    }

    /** `hydrateField(key, parse, fallback)`; `report` is the `onTamperDetected` call it makes, if any. */
    method HydrateField<T>(key: string, parse: string -> Option<T>, fallback: T) returns (value: T, ghost report: seq<Event>)
      modifies storage
      ensures Loaded(value, storage.store, report) == EngineSpec.HydrateField(old(storage.store), hash, key, parse, fallback)
    {
      var raw := storage.Get(key);
      if raw.None? || raw.value == "" {
        return fallback, [];
      }
      if !VerifyStoredIntegrity(key) {
        report := [TamperDetected(key)];
        RemoveData(key);
        return fallback, report;
      }
      value := parse(raw.value).GetOr(fallback);
      report := [];
    }

    /** `getState()`: a copy of the unlocked set, the progress record and the toast queue. */
    function GetState(): (s: Snapshot)
      reads this
      ensures s == EngineSpec.GetState(Memory())
      ensures s.unlockedIds == unlockedIds && s.progress == progress && s.toastQueue == toastQueue
    {
      Snapshot(unlockedIds, progress, toastQueue)
    }

    /** `notify()`: one snapshot, delivered to each listener in registration order. */
    method Notify()
      modifies this
      ensures Abs() == EngineSpec.Notify(old(Abs()))
    {
      var state := GetState();
      ghost var sent: seq<Event> := [];
      for i := 0 to |listeners|
        invariant sent == Broadcast(listeners[..i], state)
      {
        sent := sent + [Delivered(listeners[i], state)];
      }
      assert listeners[..|listeners|] == listeners;
      events := events + sent;
    }

    method Unlock(id: Id)
      requires Valid()
      modifies this, storage
      ensures Abs() == EngineSpec.Unlock(Cfg(), old(Abs()), id)
      ensures Valid()
    {
      EngineProps.UnlockKeepsInv(Cfg(), Abs(), id);
      if id in unlockedIds {
        return;
      }
      if !VerifyStoredIntegrity(KEY_UNLOCKED) {
        events := events + [TamperDetected(KEY_UNLOCKED)];
      }
      unlockedIds := unlockedIds + {id};
      toastQueue := toastQueue + [id];
      PersistData(KEY_UNLOCKED, codec.serUnlocked(unlockedIds));
      events := events + [UnlockFired(id)];
      Notify();
    }

    method SetProgress(id: Id, value: int)
      requires Valid()
      modifies this, storage
      ensures Abs() == EngineSpec.SetProgress(Cfg(), old(Abs()), id, value)
      ensures Valid()
    {
      EngineProps.SetProgressKeepsInv(Cfg(), Abs(), id, value);
      var def := FindDef(defs, id);
      if def.None? {
        return;
      }
      var effectiveMax := if id in runtimeMaxProgress then Some(runtimeMaxProgress[id]) else def.value.maxProgress;
      if effectiveMax.None? {
        return;
      }
      var max := effectiveMax.value;
      var clamped := Clamp(value, max);
      progress := progress[id := clamped];
      PersistData(KEY_PROGRESS, codec.serProgress(progress));
      if clamped >= max && id !in unlockedIds {
        Unlock(id);
        return;
      }
      Notify();
    }

    /** The first half of `collectItem`: store the grown set and persist the items. */
    method RecordItems(id: Id, collected: set<string>)
      requires Valid()
      modifies this, storage
      ensures Abs() == EngineSpec.RecordItems(Cfg(), old(Abs()), id, collected)
      ensures Valid()
    {
      items := items[id := collected];
      PersistData(KEY_ITEMS, codec.serItems(items));
    }

    method CollectItem(id: Id, item: string)
      requires Valid()
      modifies this, storage
      ensures Abs() == EngineSpec.CollectItem(Cfg(), old(Abs()), id, item)
      ensures Valid()
    {
      var before := if id in items then items[id] else {};
      if item in before {
        return;
      }
      var collected := before + {item};
      EngineProps.CollectItemSteps(Cfg(), Abs(), id, item);
      RecordItems(id, collected);
      SetProgress(id, |collected|);
    }

    method SetMaxProgress(id: Id, max: int)
      requires Valid()
      modifies this, storage
      ensures Abs() == EngineSpec.SetMaxProgress(Cfg(), old(Abs()), id, max)
      ensures Valid()
    {
      runtimeMaxProgress := runtimeMaxProgress[id := max];
      SetProgress(id, GetProgress(id));
    }

    method IncrementProgress(id: Id)
      requires Valid()
      modifies this, storage
      ensures Abs() == EngineSpec.IncrementProgress(Cfg(), old(Abs()), id)
      ensures Valid()
    {
      SetProgress(id, GetProgress(id) + 1);
    }

    method DismissToast(id: Id)
      requires Valid()
      modifies this
      ensures Abs() == EngineSpec.DismissToast(old(Abs()), id)
      ensures Valid()
    {
      EngineProps.DismissToastKeepsInv(Abs(), id);
      var idx := IndexOf(toastQueue, id);
      if idx != -1 {
        toastQueue := toastQueue[..idx] + toastQueue[idx + 1..];
      }
      Notify();
    }

    method Reset()
      requires Valid()
      modifies this, storage
      ensures Abs() == EngineSpec.Reset(old(Abs()))
      ensures Valid()
    {
      unlockedIds := {};
      progress := map[];
      items := map[];
      toastQueue := [];
      RemoveData(KEY_UNLOCKED);
      RemoveData(KEY_PROGRESS);
      RemoveData(KEY_ITEMS);
      Notify();
    }

    function IsUnlocked(id: Id): (b: bool)
      reads this
      ensures b <==> id in GetState().unlockedIds
    {
      id in unlockedIds
    }

    function GetProgress(id: Id): (r: int)
      reads this
      ensures r == EngineSpec.GetProgress(Memory(), id)
      ensures id !in GetState().progress ==> r == 0
    {
      if id in progress then progress[id] else 0
    }

    function GetItems(id: Id): (r: set<string>)
      reads this
      ensures r == EngineSpec.GetItems(Memory(), id)
      ensures id !in items ==> r == {}
    {
      if id in items then items[id] else {}
    }

    function GetUnlocked(): (r: set<Id>)
      reads this
      ensures r == GetState().unlockedIds
    {
      unlockedIds
    }

    function GetUnlockedCount(): (n: nat)
      reads this
      ensures n == |GetUnlocked()|
    {
      |unlockedIds|
    }

    function GetDefinition(id: Id): (r: Option<AchievementDef>)
      reads this
      ensures r.Some? ==> r.value in defs && r.value.id == id
      ensures r.Some? ==> exists i :: 0 <= i < |defs| && defs[i] == r.value && forall j :: 0 <= j < i ==> defs[j].id != id
      ensures r.None? <==> forall d :: d in defs ==> d.id != id
    {
      FindDef(defs, id)
    }

    /** `subscribe(listener)`. */
    method Subscribe(l: ListenerId)
      requires Valid()
      modifies this
      ensures Abs() == EngineSpec.Subscribe(old(Abs()), l)
      ensures Valid()
    {
      if l !in listeners {
        listeners := listeners + [l];
      }
    }

    /** The unsubscribe function `subscribe` returns. */
    method Unsubscribe(l: ListenerId)
      requires Valid()
      modifies this
      ensures Abs() == EngineSpec.Unsubscribe(old(Abs()), l)
      ensures Valid()
    {
      var idx := IndexOf(listeners, l);
      if idx != -1 {
        listeners := listeners[..idx] + listeners[idx + 1..];
      }
    }
  }
}
