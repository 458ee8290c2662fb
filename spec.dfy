/**
 * The achievement engine of packages/core/src/engine.ts as a pure state machine.
 *
 * A `World` is everything `createAchievements` closes over (the five in-memory fields,
 * the listener set), the storage adapter's contents, and a log of the calls the engine
 * makes into code it does not own: `onTamperDetected`, `onUnlock` and each listener.
 * Every public operation is a function from the old world to the new one; the class in
 * engine.dfy is proved to perform exactly these transitions in place.
 */
module EngineSpec {
  import opened Wrappers

  type Id = string

  /** A listener is identified by the function object subscribed (JavaScript's `Set` compares by identity). */
  type ListenerId = nat

  const KEY_UNLOCKED: string := "unlocked"
  const KEY_PROGRESS: string := "progress"
  const KEY_ITEMS: string := "items"
  const HASH_SUFFIX: string := ":hash"

  /** The companion key that holds the digest of `key`'s value. */
  function HashKey(key: string): string {
    key + HASH_SUFFIX
  }

  /** Two fields' four keys are pairwise different. */
  predicate Apart(a: string, b: string) {
    a != b && a != HashKey(b) && HashKey(a) != b && HashKey(a) != HashKey(b)
  }

  /** The six persisted keys are pairwise different. */
  lemma KeysDistinct()
    ensures Apart(KEY_UNLOCKED, KEY_PROGRESS) && Apart(KEY_PROGRESS, KEY_UNLOCKED)
    ensures Apart(KEY_UNLOCKED, KEY_ITEMS) && Apart(KEY_ITEMS, KEY_UNLOCKED)
    ensures Apart(KEY_PROGRESS, KEY_ITEMS) && Apart(KEY_ITEMS, KEY_PROGRESS)
  {
    assert KEY_UNLOCKED[0] == 'u' && KEY_PROGRESS[0] == 'p' && KEY_ITEMS[0] == 'i';
    assert HashKey(KEY_UNLOCKED)[0] == 'u' && HashKey(KEY_PROGRESS)[0] == 'p' && HashKey(KEY_ITEMS)[0] == 'i';
    assert |HashKey(KEY_UNLOCKED)| == 13 && |HashKey(KEY_PROGRESS)| == 13 && |HashKey(KEY_ITEMS)| == 10;
  }

  // ---------------------------------------------------------------------------
  // Data model (packages/core/src/types.ts)
  // ---------------------------------------------------------------------------

  /** `AchievementDef`: a present `maxProgress` makes the achievement progress-tracked. */
  datatype AchievementDef = AchievementDef(
    id: Id,
    title: string,  // `label` (a reserved word in Dafny)
    description: string,
    hidden: bool,
    hint: bool,
    maxProgress: Option<int>)

  /**
   * `JSON.stringify` / `JSON.parse` for each persisted field, kept abstract. A parse
   * that would throw is `None`.
   */
  datatype Codec = Codec(
    serUnlocked: set<Id> -> string,
    parseUnlocked: string -> Option<set<Id>>,
    serProgress: map<Id, int> -> string,
    parseProgress: string -> Option<map<Id, int>>,
    serItems: map<Id, set<string>> -> string,
    parseItems: string -> Option<map<Id, set<string>>>)

  /**
   * What JSON guarantees and the round-trip properties rely on: parsing what was
   * serialised gives it back, and a serialised value is never the empty string
   * (it is at least `[]` or `{}`).
   */
  ghost predicate Lawful(codec: Codec) {
    && (forall u :: codec.parseUnlocked(codec.serUnlocked(u)) == Some(u) && codec.serUnlocked(u) != "")
    && (forall p :: codec.parseProgress(codec.serProgress(p)) == Some(p) && codec.serProgress(p) != "")
    && (forall i :: codec.parseItems(codec.serItems(i)) == Some(i) && codec.serItems(i) != "")
  }

  /** What `createAchievements` is given: the definitions, the hash adapter and the JSON codec. */
  datatype Config = Config(defs: seq<AchievementDef>, hash: string -> string, codec: Codec)

  /** The engine's in-memory state; `runtimeMax` is `runtimeMaxProgress`, `toasts` is `toastQueue`. */
  datatype Mem = Mem(
    unlocked: set<Id>,
    progress: map<Id, int>,
    items: map<Id, set<string>>,
    runtimeMax: map<Id, int>,
    toasts: seq<Id>)

  /** `AchievementState`, the snapshot `getState` builds and listeners receive. It has no items. */
  datatype Snapshot = Snapshot(unlockedIds: set<Id>, progress: map<Id, int>, toastQueue: seq<Id>)

  /** A call the engine makes into its collaborators. */
  datatype Event =
    | TamperDetected(key: string)
    | UnlockFired(id: Id)
    | Delivered(listener: ListenerId, state: Snapshot)

  datatype World = World(
    mem: Mem,
    store: map<string, string>,
    listeners: seq<ListenerId>,
    events: seq<Event>)

  // ---------------------------------------------------------------------------
  // Sequences
  // ---------------------------------------------------------------------------

  predicate NoDup<T(==)>(s: seq<T>) {
    forall i, j :: 0 <= i < j < |s| ==> s[i] != s[j]
  }

  /** `Array.prototype.indexOf`: the first position of `x`, or -1. */
  function IndexOf<T(==)>(s: seq<T>, x: T): (i: int)
    ensures -1 <= i < |s|
    ensures i == -1 <==> x !in s
    ensures 0 <= i ==> s[i] == x && x !in s[..i]
  {
    if s == [] then -1
    else if s[0] == x then 0
    else
      var j := IndexOf(s[1..], x);
      assert j >= 0 ==> s[..j + 1] == [s[0]] + s[1..][..j];
      if j == -1 then -1 else j + 1
  }

  /** `splice(indexOf(x), 1)` when `x` is present: the first `x` removed, the rest in order. */
  function RemoveFirst<T(==)>(s: seq<T>, x: T): seq<T> {
    var i := IndexOf(s, x);
    if i == -1 then s else s[..i] + s[i + 1..]
  }

  /**
   * Removing the first `x` keeps every other element and adds none; in a duplicate-free
   * sequence it removes every `x` and stays duplicate-free.
   */
  lemma RemoveFirstFacts<T>(s: seq<T>, x: T)
    ensures forall y :: y in RemoveFirst(s, x) ==> y in s
    ensures forall y :: y in s && y != x ==> y in RemoveFirst(s, x)
    ensures NoDup(s) ==> NoDup(RemoveFirst(s, x)) && x !in RemoveFirst(s, x)
  {
    var i := IndexOf(s, x);
    if i != -1 {
      var r := s[..i] + s[i + 1..];
      assert forall k :: 0 <= k < |r| ==> r[k] == if k < i then s[k] else s[k + 1];
      forall y | y in s && y != x ensures y in r {
        var k :| 0 <= k < |s| && s[k] == y;
        if k < i { assert r[k] == y; } else { assert r[k - 1] == y; }
      }
    }
  }

  // ---------------------------------------------------------------------------
  // Queries (engine.ts: getState, isUnlocked, getProgress, getItems, getDefinition)
  // ---------------------------------------------------------------------------

  function GetState(m: Mem): Snapshot {
    Snapshot(m.unlocked, m.progress, m.toasts)
  }

  /** `progress[id] ?? 0`. */
  function GetProgress(m: Mem, id: Id): int {
    if id in m.progress then m.progress[id] else 0
  }

  /** `new Set(items[id])`: the collected items, empty when none were collected. */
  function GetItems(m: Mem, id: Id): set<string> {
    if id in m.items then m.items[id] else {}
  }

  /** The position of the first definition with this id, or -1. */
  function FindIndex(defs: seq<AchievementDef>, id: Id): (i: int)
    ensures -1 <= i < |defs|
    ensures i == -1 <==> forall d :: d in defs ==> d.id != id
    ensures 0 <= i ==> defs[i].id == id && forall j :: 0 <= j < i ==> defs[j].id != id
  {
    if defs == [] then -1
    else if defs[0].id == id then 0
    else
      var j := FindIndex(defs[1..], id);
      assert forall d :: d in defs ==> d == defs[0] || d in defs[1..];
      assert forall k :: 0 < k < |defs| ==> defs[k] == defs[1..][k - 1];
      if j == -1 then -1 else j + 1
  }

  /** `definitions.find((d) => d.id === id)`: the first definition with this id, if any. */
  function FindDef(defs: seq<AchievementDef>, id: Id): (r: Option<AchievementDef>)
    ensures r.None? <==> forall d :: d in defs ==> d.id != id
    ensures r.Some? ==> r.value.id == id && r.value == defs[FindIndex(defs, id)]
  {
    var i := FindIndex(defs, id);
    if i == -1 then None else Some(defs[i])
  }

  /**
   * `runtimeMaxProgress[id] ?? def.maxProgress`, for a defined id: the runtime override
   * when there is one, else the definition's static maximum. No maximum at all for an
   * id outside the definitions, whatever overrides exist.
   */
  function EffectiveMax(defs: seq<AchievementDef>, runtimeMax: map<Id, int>, id: Id): (r: Option<int>)
    ensures FindDef(defs, id).None? ==> r.None?
    ensures FindDef(defs, id).Some? && id in runtimeMax ==> r == Some(runtimeMax[id])
    ensures FindDef(defs, id).Some? && id !in runtimeMax ==> r == FindDef(defs, id).value.maxProgress
  {
    match FindDef(defs, id)
    case None => None
    case Some(d) => if id in runtimeMax then Some(runtimeMax[id]) else d.maxProgress
  }

  /** `Math.max(0, Math.min(value, max))`. */
  function Clamp(value: int, max: int): (r: int)
    ensures 0 <= r
    ensures 0 <= max ==> r <= max
    ensures 0 <= value <= max ==> r == value
    ensures 0 <= max < value ==> r == max
    ensures value < 0 || max < 0 ==> r == 0
  {
    var lower := if value < max then value else max;
    if lower < 0 then 0 else lower
  }

  // ---------------------------------------------------------------------------
  // Storage protocol (engine.ts: verifyStoredIntegrity, persistData, removeData)
  // ---------------------------------------------------------------------------

  /**
   * `verifyStoredIntegrity(key)`: no stored hash means trusted; a hash without data
   * fails; otherwise the stored hash must equal the hash of the stored data.
   */
  predicate VerifyStoredIntegrity(store: map<string, string>, hash: string -> string, key: string) {
    if HashKey(key) !in store then true
    else if key !in store then false
    else store[HashKey(key)] == hash(store[key])
  }

  /** `key` holds `data` and its companion holds `hash(data)`. */
  predicate Persisted(store: map<string, string>, hash: string -> string, key: string, data: string) {
    key in store && store[key] == data && HashKey(key) in store && store[HashKey(key)] == hash(data)
  }

  /** Neither `key` nor its companion is stored. */
  predicate Cleared(store: map<string, string>, key: string) {
    key !in store && HashKey(key) !in store
  }

  /** `persistData(key, value)`: the value and its hash, written together. */
  function PersistData(store: map<string, string>, hash: string -> string, key: string, value: string): (r: map<string, string>)
    ensures Persisted(r, hash, key, value)
    ensures VerifyStoredIntegrity(r, hash, key)
  {
    assert key != HashKey(key) by { assert |HashKey(key)| == |key| + 5; }
    store[key := value][HashKey(key) := hash(value)]
  }

  /** `persistData` touches only the key and its companion. */
  lemma PersistDataFrame(store: map<string, string>, hash: string -> string, key: string, value: string)
    ensures var r := PersistData(store, hash, key, value);
      forall k :: k != key && k != HashKey(key) ==> (k in r <==> k in store) && (k in r ==> r[k] == store[k])
  {
  }

  /** `removeData(key)`: the value and its hash, removed together. */
  function RemoveData(store: map<string, string>, key: string): (r: map<string, string>)
    ensures Cleared(r, key)
  {
    store - {key, HashKey(key)}
  }

  /** `removeData` touches only the key and its companion. */
  lemma RemoveDataFrame(store: map<string, string>, key: string)
    ensures var r := RemoveData(store, key);
      forall k :: k != key && k != HashKey(key) ==> (k in r <==> k in store) && (k in r ==> r[k] == store[k])
  {
  }

  // ---------------------------------------------------------------------------
  // Hydration (engine.ts: hydrateField and the three calls after it)
  // ---------------------------------------------------------------------------

  /** A hydrated field, the store after hydrating it, and the tamper report it made (if any). */
  datatype Loaded<T> = Loaded(value: T, store: map<string, string>, events: seq<Event>)

  /**
   * `hydrateField(key, parse, fallback)`. Absent or empty data (`!raw`) gives the fallback
   * untouched, so a hash without data is not reported here. Data failing verification
   * reports `key`, loses both keys and gives the fallback. Otherwise the data is parsed,
   * and a parse failure silently gives the fallback.
   */
  function HydrateField<T>(store: map<string, string>, hash: string -> string, key: string,
                           parse: string -> Option<T>, fallback: T): (r: Loaded<T>)
    ensures key !in store || store[key] == "" ==> r == Loaded(fallback, store, [])
    ensures key in store && store[key] != "" && HashKey(key) !in store ==>
              r == Loaded(parse(store[key]).GetOr(fallback), store, [])
    ensures key in store && store[key] != "" && HashKey(key) in store && store[HashKey(key)] != hash(store[key]) ==>
              r == Loaded(fallback, RemoveData(store, key), [TamperDetected(key)])
    ensures key in store && VerifyStoredIntegrity(store, hash, key) && parse(store[key]).None? ==>
              r == Loaded(fallback, store, [])
    ensures key in store && store[key] != "" && VerifyStoredIntegrity(store, hash, key) ==>
              r == Loaded(parse(store[key]).GetOr(fallback), store, [])
  {
    if key !in store || store[key] == "" then Loaded(fallback, store, [])
    else if !VerifyStoredIntegrity(store, hash, key) then Loaded(fallback, RemoveData(store, key), [TamperDetected(key)])
    else Loaded(parse(store[key]).GetOr(fallback), store, [])
  }

  /** `createAchievements`: the three fields hydrated in order, no listeners, an empty toast queue. */
  function Create(c: Config, store: map<string, string>): World {
    var u := HydrateField(store, c.hash, KEY_UNLOCKED, c.codec.parseUnlocked, {});
    var p := HydrateField(u.store, c.hash, KEY_PROGRESS, c.codec.parseProgress, map[]);
    var i := HydrateField(p.store, c.hash, KEY_ITEMS, c.codec.parseItems, map[]);
    World(Mem(u.value, p.value, i.value, map[], []), i.store, [], u.events + p.events + i.events)
  }

  // ---------------------------------------------------------------------------
  // Notification (engine.ts: notify, subscribe)
  // ---------------------------------------------------------------------------

  /** One delivery of `state` to each listener, in registration order. */
  function Broadcast(listeners: seq<ListenerId>, state: Snapshot): (r: seq<Event>)
    ensures |r| == |listeners|
    ensures forall k :: 0 <= k < |r| ==> r[k] == Delivered(listeners[k], state)
  {
    seq(|listeners|, k requires 0 <= k < |listeners| => Delivered(listeners[k], state))
  }

  /** `notify()`: a fresh snapshot of the current state, delivered to every listener. */
  function Notify(w: World): World {
    w.(events := w.events + Broadcast(w.listeners, GetState(w.mem)))
  }

  /** `subscribe(listener)`: `Set.add`, which keeps a listener already present where it is. */
  function Subscribe(w: World, l: ListenerId): World
  {
    if l in w.listeners then w else w.(listeners := w.listeners + [l])
  }

  /** The function `subscribe` returns: `Set.delete`. */
  function Unsubscribe(w: World, l: ListenerId): World
  {
    w.(listeners := RemoveFirst(w.listeners, l))
  }

  // ---------------------------------------------------------------------------
  // Mutations (engine.ts: unlock, setProgress, collectItem, setMaxProgress,
  // incrementProgress, dismissToast, reset)
  // ---------------------------------------------------------------------------

  /**
   * `unlock(id)`: nothing at all for an unlocked id. Otherwise a failed integrity check
   * of the stored unlocked set is reported first, then the id is added and queued, the
   * unlocked set is persisted over whatever storage held, `onUnlock` fires, and
   * listeners are notified.
   */
  function Unlock(c: Config, w: World, id: Id): World
  {
    if id in w.mem.unlocked then w
    else
      var tamper := if VerifyStoredIntegrity(w.store, c.hash, KEY_UNLOCKED) then [] else [TamperDetected(KEY_UNLOCKED)];
      var m := w.mem.(unlocked := w.mem.unlocked + {id}, toasts := w.mem.toasts + [id]);
      var store := PersistData(w.store, c.hash, KEY_UNLOCKED, c.codec.serUnlocked(m.unlocked));
      Notify(w.(mem := m, store := store, events := w.events + tamper + [UnlockFired(id)]))
  }

  /** `progress[id] = value` followed by `persistProgress()`. */
  function RecordProgress(c: Config, w: World, id: Id, value: int): World
  {
    var progress := w.mem.progress[id := value];
    w.(mem := w.mem.(progress := progress), store := PersistData(w.store, c.hash, KEY_PROGRESS, c.codec.serProgress(progress)))
  }

  /**
   * `setProgress(id, value)`: nothing at all without an effective maximum. Otherwise the
   * clamped value is stored and persisted, and the id is unlocked when the value reaches
   * the maximum; exactly one notification either way.
   */
  function SetProgress(c: Config, w: World, id: Id, value: int): World
  {
    match EffectiveMax(c.defs, w.mem.runtimeMax, id)
    case None => w
    case Some(max) =>
      var clamped := Clamp(value, max);
      var w1 := RecordProgress(c, w, id, clamped);
      if clamped >= max && id !in w1.mem.unlocked then Unlock(c, w1, id) else Notify(w1)
  }

  /** `items[id]` grown to `collected`, followed by `persistItems()`. */
  function RecordItems(c: Config, w: World, id: Id, collected: set<string>): World
  {
    var items := w.mem.items[id := collected];
    w.(mem := w.mem.(items := items), store := PersistData(w.store, c.hash, KEY_ITEMS, c.codec.serItems(items)))
  }

  /**
   * `collectItem(id, item)`: nothing at all when the item is already collected. Otherwise
   * the item set grows by the item, is persisted, and progress is set to its size.
   */
  function CollectItem(c: Config, w: World, id: Id, item: string): World
  {
    var before := GetItems(w.mem, id);
    if item in before then w
    else
      var w1 := RecordItems(c, w, id, before + {item});
      // `set.size` after the add, which grew the set by one
      SetProgress(c, w1, id, |before| + 1)
  }

  /** `setMaxProgress(id, max)`: install the override (never persisted), then re-apply the current progress. */
  function SetMaxProgress(c: Config, w: World, id: Id, max: int): World
  {
    SetProgress(c, w.(mem := w.mem.(runtimeMax := w.mem.runtimeMax[id := max])), id, GetProgress(w.mem, id))
  }

  /** `incrementProgress(id)`: `setProgress(id, getProgress(id) + 1)`. */
  function IncrementProgress(c: Config, w: World, id: Id): World {
    SetProgress(c, w, id, GetProgress(w.mem, id) + 1)
  }

  /** `dismissToast(id)`: the first queued `id` removed, the rest kept in order; always one notification. */
  function DismissToast(w: World, id: Id): World
  {
    Notify(w.(mem := w.mem.(toasts := RemoveFirst(w.mem.toasts, id))))
  }

  /**
   * `reset()`: all in-memory state emptied except the runtime overrides, all six keys
   * removed, one notification.
   */
  function Reset(w: World): World
  {
    var store := RemoveData(RemoveData(RemoveData(w.store, KEY_UNLOCKED), KEY_PROGRESS), KEY_ITEMS);
    Notify(w.(mem := Mem({}, map[], map[], w.mem.runtimeMax, []), store := store))
  }

  /** An outside `storage.set(key, value)`, as a user editing browser storage would do. */
  function Tamper(w: World, key: string, value: string): World
  {
    w.(store := w.store[key := value])
  }

  // ---------------------------------------------------------------------------
  // The engine object as a whole
  // ---------------------------------------------------------------------------

  /** A call on the object `createAchievements` returns (the queries change nothing and are left out). */
  datatype Call =
    | UnlockCall(id: Id)
    | SetProgressCall(id: Id, value: int)
    | IncrementProgressCall(id: Id)
    | CollectItemCall(id: Id, item: string)
    | SetMaxProgressCall(id: Id, max: int)
    | DismissToastCall(id: Id)
    | ResetCall
    | SubscribeCall(listener: ListenerId)
    | UnsubscribeCall(listener: ListenerId)

  function Apply(c: Config, w: World, call: Call): World {
    match call
    case UnlockCall(id) => Unlock(c, w, id)
    case SetProgressCall(id, value) => SetProgress(c, w, id, value)
    case IncrementProgressCall(id) => IncrementProgress(c, w, id)
    case CollectItemCall(id, item) => CollectItem(c, w, id, item)
    case SetMaxProgressCall(id, max) => SetMaxProgress(c, w, id, max)
    case DismissToastCall(id) => DismissToast(w, id)
    case ResetCall => Reset(w)
    case SubscribeCall(l) => Subscribe(w, l)
    case UnsubscribeCall(l) => Unsubscribe(w, l)
  }

  /** Whether `call` ends in `notify()`; untracked progress, repeated unlocks and repeated items do not. */
  predicate Notifies(c: Config, w: World, call: Call) {
    match call
    case UnlockCall(id) => id !in w.mem.unlocked
    case SetProgressCall(id, _) => EffectiveMax(c.defs, w.mem.runtimeMax, id).Some?
    case IncrementProgressCall(id) => EffectiveMax(c.defs, w.mem.runtimeMax, id).Some?
    case CollectItemCall(id, item) => item !in GetItems(w.mem, id) && EffectiveMax(c.defs, w.mem.runtimeMax, id).Some?
    case SetMaxProgressCall(id, _) => FindDef(c.defs, id).Some?
    case DismissToastCall(_) => true
    case ResetCall => true
    case SubscribeCall(_) => false
    case UnsubscribeCall(_) => false
  }

  /** The calls made one after another. */
  function Run(c: Config, w: World, calls: seq<Call>): World
    decreases |calls|
  {
    if calls == [] then w else Run(c, Apply(c, w, calls[0]), calls[1..])
  }

  /**
   * What every world the engine reaches satisfies: each queued toast is an unlocked id
   * and is queued once, and each listener is registered once (a `Set`).
   */
  predicate Inv(w: World) {
    && NoDup(w.mem.toasts)
    && (forall x :: x in w.mem.toasts ==> x in w.mem.unlocked)
    && NoDup(w.listeners)
  }

  /** A persisted field agrees with memory: written with its hash, or absent and empty. */
  predicate FieldSynced(store: map<string, string>, hash: string -> string, key: string, data: string, empty: bool) {
    Persisted(store, hash, key, data) || (Cleared(store, key) && empty)
  }

  /** Storage holds exactly what the engine last wrote for each of its three fields. */
  predicate Synced(c: Config, w: World) {
    && FieldSynced(w.store, c.hash, KEY_UNLOCKED, c.codec.serUnlocked(w.mem.unlocked), w.mem.unlocked == {})
    && FieldSynced(w.store, c.hash, KEY_PROGRESS, c.codec.serProgress(w.mem.progress), w.mem.progress == map[])
    && FieldSynced(w.store, c.hash, KEY_ITEMS, c.codec.serItems(w.mem.items), w.mem.items == map[])
  }

  // ---------------------------------------------------------------------------
  // Reading the event log
  // ---------------------------------------------------------------------------

  /** The keys reported to `onTamperDetected`, in order. */
  function Tampers(es: seq<Event>): seq<string> {
    if es == [] then []
    else Tampers(es[..|es| - 1]) + (if es[|es| - 1].TamperDetected? then [es[|es| - 1].key] else [])
  }

  /** The ids passed to `onUnlock`, in order. */
  function Unlocks(es: seq<Event>): seq<Id> {
    if es == [] then []
    else Unlocks(es[..|es| - 1]) + (if es[|es| - 1].UnlockFired? then [es[|es| - 1].id] else [])
  }

  /** The snapshots listener `l` received, in order. */
  function Received(es: seq<Event>, l: ListenerId): seq<Snapshot> {
    if es == [] then []
    else Received(es[..|es| - 1], l) +
         (if es[|es| - 1].Delivered? && es[|es| - 1].listener == l then [es[|es| - 1].state] else [])
  }
}
