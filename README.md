# Achievements engine: a verified model

This project is a Dafny model of the core of `achievements-manager`:

- `createAchievements` in `packages/core/src/engine.ts`, an achievement engine that keeps five fields in memory: the unlocked set, progress per id, collected items per id, runtime max-progress overrides and a toast queue;
- the two adapters in `packages/core/src/adapters.ts` that the engine runs against: the FNV-1a hash and the in-memory storage adapter.

The engine writes each persisted field (`unlocked`, `progress`, `items`) together with a `<key>:hash` companion key, checks those hashes when it hydrates and before every unlock write, and calls `onUnlock`, `onTamperDetected` and its subscribed listeners.

## Layout

- `wrappers.dfy` (module `Wrappers`): `Option`.
- `storage.dfy` (module `Storage`): `inMemoryAdapter` as the class `MemoryStore`. A `map<string, string>` field is changed in place by `Set` and `Remove`.
- `fnv1a.dfy` (module `Fnv1a`): `fnv1aHashAdapter().hash`.
  - The string becomes its UTF-16 code units. Each iteration is `(Xor(h, c) * 16777619) % 2^32` on naturals, and the result is rendered as `toString(16)`.
  - The source's `for` loop is the method `Hash`, proved equal to the function `Digest`.
- `spec.dfy` (module `EngineSpec`): the engine as a pure state machine over a `World`.
  - A `World` holds the in-memory fields, the storage map, the listener list, and a ghost log of the calls the engine makes into code it does not own.
  - The log records `TamperDetected(key)`, `UnlockFired(id)` and `Delivered(listener, snapshot)`.
  - Each public operation is a function from the old world to the new one.
  - `Call`, `Apply` and `Run` describe arbitrary call sequences.
- `engine.dfy` (module `Engine`): the class `AchievementEngine`.
  - The closure's `let` bindings become fields, and the returned functions become methods and functions.
  - Every public method is proved to perform exactly the transition `EngineSpec` describes: `Abs() == EngineSpec.Op(old(Abs()))`. It also keeps the invariant `Valid()`. The internal helpers `Notify`, `PersistData`, `RemoveData` and `HydrateField` are stated against their `EngineSpec` functions directly, without `Valid()`.
  - `Notify` is a loop over the listeners.
  - Storage goes through a `Storage.MemoryStore` object.
- `props.dfy` (module `EngineProps`): what the operations promise, one call at a time and over whole call sequences.

Two of the engine's collaborators are parameters of the model:

- **JSON.** Each field's `JSON.stringify` and `JSON.parse` is a pair of function values in a `Codec`. A parse that would throw yields `None`. `Lawful(codec)` states the round trip and that a serialised value is never `""`. Lemmas that need it take it as a precondition.
- **The hash adapter.** It is a function value `hash: string -> string` in the configuration. `Fnv1a.Digest` models `fnv1aHashAdapter`, the adapter the source uses by default. `ReloadDetectsOneUnitEdit` is the one lemma that puts the two together.

Listeners are identified by number, which plays the role of the function object's identity in the JavaScript `Set`.

## Model

| member | source | states |
|---|---|---|
| EngineSpec.KeysDistinct | packages/core/src/engine.ts:21-24 | the six storage keys (`unlocked`, `progress`, `items` and their `:hash` companions) are pairwise different |
| EngineSpec.IndexOf | packages/core/src/engine.ts:203 | `indexOf`: -1 exactly when absent, otherwise the position of the first occurrence |
| EngineSpec.RemoveFirstFacts | packages/core/src/engine.ts:203-204 | the `splice` of the first occurrence keeps every other element and, on a duplicate-free sequence, removes `x` and stays duplicate-free |
| EngineSpec.FindIndex | packages/core/src/engine.ts:164 | `definitions.find`: -1 exactly when no definition has the id, otherwise the first one that does |
| EngineSpec.FindDef | packages/core/src/engine.ts:164-165 | the definition found has the id and is the first such; `None` exactly when no definition has it |
| EngineSpec.Clamp | packages/core/src/engine.ts:169 | `max(0, min(value, max))`: never negative, at most a non-negative max, the value itself inside [0, max], max above it, 0 below 0 or for a negative max |
| EngineSpec.PersistData | packages/core/src/engine.ts:61-64 | afterwards the key holds the value and its hash key holds the value's hash, so the integrity check of that key passes |
| EngineSpec.PersistDataFrame | packages/core/src/engine.ts:61-64 | every key other than the written key and its hash key keeps its presence and its value |
| EngineSpec.RemoveData | packages/core/src/engine.ts:66-69 | afterwards neither the key nor its hash key is stored |
| EngineSpec.RemoveDataFrame | packages/core/src/engine.ts:66-69 | every key other than the removed key and its hash key keeps its presence and its value |
| EngineSpec.HydrateField | packages/core/src/engine.ts:79-92 | absent or empty data gives the fallback with no check and no report; data that passes the integrity check (a matching hash, or no hash) is parsed and kept with the store unchanged; a hash mismatch reports the key once, removes both keys and gives the fallback; a parse failure gives the fallback and leaves the keys |
| EngineProps.UnlockEffect | packages/core/src/engine.ts:147-161 | a no-op on an unlocked id (so unlocking twice is unlocking once); otherwise the id joins the set and the back of the toast queue, the new set is persisted and passes its check, and progress, items, overrides and listeners are unchanged |
| EngineProps.SetProgressEffect | packages/core/src/engine.ts:163-180 | a complete no-op without an effective max; otherwise progress becomes the clamped value (within [0, max]) and is persisted, and the id is unlocked and queued exactly when the clamped value reaches the max |
| EngineProps.CollectItemEffect | packages/core/src/engine.ts:182-190 | a duplicate item is a complete no-op; otherwise the id's item set grows by exactly that item, the new items record is persisted with its hash, and overrides and listeners are unchanged |
| EngineProps.CollectItemIdempotent | packages/core/src/types.ts:58-62 | collecting an item twice is collecting it once |
| EngineProps.CollectItemProgress | packages/core/src/engine.ts:185-189 | for a tracked id a new item sets progress to `Clamp(size of the item set, max)`; for an untracked id it only records and persists the items |
| EngineProps.SetMaxProgressEffect | packages/core/src/engine.ts:192-196 | the override is installed; for a defined id the current progress is re-clamped to the new max and the id unlocks when it reaches it; for an unknown id nothing else changes |
| EngineProps.IncrementProgressEffect | packages/core/src/engine.ts:198-200 | below the max, progress goes up by exactly one; at or above it, progress is the max and the id is unlocked; an untracked id is untouched |
| EngineProps.IncrementsAgree | packages/core/src/engine.ts:198-200 | for a tracked id with non-negative progress `p`, `n >= 1` consecutive increments leave memory and storage exactly as one `setProgress(id, p + n)`: the same clamped progress, the same unlock and toast, the same persisted records and hashes |
| EngineProps.DismissToastEffect | packages/core/src/engine.ts:202-206 | the first occurrence leaves the queue, every other queued id stays, nothing else in memory or storage changes, listeners are always notified |
| EngineProps.ResetEffect | packages/core/src/engine.ts:208-217 | memory is emptied except the runtime overrides; exactly the six engine keys leave storage: every other key survives unchanged and no key is added; one notification |
| EngineProps.SubscriptionEffect | packages/core/src/engine.ts:243-248 | subscribing adds the listener once; unsubscribing removes it and no other; neither touches memory, storage or the log |
| EngineProps.ApplyKeepsInv | packages/core/src/engine.ts:147-217 | every call keeps the toast queue duplicate-free and inside the unlocked set, and the listener list duplicate-free |
| EngineProps.RunKeepsInv | packages/core/src/engine.ts:145-248 | the same invariant over any sequence of calls |
| EngineProps.SetProgressSettles | packages/core/src/engine.ts:163-180 | for a tracked id, `setProgress` leaves that id's progress in [0, max] and unlocked once at the maximum, whatever it was before |
| EngineProps.SetProgressKeepsProgressInv | packages/core/src/engine.ts:163-180 | `setProgress` keeps every recorded progress within its maximum and every completed id unlocked |
| EngineProps.CollectItemKeepsProgressInv | packages/core/src/engine.ts:182-190 | `collectItem` keeps the progress invariant |
| EngineProps.SetMaxProgressKeepsProgressInv | packages/core/src/engine.ts:192-196 | a new maximum for one id leaves the others' maxima alone, and the re-applied progress keeps the invariant |
| EngineProps.ApplyKeepsProgressInv | packages/core/src/engine.ts:147-217 | every call keeps each recorded progress in [0, effective max], for an id with an effective max, and unlocked once it reaches the maximum |
| EngineProps.RunKeepsProgressInv | packages/core/src/engine.ts:147-217 | the progress invariant over any sequence of calls |
| EngineProps.CreateKeepsProgressInv | packages/core/src/engine.ts:94-115 | an engine over empty storage starts with the progress invariant |
| EngineProps.ApplyKeepsSynced | packages/core/src/engine.ts:132-143 | from a synced world (each persisted field written with its hash, or cleared when empty), every call leaves a synced world |
| EngineProps.RunKeepsSynced | packages/core/src/engine.ts:132-217 | from a synced world, the same over any sequence of calls |
| EngineProps.CreateOverEmptyStorage | packages/core/src/engine.ts:94-115 | an engine over empty storage starts empty, writes nothing and reports nothing |
| EngineProps.ReloadRestores | packages/core/src/__tests__/anti-cheat.test.ts:210-227 | a new engine with the same hash over synced storage (each field written with its hash, or cleared when empty) restores the unlocked set, progress and items, leaves storage as it was and reports nothing |
| EngineProps.PersistenceRoundTrip | packages/core/src/engine.ts:94-143 | after any sequence of calls from empty storage, reloading restores the three persisted fields |
| EngineProps.ReloadAfterReset | packages/core/src/__tests__/anti-cheat.test.ts:177-191 | a new engine after `reset` starts empty and reports nothing |
| EngineProps.ReloadDetectsTamper | packages/core/src/__tests__/anti-cheat.test.ts:64-114 | after an outside edit of a field with a stored hash, a new engine reports that key once, clears both its keys, starts that field empty and restores the other two |
| EngineProps.TamperedUnlockedLeavesUnlockPending | packages/core/src/engine.ts:94-103 | a reload after only the unlocked record was overwritten keeps a completed id's progress at its maximum but starts it locked, so the progress invariant fails |
| EngineProps.ReloadDetectsTamperedUnlocked | packages/core/src/__tests__/anti-cheat.test.ts:65-74 | the `unlocked` case of the above |
| EngineProps.ReloadDetectsTamperedProgress | packages/core/src/__tests__/anti-cheat.test.ts:76-83 | the `progress` case of the above |
| EngineProps.ReloadDetectsTamperedItems | packages/core/src/__tests__/anti-cheat.test.ts:85-92 | the `items` case of the above |
| EngineProps.ReloadDetectsOneUnitEdit | packages/core/src/engine.ts:79-92 | with `Fnv1a.Digest` as the hash, overwriting a stored field with a value one UTF-16 code unit away from it is always detected at reload, with the outcome of `ReloadDetectsTamper` |
| EngineProps.UnlockReportsTamperedSet | packages/core/src/engine.ts:150-159 | after an outside edit of the stored unlocked set, the next fresh unlock logs the tamper report, then `onUnlock`, then one broadcast |
| EngineProps.UnlockOverwritesTamperedSet | packages/core/src/__tests__/anti-cheat.test.ts:144-174 | whatever was written from outside, the fresh unlock overwrites storage with the in-memory set, and a reload restores exactly that set without reports |
| EngineProps.OrphanHashSurvivesReload | packages/core/src/engine.ts:79-92 | an `unlocked:hash` key stored without `unlocked` is not reported at hydration and stays in storage, so the `unlocked` check fails |
| EngineProps.OrphanHashReportedOnUnlock | packages/core/src/engine.ts:51-59 | that orphan hash is reported by the first unlock, before `onUnlock` |
| EngineProps.BroadcastProjections | packages/core/src/engine.ts:127-130 | a broadcast reports nothing, fires nothing, and gives a registered listener exactly one snapshot |
| EngineProps.UnlockLog | packages/core/src/engine.ts:147-161 | an unlock's log is the tamper report (when the stored set fails its check) and `onUnlock` for a fresh id, then one broadcast; nothing for an unlocked id |
| EngineProps.SetProgressLog | packages/core/src/engine.ts:173-179 | a tracked `setProgress` notifies exactly once whether or not it auto-unlocks; an untracked one logs nothing |
| EngineProps.CollectItemLog | packages/core/src/engine.ts:182-190 | a `collectItem` notifies once exactly when the item is new and the id is tracked |
| EngineProps.ApplyLog | packages/core/src/engine.ts:145-248 | every call logs the unlock report exactly when it newly unlocks its id, then one broadcast exactly when it notifies |
| EngineProps.ApplyCallbacks | packages/core/src/__tests__/engine.test.ts:110-128 | per call: a subscribed listener receives the final snapshot once if the call notifies and nothing otherwise; `onUnlock` fires once exactly for a fresh unlock; `onTamperDetected` fires at most once, only then, with `unlocked` |
| EngineProps.UnsubscribedHearsNothing | packages/core/src/__tests__/engine.test.ts:121-128 | after unsubscribing, a listener receives nothing from the next call |
| Storage.MemoryStore.Get | packages/core/src/adapters.ts:53 | present exactly when the key is stored, with the stored value |
| Storage.MemoryStore.Set | packages/core/src/adapters.ts:54-56 | afterwards `get(key)` is the value and every other key is unchanged |
| Storage.MemoryStore.Remove | packages/core/src/adapters.ts:57-59 | afterwards `get(key)` is absent, every other key is unchanged, and removing an absent key changes nothing |
| Fnv1a.CodeUnits | packages/core/src/adapters.ts:41-42 | `charCodeAt`: strings within the basic plane give one code unit per character, equal to it |
| Fnv1a.HexRoundTrip | packages/core/src/adapters.ts:45 | `toString(16)` gives non-empty lower-case hex without a leading zero that reads back as the number |
| Fnv1a.Digest | packages/core/src/adapters.ts:39-46 | the hash is non-empty lower-case hex with no leading zero (the canonical `toString(16)` form) whose value is the 32-bit fold over the code units |
| Fnv1a.Hash | packages/core/src/adapters.ts:40-45 | the loop computes exactly `Digest` |
| Fnv1a.EmptyDigest | packages/core/src/adapters.ts:40 | the empty string hashes to `811c9dc5`, the offset basis |
| Fnv1a.XorCancel | packages/core/src/adapters.ts:42 | xor with a code unit undoes itself |
| Fnv1a.XorBelow | packages/core/src/adapters.ts:42-43 | xor of two values below 2^k stays below 2^k, so every intermediate `h` is a 32-bit word |
| Fnv1a.UndoMulPrime | packages/core/src/adapters.ts:43 | multiplying by 16777619 modulo 2^32 is undone by multiplying by 899433627 |
| Fnv1a.FoldOneUnitApart | packages/core/src/adapters.ts:41-44 | equal-length code-unit sequences differing in exactly one place fold to different hashes |
| Fnv1a.DigestOneUnitApart | packages/core/src/adapters.ts:39-46 | two strings whose code units differ in exactly one place get different digests |
| Fnv1a.DataAAndDataBDiffer | packages/core/src/__tests__/anti-cheat.test.ts:35-38 | `"data-a"` and `"data-b"` hash differently |
| Engine.AchievementEngine.constructor | packages/core/src/engine.ts:26-115 | the new object is `Create` over the storage's contents, with the hydration writes and reports, and satisfies the invariant |
| Engine.AchievementEngine.VerifyStoredIntegrity | packages/core/src/engine.ts:51-59 | the check read through the adapter equals the check on the store |
| Engine.AchievementEngine.PersistData | packages/core/src/engine.ts:61-64 | the two `set` calls leave the store as `EngineSpec.PersistData` says |
| Engine.AchievementEngine.RemoveData | packages/core/src/engine.ts:66-69 | the two `remove` calls leave the store as `EngineSpec.RemoveData` says |
| Engine.AchievementEngine.HydrateField | packages/core/src/engine.ts:79-92 | value, store and report are those of `EngineSpec.HydrateField` |
| Engine.AchievementEngine.GetState | packages/core/src/engine.ts:119-125 | a copy of the unlocked set, the progress record and the queue, with no items |
| Engine.AchievementEngine.Notify | packages/core/src/engine.ts:127-130 | the loop delivers one snapshot to each listener, in order |
| Engine.AchievementEngine.Unlock | packages/core/src/engine.ts:147-161 | the in-place steps make exactly the `EngineSpec.Unlock` transition and keep the invariant |
| Engine.AchievementEngine.SetProgress | packages/core/src/engine.ts:163-180 | exactly the `EngineSpec.SetProgress` transition, including the early return after an auto-unlock |
| Engine.AchievementEngine.RecordItems | packages/core/src/engine.ts:140-143 | the items update and `persistItems` make the `EngineSpec.RecordItems` step |
| Engine.AchievementEngine.CollectItem | packages/core/src/engine.ts:182-190 | exactly the `EngineSpec.CollectItem` transition |
| Engine.AchievementEngine.SetMaxProgress | packages/core/src/engine.ts:192-196 | exactly the `EngineSpec.SetMaxProgress` transition |
| Engine.AchievementEngine.IncrementProgress | packages/core/src/engine.ts:198-200 | exactly `setProgress(id, getProgress(id) + 1)` |
| Engine.AchievementEngine.DismissToast | packages/core/src/engine.ts:202-206 | exactly the `EngineSpec.DismissToast` transition |
| Engine.AchievementEngine.Reset | packages/core/src/engine.ts:208-217 | exactly the `EngineSpec.Reset` transition |
| Engine.AchievementEngine.IsUnlocked | packages/core/src/engine.ts:219-221 | true exactly when the id is in the unlocked set of the state |
| Engine.AchievementEngine.GetProgress | packages/core/src/engine.ts:223-225 | the recorded progress, 0 when none is recorded |
| Engine.AchievementEngine.GetItems | packages/core/src/engine.ts:227-229 | the collected items, empty for an id with none |
| Engine.AchievementEngine.GetUnlocked | packages/core/src/engine.ts:231-233 | the unlocked set of the state |
| Engine.AchievementEngine.GetUnlockedCount | packages/core/src/engine.ts:235-237 | the size of that set |
| Engine.AchievementEngine.GetDefinition | packages/core/src/engine.ts:239-241 | the first definition in the list with the id, as `find` returns it, or absent exactly when none has it |
| Engine.AchievementEngine.Subscribe | packages/core/src/engine.ts:243-244 | exactly the `EngineSpec.Subscribe` transition |
| Engine.AchievementEngine.Unsubscribe | packages/core/src/engine.ts:245-247 | exactly the `EngineSpec.Unsubscribe` transition |

## Where the code decides

Where the design comments and the code differ, the model follows the code:

- `reset` is documented as wiping all state. It keeps the runtime max-progress overrides (`ResetEffect`).
- `collectItem` is documented as setting progress to the size of the item set. That value is clamped by `setProgress`, so progress is `min(size, max)` (`CollectItemProgress`). For an id that is not tracked, the items are recorded and persisted, but no listener is notified.
- `unlock` and `collectItem` do not check the id against the definitions. Ids outside the definitions can be unlocked and collected.
- Hydration treats an empty stored string like an absent key. A hash left without its data is therefore not reported at hydration. The pre-unlock check reports it (`OrphanHashSurvivesReload`, `OrphanHashReportedOnUnlock`).
- Only `unlock` re-verifies the stored data before writing. `setProgress` and `collectItem` overwrite their field without checking it.
- `getState` omits `items`.
- On reload each field is checked on its own. After an outside edit of `unlocked` alone, progress comes back while the unlocked set starts empty, so an id whose progress is at its maximum stays locked until `setProgress` is called for it again (`TamperedUnlockedLeavesUnlockPending`). Runtime max overrides are also gone after a reload, so the progress invariant is proved for calls on one engine (`RunKeepsProgressInv`), not across reloads.

## Left out

- `localStorageAdapter`: browser storage behind `window` checks and swallowed exceptions is I/O. The engine is modelled against the in-memory adapter.
- The concrete JSON text format: it is abstracted as `Codec`, and the round trip is a precondition (`Lawful`), not a proof about a JSON parser.
- Exceptions thrown by `JSON.parse` are modelled as a `None` parse. Exceptions thrown by `storage.get` or by `onTamperDetected` inside `hydrateField`'s `try` are not modelled.
- Callbacks and listeners that call back into the engine are not modelled. The model records each call in the ghost log instead of running it.
- Unlock, Notify: callbacks and listeners are assumed to return normally. In the source, an `onUnlock` that throws (`engine.ts:159`) skips `notify()` and propagates out of `unlock`, `setProgress` and `collectItem` after state and storage were written, and a listener that throws (`engine.ts:129`) stops delivery to the listeners after it. The model's log always records every later delivery.
- IncrementsAgree: compares memory and storage only, not the log. `n` increments notify the listeners `n` times where one `setProgress` notifies once, so the logs differ by design.
- `onUnlock` and `onTamperDetected` are optional in the source. The log records the call whether or not a callback was given.
- SetProgress, CollectItem, GetProgress, GetItems: the source keeps progress, items and runtime overrides in plain `{}` records (`engine.ts:35-38`, `engine.ts:166`, `engine.ts:183-184`, `engine.ts:224`, `engine.ts:228`). An id that names an `Object.prototype` member (`constructor`, `toString`, `valueOf`, `hasOwnProperty`, `__proto__`, ...) reads the inherited value there: `setProgress("constructor", 5)` stores NaN, `collectItem("toString", x)` and `getItems("toString")` throw, and `getProgress("valueOf")` returns a function. The model's maps hold only what the engine wrote, so such ids are not modelled.
- Progress values are unbounded integers. Non-integer, NaN and infinite JavaScript numbers are not modelled.
- `Fnv1a.CodeUnits`: Dafny strings hold Unicode scalar values, so strings with lone surrogates cannot be represented.
- General collision resistance of FNV-1a is not modelled, because the code cannot promise it. Only the one-code-unit difference is proved.
- Order inside the serialised records is hidden behind `Codec`: the key order of `JSON.stringify`, and the `Set` insertion order that `[...unlockedIds]` and the item arrays follow (`engine.ts:133`, `engine.ts:141`), are not modelled. The model keeps sets and maps.
- `defineAchievements` and TypeScript's literal id inference are compile-time only, so they are not modelled.
- The React package and the example application are UI glue over `subscribe` and `getState`, so they are not part of this model.
- The default choice of `localStorageAdapter` and `fnv1aHashAdapter` when the configuration omits them (`engine.ts:29-30`) is not modelled: the model is always given a storage object and a hash function.
