/**
 * Properties of the engine model in module EngineSpec: the invariant every call keeps,
 * the storage protocol (what is written, what a reload reads back, what tampering
 * does), the callbacks each call makes, and the algebra of the calls.
 */
module EngineProps {
  import opened Wrappers
  import opened EngineSpec
  import Fnv1a

  // ---------------------------------------------------------------------------
  // What each call does
  // ---------------------------------------------------------------------------

  /**
   * `unlock`: a no-op for an unlocked id (so unlocking twice is unlocking once).
   * Otherwise the id joins the unlocked set and the back of the toast queue, the new set
   * is persisted with its hash (whatever storage held), and nothing else in memory changes.
   */
  lemma UnlockEffect(c: Config, w: World, id: Id)
    ensures id in w.mem.unlocked ==> Unlock(c, w, id) == w
    ensures Unlock(c, Unlock(c, w, id), id) == Unlock(c, w, id)
    ensures var r := Unlock(c, w, id);
      && r.mem.unlocked == w.mem.unlocked + {id}
      && r.mem.toasts == w.mem.toasts + (if id in w.mem.unlocked then [] else [id])
      && r.mem.progress == w.mem.progress && r.mem.items == w.mem.items
      && r.mem.runtimeMax == w.mem.runtimeMax && r.listeners == w.listeners
    ensures id !in w.mem.unlocked ==>
      var r := Unlock(c, w, id);
      Persisted(r.store, c.hash, KEY_UNLOCKED, c.codec.serUnlocked(w.mem.unlocked + {id})) &&
      VerifyStoredIntegrity(r.store, c.hash, KEY_UNLOCKED)
  {
  }

  /**
   * `setProgress`: nothing at all for an id without an effective maximum. Otherwise the
   * progress becomes the value clamped to [0, max] and is persisted, and the id is
   * unlocked (and queued, if it was locked) exactly when the clamped value reaches the
   * maximum; items, overrides and listeners are untouched.
   */
  lemma SetProgressEffect(c: Config, w: World, id: Id, value: int)
    ensures EffectiveMax(c.defs, w.mem.runtimeMax, id).None? ==> SetProgress(c, w, id, value) == w
    ensures EffectiveMax(c.defs, w.mem.runtimeMax, id).Some? ==>
      var max := EffectiveMax(c.defs, w.mem.runtimeMax, id).value;
      var r := SetProgress(c, w, id, value);
      && r.mem.progress == w.mem.progress[id := Clamp(value, max)]
      && (0 <= max ==> 0 <= GetProgress(r.mem, id) <= max)
      && (GetProgress(r.mem, id) >= max ==> id in r.mem.unlocked)
      && r.mem.unlocked == w.mem.unlocked + (if Clamp(value, max) >= max then {id} else {})
      && r.mem.toasts == w.mem.toasts + (if Clamp(value, max) >= max && id !in w.mem.unlocked then [id] else [])
      && Persisted(r.store, c.hash, KEY_PROGRESS, c.codec.serProgress(r.mem.progress))
    ensures var r := SetProgress(c, w, id, value);
      r.mem.items == w.mem.items && r.mem.runtimeMax == w.mem.runtimeMax && r.listeners == w.listeners
  {
    match EffectiveMax(c.defs, w.mem.runtimeMax, id)
    case None =>
    case Some(max) =>
      var w1 := RecordProgress(c, w, id, Clamp(value, max));
      if Clamp(value, max) >= max && id !in w.mem.unlocked {
        KeysDistinct();
        assert Persisted(w1.store, c.hash, KEY_PROGRESS, c.codec.serProgress(w1.mem.progress));
      }
  }

  /**
   * `collectItem`: a no-op for an item already collected (so collecting twice is
   * collecting once). Otherwise the item joins the id's set, the items are persisted, and
   * for a tracked id the progress becomes the number of items collected, clamped.
   */
  /** A new item is recorded first, then progress is set to the size of the grown set. */
  lemma CollectItemSteps(c: Config, w: World, id: Id, item: string)
    requires item !in GetItems(w.mem, id)
    ensures var collected := GetItems(w.mem, id) + {item};
      CollectItem(c, w, id, item) == SetProgress(c, RecordItems(c, w, id, collected), id, |collected|)
  {
    var before := GetItems(w.mem, id);
    assert |before + {item}| == |before| + 1;
  }

  lemma CollectItemEffect(c: Config, w: World, id: Id, item: string)
    ensures item in GetItems(w.mem, id) ==> CollectItem(c, w, id, item) == w
    ensures item !in GetItems(w.mem, id) ==>
      CollectItem(c, w, id, item).mem.items == w.mem.items[id := GetItems(w.mem, id) + {item}]
    ensures var r := CollectItem(c, w, id, item);
      && GetItems(r.mem, id) == GetItems(w.mem, id) + {item}
      && r.mem.runtimeMax == w.mem.runtimeMax && r.listeners == w.listeners
    ensures item !in GetItems(w.mem, id) ==>
      var r := CollectItem(c, w, id, item);
      Persisted(r.store, c.hash, KEY_ITEMS, c.codec.serItems(r.mem.items))
  {
    var before := GetItems(w.mem, id);
    if item !in before {
      var w1 := RecordItems(c, w, id, before + {item});
      CollectItemSteps(c, w, id, item);
      SetProgressEffect(c, w1, id, |before + {item}|);
      SetProgressKeepsItemsField(c, w1, id, |before + {item}|);
    }
  }

  /** `setProgress` writes only the progress and unlocked keys, so the items record stays as it was. */
  lemma SetProgressKeepsItemsField(c: Config, w: World, id: Id, value: int)
    ensures var r := SetProgress(c, w, id, value);
      && (KEY_ITEMS in r.store <==> KEY_ITEMS in w.store) && (KEY_ITEMS in r.store ==> r.store[KEY_ITEMS] == w.store[KEY_ITEMS])
      && (HashKey(KEY_ITEMS) in r.store <==> HashKey(KEY_ITEMS) in w.store)
      && (HashKey(KEY_ITEMS) in r.store ==> r.store[HashKey(KEY_ITEMS)] == w.store[HashKey(KEY_ITEMS)])
  {
    match EffectiveMax(c.defs, w.mem.runtimeMax, id)
    case None =>
    case Some(max) =>
      var clamped := Clamp(value, max);
      var w1 := RecordProgress(c, w, id, clamped);
      OtherFieldsUntouched(w.store, c.hash, KEY_PROGRESS, KEY_ITEMS, c.codec.serProgress(w1.mem.progress));
      if clamped >= max && id !in w1.mem.unlocked {
        OtherFieldsUntouched(w1.store, c.hash, KEY_UNLOCKED, KEY_ITEMS, c.codec.serUnlocked(w1.mem.unlocked + {id}));
      }
  }

  /** Collecting an item twice is collecting it once. */
  lemma CollectItemIdempotent(c: Config, w: World, id: Id, item: string)
    ensures CollectItem(c, CollectItem(c, w, id, item), id, item) == CollectItem(c, w, id, item)
  {
    CollectItemEffect(c, w, id, item);
    CollectItemEffect(c, CollectItem(c, w, id, item), id, item);
  }

  /**
   * For a tracked id, a new item sets progress to the number of items collected, clamped
   * to the maximum; for an untracked id the items are still recorded and persisted, but
   * nothing else happens (no notification).
   */
  lemma CollectItemProgress(c: Config, w: World, id: Id, item: string)
    requires item !in GetItems(w.mem, id)
    ensures EffectiveMax(c.defs, w.mem.runtimeMax, id).Some? ==>
      var r := CollectItem(c, w, id, item);
      GetProgress(r.mem, id) == Clamp(|GetItems(r.mem, id)|, EffectiveMax(c.defs, w.mem.runtimeMax, id).value)
    ensures EffectiveMax(c.defs, w.mem.runtimeMax, id).None? ==>
      CollectItem(c, w, id, item) == RecordItems(c, w, id, GetItems(w.mem, id) + {item})
  {
    var before := GetItems(w.mem, id);
    var w1 := RecordItems(c, w, id, before + {item});
    assert CollectItem(c, w, id, item) == SetProgress(c, w1, id, |before| + 1);
    assert |before + {item}| == |before| + 1;
    assert EffectiveMax(c.defs, w1.mem.runtimeMax, id) == EffectiveMax(c.defs, w.mem.runtimeMax, id);
    SetProgressEffect(c, w1, id, |before| + 1);
    CollectItemEffect(c, w, id, item);
  }

  /**
   * `setMaxProgress`: the override is installed (and never persisted); for a defined id
   * the current progress is re-clamped to the new maximum, unlocking when it reaches it.
   */
  lemma SetMaxProgressEffect(c: Config, w: World, id: Id, max: int)
    ensures var r := SetMaxProgress(c, w, id, max);
      r.mem.runtimeMax == w.mem.runtimeMax[id := max] && r.mem.items == w.mem.items && r.listeners == w.listeners
    ensures FindDef(c.defs, id).Some? ==>
      var r := SetMaxProgress(c, w, id, max);
      && r.mem.progress == w.mem.progress[id := Clamp(GetProgress(w.mem, id), max)]
      && r.mem.unlocked == w.mem.unlocked + (if Clamp(GetProgress(w.mem, id), max) >= max then {id} else {})
    ensures FindDef(c.defs, id).None? ==>
      SetMaxProgress(c, w, id, max) == w.(mem := w.mem.(runtimeMax := w.mem.runtimeMax[id := max]))
  {
    SetProgressEffect(c, w.(mem := w.mem.(runtimeMax := w.mem.runtimeMax[id := max])), id, GetProgress(w.mem, id));
  }

  /** `incrementProgress` is `setProgress` one above the current progress. */
  lemma IncrementProgressEffect(c: Config, w: World, id: Id)
    ensures var max := EffectiveMax(c.defs, w.mem.runtimeMax, id);
      max.Some? && 0 <= GetProgress(w.mem, id) < max.value ==>
        GetProgress(IncrementProgress(c, w, id).mem, id) == GetProgress(w.mem, id) + 1
    ensures var max := EffectiveMax(c.defs, w.mem.runtimeMax, id);
      max.Some? && 0 <= max.value <= GetProgress(w.mem, id) ==>
        GetProgress(IncrementProgress(c, w, id).mem, id) == max.value && id in IncrementProgress(c, w, id).mem.unlocked
    ensures EffectiveMax(c.defs, w.mem.runtimeMax, id).None? ==> IncrementProgress(c, w, id) == w
  {
    SetProgressEffect(c, w, id, GetProgress(w.mem, id) + 1);
  }

  /** `n` consecutive `incrementProgress(id)` calls. */
  function Incs(id: Id, n: nat): (r: seq<Call>)
    ensures |r| == n && forall k :: 0 <= k < n ==> r[k] == IncrementProgressCall(id)
  {
    if n == 0 then [] else [IncrementProgressCall(id)] + Incs(id, n - 1)
  }

  /** Persisting a key twice keeps only the second value. */
  lemma PersistOverwrites(s: map<string, string>, hash: string -> string, key: string, a: string, b: string)
    ensures PersistData(PersistData(s, hash, key, a), hash, key, b) == PersistData(s, hash, key, b)
  {
  }

  /** Persisting two different engine keys commutes. */
  lemma PersistCommutes(s: map<string, string>, hash: string -> string, k1: string, k2: string, a: string, b: string)
    requires k1 != k2 && k1 != HashKey(k2) && HashKey(k1) != k2 && HashKey(k1) != HashKey(k2)
    ensures PersistData(PersistData(s, hash, k1, a), hash, k2, b) == PersistData(PersistData(s, hash, k2, b), hash, k1, a)
  {
  }

  /** The memory and storage `setProgress(id, v)` leaves behind, for a tracked id. */
  function Progressed(c: Config, m: Mem, s: map<string, string>, id: Id, v: int): (Mem, map<string, string>)
    requires EffectiveMax(c.defs, m.runtimeMax, id).Some?
  {
    var max := EffectiveMax(c.defs, m.runtimeMax, id).value;
    var unlocks := Clamp(v, max) >= max && id !in m.unlocked;
    var progress := m.progress[id := Clamp(v, max)];
    var s1 := PersistData(s, c.hash, KEY_PROGRESS, c.codec.serProgress(progress));
    (m.(progress := progress,
        unlocked := if unlocks then m.unlocked + {id} else m.unlocked,
        toasts := if unlocks then m.toasts + [id] else m.toasts),
     if unlocks then PersistData(s1, c.hash, KEY_UNLOCKED, c.codec.serUnlocked(m.unlocked + {id})) else s1)
  }

  /** `setProgress` on a tracked id changes memory and storage as `Progressed` says. */
  lemma SetProgressState(c: Config, w: World, id: Id, v: int)
    requires EffectiveMax(c.defs, w.mem.runtimeMax, id).Some?
    ensures SetProgress(c, w, id, v).mem == Progressed(c, w.mem, w.store, id, v).0
    ensures SetProgress(c, w, id, v).store == Progressed(c, w.mem, w.store, id, v).1
  {
  }

  /**
   * Two `setProgress` calls whose second clamped value is the larger leave memory and
   * storage as one call with that final value does, whichever call does the unlocking.
   */
  lemma ProgressedTwice(c: Config, m: Mem, s: map<string, string>, id: Id, a: int, b: int, v: int)
    requires EffectiveMax(c.defs, m.runtimeMax, id).Some?
    requires var max := EffectiveMax(c.defs, m.runtimeMax, id).value;
      Clamp(a, max) <= Clamp(b, max) && Clamp(b, max) == Clamp(v, max)
    ensures var x := Progressed(c, m, s, id, a);
      x.0.runtimeMax == m.runtimeMax && Progressed(c, x.0, x.1, id, b) == Progressed(c, m, s, id, v)
  {
    var max := EffectiveMax(c.defs, m.runtimeMax, id).value;
    assert m.progress[id := Clamp(a, max)][id := Clamp(b, max)] == m.progress[id := Clamp(v, max)];
    SetTwiceStore(s, c.hash, c.codec.serProgress(m.progress[id := Clamp(a, max)]),
                  c.codec.serProgress(m.progress[id := Clamp(v, max)]), c.codec.serUnlocked(m.unlocked + {id}),
                  id !in m.unlocked && Clamp(a, max) >= max, id !in m.unlocked && Clamp(b, max) >= max);
  }

  /**
   * The storage half of `ProgressedTwice`: a progress write, an optional unlocked write, a
   * second progress write and an optional unlocked write (at most one of the two unlocked
   * writes happens, and the second is there whenever the first is not needed).
   */
  lemma SetTwiceStore(s0: map<string, string>, h: string -> string, pa: string, pv: string, su: string,
                      first: bool, last: bool)
    requires first ==> last
    ensures var s1 := PersistData(s0, h, KEY_PROGRESS, pa);
      var s2 := if first then PersistData(s1, h, KEY_UNLOCKED, su) else s1;
      var s3 := PersistData(s2, h, KEY_PROGRESS, pv);
      var s4 := if last && !first then PersistData(s3, h, KEY_UNLOCKED, su) else s3;
      var t1 := PersistData(s0, h, KEY_PROGRESS, pv);
      s4 == if last then PersistData(t1, h, KEY_UNLOCKED, su) else t1
  {
    PersistOverwrites(s0, h, KEY_PROGRESS, pa, pv);
    if first {
      KeysDistinct();
      PersistCommutes(PersistData(s0, h, KEY_PROGRESS, pa), h, KEY_UNLOCKED, KEY_PROGRESS, su, pv);
    }
  }

  /** Running a call and then the rest is running the rest from the call's world. */
  lemma RunCons(c: Config, w: World, call: Call, rest: seq<Call>)
    ensures Run(c, w, [call] + rest) == Run(c, Apply(c, w, call), rest)
  {
    assert ([call] + rest)[1..] == rest;
  }

  /** `u` holds the memory and storage that `setProgress(id, a)` leaves from `w`. */
  predicate ProgressedTo(c: Config, w: World, u: World, id: Id, a: int)
  {
    && EffectiveMax(c.defs, w.mem.runtimeMax, id).Some?
    && u.mem == Progressed(c, w.mem, w.store, id, a).0
    && u.store == Progressed(c, w.mem, w.store, id, a).1
  }

  /** One increment after a world whose memory and storage are `setProgress(a)`'s. */
  lemma IncrementsStep(c: Config, w: World, u: World, id: Id, a: int, a1: int)
    requires 0 <= a && a1 == a + 1 && ProgressedTo(c, w, u, id, a)
    ensures ProgressedTo(c, w, IncrementProgress(c, u, id), id, a1)
  {
    var max := EffectiveMax(c.defs, w.mem.runtimeMax, id).value;
    var b := GetProgress(u.mem, id) + 1;
    assert b == Clamp(a, max) + 1;
    IncrementState(c, u, id, b);
    ProgressedTwice(c, w.mem, w.store, id, a, b, a1);
  }

  /** `incrementProgress` on a tracked id is `setProgress` to the current value plus one. */
  lemma IncrementState(c: Config, u: World, id: Id, b: int)
    requires EffectiveMax(c.defs, u.mem.runtimeMax, id).Some? && b == GetProgress(u.mem, id) + 1
    ensures ProgressedTo(c, u, IncrementProgress(c, u, id), id, b)
  {
    SetProgressState(c, u, id, b);
  }

  /** `n` increments, one after the other, starting from `u`. */
  function IncRun(c: Config, u: World, id: Id, n: nat): World
    decreases n
  {
    if n == 0 then u else IncRun(c, IncrementProgress(c, u, id), id, n - 1)
  }

  /** `r` is the world `n` increments reach from `u`. */
  predicate Reaches(c: Config, u: World, id: Id, n: nat, r: World)
  {
    r == IncRun(c, u, id, n)
  }

  /** The first of `n` increments, taken off the front. */
  lemma IncRunShift(c: Config, u: World, id: Id, n: nat)
    requires 1 <= n
    ensures IncRun(c, u, id, n) == IncRun(c, IncrementProgress(c, u, id), id, n - 1)
  {
  }

  /** Running `Incs(id, n)` is `IncRun`. */
  lemma {:induction false} IncRunIsRun(c: Config, u: World, id: Id, n: nat)
    ensures Run(c, u, Incs(id, n)) == IncRun(c, u, id, n)
    decreases n
  {
    if n == 0 {
      assert Incs(id, 0) == [];
    } else {
      var k: nat := n - 1;
      assert Incs(id, n) == [IncrementProgressCall(id)] + Incs(id, k);
      RunCons(c, u, IncrementProgressCall(id), Incs(id, k));
      IncRunIsRun(c, IncrementProgress(c, u, id), id, k);
    }
  }

  /**
   * `n` more increments after a world whose memory and storage are `setProgress(a)`'s
   * leave those of `setProgress(a + n)`.
   */
  lemma {:induction false} IncrementsFrom(c: Config, w: World, u: World, id: Id, a: int, n: nat, v: int, r: World)
    requires 0 <= a && v == a + n && ProgressedTo(c, w, u, id, a) && Reaches(c, u, id, n, r)
    ensures ProgressedTo(c, w, r, id, v)
    decreases n
  {
    if n > 0 {
      var b, k: nat := a + 1, n - 1;
      IncrementsAhead(c, w, u, id, a, b, k, r);
      var u1: World :| ProgressedTo(c, w, u1, id, b) && Reaches(c, u1, id, k, r);
      IncrementsFrom(c, w, u1, id, b, k, v, r);
    }
  }

  /** The first of the remaining increments, with the world it reaches left abstract. */
  lemma IncrementsAhead(c: Config, w: World, u: World, id: Id, a: int, b: int, k: nat, r: World)
    requires 0 <= a && b == a + 1 && ProgressedTo(c, w, u, id, a) && Reaches(c, u, id, k + 1, r)
    ensures exists u1: World :: ProgressedTo(c, w, u1, id, b) && Reaches(c, u1, id, k, r)
  {
    IncRunShift(c, u, id, k + 1);
    IncrementsStep(c, w, u, id, a, b);
  }

  /** The first of `n >= 1` increments from `w`, with the world it reaches left abstract. */
  lemma IncrementsStart(c: Config, w: World, id: Id, b: int, n: nat, k: nat, r: World)
    requires EffectiveMax(c.defs, w.mem.runtimeMax, id).Some? && b == GetProgress(w.mem, id) + 1 && n == k + 1
    requires Reaches(c, w, id, n, r)
    ensures exists u1: World :: ProgressedTo(c, w, u1, id, b) && Reaches(c, u1, id, k, r)
  {
    IncRunShift(c, w, id, n);
    IncrementState(c, w, id, b);
    assert Reaches(c, IncrementProgress(c, w, id), id, k, r);
  }

  /** `n >= 1` increments from `w` leave the memory and storage of `setProgress(p + n)`. */
  lemma IncrementsReach(c: Config, w: World, id: Id, n: nat, v: int, r: World)
    requires EffectiveMax(c.defs, w.mem.runtimeMax, id).Some? && 0 <= GetProgress(w.mem, id) && 1 <= n
    requires v == GetProgress(w.mem, id) + n && Reaches(c, w, id, n, r)
    ensures r.mem == SetProgress(c, w, id, v).mem && r.store == SetProgress(c, w, id, v).store
  {
    var b, k: nat := GetProgress(w.mem, id) + 1, n - 1;
    IncrementsStart(c, w, id, b, n, k, r);
    var u1: World :| ProgressedTo(c, w, u1, id, b) && Reaches(c, u1, id, k, r);
    IncrementsFrom(c, w, u1, id, b, k, v, r);
    SetProgressState(c, w, id, v);
  }

  /**
   * `n >= 1` calls to `incrementProgress(id)` leave memory and storage exactly as one
   * `setProgress(id, v)` with `v` the current progress plus `n`: the clamp, the unlock
   * and the persisted records agree (only the number of notification rounds differs).
   */
  lemma IncrementsAgree(c: Config, w: World, id: Id, n: nat, v: int)
    requires EffectiveMax(c.defs, w.mem.runtimeMax, id).Some? && 0 <= GetProgress(w.mem, id) && 1 <= n
    requires v == GetProgress(w.mem, id) + n
    ensures Run(c, w, Incs(id, n)).mem == SetProgress(c, w, id, v).mem
    ensures Run(c, w, Incs(id, n)).store == SetProgress(c, w, id, v).store
  {
    IncRunIsRun(c, w, id, n);
    IncrementsReach(c, w, id, n, v, Run(c, w, Incs(id, n)));
  }

  /**
   * `dismissToast`: the first queued occurrence of the id leaves the queue, the rest keep
   * their order, and listeners are notified even when the id was not queued.
   */
  lemma DismissToastEffect(w: World, id: Id)
    ensures var r := DismissToast(w, id);
      && r.mem == w.mem.(toasts := RemoveFirst(w.mem.toasts, id))
      && r.store == w.store && r.listeners == w.listeners
      && r.events == w.events + Broadcast(w.listeners, GetState(r.mem))
    ensures Inv(w) ==> id !in DismissToast(w, id).mem.toasts
    ensures forall x :: x in w.mem.toasts && x != id ==> x in DismissToast(w, id).mem.toasts
    ensures id !in w.mem.toasts ==> DismissToast(w, id).mem == w.mem
  {
    RemoveFirstFacts(w.mem.toasts, id);
  }

  /**
   * `reset`: memory is emptied except the runtime overrides, which survive; the three
   * fields and their hashes leave storage; listeners are notified.
   */
  lemma ResetEffect(w: World)
    ensures var r := Reset(w);
      var owned := {KEY_UNLOCKED, HashKey(KEY_UNLOCKED), KEY_PROGRESS, HashKey(KEY_PROGRESS), KEY_ITEMS, HashKey(KEY_ITEMS)};
      && r.mem == Mem({}, map[], map[], w.mem.runtimeMax, [])
      && Cleared(r.store, KEY_UNLOCKED) && Cleared(r.store, KEY_PROGRESS) && Cleared(r.store, KEY_ITEMS)
      && (forall k :: k in r.store ==> k in w.store && r.store[k] == w.store[k])
      && (forall k :: k in w.store && k !in owned ==> k in r.store)
      && r.listeners == w.listeners
      && r.events == w.events + Broadcast(w.listeners, GetState(r.mem))
  {
  }

  /** `subscribe` adds a listener once; the unsubscribe function removes it and no other. */
  lemma SubscriptionEffect(w: World, l: ListenerId)
    ensures l in Subscribe(w, l).listeners
    ensures NoDup(w.listeners) ==> NoDup(Subscribe(w, l).listeners)
    ensures forall k :: k in Subscribe(w, l).listeners <==> k in w.listeners || k == l
    ensures NoDup(w.listeners) ==> l !in Unsubscribe(w, l).listeners && NoDup(Unsubscribe(w, l).listeners)
    ensures NoDup(w.listeners) ==> forall k :: k in Unsubscribe(w, l).listeners <==> k in w.listeners && k != l
    ensures var s := Subscribe(w, l); s.mem == w.mem && s.store == w.store && s.events == w.events
    ensures var u := Unsubscribe(w, l); u.mem == w.mem && u.store == w.store && u.events == w.events
  {
    RemoveFirstFacts(w.listeners, l);
  }

  // ---------------------------------------------------------------------------
  // The invariant
  // ---------------------------------------------------------------------------

  lemma CreateEstablishesInv(c: Config, store: map<string, string>)
    ensures Inv(Create(c, store))
  {
  }

  lemma UnlockKeepsInv(c: Config, w: World, id: Id)
    requires Inv(w)
    ensures Inv(Unlock(c, w, id))
  {
    if id !in w.mem.unlocked {
      var t := w.mem.toasts + [id];
      assert forall k :: 0 <= k < |w.mem.toasts| ==> t[k] == w.mem.toasts[k];
      assert id !in w.mem.toasts;
    }
  }

  lemma SetProgressKeepsInv(c: Config, w: World, id: Id, value: int)
    requires Inv(w)
    ensures Inv(SetProgress(c, w, id, value))
  {
    match EffectiveMax(c.defs, w.mem.runtimeMax, id)
    case None =>
    case Some(max) =>
      UnlockKeepsInv(c, RecordProgress(c, w, id, Clamp(value, max)), id);
  }

  lemma CollectItemKeepsInv(c: Config, w: World, id: Id, item: string)
    requires Inv(w)
    ensures Inv(CollectItem(c, w, id, item))
  {
    var before := GetItems(w.mem, id);
    if item !in before {
      SetProgressKeepsInv(c, RecordItems(c, w, id, before + {item}), id, |before| + 1);
    }
  }

  lemma DismissToastKeepsInv(w: World, id: Id)
    requires Inv(w)
    ensures Inv(DismissToast(w, id))
  {
    RemoveFirstFacts(w.mem.toasts, id);
  }

  lemma IncrementProgressKeepsInv(c: Config, w: World, id: Id)
    requires Inv(w)
    ensures Inv(IncrementProgress(c, w, id))
  {
    SetProgressKeepsInv(c, w, id, GetProgress(w.mem, id) + 1);
  }

  lemma SetMaxProgressKeepsInv(c: Config, w: World, id: Id, max: int)
    requires Inv(w)
    ensures Inv(SetMaxProgress(c, w, id, max))
  {
    SetProgressKeepsInv(c, w.(mem := w.mem.(runtimeMax := w.mem.runtimeMax[id := max])), id, GetProgress(w.mem, id));
  }

  lemma ResetKeepsInv(w: World)
    requires Inv(w)
    ensures Inv(Reset(w))
  {
  }

  lemma SubscriptionKeepsInv(w: World, l: ListenerId)
    requires Inv(w)
    ensures Inv(Subscribe(w, l)) && Inv(Unsubscribe(w, l))
  {
  }

  /** Every call keeps the invariant. */
  lemma ApplyKeepsInv(c: Config, w: World, call: Call)
    requires Inv(w)
    ensures Inv(Apply(c, w, call))
  {
    match call
    case UnlockCall(id) => UnlockKeepsInv(c, w, id);
    case SetProgressCall(id, value) => SetProgressKeepsInv(c, w, id, value);
    case IncrementProgressCall(id) => IncrementProgressKeepsInv(c, w, id);
    case CollectItemCall(id, item) => CollectItemKeepsInv(c, w, id, item);
    case SetMaxProgressCall(id, max) => SetMaxProgressKeepsInv(c, w, id, max);
    case DismissToastCall(id) => DismissToastKeepsInv(w, id);
    case ResetCall => ResetKeepsInv(w);
    case SubscribeCall(l) => SubscriptionKeepsInv(w, l);
    case UnsubscribeCall(l) => SubscriptionKeepsInv(w, l);
  }

  /** Every world reachable from a freshly created engine satisfies the invariant. */
  lemma {:induction false} RunKeepsInv(c: Config, w: World, calls: seq<Call>)
    requires Inv(w)
    ensures Inv(Run(c, w, calls))
    decreases |calls|
  {
    if calls != [] {
      ApplyKeepsInv(c, w, calls[0]);
      RunKeepsInv(c, Apply(c, w, calls[0]), calls[1..]);
    }
  }

  // ---------------------------------------------------------------------------
  // The progress invariant
  // ---------------------------------------------------------------------------

  /**
   * One tracked id's progress: the id has an effective maximum, its progress lies in
   * [0, max] (only 0 for a negative max), and a progress at the maximum means unlocked.
   */
  predicate ProgressOk(c: Config, m: Mem, id: Id)
    requires id in m.progress
  {
    var max := EffectiveMax(c.defs, m.runtimeMax, id);
    && max.Some?
    && 0 <= m.progress[id]
    && (0 <= max.value ==> m.progress[id] <= max.value)
    && (m.progress[id] >= max.value ==> id in m.unlocked)
  }

  /** Every recorded progress value is within its bounds, and a completed one is unlocked. */
  predicate ProgressInv(c: Config, w: World) {
    forall id :: id in w.mem.progress ==> ProgressOk(c, w.mem, id)
  }

  /**
   * `setProgress` settles its own id: whatever that id's recorded progress was, the result
   * keeps the progress invariant as long as every other id already kept it.
   */
  lemma SetProgressSettles(c: Config, w: World, id: Id, value: int)
    requires EffectiveMax(c.defs, w.mem.runtimeMax, id).Some?
    requires forall k :: k in w.mem.progress && k != id ==> ProgressOk(c, w.mem, k)
    ensures ProgressInv(c, SetProgress(c, w, id, value))
  {
    SetProgressEffect(c, w, id, value);
  }

  lemma SetProgressKeepsProgressInv(c: Config, w: World, id: Id, value: int)
    requires ProgressInv(c, w)
    ensures ProgressInv(c, SetProgress(c, w, id, value))
  {
    if EffectiveMax(c.defs, w.mem.runtimeMax, id).Some? {
      SetProgressSettles(c, w, id, value);
    } else {
      SetProgressEffect(c, w, id, value);
    }
  }

  lemma CollectItemKeepsProgressInv(c: Config, w: World, id: Id, item: string)
    requires ProgressInv(c, w)
    ensures ProgressInv(c, CollectItem(c, w, id, item))
  {
    var before := GetItems(w.mem, id);
    if item !in before {
      var w1 := RecordItems(c, w, id, before + {item});
      CollectItemSteps(c, w, id, item);
      assert w1.mem.progress == w.mem.progress && w1.mem.unlocked == w.mem.unlocked;
      assert w1.mem.runtimeMax == w.mem.runtimeMax;
      SetProgressKeepsProgressInv(c, w1, id, |before + {item}|);
    }
  }

  /**
   * `setMaxProgress` changes one id's maximum, which leaves every other id's effective
   * maximum as it was, and then settles that id with `setProgress`.
   */
  lemma SetMaxProgressKeepsProgressInv(c: Config, w: World, id: Id, max: int)
    requires ProgressInv(c, w)
    ensures ProgressInv(c, SetMaxProgress(c, w, id, max))
  {
    var w1 := w.(mem := w.mem.(runtimeMax := w.mem.runtimeMax[id := max]));
    assert forall k :: k != id ==> EffectiveMax(c.defs, w1.mem.runtimeMax, k) == EffectiveMax(c.defs, w.mem.runtimeMax, k);
    if EffectiveMax(c.defs, w1.mem.runtimeMax, id).Some? {
      SetProgressSettles(c, w1, id, GetProgress(w.mem, id));
    } else {
      SetProgressEffect(c, w1, id, GetProgress(w.mem, id));
    }
  }

  /** Every call keeps the progress invariant. */
  lemma ApplyKeepsProgressInv(c: Config, w: World, call: Call)
    requires ProgressInv(c, w)
    ensures ProgressInv(c, Apply(c, w, call))
  {
    match call
    case UnlockCall(id) => UnlockEffect(c, w, id);
    case SetProgressCall(id, value) => SetProgressKeepsProgressInv(c, w, id, value);
    case IncrementProgressCall(id) => SetProgressKeepsProgressInv(c, w, id, GetProgress(w.mem, id) + 1);
    case CollectItemCall(id, item) => CollectItemKeepsProgressInv(c, w, id, item);
    case SetMaxProgressCall(id, max) => SetMaxProgressKeepsProgressInv(c, w, id, max);
    case DismissToastCall(id) => DismissToastEffect(w, id);
    case ResetCall => ResetEffect(w);
    case SubscribeCall(l) => SubscriptionEffect(w, l);
    case UnsubscribeCall(l) => SubscriptionEffect(w, l);
  }

  /** Every sequence of calls from a world that keeps the progress invariant keeps it. */
  lemma {:induction false} RunKeepsProgressInv(c: Config, w: World, calls: seq<Call>)
    requires ProgressInv(c, w)
    ensures ProgressInv(c, Run(c, w, calls))
    decreases |calls|
  {
    if calls != [] {
      ApplyKeepsProgressInv(c, w, calls[0]);
      RunKeepsProgressInv(c, Apply(c, w, calls[0]), calls[1..]);
    }
  }

  /** An engine created over empty storage starts with the progress invariant. */
  lemma CreateKeepsProgressInv(c: Config)
    ensures ProgressInv(c, Create(c, map[]))
  {
    CreateOverEmptyStorage(c);
  }

  // ---------------------------------------------------------------------------
  // Storage: what is written and what a reload reads back
  // ---------------------------------------------------------------------------

  /** Writing or removing one field leaves another field's two keys as they were. */
  lemma OtherFieldsUntouched(store: map<string, string>, hash: string -> string, key: string, other: string, v: string)
    requires key in {KEY_UNLOCKED, KEY_PROGRESS, KEY_ITEMS} && other in {KEY_UNLOCKED, KEY_PROGRESS, KEY_ITEMS} && key != other
    ensures var s := PersistData(store, hash, key, v);
      && (other in s <==> other in store) && (other in s ==> s[other] == store[other])
      && (HashKey(other) in s <==> HashKey(other) in store) && (HashKey(other) in s ==> s[HashKey(other)] == store[HashKey(other)])
    ensures var s := RemoveData(store, key);
      && (other in s <==> other in store) && (other in s ==> s[other] == store[other])
      && (HashKey(other) in s <==> HashKey(other) in store) && (HashKey(other) in s ==> s[HashKey(other)] == store[HashKey(other)])
  {
    KeysDistinct();
  }

  lemma UnlockKeepsSynced(c: Config, w: World, id: Id)
    requires Synced(c, w)
    ensures Synced(c, Unlock(c, w, id))
  {
    OtherFieldsUntouched(w.store, c.hash, KEY_UNLOCKED, KEY_PROGRESS, c.codec.serUnlocked(w.mem.unlocked + {id}));
    OtherFieldsUntouched(w.store, c.hash, KEY_UNLOCKED, KEY_ITEMS, c.codec.serUnlocked(w.mem.unlocked + {id}));
  }

  lemma RecordProgressKeepsSynced(c: Config, w: World, id: Id, value: int)
    requires Synced(c, w)
    ensures Synced(c, RecordProgress(c, w, id, value))
  {
    var data := c.codec.serProgress(w.mem.progress[id := value]);
    OtherFieldsUntouched(w.store, c.hash, KEY_PROGRESS, KEY_UNLOCKED, data);
    OtherFieldsUntouched(w.store, c.hash, KEY_PROGRESS, KEY_ITEMS, data);
  }

  lemma RecordItemsKeepsSynced(c: Config, w: World, id: Id, collected: set<string>)
    requires Synced(c, w)
    ensures Synced(c, RecordItems(c, w, id, collected))
  {
    var data := c.codec.serItems(w.mem.items[id := collected]);
    OtherFieldsUntouched(w.store, c.hash, KEY_ITEMS, KEY_UNLOCKED, data);
    OtherFieldsUntouched(w.store, c.hash, KEY_ITEMS, KEY_PROGRESS, data);
  }

  lemma SetProgressKeepsSynced(c: Config, w: World, id: Id, value: int)
    requires Synced(c, w)
    ensures Synced(c, SetProgress(c, w, id, value))
  {
    match EffectiveMax(c.defs, w.mem.runtimeMax, id)
    case None =>
    case Some(max) =>
      RecordProgressKeepsSynced(c, w, id, Clamp(value, max));
      UnlockKeepsSynced(c, RecordProgress(c, w, id, Clamp(value, max)), id);
  }

  lemma CollectItemKeepsSynced(c: Config, w: World, id: Id, item: string)
    requires Synced(c, w)
    ensures Synced(c, CollectItem(c, w, id, item))
  {
    var before := GetItems(w.mem, id);
    if item !in before {
      var w1 := RecordItems(c, w, id, before + {item});
      assert CollectItem(c, w, id, item) == SetProgress(c, w1, id, |before| + 1);
      RecordItemsKeepsSynced(c, w, id, before + {item});
      SetProgressKeepsSynced(c, w1, id, |before| + 1);
    }
  }

  lemma IncrementProgressKeepsSynced(c: Config, w: World, id: Id)
    requires Synced(c, w)
    ensures Synced(c, IncrementProgress(c, w, id))
  {
    assert IncrementProgress(c, w, id) == SetProgress(c, w, id, GetProgress(w.mem, id) + 1);
    SetProgressKeepsSynced(c, w, id, GetProgress(w.mem, id) + 1);
  }

  lemma SetMaxProgressKeepsSynced(c: Config, w: World, id: Id, max: int)
    requires Synced(c, w)
    ensures Synced(c, SetMaxProgress(c, w, id, max))
  {
    SetProgressKeepsSynced(c, w.(mem := w.mem.(runtimeMax := w.mem.runtimeMax[id := max])), id, GetProgress(w.mem, id));
  }

  lemma ResetKeepsSynced(c: Config, w: World)
    ensures Synced(c, Reset(w))
  {
  }

  lemma OthersKeepSynced(c: Config, w: World, id: Id, l: ListenerId)
    requires Synced(c, w)
    ensures Synced(c, DismissToast(w, id)) && Synced(c, Subscribe(w, l)) && Synced(c, Unsubscribe(w, l))
  {
  }

  /** Every call leaves storage holding exactly what memory holds. */
  lemma ApplyKeepsSynced(c: Config, w: World, call: Call)
    requires Synced(c, w)
    ensures Synced(c, Apply(c, w, call))
  {
    var r := Apply(c, w, call);
    match call
    case UnlockCall(id) =>
      assert r == Unlock(c, w, id);
      UnlockKeepsSynced(c, w, id);
    case SetProgressCall(id, value) =>
      assert r == SetProgress(c, w, id, value);
      SetProgressKeepsSynced(c, w, id, value);
    case IncrementProgressCall(id) =>
      assert r == IncrementProgress(c, w, id);
      IncrementProgressKeepsSynced(c, w, id);
    case CollectItemCall(id, item) =>
      assert r == CollectItem(c, w, id, item);
      CollectItemKeepsSynced(c, w, id, item);
    case SetMaxProgressCall(id, max) =>
      assert r == SetMaxProgress(c, w, id, max);
      SetMaxProgressKeepsSynced(c, w, id, max);
    case DismissToastCall(id) =>
      assert r == DismissToast(w, id);
      OthersKeepSynced(c, w, id, 0);
    case ResetCall =>
      assert r == Reset(w);
      ResetKeepsSynced(c, w);
    case SubscribeCall(l) =>
      assert r == Subscribe(w, l);
      OthersKeepSynced(c, w, "", l);
    case UnsubscribeCall(l) =>
      assert r == Unsubscribe(w, l);
      OthersKeepSynced(c, w, "", l);
  }

  lemma {:induction false} RunKeepsSynced(c: Config, w: World, calls: seq<Call>)
    requires Synced(c, w)
    ensures Synced(c, Run(c, w, calls))
    decreases |calls|
  {
    if calls != [] {
      ApplyKeepsSynced(c, w, calls[0]);
      RunKeepsSynced(c, Apply(c, w, calls[0]), calls[1..]);
    }
  }

  /** An engine created over empty storage is empty, reports nothing, and is in sync with storage. */
  lemma CreateOverEmptyStorage(c: Config)
    ensures Create(c, map[]) == World(Mem({}, map[], map[], map[], []), map[], [], [])
    ensures Synced(c, Create(c, map[]))
  {
  }

  /**
   * A field written by the engine hydrates back to the value written, and leaves storage
   * as it was; an absent field hydrates to the fallback.
   */
  lemma HydrateSyncedField<T>(store: map<string, string>, hash: string -> string, key: string,
                              ser: T -> string, parse: string -> Option<T>, value: T, fallback: T)
    requires parse(ser(value)) == Some(value) && ser(value) != ""
    requires FieldSynced(store, hash, key, ser(value), value == fallback)
    ensures HydrateField(store, hash, key, parse, fallback) == Loaded(value, store, [])
  {
  }

  /**
   * Reload: with a lawful JSON codec, a new engine over the storage an engine left in sync
   * has the same unlocked set, progress and items, reports no tampering and changes no key.
   * Runtime max overrides and the toast queue are not persisted and start empty.
   */
  lemma ReloadRestores(c: Config, w: World)
    requires Lawful(c.codec) && Synced(c, w)
    ensures Create(c, w.store) == World(Mem(w.mem.unlocked, w.mem.progress, w.mem.items, map[], []), w.store, [], [])
  {
    HydrateSyncedField(w.store, c.hash, KEY_UNLOCKED, c.codec.serUnlocked, c.codec.parseUnlocked, w.mem.unlocked, {});
    HydrateSyncedField(w.store, c.hash, KEY_PROGRESS, c.codec.serProgress, c.codec.parseProgress, w.mem.progress, map[]);
    HydrateSyncedField(w.store, c.hash, KEY_ITEMS, c.codec.serItems, c.codec.parseItems, w.mem.items, map[]);
  }

  /**
   * Persistence round trip: whatever calls an engine over empty storage receives, a new
   * engine over the storage it leaves behind restores its unlocked set, progress and
   * items without reporting tampering.
   */
  lemma PersistenceRoundTrip(c: Config, calls: seq<Call>)
    requires Lawful(c.codec)
    ensures var w := Run(c, Create(c, map[]), calls);
      Create(c, w.store) == World(Mem(w.mem.unlocked, w.mem.progress, w.mem.items, map[], []), w.store, [], [])
  {
    CreateOverEmptyStorage(c);
    RunKeepsSynced(c, Create(c, map[]), calls);
    ReloadRestores(c, Run(c, Create(c, map[]), calls));
  }

  /** After `reset()`, a new engine over the same storage starts empty and reports nothing. */
  lemma ReloadAfterReset(c: Config, w: World)
    ensures Create(c, Reset(w).store) == World(Mem({}, map[], map[], map[], []), Reset(w).store, [], [])
  {
    KeysDistinct();
  }

  // ---------------------------------------------------------------------------
  // Tampering
  // ---------------------------------------------------------------------------

  /** Two stores agree on a field's data key and hash key. */
  predicate SameField(s: map<string, string>, t: map<string, string>, key: string) {
    && (key in s <==> key in t) && (key in s ==> s[key] == t[key])
    && (HashKey(key) in s <==> HashKey(key) in t) && (HashKey(key) in s ==> s[HashKey(key)] == t[HashKey(key)])
  }

  /** A field whose two keys are as the engine wrote them hydrates to the value written, touching nothing. */
  lemma HydrateKeptField<T>(s: map<string, string>, written: map<string, string>, hash: string -> string, key: string,
                            ser: T -> string, parse: string -> Option<T>, value: T, fallback: T)
    requires parse(ser(value)) == Some(value) && ser(value) != ""
    requires FieldSynced(written, hash, key, ser(value), value == fallback) && SameField(s, written, key)
    ensures HydrateField(s, hash, key, parse, fallback) == Loaded(value, s, [])
  {
  }

  /** The tampered field hydrates to its fallback, with one report and both keys removed. */
  lemma HydrateTamperedField<T>(s: map<string, string>, hash: string -> string, key: string,
                                parse: string -> Option<T>, fallback: T)
    requires key in s && s[key] != "" && HashKey(key) in s && s[HashKey(key)] != hash(s[key])
    ensures HydrateField(s, hash, key, parse, fallback) == Loaded(fallback, RemoveData(s, key), [TamperDetected(key)])
  {
  }

  /** An outside write to one field's data key leaves the other two fields as they were. */
  lemma TamperKeepsOtherField(w: World, key: string, other: string, value: string)
    requires key in {KEY_UNLOCKED, KEY_PROGRESS, KEY_ITEMS} && other in {KEY_UNLOCKED, KEY_PROGRESS, KEY_ITEMS} && key != other
    ensures SameField(Tamper(w, key, value).store, w.store, other)
  {
    KeysDistinct();
  }

  lemma ReloadDetectsTamperedUnlocked(c: Config, w: World, value: string)
    requires Lawful(c.codec) && Synced(c, w)
    requires HashKey(KEY_UNLOCKED) in w.store && value != "" && c.hash(value) != w.store[HashKey(KEY_UNLOCKED)]
    ensures var r := Create(c, Tamper(w, KEY_UNLOCKED, value).store);
      r.mem == Mem({}, w.mem.progress, w.mem.items, map[], []) && r.events == [TamperDetected(KEY_UNLOCKED)] &&
      Cleared(r.store, KEY_UNLOCKED)
  {
    var t := Tamper(w, KEY_UNLOCKED, value).store;
    assert HashKey(KEY_UNLOCKED) != KEY_UNLOCKED by { KeysDistinct(); }
    HydrateTamperedField(t, c.hash, KEY_UNLOCKED, c.codec.parseUnlocked, {});
    var s1 := RemoveData(t, KEY_UNLOCKED);
    TamperKeepsOtherField(w, KEY_UNLOCKED, KEY_PROGRESS, value);
    TamperKeepsOtherField(w, KEY_UNLOCKED, KEY_ITEMS, value);
    HydrateKeepsOtherField(t, c.hash, KEY_UNLOCKED, KEY_PROGRESS, c.codec.parseUnlocked, {}, "");
    HydrateKeepsOtherField(t, c.hash, KEY_UNLOCKED, KEY_ITEMS, c.codec.parseUnlocked, {}, "");
    HydrateKeptField(s1, w.store, c.hash, KEY_PROGRESS, c.codec.serProgress, c.codec.parseProgress, w.mem.progress, map[]);
    HydrateKeptField(s1, w.store, c.hash, KEY_ITEMS, c.codec.serItems, c.codec.parseItems, w.mem.items, map[]);
  }

  /**
   * Reload after only the unlocked record was overwritten: the unlocked set starts empty
   * while progress is restored, so an id whose progress had reached its maximum comes
   * back locked and the progress invariant no longer holds.
   */
  lemma TamperedUnlockedLeavesUnlockPending(c: Config, w: World, value: string, id: Id)
    requires Lawful(c.codec) && Synced(c, w)
    requires HashKey(KEY_UNLOCKED) in w.store && value != "" && c.hash(value) != w.store[HashKey(KEY_UNLOCKED)]
    requires id in w.mem.progress && id !in w.mem.runtimeMax && ProgressOk(c, w.mem, id)
    requires w.mem.progress[id] >= EffectiveMax(c.defs, w.mem.runtimeMax, id).value
    ensures var r := Create(c, Tamper(w, KEY_UNLOCKED, value).store);
      && id in r.mem.progress && id !in r.mem.unlocked
      && r.mem.progress[id] >= EffectiveMax(c.defs, r.mem.runtimeMax, id).value
      && !ProgressInv(c, r)
  {
    ReloadDetectsTamperedUnlocked(c, w, value);
    var r := Create(c, Tamper(w, KEY_UNLOCKED, value).store);
    assert EffectiveMax(c.defs, r.mem.runtimeMax, id) == EffectiveMax(c.defs, w.mem.runtimeMax, id);
    assert !ProgressOk(c, r.mem, id);
  }

  lemma ReloadDetectsTamperedProgress(c: Config, w: World, value: string)
    requires Lawful(c.codec) && Synced(c, w)
    requires HashKey(KEY_PROGRESS) in w.store && value != "" && c.hash(value) != w.store[HashKey(KEY_PROGRESS)]
    ensures var r := Create(c, Tamper(w, KEY_PROGRESS, value).store);
      r.mem == Mem(w.mem.unlocked, map[], w.mem.items, map[], []) && r.events == [TamperDetected(KEY_PROGRESS)] &&
      Cleared(r.store, KEY_PROGRESS)
  {
    var t := Tamper(w, KEY_PROGRESS, value).store;
    assert HashKey(KEY_PROGRESS) != KEY_PROGRESS by { KeysDistinct(); }
    TamperKeepsOtherField(w, KEY_PROGRESS, KEY_UNLOCKED, value);
    TamperKeepsOtherField(w, KEY_PROGRESS, KEY_ITEMS, value);
    HydrateKeptField(t, w.store, c.hash, KEY_UNLOCKED, c.codec.serUnlocked, c.codec.parseUnlocked, w.mem.unlocked, {});
    HydrateTamperedField(t, c.hash, KEY_PROGRESS, c.codec.parseProgress, map[]);
    var s1 := RemoveData(t, KEY_PROGRESS);
    HydrateKeepsOtherField(t, c.hash, KEY_PROGRESS, KEY_ITEMS, c.codec.parseProgress, map[], "");
    HydrateKeptField(s1, w.store, c.hash, KEY_ITEMS, c.codec.serItems, c.codec.parseItems, w.mem.items, map[]);
  }

  lemma ReloadDetectsTamperedItems(c: Config, w: World, value: string)
    requires Lawful(c.codec) && Synced(c, w)
    requires HashKey(KEY_ITEMS) in w.store && value != "" && c.hash(value) != w.store[HashKey(KEY_ITEMS)]
    ensures var r := Create(c, Tamper(w, KEY_ITEMS, value).store);
      r.mem == Mem(w.mem.unlocked, w.mem.progress, map[], map[], []) && r.events == [TamperDetected(KEY_ITEMS)] &&
      Cleared(r.store, KEY_ITEMS)
  {
    var t := Tamper(w, KEY_ITEMS, value).store;
    assert HashKey(KEY_ITEMS) != KEY_ITEMS by { KeysDistinct(); }
    TamperKeepsOtherField(w, KEY_ITEMS, KEY_UNLOCKED, value);
    TamperKeepsOtherField(w, KEY_ITEMS, KEY_PROGRESS, value);
    HydrateKeptField(t, w.store, c.hash, KEY_UNLOCKED, c.codec.serUnlocked, c.codec.parseUnlocked, w.mem.unlocked, {});
    HydrateKeptField(t, w.store, c.hash, KEY_PROGRESS, c.codec.serProgress, c.codec.parseProgress, w.mem.progress, map[]);
    HydrateTamperedField(t, c.hash, KEY_ITEMS, c.codec.parseItems, map[]);
  }

  /**
   * Reload after an outside edit: when a field the engine had written (its hash is
   * stored) is overwritten with data whose hash differs, a new engine reports that key
   * once and nothing else, removes its two keys, starts that field empty and restores
   * the other two fields.
   */
  lemma ReloadDetectsTamper(c: Config, w: World, key: string, value: string)
    requires Lawful(c.codec) && Synced(c, w)
    requires key in {KEY_UNLOCKED, KEY_PROGRESS, KEY_ITEMS}
    requires HashKey(key) in w.store && value != "" && c.hash(value) != w.store[HashKey(key)]
    ensures var r := Create(c, Tamper(w, key, value).store);
      && r.events == [TamperDetected(key)]
      && Cleared(r.store, key)
      && r.mem.unlocked == (if key == KEY_UNLOCKED then {} else w.mem.unlocked)
      && r.mem.progress == (if key == KEY_PROGRESS then map[] else w.mem.progress)
      && r.mem.items == (if key == KEY_ITEMS then map[] else w.mem.items)
  {
    KeysDistinct();
    if key == KEY_UNLOCKED {
      ReloadDetectsTamperedUnlocked(c, w, value);
    } else if key == KEY_PROGRESS {
      ReloadDetectsTamperedProgress(c, w, value);
    } else {
      ReloadDetectsTamperedItems(c, w, value);
    }
  }

  /**
   * With the FNV-1a adapter as the engine's hash, overwriting a field the engine wrote
   * with a value one UTF-16 code unit away from it is always caught at reload.
   */
  lemma ReloadDetectsOneUnitEdit(c: Config, w: World, key: string, value: string, k: nat)
    requires Lawful(c.codec) && Synced(c, w) && forall s :: c.hash(s) == Fnv1a.Digest(s)
    requires key in {KEY_UNLOCKED, KEY_PROGRESS, KEY_ITEMS} && key in w.store && value != ""
    requires Fnv1a.OneUnitApart(Fnv1a.CodeUnits(w.store[key]), Fnv1a.CodeUnits(value), k)
    ensures var r := Create(c, Tamper(w, key, value).store);
      && r.events == [TamperDetected(key)]
      && Cleared(r.store, key)
      && r.mem.unlocked == (if key == KEY_UNLOCKED then {} else w.mem.unlocked)
      && r.mem.progress == (if key == KEY_PROGRESS then map[] else w.mem.progress)
      && r.mem.items == (if key == KEY_ITEMS then map[] else w.mem.items)
  {
    Fnv1a.DigestOneUnitApart(w.store[key], value, k);
    assert HashKey(key) in w.store && w.store[HashKey(key)] == c.hash(w.store[key]);
    ReloadDetectsTamper(c, w, key, value);
  }

  /**
   * Tampering between two unlocks: after an outside edit of the stored unlocked set, the
   * next fresh unlock reports `unlocked` once, before `onUnlock` and the notification.
   */
  lemma UnlockReportsTamperedSet(c: Config, w: World, value: string, id: Id)
    requires id !in w.mem.unlocked
    requires HashKey(KEY_UNLOCKED) in w.store && c.hash(value) != w.store[HashKey(KEY_UNLOCKED)]
    ensures var r := Unlock(c, Tamper(w, KEY_UNLOCKED, value), id);
      r.events == w.events + [TamperDetected(KEY_UNLOCKED), UnlockFired(id)] + Broadcast(w.listeners, GetState(r.mem))
  {
    var t := Tamper(w, KEY_UNLOCKED, value);
    assert !VerifyStoredIntegrity(t.store, c.hash, KEY_UNLOCKED) by { KeysDistinct(); }
    UnlockLog(c, t, id);
    UnlockEffect(c, t, id);
  }

  /**
   * Whatever an outside edit wrote to the unlocked key, a fresh unlock overwrites it with
   * the in-memory set, so ids written from outside are gone and a reload restores exactly
   * the engine's unlocked set, the other two fields, and no report.
   */
  lemma UnlockOverwritesTamperedSet(c: Config, w: World, value: string, id: Id)
    requires Lawful(c.codec) && Synced(c, w) && id !in w.mem.unlocked
    ensures var r := Unlock(c, Tamper(w, KEY_UNLOCKED, value), id);
      && Synced(c, r)
      && Create(c, r.store).mem.unlocked == w.mem.unlocked + {id}
      && Create(c, r.store).events == []
  {
    var t := Tamper(w, KEY_UNLOCKED, value);
    var r := Unlock(c, t, id);
    var data := c.codec.serUnlocked(w.mem.unlocked + {id});
    UnlockEffect(c, t, id);
    assert r.store == PersistData(t.store, c.hash, KEY_UNLOCKED, data);
    TamperKeepsOtherField(w, KEY_UNLOCKED, KEY_PROGRESS, value);
    TamperKeepsOtherField(w, KEY_UNLOCKED, KEY_ITEMS, value);
    OtherFieldsUntouched(t.store, c.hash, KEY_UNLOCKED, KEY_PROGRESS, data);
    OtherFieldsUntouched(t.store, c.hash, KEY_UNLOCKED, KEY_ITEMS, data);
    FieldSyncedCarries(r.store, w.store, c.hash, KEY_PROGRESS, c.codec.serProgress(w.mem.progress), w.mem.progress == map[]);
    FieldSyncedCarries(r.store, w.store, c.hash, KEY_ITEMS, c.codec.serItems(w.mem.items), w.mem.items == map[]);
    assert Synced(c, r);
    ReloadRestores(c, r);
  }

  /** Whether a field is in sync depends only on its two keys. */
  lemma FieldSyncedCarries(s: map<string, string>, t: map<string, string>, hash: string -> string, key: string,
                           data: string, empty: bool)
    requires FieldSynced(t, hash, key, data, empty) && SameField(s, t, key)
    ensures FieldSynced(s, hash, key, data, empty)
  {
  }

  /** Hydrating one field leaves the data and hash keys of the other two as they were. */
  lemma HydrateKeepsOtherField<T>(s: map<string, string>, hash: string -> string, key: string, other: string,
                                  parse: string -> Option<T>, fallback: T, v: string)
    requires key in {KEY_UNLOCKED, KEY_PROGRESS, KEY_ITEMS} && other in {KEY_UNLOCKED, KEY_PROGRESS, KEY_ITEMS} && key != other
    ensures SameField(HydrateField(s, hash, key, parse, fallback).store, s, other)
  {
    OtherFieldsUntouched(s, hash, key, other, v);
  }

  /**
   * A hash left without its data is not reported by hydration (which sees no data), but
   * the next unlock's integrity check fails on it and reports `unlocked`.
   */
  lemma OrphanHashSurvivesReload(c: Config, store: map<string, string>)
    requires KEY_UNLOCKED !in store && HashKey(KEY_UNLOCKED) in store
    ensures var w := Create(c, store);
      && TamperDetected(KEY_UNLOCKED) !in w.events
      && w.mem.unlocked == {} && w.listeners == []
      && !VerifyStoredIntegrity(w.store, c.hash, KEY_UNLOCKED)
  {
    var u := HydrateField(store, c.hash, KEY_UNLOCKED, c.codec.parseUnlocked, {});
    var p := HydrateField(u.store, c.hash, KEY_PROGRESS, c.codec.parseProgress, map[]);
    var i := HydrateField(p.store, c.hash, KEY_ITEMS, c.codec.parseItems, map[]);
    assert u == Loaded({}, store, []);
    HydrateKeepsOtherField(u.store, c.hash, KEY_PROGRESS, KEY_UNLOCKED, c.codec.parseProgress, map[], "");
    HydrateKeepsOtherField(p.store, c.hash, KEY_ITEMS, KEY_UNLOCKED, c.codec.parseItems, map[], "");
    KeysDistinct();
    assert p.events == [] || p.events == [TamperDetected(KEY_PROGRESS)];
    assert i.events == [] || i.events == [TamperDetected(KEY_ITEMS)];
  }

  lemma OrphanHashReportedOnUnlock(c: Config, store: map<string, string>, id: Id)
    requires KEY_UNLOCKED !in store && HashKey(KEY_UNLOCKED) in store
    ensures TamperDetected(KEY_UNLOCKED) !in Create(c, store).events
    ensures Unlock(c, Create(c, store), id).events == Create(c, store).events + [TamperDetected(KEY_UNLOCKED), UnlockFired(id)]
  {
    OrphanHashSurvivesReload(c, store);
    UnlockLog(c, Create(c, store), id);
    UnlockEffect(c, Create(c, store), id);
  }

  // ---------------------------------------------------------------------------
  // Callbacks: what each call reports, fires and delivers
  // ---------------------------------------------------------------------------

  /** Reading the log of two stretches of events is reading each in turn. */
  lemma {:induction false} TampersAppend(a: seq<Event>, b: seq<Event>)
    ensures Tampers(a + b) == Tampers(a) + Tampers(b)
    decreases |b|
  {
    if b == [] {
      assert a + b == a;
    } else {
      TampersAppend(a, b[..|b| - 1]);
      assert (a + b)[..|a + b| - 1] == a + b[..|b| - 1];
    }
  }

  lemma {:induction false} UnlocksAppend(a: seq<Event>, b: seq<Event>)
    ensures Unlocks(a + b) == Unlocks(a) + Unlocks(b)
    decreases |b|
  {
    if b == [] {
      assert a + b == a;
    } else {
      UnlocksAppend(a, b[..|b| - 1]);
      assert (a + b)[..|a + b| - 1] == a + b[..|b| - 1];
    }
  }

  lemma {:induction false} ReceivedAppend(a: seq<Event>, b: seq<Event>, l: ListenerId)
    ensures Received(a + b, l) == Received(a, l) + Received(b, l)
    decreases |b|
  {
    if b == [] {
      assert a + b == a;
    } else {
      ReceivedAppend(a, b[..|b| - 1], l);
      assert (a + b)[..|a + b| - 1] == a + b[..|b| - 1];
    }
  }

  lemma ProjectionsAppend(a: seq<Event>, b: seq<Event>, l: ListenerId)
    ensures Tampers(a + b) == Tampers(a) + Tampers(b)
    ensures Unlocks(a + b) == Unlocks(a) + Unlocks(b)
    ensures Received(a + b, l) == Received(a, l) + Received(b, l)
  {
    TampersAppend(a, b);
    UnlocksAppend(a, b);
    ReceivedAppend(a, b, l);
  }

  /** A broadcast reports nothing, fires nothing, and reaches each registered listener once. */
  lemma BroadcastProjections(ls: seq<ListenerId>, state: Snapshot, l: ListenerId)
    requires NoDup(ls)
    ensures Tampers(Broadcast(ls, state)) == [] && Unlocks(Broadcast(ls, state)) == []
    ensures Received(Broadcast(ls, state), l) == if l in ls then [state] else []
  {
    BroadcastSilent(ls, state);
    BroadcastReceived(ls, state, l);
  }

  lemma {:induction false} BroadcastSilent(ls: seq<ListenerId>, state: Snapshot)
    ensures Tampers(Broadcast(ls, state)) == [] && Unlocks(Broadcast(ls, state)) == []
    decreases |ls|
  {
    if ls != [] {
      var b := Broadcast(ls, state);
      assert b[..|ls| - 1] == Broadcast(ls[..|ls| - 1], state);
      BroadcastSilent(ls[..|ls| - 1], state);
    }
  }

  lemma {:induction false} BroadcastReceived(ls: seq<ListenerId>, state: Snapshot, l: ListenerId)
    requires NoDup(ls)
    ensures Received(Broadcast(ls, state), l) == if l in ls then [state] else []
    decreases |ls|
  {
    if ls != [] {
      var init := ls[..|ls| - 1];
      var last := ls[|ls| - 1];
      var b := Broadcast(ls, state);
      assert b[..|ls| - 1] == Broadcast(init, state);
      assert b[|ls| - 1] == Delivered(last, state);
      assert NoDup(init) && last !in init by {
        assert forall i :: 0 <= i < |init| ==> init[i] == ls[i];
      }
      BroadcastReceived(init, state, l);
      assert l in ls <==> l in init || l == last by {
        assert ls == init + [last];
      }
    }
  }

  /** The id a call names, if any. */
  function Target(call: Call): Option<Id> {
    match call
    case UnlockCall(id) => Some(id)
    case SetProgressCall(id, _) => Some(id)
    case IncrementProgressCall(id) => Some(id)
    case CollectItemCall(id, _) => Some(id)
    case SetMaxProgressCall(id, _) => Some(id)
    case DismissToastCall(id) => Some(id)
    case ResetCall => None
    case SubscribeCall(_) => None
    case UnsubscribeCall(_) => None
  }

  /** Whether the call unlocked the id it names. */
  predicate FreshUnlock(c: Config, w: World, call: Call) {
    Target(call).Some? && Target(call).value !in w.mem.unlocked && Target(call).value in Apply(c, w, call).mem.unlocked
  }

  /** The id a call newly unlocks, if any. */
  function NewlyUnlocked(c: Config, w: World, call: Call): Option<Id> {
    if FreshUnlock(c, w, call) then Target(call) else None
  }

  /** `Some(id)` when `id` went from locked in `w` to unlocked in `r`. */
  function Gained(w: World, r: World, id: Id): Option<Id> {
    if id !in w.mem.unlocked && id in r.mem.unlocked then Some(id) else None
  }

  /**
   * A log made of an unlock report (when an id is newly unlocked: a failed check of the
   * stored unlocked set, then `onUnlock`) followed by a broadcast (when the call notifies).
   */
  function CallLog(verified: bool, unlocked: Option<Id>, notifies: bool, ls: seq<ListenerId>, state: Snapshot): seq<Event> {
    (if unlocked.Some? then (if verified then [] else [TamperDetected(KEY_UNLOCKED)]) + [UnlockFired(unlocked.value)] else []) +
    (if notifies then Broadcast(ls, state) else [])
  }

  /** Persisting progress or items leaves the integrity check of the unlocked set as it was. */
  lemma PersistKeepsUnlockedCheck(store: map<string, string>, hash: string -> string, key: string, v: string)
    requires key == KEY_PROGRESS || key == KEY_ITEMS
    ensures VerifyStoredIntegrity(PersistData(store, hash, key, v), hash, KEY_UNLOCKED) == VerifyStoredIntegrity(store, hash, KEY_UNLOCKED)
  {
    OtherFieldsUntouched(store, hash, key, KEY_UNLOCKED, v);
  }

  lemma UnlockLog(c: Config, w: World, id: Id)
    ensures var r := Unlock(c, w, id);
      r.events == w.events + CallLog(VerifyStoredIntegrity(w.store, c.hash, KEY_UNLOCKED), Gained(w, r, id),
                                     id !in w.mem.unlocked, w.listeners, GetState(r.mem))
  {
  }

  lemma SetProgressLog(c: Config, w: World, id: Id, value: int)
    ensures var r := SetProgress(c, w, id, value);
      r.events == w.events + CallLog(VerifyStoredIntegrity(w.store, c.hash, KEY_UNLOCKED), Gained(w, r, id),
                                     EffectiveMax(c.defs, w.mem.runtimeMax, id).Some?, w.listeners, GetState(r.mem))
  {
    match EffectiveMax(c.defs, w.mem.runtimeMax, id)
    case None =>
    case Some(max) =>
      var w1 := RecordProgress(c, w, id, Clamp(value, max));
      PersistKeepsUnlockedCheck(w.store, c.hash, KEY_PROGRESS, c.codec.serProgress(w1.mem.progress));
      if Clamp(value, max) >= max && id !in w.mem.unlocked {
        assert SetProgress(c, w, id, value) == Unlock(c, w1, id);
        UnlockLog(c, w1, id);
      } else {
        assert SetProgress(c, w, id, value) == Notify(w1);
      }
  }

  lemma CollectItemLog(c: Config, w: World, id: Id, item: string)
    ensures var r := CollectItem(c, w, id, item);
      r.events == w.events + CallLog(VerifyStoredIntegrity(w.store, c.hash, KEY_UNLOCKED), Gained(w, r, id),
                                     item !in GetItems(w.mem, id) && EffectiveMax(c.defs, w.mem.runtimeMax, id).Some?,
                                     w.listeners, GetState(r.mem))
  {
    var before := GetItems(w.mem, id);
    if item !in before {
      var w1 := RecordItems(c, w, id, before + {item});
      PersistKeepsUnlockedCheck(w.store, c.hash, KEY_ITEMS, c.codec.serItems(w1.mem.items));
      SetProgressLog(c, w1, id, |before| + 1);
    }
  }

  lemma IncrementProgressLog(c: Config, w: World, id: Id)
    ensures var r := IncrementProgress(c, w, id);
      r.events == w.events + CallLog(VerifyStoredIntegrity(w.store, c.hash, KEY_UNLOCKED), Gained(w, r, id),
                                     EffectiveMax(c.defs, w.mem.runtimeMax, id).Some?, w.listeners, GetState(r.mem))
  {
    SetProgressLog(c, w, id, GetProgress(w.mem, id) + 1);
  }

  lemma SetMaxProgressLog(c: Config, w: World, id: Id, max: int)
    ensures var r := SetMaxProgress(c, w, id, max);
      r.events == w.events + CallLog(VerifyStoredIntegrity(w.store, c.hash, KEY_UNLOCKED), Gained(w, r, id),
                                     FindDef(c.defs, id).Some?, w.listeners, GetState(r.mem))
  {
    var w1 := w.(mem := w.mem.(runtimeMax := w.mem.runtimeMax[id := max]));
    SetProgressLog(c, w1, id, GetProgress(w.mem, id));
  }

  /**
   * The complete log of one call: the unlock report exactly when the call unlocks the id
   * it names, then one broadcast of the final state exactly when the call notifies. A
   * setProgress that unlocks therefore notifies once, not twice.
   */
  predicate LogShaped(c: Config, w: World, call: Call) {
    Apply(c, w, call).events == w.events +
      CallLog(VerifyStoredIntegrity(w.store, c.hash, KEY_UNLOCKED), NewlyUnlocked(c, w, call), Notifies(c, w, call),
              w.listeners, GetState(Apply(c, w, call).mem))
  }

  lemma ApplyLog(c: Config, w: World, call: Call)
    ensures Apply(c, w, call).events == w.events +
      CallLog(VerifyStoredIntegrity(w.store, c.hash, KEY_UNLOCKED), NewlyUnlocked(c, w, call), Notifies(c, w, call),
              w.listeners, GetState(Apply(c, w, call).mem))
  {
    match call
    case UnlockCall(_) => UnlockCallLog(c, w, call);
    case SetProgressCall(_, _) => SetProgressCallLog(c, w, call);
    case IncrementProgressCall(_) => IncrementProgressCallLog(c, w, call);
    case CollectItemCall(_, _) => CollectItemCallLog(c, w, call);
    case SetMaxProgressCall(_, _) => SetMaxProgressCallLog(c, w, call);
    case DismissToastCall(_) => QuietCallLog(c, w, call);
    case ResetCall => QuietCallLog(c, w, call);
    case SubscribeCall(_) => QuietCallLog(c, w, call);
    case UnsubscribeCall(_) => QuietCallLog(c, w, call);
  }

  lemma UnlockCallLog(c: Config, w: World, call: Call)
    requires call.UnlockCall?
    ensures LogShaped(c, w, call)
  {
    UnlockLog(c, w, call.id);
  }

  lemma SetProgressCallLog(c: Config, w: World, call: Call)
    requires call.SetProgressCall?
    ensures LogShaped(c, w, call)
  {
    SetProgressLog(c, w, call.id, call.value);
  }

  lemma IncrementProgressCallLog(c: Config, w: World, call: Call)
    requires call.IncrementProgressCall?
    ensures LogShaped(c, w, call)
  {
    IncrementProgressLog(c, w, call.id);
  }

  lemma CollectItemCallLog(c: Config, w: World, call: Call)
    requires call.CollectItemCall?
    ensures LogShaped(c, w, call)
  {
    CollectItemLog(c, w, call.id, call.item);
  }

  lemma SetMaxProgressCallLog(c: Config, w: World, call: Call)
    requires call.SetMaxProgressCall?
    ensures LogShaped(c, w, call)
  {
    SetMaxProgressLog(c, w, call.id, call.max);
  }

  lemma QuietCallLog(c: Config, w: World, call: Call)
    requires call.DismissToastCall? || call.ResetCall? || call.SubscribeCall? || call.UnsubscribeCall?
    ensures LogShaped(c, w, call)
  {
  }

  /** What an unlock report puts in each projection of the log. */
  lemma ReadReport(verified: bool, unlocked: Option<Id>, l: ListenerId)
    ensures var report := CallLog(verified, unlocked, false, [], Snapshot({}, map[], []));
      && Received(report, l) == []
      && Unlocks(report) == (if unlocked.Some? then [unlocked.value] else [])
      && Tampers(report) == (if unlocked.Some? && !verified then [KEY_UNLOCKED] else [])
  {
    if unlocked.Some? {
      var tamper: seq<Event> := if verified then [] else [TamperDetected(KEY_UNLOCKED)];
      ProjectionsAppend(tamper, [UnlockFired(unlocked.value)], l);
      assert Unlocks([UnlockFired(unlocked.value)]) == Unlocks([]) + [unlocked.value];
      assert Tampers([TamperDetected(KEY_UNLOCKED)]) == Tampers([]) + [KEY_UNLOCKED];
      assert CallLog(verified, unlocked, false, [], Snapshot({}, map[], [])) == tamper + [UnlockFired(unlocked.value)] + [];
    }
  }

  /** What a log of the shape `CallLog` reports, fires and delivers. */
  lemma ReadCallLog(verified: bool, unlocked: Option<Id>, notifies: bool, ls: seq<ListenerId>, state: Snapshot, l: ListenerId)
    requires NoDup(ls)
    ensures Received(CallLog(verified, unlocked, notifies, ls, state), l) == (if notifies && l in ls then [state] else [])
    ensures Unlocks(CallLog(verified, unlocked, notifies, ls, state)) == (if unlocked.Some? then [unlocked.value] else [])
    ensures Tampers(CallLog(verified, unlocked, notifies, ls, state)) ==
              (if unlocked.Some? && !verified then [KEY_UNLOCKED] else [])
  {
    var report := CallLog(verified, unlocked, false, [], Snapshot({}, map[], []));
    var sent := if notifies then Broadcast(ls, state) else [];
    assert CallLog(verified, unlocked, notifies, ls, state) == report + sent;
    ProjectionsAppend(report, sent, l);
    ReadReport(verified, unlocked, l);
    BroadcastProjections(ls, state, l);
  }

  /**
   * Per listener and per callback: a registered listener receives the final state once
   * when the call notifies and nothing otherwise; `onUnlock` fires once, exactly for a
   * call that unlocks the id it names; `onTamperDetected` fires at most once, only then,
   * and only for `unlocked`.
   */
  lemma ApplyCallbacks(c: Config, w: World, call: Call, l: ListenerId)
    requires Inv(w)
    ensures var r := Apply(c, w, call);
      && w.events <= r.events
      && Received(r.events[|w.events|..], l) ==
           (if Notifies(c, w, call) && l in w.listeners then [GetState(r.mem)] else [])
      && Unlocks(r.events[|w.events|..]) == (if FreshUnlock(c, w, call) then [Target(call).value] else [])
      && Tampers(r.events[|w.events|..]) ==
           (if FreshUnlock(c, w, call) && !VerifyStoredIntegrity(w.store, c.hash, KEY_UNLOCKED) then [KEY_UNLOCKED] else [])
  {
    ApplyLog(c, w, call);
    ReadSuffix(w.events, Apply(c, w, call).events, VerifyStoredIntegrity(w.store, c.hash, KEY_UNLOCKED),
               NewlyUnlocked(c, w, call), Notifies(c, w, call), w.listeners, GetState(Apply(c, w, call).mem), l);
  }

  /** A listener that unsubscribed receives nothing from the next call, whatever it is. */
  lemma UnsubscribedHearsNothing(c: Config, w: World, l: ListenerId, call: Call)
    requires Inv(w)
    ensures var u := Unsubscribe(w, l);
      Received(Apply(c, u, call).events[|u.events|..], l) == []
  {
    SubscriptionEffect(w, l);
    SubscriptionKeepsInv(w, l);
    ApplyCallbacks(c, Unsubscribe(w, l), call, l);
  }

  /** `ReadCallLog` for a log that extends `before` by a `CallLog`. */
  lemma ReadSuffix(before: seq<Event>, after: seq<Event>, verified: bool, unlocked: Option<Id>, notifies: bool,
                   ls: seq<ListenerId>, state: Snapshot, l: ListenerId)
    requires NoDup(ls) && after == before + CallLog(verified, unlocked, notifies, ls, state)
    ensures before <= after
    ensures Received(after[|before|..], l) == (if notifies && l in ls then [state] else [])
    ensures Unlocks(after[|before|..]) == (if unlocked.Some? then [unlocked.value] else [])
    ensures Tampers(after[|before|..]) == (if unlocked.Some? && !verified then [KEY_UNLOCKED] else [])
  {
    assert after[|before|..] == CallLog(verified, unlocked, notifies, ls, state);
    ReadCallLog(verified, unlocked, notifies, ls, state, l);
  }
}
