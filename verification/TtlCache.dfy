/**
 * The in-process cache: an insertion-ordered map with a size cap and a lifetime per entry, against
 * the history of writes and invalidations.
 */
module TtlCache {
  import opened Options
  import opened Sets

  type Millis = int

  datatype Entry<V> = Entry(value: V, expiresAt: Millis)

  datatype Event<V> =
    | Wrote(key: string, entry: Entry<V>)
    | Dropped(key: string)
    | DroppedPrefix(prefix: string)
    | DroppedAll

  predicate Drops<V>(e: Event<V>, key: string) {
    match e
    case Wrote(_, _) => false
    case Dropped(k) => k == key
    case DroppedPrefix(prefix) => prefix <= key
    case DroppedAll => true
  }

  predicate Writes<V>(e: Event<V>, key: string) { e.Wrote? && e.key == key }

  /** What a cache of unlimited size and life would hold under a key: the last write, unless dropped since. */
  ghost function Latest<V>(log: seq<Event<V>>, key: string): Option<Entry<V>> {
    if log == [] then None
    else
      var e := log[|log| - 1];
      if Writes(e, key) then Some(e.entry)
      else if Drops(e, key) then None
      else Latest(log[..|log| - 1], key)
  }

  /** The position of the last write of a key, counting from one; zero if it was never written. */
  ghost function LastWrite<V>(log: seq<Event<V>>, key: string): nat {
    if log == [] then 0
    else if Writes(log[|log| - 1], key) then |log|
    else LastWrite(log[..|log| - 1], key)
  }

  /** The other keys written since the last write of a key. */
  ghost function OthersSince<V>(log: seq<Event<V>>, key: string): set<string> {
    if log == [] then {}
    else
      var e := log[|log| - 1];
      if Writes(e, key) then {}
      else OthersSince(log[..|log| - 1], key) + (if e.Wrote? then {e.key} else {})
  }

  /** Keys in the order of their last writes. */
  ghost predicate InWriteOrder<V>(keys: seq<string>, log: seq<Event<V>>) {
    forall i, j :: 0 <= i < j < |keys| ==> LastWrite(log, keys[i]) < LastWrite(log, keys[j])
  }

  lemma {:induction false} LaterWriteIsOther<V>(log: seq<Event<V>>, key: string, other: string)
    requires key != other && LastWrite(log, key) < LastWrite(log, other)
    ensures other in OthersSince(log, key)
  {
    LastWriteBound(log, key);
    LastWriteBound(log, other);
    if !Writes(log[|log| - 1], other) {
      LaterWriteIsOther(log[..|log| - 1], key, other);
    }
  }

  lemma {:induction false} LastWriteBound<V>(log: seq<Event<V>>, key: string)
    ensures LastWrite(log, key) <= |log|
  {
    if log != [] {
      LastWriteBound(log[..|log| - 1], key);
    }
  }

  lemma {:induction false} DistinctCount(keys: seq<string>)
    requires forall i, j :: 0 <= i < j < |keys| ==> keys[i] != keys[j]
    ensures |set k | k in keys| == |keys|
  {
    if keys != [] {
      DistinctCount(keys[1..]);
      assert (set k | k in keys) == {keys[0]} + set k | k in keys[1..];
    }
  }

  /** When a full cache drops its first key for a new one, that makes `max` other keys written since the dropped one. */
  lemma EvictedForEnoughOthers<V>(keys: seq<string>, log: seq<Event<V>>, key: string, e: Entry<V>)
    requires |keys| > 0 && InWriteOrder(keys, log) && key !in keys
    ensures |OthersSince(log + [Wrote(key, e)], keys[0])| >= |keys|
  {
    var log' := log + [Wrote(key, e)];
    assert log'[..|log'| - 1] == log;
    var others := [key] + keys[1..];
    forall k | k in others
      ensures k in OthersSince(log', keys[0])
    {
      if k != key {
        LaterWriteIsOther(log, keys[0], k);
      }
    }
    DistinctCount(others);
    SubsetSize((set k | k in others), OthersSince(log', keys[0]));
  }

  function Without(keys: seq<string>, key: string): (r: seq<string>)
    ensures forall k :: k in r <==> k in keys && k != key
    ensures |r| <= |keys|
  {
    if keys == [] then [] else (if keys[0] == key then [] else [keys[0]]) + Without(keys[1..], key)
  }

  lemma {:induction false} WithoutKeepsOrder<V>(keys: seq<string>, key: string, log: seq<Event<V>>)
    requires InWriteOrder(keys, log)
    ensures InWriteOrder(Without(keys, key), log)
  {
    if keys != [] {
      WithoutKeepsOrder(keys[1..], key, log);
      var rest := Without(keys[1..], key);
      forall j | 0 <= j < |rest|
        ensures LastWrite(log, keys[0]) < LastWrite(log, rest[j])
      {
        assert rest[j] in keys[1..];
      }
    }
  }

  lemma {:induction false} WithoutShrinks(keys: seq<string>, key: string)
    requires key in keys
    ensures |Without(keys, key)| < |keys|
  {
    if keys[0] != key {
      WithoutShrinks(keys[1..], key);
    }
  }

  lemma Appended<V>(log: seq<Event<V>>, e: Event<V>)
    ensures (log + [e])[..|log + [e]| - 1] == log
    ensures forall k :: (Latest(log + [e], k) ==
      if Writes(e, k) then Some(e.entry) else if Drops(e, k) then None else Latest(log, k))
    ensures forall k :: (OthersSince(log + [e], k) ==
      if Writes(e, k) then {} else OthersSince(log, k) + (if e.Wrote? then {e.key} else {}))
  {
    assert (log + [e])[..|log + [e]| - 1] == log;
  }

  lemma WriteOrderExtended<V>(keys: seq<string>, log: seq<Event<V>>, key: string, entry: Entry<V>)
    requires InWriteOrder(keys, log) && key !in keys
    ensures InWriteOrder(keys + [key], log + [Wrote(key, entry)])
  {
    assert (log + [Wrote(key, entry)])[..|log|] == log;
    forall i | 0 <= i < |keys|
      ensures LastWrite(log, keys[i]) <= |log|
    {
      LastWriteBound(log, keys[i]);
    }
  }

  lemma DropKeepsOrder<V>(keys: seq<string>, log: seq<Event<V>>, e: Event<V>)
    requires InWriteOrder(keys, log) && !e.Wrote?
    ensures InWriteOrder(keys, log + [e])
  {
    assert (log + [e])[..|log|] == log;
  }

  /** The history has an unexpired value for a key that the map lacks. */
  ghost predicate MissesFresh<V>(store: map<string, Entry<V>>, log: seq<Event<V>>, k: string, now: Millis) {
    k !in store && Latest(log, k).Some? && Latest(log, k).value.expiresAt > now
  }

  /**
   * The map against its history: within the cap, keys in write order, every entry the latest of its
   * key, and a fresh value missing only after `max` other writes.
   */
  ghost predicate Sound<V>(keys: seq<string>, store: map<string, Entry<V>>, log: seq<Event<V>>, max: nat, now: Millis) {
    && |keys| <= max && max > 0
    && (forall k :: k in keys <==> k in store)
    && InWriteOrder(keys, log)
    && (forall k :: k in store ==> Latest(log, k) == Some(store[k]))
    && (forall k :: MissesFresh(store, log, k, now) ==> |OthersSince(log, k)| >= max)
  }

  lemma DropExpiredKeeps<V>(keys: seq<string>, store: map<string, Entry<V>>, log: seq<Event<V>>, max: nat, now: Millis,
                            key: string)
    requires Sound(keys, store, log, max, now) && key in store && store[key].expiresAt <= now
    ensures Sound(Without(keys, key), store - {key}, log, max, now)
  {
    WithoutKeepsOrder(keys, key, log);
  }

  /** Dropping exactly the keys an invalidation names. */
  lemma DropKeeps<V>(keys: seq<string>, store: map<string, Entry<V>>, log: seq<Event<V>>, max: nat, now: Millis,
                     e: Event<V>, keys': seq<string>, store': map<string, Entry<V>>)
    requires Sound(keys, store, log, max, now) && !e.Wrote?
    requires |keys'| <= max && InWriteOrder(keys', log) && (forall k :: k in keys' <==> k in store')
    requires forall k :: k in store' <==> k in store && !Drops(e, k)
    requires forall k :: k in store' ==> store'[k] == store[k]
    ensures Sound(keys', store', log + [e], max, now)
  {
    Appended(log, e);
    DropKeepsOrder(keys', log, e);
    forall k | MissesFresh(store', log + [e], k, now)
      ensures |OthersSince(log + [e], k)| >= max
    {
      assert MissesFresh(store, log, k, now);
    }
  }

  /** Making room, if the cache is full and the key new. */
  function Room(keys: seq<string>, max: nat, key: string): seq<string>
    requires max > 0
  {
    if MustEvict(keys, max, key) then Without(keys, keys[0]) else keys
  }

  predicate MustEvict(keys: seq<string>, max: nat, key: string) {
    |keys| >= max && key !in keys
  }

  function Put<V>(keys: seq<string>, store: map<string, Entry<V>>, max: nat, key: string, entry: Entry<V>)
    : map<string, Entry<V>>
    requires max > 0
  {
    ((if MustEvict(keys, max, key) then store - {keys[0]} else store) - {key})[key := entry]
  }

  /** The order and the size after a write: room is made, and the key moves to the end. */
  lemma WriteKeepsOrder<V>(keys: seq<string>, log: seq<Event<V>>, max: nat, key: string, entry: Entry<V>)
    requires InWriteOrder(keys, log) && |keys| <= max && max > 0
    ensures var keys' := Without(Room(keys, max, key), key) + [key];
            |keys'| <= max && InWriteOrder(keys', log + [Wrote(key, entry)])
  {
    var room := Room(keys, max, key);
    if room != keys {
      WithoutKeepsOrder(keys, keys[0], log);
      WithoutShrinks(keys, keys[0]);
    }
    WithoutKeepsOrder(room, key, log);
    if key in room {
      WithoutShrinks(room, key);
    }
    WriteOrderExtended(Without(room, key), log, key, entry);
  }

  /** A key still missing after a write has at least `max` others written since. */
  lemma WriteMissesEnough<V>(keys: seq<string>, store: map<string, Entry<V>>, log: seq<Event<V>>, max: nat, now: Millis,
                             key: string, entry: Entry<V>, k: string)
    requires Sound(keys, store, log, max, now)
    requires MissesFresh(Put(keys, store, max, key, entry), log + [Wrote(key, entry)], k, now)
    ensures |OthersSince(log + [Wrote(key, entry)], k)| >= max
  {
    var log' := log + [Wrote(key, entry)];
    Appended(log, Wrote(key, entry));
    if k !in store {
      assert MissesFresh(store, log, k, now);
      SubsetSize(OthersSince(log, k), OthersSince(log', k));
    } else {
      assert MustEvict(keys, max, key) && k == keys[0];
      EvictedForEnoughOthers(keys, log, key, entry);
    }
  }

  lemma WriteKeeps<V>(keys: seq<string>, store: map<string, Entry<V>>, log: seq<Event<V>>, max: nat, now: Millis,
                      key: string, entry: Entry<V>)
    requires Sound(keys, store, log, max, now)
    ensures Sound(Without(Room(keys, max, key), key) + [key], Put(keys, store, max, key, entry),
                  log + [Wrote(key, entry)], max, now)
  {
    WriteKeepsOrder(keys, log, max, key, entry);
    Appended(log, Wrote(key, entry));
    forall k | MissesFresh(Put(keys, store, max, key, entry), log + [Wrote(key, entry)], k, now)
      ensures |OthersSince(log + [Wrote(key, entry)], k)| >= max
    {
      WriteMissesEnough(keys, store, log, max, now, key, entry, k);
    }
  }

  datatype Loaded<V> = Rejected | Nullish | Value(value: V)

  datatype Wrapped<V> = Served(value: V) | Nothing | Failed

  class Cache<V> {
    const max: nat
    /** The map: its keys in iteration order, and what each holds. */
    var keys: seq<string>
    var store: map<string, Entry<V>>
    ghost var log: seq<Event<V>>
    ghost var clock: Millis

    ghost predicate Valid()
      reads this
    {
      Sound(keys, store, log, max, clock)
    }

    constructor (max: nat)
      requires max > 0
      ensures Valid() && log == [] && this.max == max
    {
      this.max, keys, store := max, [], map[];
      log, clock := [], 0;
    }

    method Delete(key: string)
      modifies `keys, `store
      ensures keys == Without(old(keys), key) && store == old(store) - {key}
    {
      keys := Without(keys, key);
      store := store - {key};
    }

    /**
     * A hit is the latest write, unexpired and not dropped since; a miss of such a value means that
     * `max` other keys were written since.
     */
    method Get(key: string, now: Millis) returns (hit: Option<V>)
      requires Valid() && clock <= now
      modifies `keys, `store, `clock
      ensures Valid() && clock == now
      ensures hit.Some? ==>
        Latest(log, key).Some? && Latest(log, key).value.value == hit.value && Latest(log, key).value.expiresAt > now
      ensures hit.None? && Latest(log, key).Some? && Latest(log, key).value.expiresAt > now ==>
        |OthersSince(log, key)| >= max
    {
      Later(clock, now);
      clock := now;
      if key !in store {
        assert MissesFresh(store, log, key, now) ==> |OthersSince(log, key)| >= max;
        return None;
      }
      if store[key].expiresAt <= now {
        DropExpiredKeeps(keys, store, log, max, now, key);
        Delete(key);
        return None;
      }
      return Some(store[key].value);
    }

    lemma Later(was: Millis, now: Millis)
      requires Sound(keys, store, log, max, was) && was <= now
      ensures Sound(keys, store, log, max, now)
    {
      forall k | MissesFresh(store, log, k, now)
        ensures MissesFresh(store, log, k, was)
      {
      }
    }

    /** Drops the first key in iteration order, the one written longest ago. */
    method EvictOne()
      modifies `keys, `store
      ensures old(keys) == [] ==> keys == [] && store == old(store)
      ensures old(keys) != [] ==> keys == Without(old(keys), old(keys)[0]) && store == old(store) - {old(keys)[0]}
    {
      if keys != [] {
        Delete(keys[0]);
      }
    }

    /** Makes room if need be and moves the key to the end. */
    method MoveToEnd(key: string, entry: Entry<V>)
      requires max > 0 && (key in keys <==> key in store)
      modifies `keys, `store
      ensures keys == Without(Room(old(keys), max, key), key) + [key]
      ensures store == Put(old(keys), old(store), max, key, entry)
    {
      if |keys| >= max && key !in store {
        EvictOne();
      }
      Delete(key);
      keys, store := keys + [key], store[key := entry];
    }

    /** A write with a positive lifetime becomes the latest of its key; any other changes nothing. */
    method Set(key: string, value: V, ttl: Millis, now: Millis)
      requires Valid() && clock <= now
      modifies this
      ensures Valid() && clock == now
      ensures log == if ttl <= 0 then old(log) else old(log) + [Wrote(key, Entry(value, now + ttl))]
      ensures ttl > 0 ==> keys != [] && keys[|keys| - 1] == key && key in store
      ensures ttl <= 0 ==> keys == old(keys) && store == old(store)
    {
      Later(clock, now);
      clock := now;
      if ttl <= 0 { return; }
      var entry := Entry(value, now + ttl);
      MoveToEnd(key, entry);
      WriteKeeps(old(keys), old(store), log, max, now, key, entry);
      log := log + [Wrote(key, entry)];
    }

    method Invalidate(key: string)
      requires Valid()
      modifies `keys, `store, `log
      ensures Valid() && log == old(log) + [Dropped(key)]
    {
      WithoutKeepsOrder(keys, key, log);
      DropKeeps(keys, store, log, max, clock, Dropped(key), Without(keys, key), store - {key});
      Delete(key);
      log := log + [Dropped(key)];
    }

    method DeletePrefix(prefix: string)
      requires InWriteOrder(keys, log)
      modifies `keys, `store
      ensures |keys| <= |old(keys)| && InWriteOrder(keys, log)
      ensures forall k :: k in keys <==> k in old(keys) && !(prefix <= k)
      ensures forall k :: k in store <==> k in old(store) && !(prefix <= k && k in old(keys))
      ensures forall k :: k in store ==> store[k] == old(store)[k]
    {
      var all := keys;
      for i := 0 to |all|
        invariant |keys| <= |all| && InWriteOrder(keys, log)
        invariant forall k :: k in keys <==> k in all && !(prefix <= k && k in all[..i])
        invariant forall k :: k in store <==> k in old(store) && !(prefix <= k && k in all[..i])
        invariant forall k :: k in store ==> store[k] == old(store)[k]
      {
        if prefix <= all[i] {
          WithoutKeepsOrder(keys, all[i], log);
          Delete(all[i]);
        }
      }
      assert all[..|all|] == all;
    }

    method InvalidatePrefix(prefix: string)
      requires Valid()
      modifies `keys, `store, `log
      ensures Valid() && log == old(log) + [DroppedPrefix(prefix)]
    {
      DeletePrefix(prefix);
      DropKeeps(old(keys), old(store), log, max, clock, DroppedPrefix(prefix), keys, store);
      log := log + [DroppedPrefix(prefix)];
    }

    method Clear()
      requires Valid()
      modifies `keys, `store, `log
      ensures Valid() && log == old(log) + [DroppedAll]
    {
      DropKeeps(keys, store, log, max, clock, DroppedAll, [], map[]);
      keys, store := [], map[];
      log := log + [DroppedAll];
    }

    /**
     * What `Wrap` does once its loader is done, whatever else was written or dropped while it was awaited: a
     * value is cached and served, a failure or an empty value is not cached.
     */
    method WrapLoaded(key: string, ttl: Millis, now: Millis, loaded: Loaded<V>) returns (r: Wrapped<V>)
      requires Valid() && clock <= now
      modifies this
      ensures Valid() && clock <= now
      ensures log == if loaded.Value? && ttl > 0 then old(log) + [Wrote(key, Entry(loaded.value, now + ttl))]
                      else old(log)
      ensures r == match loaded case Rejected => Failed case Nullish => Nothing case Value(v) => Served(v)
    {
      if loaded.Rejected? { return Failed; }
      if loaded.Value? {
        Set(key, loaded.value, ttl, now);
        return Served(loaded.value);
      }
      return Nothing;
    }

    /** The cached value, or what the loader yields at time `later`, with nothing else in between. */
    method Wrap(key: string, ttl: Millis, now: Millis, later: Millis, loaded: Loaded<V>) returns (r: Wrapped<V>)
      requires Valid() && clock <= now <= later
      modifies this
      ensures Valid()
      ensures log == old(log) || (loaded.Value? && log == old(log) + [Wrote(key, Entry(loaded.value, later + ttl))])
      ensures r.Served? && log == old(log) ==>
        (Latest(log, key).Some? && Latest(log, key).value.value == r.value && Latest(log, key).value.expiresAt > now)
        || (loaded == Value(r.value) && ttl <= 0)
      ensures log != old(log) ==> r == Served(loaded.value)
      ensures var was := Latest(old(log), key);
        was.Some? && was.value.expiresAt > now && |OthersSince(old(log), key)| < max ==>
          log == old(log) && r == Served(was.value.value)
      ensures r.Failed? ==> loaded.Rejected?
      ensures r.Nothing? ==> loaded.Nullish?
    {
      var cached := Get(key, now);
      if cached.Some? { return Served(cached.value); }
      r := WrapLoaded(key, ttl, later, loaded);
    }
  }
}
