/**
 * The in-memory cache with per-entry expiry (a single shared instance in
 * the application). Entries are kept in a map from key to (value, expiry
 * time); an entry whose expiry lies in the past is treated as absent and
 * removed when it is next read, and a periodic sweep removes every such
 * entry. The clock is a parameter of each operation that reads it.
 */
module Cache {
  import opened Wrappers

  /** `5 * 60 * 1000`: five minutes, in milliseconds. */
  const DEFAULT_TTL: int := 300000

  /** `{ data, expiry }` */
  datatype Entry<V> = Entry(data: V, expiry: int)

  /** An entry has expired at `now` when its expiry is strictly before `now`. */
  predicate Expired<V>(e: Entry<V>, now: int) {
    e.expiry < now
  }

  /** `Date.now() + (ttl || this.defaultTTL)`: an absent or zero time-to-live means the default. */
  function ExpiryFor(now: int, ttl: Option<int>): (r: int)
    ensures ttl.None? || ttl.value == 0 ==> r == now + DEFAULT_TTL
    ensures ttl.Some? && ttl.value != 0 ==> r == now + ttl.value
  {
    if ttl.Some? && ttl.value != 0 then now + ttl.value else now + DEFAULT_TTL
  }

  /** What `get(key)` returns at time `now`: the stored value, unless absent or expired. */
  function Lookup<V>(m: map<string, Entry<V>>, key: string, now: int): (r: Option<V>)
    ensures r.Some? <==> key in m && !Expired(m[key], now)
    ensures r.Some? ==> r.value == m[key].data
  {
    if key in m && !Expired(m[key], now) then Some(m[key].data) else None
  }

  /** The entries `get(key)` leaves behind: an expired entry for `key` is removed, nothing else. */
  function AfterLookup<V>(m: map<string, Entry<V>>, key: string, now: int): (r: map<string, Entry<V>>)
    ensures key in m && Expired(m[key], now) ==> r == m - {key}
    ensures !(key in m && Expired(m[key], now)) ==> r == m
  {
    if key in m && Expired(m[key], now) then m - {key} else m
  }

  /** The entries the sweep keeps at `now`: those that have not expired. */
  function Live<V>(m: map<string, Entry<V>>, now: int): (r: map<string, Entry<V>>)
    ensures forall k :: k in r <==> k in m && !Expired(m[k], now)
    ensures forall k :: k in r ==> r[k] == m[k]
  {
    map k | k in m && !Expired(m[k], now) :: m[k]
  }

  /** The cache service: one mutable map from key to entry. */
  class TtlCache<V> {
    var entries: map<string, Entry<V>>

    /** A new cache is empty. */
    constructor ()
      ensures entries == map[]
    {
      entries := map[];
    }

    /** `get(key)`, reading the clock as `now`. */
    method Get(key: string, now: int) returns (r: Option<V>)
      modifies this
      ensures r == Lookup(old(entries), key, now)
      ensures entries == AfterLookup(old(entries), key, now)
    {
      if key !in entries {
        return None;
      }
      var cached := entries[key];
      if cached.expiry < now {
        entries := entries - {key};
        return None;
      }
      r := Some(cached.data);
    }

    /** `set(key, data, ttl)`, reading the clock as `now`. */
    method Set(key: string, data: V, ttl: Option<int>, now: int)
      modifies this
      ensures entries == old(entries)[key := Entry(data, ExpiryFor(now, ttl))]
    {
      var expiry := now + (if ttl.Some? && ttl.value != 0 then ttl.value else DEFAULT_TTL);
      entries := entries[key := Entry(data, expiry)];
    }

    /** `delete(key)`: whether the key was present; only that key is removed. */
    method Delete(key: string) returns (existed: bool)
      modifies this
      ensures existed <==> key in old(entries)
      ensures entries == old(entries) - {key}
    {
      existed := key in entries;
      entries := entries - {key};
    }

    /** `clear()` */
    method Clear()
      modifies this
      ensures entries == map[]
      ensures Size() == 0
    {
      entries := map[];
    }

    /** `size()`: the number of entries, expired ones included. */
    function Size(): nat
      reads this
    {
      |entries.Keys|
    }

    /** The body of the once-a-minute timer: delete every entry that has expired at `now`. */
    method Sweep(now: int)
      modifies this
      ensures entries == Live(old(entries), now)
    {
      var pending := entries.Keys;
      while pending != {}
        invariant pending <= old(entries).Keys
        invariant forall k :: k in entries <==> k in old(entries) && (k in pending || !Expired(old(entries)[k], now))
        invariant forall k :: k in entries ==> entries[k] == old(entries)[k]
        decreases pending
      {
        var key :| key in pending;
        if entries[key].expiry < now {
          entries := entries - {key};
        }
        pending := pending - {key};
      }
    }
  }

  // ---------------------------------------------------------------------
  // What a caller observes
  // ---------------------------------------------------------------------

  /** A key that was never set, or was deleted, reads as absent. */
  lemma LookupMissing<V>(m: map<string, Entry<V>>, key: string, now: int)
    requires key !in m
    ensures Lookup(m, key, now).None?
    ensures Lookup(m - {key}, key, now).None?
  {
  }

  /** Until its expiry time has passed, a key reads back the value most recently set for it. */
  lemma LookupAfterSet<V>(m: map<string, Entry<V>>, key: string, data: V, ttl: Option<int>, setAt: int, now: int)
    requires now <= ExpiryFor(setAt, ttl)
    ensures Lookup(m[key := Entry(data, ExpiryFor(setAt, ttl))], key, now) == Some(data)
  {
  }

  /** With the default time-to-live, a value is served for five minutes after it was set, expiry instant included. */
  lemma DefaultTtlServesFiveMinutes<V>(m: map<string, Entry<V>>, key: string, data: V, setAt: int, now: int)
    requires setAt <= now <= setAt + 300000
    ensures Lookup(m[key := Entry(data, ExpiryFor(setAt, None))], key, now) == Some(data)
    ensures Lookup(m[key := Entry(data, ExpiryFor(setAt, Some(0)))], key, now) == Some(data)
    ensures Lookup(m[key := Entry(data, ExpiryFor(setAt, None))], key, now + 1) == (if now == setAt + 300000 then None else Some(data))
  {
  }

  /** Setting, deleting or evicting one key leaves what every other key reads unchanged. */
  lemma OtherKeysUnaffected<V>(m: map<string, Entry<V>>, key: string, e: Entry<V>, other: string, now: int, at: int)
    requires other != key
    ensures Lookup(m[key := e], other, at) == Lookup(m, other, at)
    ensures Lookup(m - {key}, other, at) == Lookup(m, other, at)
    ensures Lookup(AfterLookup(m, key, now), other, at) == Lookup(m, other, at)
  {
  }

  /** Reading a key is idempotent: evicting an expired entry does not change what later reads return. */
  lemma LookupEvictionInvisible<V>(m: map<string, Entry<V>>, key: string, now: int, later: int)
    requires now <= later
    ensures Lookup(AfterLookup(m, key, now), key, later) == Lookup(m, key, later)
  {
  }

  /** The sweep at `now` changes no read made at `now` or later. */
  lemma SweepInvisible<V>(m: map<string, Entry<V>>, key: string, now: int, later: int)
    requires now <= later
    ensures Lookup(Live(m, now), key, later) == Lookup(m, key, later)
  {
  }

  /** After a sweep no entry is expired, and sweeping again at the same time removes nothing. */
  lemma SweepIdempotent<V>(m: map<string, Entry<V>>, now: int)
    ensures forall k :: k in Live(m, now) ==> !Expired(Live(m, now)[k], now)
    ensures Live(Live(m, now), now) == Live(m, now)
  {
  }
}
