/**
  `CacheHandler` (src/cacheHandler.ts): rendered calendar documents keyed by a
  cache key, each stamped with the time it was stored. An entry older than the
  time-to-live is treated as absent; reading it deletes it, and the periodic
  cleanup deletes every such entry. The clock is a parameter (`now`, ms).
*/
module Cache {
  import opened Base
  import opened Types

  /** `now - entry.timestamp > ttlMs`: the entry has outlived the time-to-live. */
  predicate Stale(entry: CacheEntry, now: int, ttlMs: int)
  {
    now - entry.timestamp > ttlMs
  }

  /** What `get` returns: the entry, when present and not stale. */
  function Find(cache: map<string, CacheEntry>, key: string, now: int, ttlMs: int): (r: Option<CacheEntry>)
    ensures r.Some? <==> key in cache && !Stale(cache[key], now, ttlMs)
    ensures r.Some? ==> r.value == cache[key]
  {
    if key in cache && !Stale(cache[key], now, ttlMs) then Some(cache[key]) else None
  }

  /** The map after `get`: a stale entry at `key` is deleted, nothing else changes. */
  function AfterGet(cache: map<string, CacheEntry>, key: string, now: int, ttlMs: int): (r: map<string, CacheEntry>)
    ensures r.Keys <= cache.Keys
    ensures forall k :: k in r ==> r[k] == cache[k]
    ensures forall k :: k in cache && k !in r ==> k == key && Stale(cache[k], now, ttlMs)
  {
    if key in cache && Stale(cache[key], now, ttlMs) then cache - {key} else cache
  }

  /** The map after `cleanup`: exactly the entries that are not stale at `now`. */
  function Sweep(cache: map<string, CacheEntry>, now: int, ttlMs: int): (r: map<string, CacheEntry>)
    ensures forall k :: k in r <==> k in cache && !Stale(cache[k], now, ttlMs)
    ensures forall k :: k in r ==> r[k] == cache[k]
  {
    map k | k in cache && !Stale(cache[k], now, ttlMs) :: cache[k]
  }

  class CacheHandler {
    var cache: map<string, CacheEntry>
    const ttlMs: int

    /** The cleanup timer (every 60 s) is left to the caller, who calls `Cleanup`. */
    constructor(ttlSeconds: int)
      ensures ttlMs == ttlSeconds * 1000
      ensures cache == map[]
    {
      ttlMs := ttlSeconds * 1000;
      cache := map[];
    }

    method Get(key: string, now: int) returns (entry: Option<CacheEntry>)
      modifies this
      ensures entry == Find(old(cache), key, now, ttlMs)
      ensures cache == AfterGet(old(cache), key, now, ttlMs)
    {
      if key !in cache {
        return None;
      }
      var found := cache[key];
      if now - found.timestamp > ttlMs {
        cache := cache - {key};
        return None;
      }
      return Some(found);
    }

    method Set(key: string, ics: string, now: int)
      modifies this
      ensures cache == old(cache)[key := CacheEntry(now, ics)]
    {
      cache := cache[key := CacheEntry(now, ics)];
    }

    /** Walks every entry and deletes the stale ones. */
    method Cleanup(now: int)
      modifies this
      ensures cache == Sweep(old(cache), now, ttlMs)
    {
      var pending := cache.Keys;
      ghost var start := cache;
      while pending != {}
        invariant pending <= start.Keys
        invariant cache.Keys <= start.Keys
        invariant forall k :: k in cache ==> cache[k] == start[k]
        invariant forall k :: k in start ==>
          (k in cache <==> k in pending || !Stale(start[k], now, ttlMs))
        decreases |pending|
      {
        var key :| key in pending;
        if now - cache[key].timestamp > ttlMs {
          cache := cache - {key};
        }
        pending := pending - {key};
      }
    }
  }

  // ---------------------------------------------------------------- properties

  /** `get` never hands out an entry older than the time-to-live. */
  lemma FindNeverStale(cache: map<string, CacheEntry>, key: string, now: int, ttlMs: int)
    requires Find(cache, key, now, ttlMs).Some?
    ensures now - Find(cache, key, now, ttlMs).value.timestamp <= ttlMs
  {
  }

  /** Right after `set(key, ics)` at time `t`, `get(key)` at `now` finds it exactly while `now - t <= ttlMs`. */
  lemma FindAfterSet(cache: map<string, CacheEntry>, key: string, ics: string, t: int, now: int, ttlMs: int)
    ensures Find(cache[key := CacheEntry(t, ics)], key, now, ttlMs)
         == if now - t <= ttlMs then Some(CacheEntry(t, ics)) else None
  {
  }

  /** `set` on one key leaves what `get` returns for every other key unchanged. */
  lemma FindAfterSetOther(cache: map<string, CacheEntry>, key: string, other: string, e: CacheEntry, now: int, ttlMs: int)
    requires key != other
    ensures Find(cache[key := e], other, now, ttlMs) == Find(cache, other, now, ttlMs)
  {
  }

  /** Deleting a stale entry on `get` is invisible: every later `get` on any key answers as before. */
  lemma AfterGetInvisible(cache: map<string, CacheEntry>, key: string, now: int, later: int, other: string, ttlMs: int)
    requires now <= later
    ensures Find(AfterGet(cache, key, now, ttlMs), other, later, ttlMs) == Find(cache, other, later, ttlMs)
  {
  }

  /** The same holds for `cleanup`: it only removes entries no later `get` could return. */
  lemma SweepInvisible(cache: map<string, CacheEntry>, now: int, later: int, key: string, ttlMs: int)
    requires now <= later
    ensures Find(Sweep(cache, now, ttlMs), key, later, ttlMs) == Find(cache, key, later, ttlMs)
  {
  }

  /** Two cleanups at the same time do no more than one. */
  lemma SweepIdempotent(cache: map<string, CacheEntry>, now: int, ttlMs: int)
    ensures Sweep(Sweep(cache, now, ttlMs), now, ttlMs) == Sweep(cache, now, ttlMs)
  {
  }

  /** A `get` before a cleanup at the same time leaves the same map as the cleanup alone. */
  lemma SweepAfterGet(cache: map<string, CacheEntry>, key: string, now: int, ttlMs: int)
    ensures Sweep(AfterGet(cache, key, now, ttlMs), now, ttlMs) == Sweep(cache, now, ttlMs)
  {
  }
}
