/**
 * The process-wide `IMemoryCache` that the token service and the location
 * resolver share. Only the three operations the core calls are modelled:
 * `TryGetValue`, `Set` with a relative time-to-live, and `Remove`.
 * Expiry is enforced by the cache on the wall clock and is not modelled:
 * `entries` holds the entries that have not expired yet.
 */
module Cache {
  import opened Wrappers

  /** A cached string with the time-to-live, in seconds, it was stored with. */
  datatype CacheEntry = CacheEntry(value: string, ttlSeconds: int)

  /** One write to the cache, as a mocked `IMemoryCache` would record it. */
  datatype Write = Stored(key: string, entry: CacheEntry) | Removed(key: string)

  class MemoryCache {
    var entries: map<string, CacheEntry>
    /** Every `Set` and `Remove` made on this cache, oldest first. */
    ghost var writes: seq<Write>

    constructor ()
      ensures entries == map[] && writes == []
    {
      entries := map[];
      writes := [];
    }

    /** `TryGetValue`: the value under `key`, if there is one. */
    method TryGetValue(key: string) returns (r: Option<string>)
      ensures r.Some? <==> key in entries
      ensures key in entries ==> r.value == entries[key].value
    {
      if key in entries {
        r := Some(entries[key].value);
      } else {
        r := None;
      }
    }

    /** `Set(key, value, TimeSpan.FromSeconds(ttl))`; the cache rejects a time-to-live that is not positive. */
    method Set(key: string, value: string, ttlSeconds: int)
      requires ttlSeconds > 0
      modifies this
      ensures entries == old(entries)[key := CacheEntry(value, ttlSeconds)]
      ensures writes == old(writes) + [Stored(key, CacheEntry(value, ttlSeconds))]
    {
      entries := entries[key := CacheEntry(value, ttlSeconds)];
      writes := writes + [Stored(key, CacheEntry(value, ttlSeconds))];
    }

    /** `Remove(key)`: afterwards nothing is stored under `key`. */
    method Remove(key: string)
      modifies this
      ensures entries == old(entries) - {key}
      ensures writes == old(writes) + [Removed(key)]
    {
      entries := entries - {key};
      writes := writes + [Removed(key)];
    }
  }
}
