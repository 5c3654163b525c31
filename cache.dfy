/**
 * The time-to-live caches of the provider pipeline: the provider cache (keyed by feed
 * URL, five minutes), the geocode cache (keyed by the lower-cased address) and the
 * reverse-geocode cache (keyed by the rounded coordinates), both twenty-four hours.
 * Each is a map from key to a timestamped entry; an entry is used while it is younger
 * than the time to live and is never evicted, only overwritten or cleared.
 */
module Cache {
  import opened Wrappers

  /** Five minutes, in milliseconds. */
  const ProviderTtlMs: int := 5 * 60 * 1000

  /** Twenty-four hours, in milliseconds. */
  const GeoTtlMs: int := 24 * 60 * 60 * 1000

  /** A cached value with the clock reading at which it was stored. */
  datatype Entry<V> = Entry(at: int, value: V)

  /** `cached && now - cached.at < ttl`. */
  predicate IsFresh<V>(m: map<string, Entry<V>>, k: string, now: int, ttl: int) {
    k in m && now - m[k].at < ttl
  }

  /** What a lookup at time `now` yields. */
  function Get<V>(m: map<string, Entry<V>>, k: string, now: int, ttl: int): (r: Option<V>)
    ensures r.Some? <==> IsFresh(m, k, now, ttl)
  {
    if IsFresh(m, k, now, ttl) then Some(m[k].value) else None
  }

  /**
   * After a store, the stored key yields the new value while it is fresh and every
   * other key yields what it did before.
   */
  lemma GetAfterStore<V>(m: map<string, Entry<V>>, k: string, v: V, at: int, k2: string, now: int, ttl: int)
    ensures Get(m[k := Entry(at, v)], k2, now, ttl) ==
      if k2 == k then (if now - at < ttl then Some(v) else None) else Get(m, k2, now, ttl)
  {
  }

  /** A value stored now is found by a lookup at the same instant, whenever the time to live is positive. */
  lemma StoreThenGet<V>(m: map<string, Entry<V>>, k: string, v: V, now: int, ttl: int)
    requires ttl > 0
    ensures Get(m[k := Entry(now, v)], k, now, ttl) == Some(v)
  {
    GetAfterStore(m, k, v, now, k, now, ttl);
  }

  /** Freshness only runs out: an entry stale at `now` is stale at every later time. */
  lemma StaleStaysStale<V>(m: map<string, Entry<V>>, k: string, now: int, later: int, ttl: int)
    requires now <= later && Get(m, k, now, ttl).None?
    ensures Get(m, k, later, ttl).None?
  {
  }

  /** A cache: a map from key to timestamped entry, with a fixed time to live. */
  class TtlCache<V> {
    var entries: map<string, Entry<V>>
    const ttl: int

    constructor(ttl: int)
      ensures this.ttl == ttl && entries == map[]
    {
      this.ttl := ttl;
      entries := map[];
    }

    /** `cache.get(k)` followed by the freshness test. */
    method Lookup(k: string, now: int) returns (r: Option<V>)
      ensures r == Get(entries, k, now, ttl)
      ensures r.Some? ==> k in entries && r.value == entries[k].value && now - entries[k].at < ttl
    {
      if k in entries && now - entries[k].at < ttl {
        r := Some(entries[k].value);
      } else {
        r := None;
      }
    }

    /** `cache.set(k, { at: now, ... })`. */
    method Store(k: string, v: V, now: int)
      modifies this
      ensures entries == old(entries)[k := Entry(now, v)]
    {
      entries := entries[k := Entry(now, v)];
    }

    /** `cache.clear()`. */
    method Clear()
      modifies this
      ensures entries == map[]
    {
      entries := map[];
    }
  }
}
