/**
 * The issuer's published key set and its process-wide cache (regional-api/lambda/authorizer/app.py,
 * `jwks_cache` and `get_jwks`). The network fetch and the JSON parsing of the key set are not
 * modelled: `fetch` is what they would deliver if asked, `None` when `urlopen`, the JSON
 * decoder or the `keys` lookup raises. The clock is an integer number of seconds.
 */
module JwksCache {
  import opened Wrappers

  /** One entry of the key set: its `kid` (None when the entry has none) and its other members (kty, alg, n, e, ...). */
  datatype Key = Key(kid: Option<string>, params: map<string, string>)

  /** The cache dictionary once populated: `{'keys': ..., 'expiry': ...}`. */
  datatype CacheEntry = CacheEntry(keys: seq<Key>, expiry: int)

  /** Lifetime of a fetched key set, in seconds. */
  const TtlSeconds: int := 3600

  /**
   * `jwks_cache and jwks_cache.get('expiry', 0) > time.time()`: the dictionary is non-empty (it has
   * been populated, possibly with an empty key list) and its expiry lies strictly in the future.
   */
  predicate IsFresh(cache: Option<CacheEntry>, now: int) {
    cache.Some? && cache.value.expiry > now
  }

  /** The outcome of one `get_jwks` call: the keys (None when it raised), the new cache, and whether a fetch was made. */
  datatype KeyRead = KeyRead(keys: Option<seq<Key>>, cache: Option<CacheEntry>, fetched: bool)

  /** `get_jwks` at time `now` against the cache `cache`. */
  function ReadKeys(cache: Option<CacheEntry>, now: int, fetch: Option<seq<Key>>): (r: KeyRead)
    // A fresh cache answers without any network access and is left as it is.
    ensures IsFresh(cache, now) ==> r == KeyRead(Some(cache.value.keys), cache, false)
    // Otherwise exactly one fetch happens and its result is returned.
    ensures !IsFresh(cache, now) ==> r.fetched && r.keys == fetch
    // A successful fetch replaces the cache with a one-hour entry.
    ensures !IsFresh(cache, now) && fetch.Some? ==> r.cache == Some(CacheEntry(fetch.value, now + TtlSeconds))
    // A failure propagates and leaves the cache, stale or empty, exactly as it was.
    ensures r.keys.None? ==> r.cache == cache
  {
    if IsFresh(cache, now) then KeyRead(Some(cache.value.keys), cache, false)
    else if fetch.None? then KeyRead(None, cache, true)
    else KeyRead(fetch, Some(CacheEntry(fetch.value, now + TtlSeconds)), true)
  }

  /**
   * After a read at time t that produced keys, a read at t' fetches again exactly when t' is at least
   * `TtlSeconds` past the last fetch; until then it returns the same keys.
   */
  lemma RefetchOnlyAfterTtl(cache: Option<CacheEntry>, t: int, fetch: Option<seq<Key>>, t': int, fetch': Option<seq<Key>>)
    requires ReadKeys(cache, t, fetch).fetched && fetch.Some?
    ensures var first := ReadKeys(cache, t, fetch);
            var second := ReadKeys(first.cache, t', fetch');
            (second.fetched <==> t' >= t + TtlSeconds)
            && (t' < t + TtlSeconds ==> second.keys == first.keys && second.cache == first.cache)
  {
  }

  /**
   * The cache object. `fetches` counts calls to the network and exists for the specification only.
   */
  class KeyCache {
    var entry: Option<CacheEntry>
    ghost var fetches: nat

    /** The empty cache of a fresh process (`jwks_cache = {}`). */
    constructor ()
      ensures entry == None && fetches == 0
    {
      entry := None;
      fetches := 0;
    }

    /** `get_jwks`. */
    method Get(now: int, fetch: Option<seq<Key>>) returns (keys: Option<seq<Key>>)
      modifies this
      ensures IsFresh(old(entry), now) ==> keys == Some(old(entry).value.keys) && entry == old(entry) && fetches == old(fetches)
      ensures !IsFresh(old(entry), now) ==> keys == fetch && fetches == old(fetches) + 1
      ensures !IsFresh(old(entry), now) ==> entry == if fetch.Some? then Some(CacheEntry(fetch.value, now + TtlSeconds)) else old(entry)
      ensures var r := ReadKeys(old(entry), now, fetch);
              keys == r.keys && entry == r.cache && fetches == old(fetches) + (if r.fetched then 1 else 0)
    {
      if entry.Some? && entry.value.expiry > now {
        return Some(entry.value.keys);
      }
      fetches := fetches + 1;
      if fetch.None? {
        // the fetch raised: re-raise, leaving the cache untouched
        return None;
      }
      entry := Some(CacheEntry(fetch.value, now + TtlSeconds));
      keys := fetch;
    }
  }

  /** Two reads inside the window after one fetch make one network call; a read after expiry makes exactly one more. */
  method ReadTwice(c: KeyCache, t: int, keys: seq<Key>, t': int, fetch': Option<seq<Key>>)
    returns (first: Option<seq<Key>>, second: Option<seq<Key>>)
    requires c.entry == None
    modifies c
    ensures first == Some(keys)
    ensures t' < t + TtlSeconds ==> second == Some(keys) && c.fetches == old(c.fetches) + 1
    ensures t' >= t + TtlSeconds ==> second == fetch' && c.fetches == old(c.fetches) + 2
  {
    first := c.Get(t, Some(keys));
    second := c.Get(t', fetch');
  }
}
