/**
 * The in-process cache of lib/neal.js: a global dictionary from request
 * path to the converted document object. Lookups expire entries lazily;
 * the `expires` and `fromCache` fields live on the stored object itself,
 * so a caller holding a document shares it with the cache.
 */
module Cache {
  import opened Wrappers

  /** Milliseconds since the epoch as `Date.getTime` gives them, or None for NaN (an invalid date). */
  type Millis = Option<int>

  /**
   * calculateExpireTime: the local clock plus the lifetime the server
   * reported (cache-until minus current time); NaN when either date is NaN.
   */
  function ExpireTime(now: int, currentTime: Millis, cachedUntil: Millis): (r: Millis)
    ensures r.Some? <==> currentTime.Some? && cachedUntil.Some?
    ensures r.Some? ==> r.value - now == cachedUntil.value - currentTime.value
  {
    if currentTime.Some? && cachedUntil.Some? then Some(now + (cachedUntil.value - currentTime.value))
    else None
  }

  /** `expires > now`; a comparison with NaN is false. */
  predicate Fresh(expires: Millis, now: int) {
    expires.Some? && expires.value > now
  }

  /** Only the lifetime reported by the server matters, not the server's clock. */
  lemma OnlyDeltaMatters(now: int, serverTime: int, lifetime: int)
    ensures ExpireTime(now, Some(serverTime), Some(serverTime + lifetime)) == Some(now + lifetime)
  {
  }

  /** An entry stays servable exactly while the clock is before its expiry time. */
  lemma ServedWhileBeforeExpiry(stored: int, currentTime: int, cachedUntil: int, now: int)
    ensures Fresh(ExpireTime(stored, Some(currentTime), Some(cachedUntil)), now)
      <==> now < stored + (cachedUntil - currentTime)
  {
  }

  /** A zero lifetime is never served: the test is strict. */
  lemma ZeroLifetimeNeverServed(stored: int, t: int, now: int)
    requires now >= stored
    ensures !Fresh(ExpireTime(stored, Some(t), Some(t)), now)
  {
  }

  /** A document with an invalid date is never served from the cache. */
  lemma InvalidDateNeverServed(stored: int, currentTime: Millis, cachedUntil: Millis, now: int)
    requires currentTime.None? || cachedUntil.None?
    ensures !Fresh(ExpireTime(stored, currentTime, cachedUntil), now)
  {
  }

  /** The object JSON.parse produced for a document, with the two fields the converter writes on it. */
  class Data {
    /** The converted text it was parsed from; its other fields are not interpreted. */
    const document: string
    var expires: Millis
    var fromCache: bool

    constructor (document: string)
      ensures this.document == document && expires.None? && !fromCache
    {
      this.document := document;
      expires := None;
      fromCache := false;
    }
  }

  /** `memoryCache`. */
  class MemoryCache {
    var entries: map<string, Data>

    constructor ()
      ensures entries == map[]
    {
      entries := map[];
    }

    /** The stored object under key, if any. */
    function At(key: string): set<Data>
      reads this
    {
      if key in entries then {entries[key]} else {}
    }

    /**
     * The check at the top of xml2json: a present entry whose expiry is
     * strictly in the future is served and marked as coming from the cache;
     * a present entry that is not fresh is deleted.
     */
    method Lookup(key: string, now: int) returns (hit: Option<Data>)
      modifies this, At(key)
      ensures hit.Some? <==> old(key in entries && Fresh(entries[key].expires, now))
      ensures hit.Some? ==> hit.value == old(entries[key]) && entries == old(entries)
      ensures hit.Some? ==> hit.value.fromCache && hit.value.expires == old(hit.value.expires)
      ensures hit.None? ==> entries == old(entries) - {key}
      ensures hit.None? ==> forall d :: d in old(At(key)) ==> unchanged(d)
    {
      if key in entries {
        var d := entries[key];
        if Fresh(d.expires, now) {
          d.fromCache := true;
          return Some(d);
        }
        entries := entries - {key};
      }
      return None;
    }

    /** saveInCache: the object itself is stored, not a copy. */
    method Save(key: string, data: Data)
      modifies this
      ensures entries == old(entries)[key := data]
    {
      entries := entries[key := data];
    }
  }
}
