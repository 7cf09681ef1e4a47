/**
 * The cache hooks Eloquent runs after each write of a record (app/Observers/ShortUrlObserver.php).
 *
 * `updated` receives the record as it was loaded (`getOriginal`) and as it is now; a column
 * `wasChanged` exactly when the two differ in it.
 */
module Observers {
  import opened ShortUrlModel
  import opened Caching

  /**
   * The removals `updated` makes before re-caching: the old code key if the code changed, the old
   * hash key if the hash changed.
   */
  function EvictChanged(prefix: string, m: map<string, CachedValue>, original: ShortUrl, current: ShortUrl): map<string, CachedValue>
  {
    var m1 := if original.code != current.code then m - {CodeKey(prefix, original.code)} else m;
    if original.originalUrlHash != current.originalUrlHash then m1 - {HashKey(prefix, original.originalUrlHash)} else m1
  }

  /**
   * Evicting only the changed keys and then re-caching is the same as forgetting the original
   * record and caching the current one: an unchanged key is overwritten by the put anyway.
   */
  lemma EvictChangedThenPut(prefix: string, m: map<string, CachedValue>, original: ShortUrl, current: ShortUrl)
    ensures PutEntries(prefix, EvictChanged(prefix, m, original, current), current)
         == PutEntries(prefix, ForgetEntries(prefix, m, original), current)
  {
    var a := PutEntries(prefix, EvictChanged(prefix, m, original, current), current);
    var b := PutEntries(prefix, ForgetEntries(prefix, m, original), current);
    var ck, hk := CodeKey(prefix, original.code), HashKey(prefix, original.originalUrlHash);
    if original.code == current.code {
      assert ck in a && ck in b;
    }
    if original.originalUrlHash == current.originalUrlHash {
      assert hk in a && hk in b;
    }
    assert a.Keys == b.Keys;
  }

  /**
   * After `updated`, a changed code leaves the old code key absent, a changed hash leaves the old
   * hash key absent, and the current record sits under its code key with its code under its hash key.
   */
  lemma UpdatedEvictsStaleKeys(prefix: string, m: map<string, CachedValue>, original: ShortUrl, current: ShortUrl)
    ensures var m' := PutEntries(prefix, ForgetEntries(prefix, m, original), current);
      && (original.code != current.code ==> CodeKey(prefix, original.code) !in m')
      && (original.originalUrlHash != current.originalUrlHash ==> HashKey(prefix, original.originalUrlHash) !in m')
      && m'[CodeKey(prefix, current.code)] == CachedRecord(current)
      && m'[HashKey(prefix, current.originalUrlHash)] == CachedCode(current.code)
  {
    PutEntriesFacts(prefix, ForgetEntries(prefix, m, original), current);
    KeyspacesDisjoint(prefix, original.code, current.originalUrlHash);
    KeyspacesDisjoint(prefix, current.code, original.originalUrlHash);
    if CodeKey(prefix, original.code) == CodeKey(prefix, current.code) {
      CodeKeyInjective(prefix, original.code, current.code);
    }
    if HashKey(prefix, original.originalUrlHash) == HashKey(prefix, current.originalUrlHash) {
      HashKeyInjective(prefix, original.originalUrlHash, current.originalUrlHash);
    }
  }

  /** When neither code nor hash changed, `updated` evicts nothing: it is a plain `put`. */
  lemma UpdatedWithSameKeysOnlyPuts(prefix: string, m: map<string, CachedValue>, original: ShortUrl, current: ShortUrl)
    requires original.code == current.code && original.originalUrlHash == current.originalUrlHash
    ensures PutEntries(prefix, ForgetEntries(prefix, m, original), current) == PutEntries(prefix, m, current)
  {
    var a := PutEntries(prefix, ForgetEntries(prefix, m, original), current);
    var b := PutEntries(prefix, m, current);
    assert a.Keys == b.Keys;
  }

  class ShortUrlObserver {
    const cacheService: CacheService

    ghost predicate Valid()
      reads this, cacheService, cacheService.backend
    {
      cacheService.Valid()
    }

    constructor (cacheService: CacheService)
      ensures this.cacheService == cacheService
    {
      this.cacheService := cacheService;
    }

    /** `created`: caches the new record. */
    method Created(r: ShortUrl)
      requires Valid()
      modifies cacheService.backend
      ensures Valid()
      ensures cacheService.backend.entries ==
        if cacheService.enabled then PutEntries(cacheService.prefix, old(cacheService.backend.entries), r)
        else old(cacheService.backend.entries)
    {
      cacheService.Put(r);
    }

    /**
     * `updated`: with caching on, the same as forgetting the original and caching the current
     * record. With caching off only the old hash key is removed, if the hash changed, because
     * `forgetByHash` does not consult the enabled flag.
     */
    method Updated(original: ShortUrl, current: ShortUrl)
      requires Valid()
      modifies cacheService.backend
      ensures Valid()
      ensures cacheService.enabled ==>
        cacheService.backend.entries ==
          PutEntries(cacheService.prefix, ForgetEntries(cacheService.prefix, old(cacheService.backend.entries), original), current)
      ensures !cacheService.enabled ==>
        cacheService.backend.entries ==
          if original.originalUrlHash != current.originalUrlHash
          then old(cacheService.backend.entries) - {HashKey(cacheService.prefix, original.originalUrlHash)}
          else old(cacheService.backend.entries)
    {
      ghost var m := cacheService.backend.entries;
      if original.code != current.code {
        cacheService.ForgetByCode(original.code);
      }
      if original.originalUrlHash != current.originalUrlHash {
        ForgetByHash(original.originalUrlHash);
      }
      ghost var evicted := cacheService.backend.entries;
      assert cacheService.enabled ==> evicted == EvictChanged(cacheService.prefix, m, original, current);
      cacheService.Put(current);
      if cacheService.enabled {
        EvictChangedThenPut(cacheService.prefix, m, original, current);
      }
    }

    /** `deleted`: forgets both keys of the record. */
    method Deleted(r: ShortUrl)
      requires Valid()
      modifies cacheService.backend
      ensures Valid()
      ensures cacheService.backend.entries ==
        if cacheService.enabled then ForgetEntries(cacheService.prefix, old(cacheService.backend.entries), r)
        else old(cacheService.backend.entries)
    {
      cacheService.Forget(r);
    }

    /** `forceDeleted`: forgets both keys of the record. */
    method ForceDeleted(r: ShortUrl)
      requires Valid()
      modifies cacheService.backend
      ensures Valid()
      ensures cacheService.backend.entries ==
        if cacheService.enabled then ForgetEntries(cacheService.prefix, old(cacheService.backend.entries), r)
        else old(cacheService.backend.entries)
    {
      cacheService.Forget(r);
    }

    /** `restored`: caches the record again. */
    method Restored(r: ShortUrl)
      requires Valid()
      modifies cacheService.backend
      ensures Valid()
      ensures cacheService.backend.entries ==
        if cacheService.enabled then PutEntries(cacheService.prefix, old(cacheService.backend.entries), r)
        else old(cacheService.backend.entries)
    {
      cacheService.Put(r);
    }

    /** `forgetByHash`: removes the hash key under the configured prefix, whether or not caching is on. */
    method ForgetByHash(hash: string)
      requires Valid()
      modifies cacheService.backend
      ensures Valid()
      ensures cacheService.backend.entries ==
        old(cacheService.backend.entries) - {HashKey(ConfiguredPrefix(cacheService.config), hash)}
    {
      var prefix := ConfiguredPrefix(cacheService.config);
      var cacheKey := prefix + ":hash:" + hash;
      cacheService.backend.entries := cacheService.backend.entries - {cacheKey};
    }
  }
}
