/**
 * The record cache (app/Services/CacheService.php): a key/value store with a code keyspace
 * `prefix:code:C` holding records and a hash keyspace `prefix:hash:H` holding codes, in front of
 * the `short_urls` table.
 *
 * The central invariant is `Coherent`: every cached record is a live row of the table with the
 * code it is cached under, and every cached code belongs to a live row with the hash it is cached
 * under. Expiry by TTL only ever removes keys, so it can only keep the invariant; it is not modelled.
 */
module Caching {
  import opened Wrappers
  import opened ShortUrlModel

  const DefaultEnabled: bool := true
  const DefaultPrefix: string := "shorturl"
  const DefaultTtl: int := 604800

  /** The `shortener.cache` settings; `None` means the key is absent, so the default applies. */
  datatype CacheConfig = CacheConfig(enabled: Option<bool>, prefix: Option<string>, ttl: Option<int>)

  function ConfiguredPrefix(config: CacheConfig): string
  {
    OrElse(config.prefix, DefaultPrefix)
  }

  datatype CachedValue = CachedRecord(record: ShortUrl) | CachedCode(code: string)

  /** `codeKey($code)`. */
  function CodeKey(prefix: string, code: string): string
  {
    prefix + ":code:" + code
  }

  /** `hashKey($hash)`. */
  function HashKey(prefix: string, hash: string): string
  {
    prefix + ":hash:" + hash
  }

  /** Distinct codes have distinct keys. */
  lemma CodeKeyInjective(prefix: string, a: string, b: string)
    requires CodeKey(prefix, a) == CodeKey(prefix, b)
    ensures a == b
  {
    var n := |prefix + ":code:"|;
    assert a == CodeKey(prefix, a)[n..];
    assert b == CodeKey(prefix, b)[n..];
  }

  /** Distinct hashes have distinct keys. */
  lemma HashKeyInjective(prefix: string, a: string, b: string)
    requires HashKey(prefix, a) == HashKey(prefix, b)
    ensures a == b
  {
    var n := |prefix + ":hash:"|;
    assert a == HashKey(prefix, a)[n..];
    assert b == HashKey(prefix, b)[n..];
  }

  /** Under one prefix a code key is never a hash key. */
  lemma KeyspacesDisjoint(prefix: string, code: string, hash: string)
    ensures CodeKey(prefix, code) != HashKey(prefix, hash)
  {
    assert CodeKey(prefix, code)[|prefix| + 1] == 'c';
    assert HashKey(prefix, hash)[|prefix| + 1] == 'h';
  }

  /** Code keys hold records and hash keys hold codes. */
  ghost predicate WellTyped(prefix: string, m: map<string, CachedValue>)
  {
    && (forall c :: CodeKey(prefix, c) in m ==> m[CodeKey(prefix, c)].CachedRecord?)
    && (forall h :: HashKey(prefix, h) in m ==> m[HashKey(prefix, h)].CachedCode?)
  }

  /** Some live row has hash `hash` and code `code`. */
  ghost predicate CodeHeld(rows: seq<ShortUrl>, hash: string, code: string)
  {
    exists r :: r in rows && HasUrlHash(r, hash) && r.code == code
  }

  /** The cache agrees with the table (see the module comment). */
  ghost predicate Coherent(prefix: string, rows: seq<ShortUrl>, m: map<string, CachedValue>)
  {
    && WellTyped(prefix, m)
    && (forall c :: CodeKey(prefix, c) in m ==>
          m[CodeKey(prefix, c)].record in rows && HasCode(m[CodeKey(prefix, c)].record, c))
    && (forall h :: HashKey(prefix, h) in m ==> CodeHeld(rows, h, m[HashKey(prefix, h)].code))
  }

  /** The two writes of `put($shortUrl)`. */
  function PutEntries(prefix: string, m: map<string, CachedValue>, r: ShortUrl): map<string, CachedValue>
  {
    m[CodeKey(prefix, r.code) := CachedRecord(r)][HashKey(prefix, r.originalUrlHash) := CachedCode(r.code)]
  }

  /** The two removals of `forget($shortUrl)`. */
  function ForgetEntries(prefix: string, m: map<string, CachedValue>, r: ShortUrl): map<string, CachedValue>
  {
    m - {CodeKey(prefix, r.code), HashKey(prefix, r.originalUrlHash)}
  }

  /**
   * After `put(r)` the code key holds `r` and the hash key holds its code (the second write cannot
   * clobber the first), and every other key is as before.
   */
  lemma PutEntriesFacts(prefix: string, m: map<string, CachedValue>, r: ShortUrl)
    ensures var m' := PutEntries(prefix, m, r);
      && m'[CodeKey(prefix, r.code)] == CachedRecord(r)
      && m'[HashKey(prefix, r.originalUrlHash)] == CachedCode(r.code)
      && m'.Keys == m.Keys + {CodeKey(prefix, r.code), HashKey(prefix, r.originalUrlHash)}
      && forall k :: k in m && k != CodeKey(prefix, r.code) && k != HashKey(prefix, r.originalUrlHash) ==> m'[k] == m[k]
  {
    KeyspacesDisjoint(prefix, r.code, r.originalUrlHash);
  }

  /** `forget(r)` removes exactly the two keys of `r`. */
  lemma ForgetEntriesFacts(prefix: string, m: map<string, CachedValue>, r: ShortUrl)
    ensures var m' := ForgetEntries(prefix, m, r);
      && CodeKey(prefix, r.code) !in m' && HashKey(prefix, r.originalUrlHash) !in m'
      && m'.Keys == m.Keys - {CodeKey(prefix, r.code), HashKey(prefix, r.originalUrlHash)}
      && forall k :: k in m' ==> m'[k] == m[k]
  {
  }

  /** Removing keys keeps the cache coherent. */
  lemma RemovalKeepsCoherent(prefix: string, rows: seq<ShortUrl>, m: map<string, CachedValue>, keys: set<string>)
    requires Coherent(prefix, rows, m)
    ensures Coherent(prefix, rows, m - keys)
  {
  }

  /** Adding rows to the table keeps the cache coherent. */
  lemma GrowingTableKeepsCoherent(prefix: string, rows: seq<ShortUrl>, rows': seq<ShortUrl>, m: map<string, CachedValue>)
    requires Coherent(prefix, rows, m)
    requires forall x :: x in rows ==> x in rows'
    ensures Coherent(prefix, rows', m)
  {
    forall h | HashKey(prefix, h) in m ensures CodeHeld(rows', h, m[HashKey(prefix, h)].code) {
      var r :| r in rows && HasUrlHash(r, h) && r.code == m[HashKey(prefix, h)].code;
      assert r in rows';
    }
  }

  /** Caching a live row of the table keeps the cache coherent. */
  lemma PutKeepsCoherent(prefix: string, rows: seq<ShortUrl>, m: map<string, CachedValue>, r: ShortUrl)
    requires Coherent(prefix, rows, m)
    requires r in rows && !r.deleted
    ensures Coherent(prefix, rows, PutEntries(prefix, m, r))
  {
    var m' := PutEntries(prefix, m, r);
    PutEntriesFacts(prefix, m, r);
    forall c | CodeKey(prefix, c) in m'
      ensures m'[CodeKey(prefix, c)].CachedRecord?
      ensures m'[CodeKey(prefix, c)].record in rows && HasCode(m'[CodeKey(prefix, c)].record, c)
    {
      KeyspacesDisjoint(prefix, c, r.originalUrlHash);
      if c == r.code {
      } else {
        if CodeKey(prefix, c) == CodeKey(prefix, r.code) {
          CodeKeyInjective(prefix, c, r.code);
        }
      }
    }
    forall h | HashKey(prefix, h) in m'
      ensures m'[HashKey(prefix, h)].CachedCode?
      ensures CodeHeld(rows, h, m'[HashKey(prefix, h)].code)
    {
      KeyspacesDisjoint(prefix, r.code, h);
      if h == r.originalUrlHash {
        assert r in rows && HasUrlHash(r, h) && r.code == m'[HashKey(prefix, h)].code;
      } else {
        if HashKey(prefix, h) == HashKey(prefix, r.originalUrlHash) {
          HashKeyInjective(prefix, h, r.originalUrlHash);
        }
      }
    }
  }

  /**
   * When a row `x` of the table is rewritten or removed, forgetting its two keys makes the cache
   * coherent with the new table: no other key can refer to `x`.
   */
  lemma ForgetKeepsCoherent(prefix: string, rows: seq<ShortUrl>, rows': seq<ShortUrl>, m: map<string, CachedValue>, x: ShortUrl)
    requires Coherent(prefix, rows, m) && IdsDistinct(rows) && x in rows
    requires forall y :: y in rows && y.id != x.id ==> y in rows'
    ensures Coherent(prefix, rows', ForgetEntries(prefix, m, x))
  {
    var m' := ForgetEntries(prefix, m, x);
    forall c | CodeKey(prefix, c) in m'
      ensures m'[CodeKey(prefix, c)].record in rows' && HasCode(m'[CodeKey(prefix, c)].record, c)
    {
      var y := m[CodeKey(prefix, c)].record;
      if y.id == x.id {
        SameIdSameRow(rows, x, y);
        assert false;
      }
    }
    forall h | HashKey(prefix, h) in m'
      ensures CodeHeld(rows', h, m'[HashKey(prefix, h)].code)
    {
      var y :| y in rows && HasUrlHash(y, h) && y.code == m[HashKey(prefix, h)].code;
      if y.id == x.id {
        SameIdSameRow(rows, x, y);
        assert false;
      }
      assert y in rows';
    }
  }

  /** The backing cache store (`Cache::` facade). */
  class CacheStore {
    var entries: map<string, CachedValue>

    constructor ()
      ensures entries == map[]
    {
      entries := map[];
    }
  }

  /** CacheService: a fixed configuration over the shared cache store and the table. */
  class CacheService {
    const config: CacheConfig
    const prefix: string
    const ttl: int
    const enabled: bool
    const backend: CacheStore
    const store: Store

    /** The settings are read from the configuration, a missing key giving its default. */
    predicate Configured()
      reads this
    {
      && prefix == ConfiguredPrefix(config)
      && ttl == OrElse(config.ttl, DefaultTtl)
      && enabled == OrElse(config.enabled, DefaultEnabled)
    }

    /** The settings are the configured ones; the code keyspace holds only records and the hash keyspace only codes. */
    ghost predicate Valid()
      reads this, backend
    {
      Configured() && WellTyped(prefix, backend.entries)
    }

    /** While enabled, the cache agrees with the table. */
    ghost predicate Synced()
      reads this, backend, store
    {
      enabled ==> Coherent(prefix, store.rows, backend.entries)
    }

    constructor (config: CacheConfig, backend: CacheStore, store: Store)
      requires WellTyped(ConfiguredPrefix(config), backend.entries)
      ensures Valid()
      ensures this.config == config && this.backend == backend && this.store == store
    {
      this.config := config;
      prefix := ConfiguredPrefix(config);
      ttl := OrElse(config.ttl, DefaultTtl);
      enabled := OrElse(config.enabled, DefaultEnabled);
      this.backend := backend;
      this.store := store;
    }

    /** `isEnabled()`: the `shortener.cache.enabled` setting, on by default. */
    function IsEnabled(): (b: bool)
      requires Configured()
      reads this
      ensures b == OrElse(config.enabled, DefaultEnabled)
      ensures config.enabled.None? ==> b
    {
      enabled
    }

    /**
     * `getByCode($code)`: a cache hit is returned as cached, without reading the table; otherwise
     * the first live row with the code, which is then cached with both its keys.
     */
    method GetByCode(code: string) returns (r: Option<ShortUrl>)
      requires Valid()
      modifies backend
      ensures Valid()
      ensures old(Synced()) ==> Synced()
      ensures !enabled ==> r == FirstByCode(store.rows, code) && backend.entries == old(backend.entries)
      ensures enabled && CodeKey(prefix, code) in old(backend.entries) ==>
        r == Some(old(backend.entries)[CodeKey(prefix, code)].record) && backend.entries == old(backend.entries)
      ensures enabled && CodeKey(prefix, code) !in old(backend.entries) ==>
        && r == FirstByCode(store.rows, code)
        && backend.entries == if r.Some? then PutEntries(prefix, old(backend.entries), r.value) else old(backend.entries)
      ensures r.None? ==> FirstByCode(store.rows, code).None?
      ensures Synced() && r.Some? ==> r.value in store.rows && HasCode(r.value, code)
    {
      var cacheKey := CodeKey(prefix, code);
      if enabled {
        if cacheKey in backend.entries {
          return Some(backend.entries[cacheKey].record);
        }
      }
      r := FirstByCode(store.rows, code);
      if r.Some? && enabled {
        Put(r.value);
      }
    }

    /**
     * `getCodeByHash($hash)`: a cache hit is returned as cached; otherwise the code of the first
     * live row with the hash, and only the hash key is written. A miss leaves the cache alone.
     */
    method GetCodeByHash(hash: string) returns (r: Option<string>)
      requires Valid()
      modifies backend
      ensures Valid()
      ensures old(Synced()) ==> Synced()
      ensures !enabled ==> backend.entries == old(backend.entries)
      ensures !enabled || HashKey(prefix, hash) !in old(backend.entries) ==>
        r == (if FirstByUrlHash(store.rows, hash).Some? then Some(FirstByUrlHash(store.rows, hash).value.code) else None)
      ensures enabled && HashKey(prefix, hash) in old(backend.entries) ==>
        r == Some(old(backend.entries)[HashKey(prefix, hash)].code) && backend.entries == old(backend.entries)
      ensures enabled && HashKey(prefix, hash) !in old(backend.entries) ==>
        backend.entries == if r.Some? then old(backend.entries)[HashKey(prefix, hash) := CachedCode(r.value)] else old(backend.entries)
      ensures Synced() && r.Some? ==> CodeHeld(store.rows, hash, r.value)
    {
      var cacheKey := HashKey(prefix, hash);
      if enabled {
        if cacheKey in backend.entries {
          return Some(backend.entries[cacheKey].code);
        }
      }
      var found := FirstByUrlHash(store.rows, hash);
      if found.None? {
        return None;
      }
      if enabled {
        ghost var m := backend.entries;
        backend.entries := backend.entries[cacheKey := CachedCode(found.value.code)];
        forall c | CodeKey(prefix, c) in backend.entries
          ensures CodeKey(prefix, c) in m && backend.entries[CodeKey(prefix, c)] == m[CodeKey(prefix, c)]
        {
          KeyspacesDisjoint(prefix, c, hash);
        }
        forall h | HashKey(prefix, h) in backend.entries && h != hash
          ensures HashKey(prefix, h) in m && backend.entries[HashKey(prefix, h)] == m[HashKey(prefix, h)]
        {
          if HashKey(prefix, h) == cacheKey {
            HashKeyInjective(prefix, h, hash);
          }
        }
        assert found.value in store.rows && HasUrlHash(found.value, hash);
        assert CodeHeld(store.rows, hash, found.value.code);
      }
      r := Some(found.value.code);
    }

    /** `put($shortUrl)`: writes both keys of the record when enabled. */
    method Put(r: ShortUrl)
      requires Valid()
      modifies backend
      ensures Valid()
      ensures backend.entries == if enabled then PutEntries(prefix, old(backend.entries), r) else old(backend.entries)
      ensures old(Synced()) && r in store.rows && !r.deleted ==> Synced()
    {
      if !enabled {
        return;
      }
      ghost var m := backend.entries;
      PutEntriesFacts(prefix, m, r);
      forall c | CodeKey(prefix, c) in PutEntries(prefix, m, r)
        ensures PutEntries(prefix, m, r)[CodeKey(prefix, c)].CachedRecord?
      {
        KeyspacesDisjoint(prefix, c, r.originalUrlHash);
      }
      forall h | HashKey(prefix, h) in PutEntries(prefix, m, r)
        ensures PutEntries(prefix, m, r)[HashKey(prefix, h)].CachedCode?
      {
        KeyspacesDisjoint(prefix, r.code, h);
      }
      if Synced() && r in store.rows && !r.deleted {
        PutKeepsCoherent(prefix, store.rows, m, r);
      }
      backend.entries := backend.entries[CodeKey(prefix, r.code) := CachedRecord(r)];
      backend.entries := backend.entries[HashKey(prefix, r.originalUrlHash) := CachedCode(r.code)];
    }

    /** `forget($shortUrl)`: removes both keys of the record when enabled. */
    method Forget(r: ShortUrl)
      requires Valid()
      modifies backend
      ensures Valid()
      ensures backend.entries == if enabled then ForgetEntries(prefix, old(backend.entries), r) else old(backend.entries)
      ensures old(Synced()) ==> Synced()
    {
      if !enabled {
        return;
      }
      if Synced() {
        RemovalKeepsCoherent(prefix, store.rows, backend.entries, {CodeKey(prefix, r.code), HashKey(prefix, r.originalUrlHash)});
      }
      backend.entries := backend.entries - {CodeKey(prefix, r.code)};
      backend.entries := backend.entries - {HashKey(prefix, r.originalUrlHash)};
      assert backend.entries == ForgetEntries(prefix, old(backend.entries), r);
    }

    /** `forgetByCode($code)`: removes only the code key when enabled. */
    method ForgetByCode(code: string)
      requires Valid()
      modifies backend
      ensures Valid()
      ensures backend.entries == if enabled then old(backend.entries) - {CodeKey(prefix, code)} else old(backend.entries)
      ensures old(Synced()) ==> Synced()
    {
      if !enabled {
        return;
      }
      if Synced() {
        RemovalKeepsCoherent(prefix, store.rows, backend.entries, {CodeKey(prefix, code)});
      }
      backend.entries := backend.entries - {CodeKey(prefix, code)};
    }
  }

  /** The cache settings config/shortener.php ships when no environment override is present. */
  const ShippedConfig: CacheConfig := CacheConfig(Some(true), Some("shorturl"), Some(604800))

  /** Without overrides the cache is on, under prefix `shorturl`, with a one-week TTL. */
  lemma DefaultSettings()
    ensures OrElse(ShippedConfig.enabled, DefaultEnabled) && OrElse(CacheConfig(None, None, None).enabled, DefaultEnabled)
    ensures ConfiguredPrefix(ShippedConfig) == ConfiguredPrefix(CacheConfig(None, None, None)) == "shorturl"
    ensures OrElse(CacheConfig(None, None, None).ttl, DefaultTtl) == 7 * 24 * 60 * 60
    ensures CodeKey(DefaultPrefix, "abc123") == "shorturl:code:abc123"
  {
  }
}
