/**
 * The Eloquent writes on `ShortUrl` together with the observer hooks Eloquent fires for each:
 * `create` fires `created`; `increment` and a dirty `save` fire `updated`; a soft `delete` fires
 * `deleted`; `forceDelete` fires `deleted` and then `forceDeleted`; `restore` saves (firing
 * `updated` when the record was trashed) and then fires `restored`.
 *
 * Each write is proved to keep the cache coherent with the table (`Synced`).
 */
module Persistence {
  import opened Wrappers
  import opened UrlStatusEnum
  import opened ShortUrlModel
  import opened Caching
  import opened Observers

  /** The `short_urls` table with `ShortUrlObserver` registered on it. */
  class Database {
    const store: Store
    const cache: CacheService
    const observer: ShortUrlObserver

    ghost predicate Valid()
      reads this, store, cache, cache.backend, observer
    {
      observer.cacheService == cache && cache.store == store && store.Valid() && cache.Valid()
    }

    ghost predicate Synced()
      reads this, store, cache, cache.backend
    {
      cache.enabled ==> Coherent(cache.prefix, store.rows, cache.backend.entries)
    }

    constructor (observer: ShortUrlObserver)
      requires observer.Valid() && observer.cacheService.store.Valid()
      ensures Valid()
      ensures this.observer == observer && cache == observer.cacheService && store == observer.cacheService.store
    {
      this.observer := observer;
      cache := observer.cacheService;
      store := observer.cacheService.store;
    }

    /** `ShortUrl::create([...])`: inserts the row with no clicks, then `created` caches it. */
    method Create(code: string, url: string, hash: string, status: UrlStatus, expiresAt: Option<int>)
      returns (r: ShortUrl)
      requires Valid()
      modifies store, cache.backend
      ensures Valid()
      ensures r == ShortUrl(old(store.nextId), code, url, hash, status, 0, expiresAt, false)
      ensures store.rows == old(store.rows) + [r] && store.nextId == old(store.nextId) + 1
      ensures cache.backend.entries ==
        if cache.enabled then PutEntries(cache.prefix, old(cache.backend.entries), r) else old(cache.backend.entries)
      ensures old(Synced()) ==> Synced()
    {
      ghost var rows, m := store.rows, cache.backend.entries;
      r := store.Insert(code, url, hash, status, expiresAt);
      observer.Created(r);
      if old(Synced()) && cache.enabled {
        GrowingTableKeepsCoherent(cache.prefix, rows, store.rows, m);
        PutKeepsCoherent(cache.prefix, store.rows, m, r);
      }
    }

    /**
     * `$shortUrl->increment('clicks')`: the row with the record's key gains one click, the
     * in-memory record too, and `updated` re-caches it.
     */
    method Increment(r: ShortUrl) returns (r': ShortUrl)
      requires Valid()
      modifies store, cache.backend
      ensures Valid()
      ensures r' == WithClick(r)
      ensures store.rows == UpdateWhereId(old(store.rows), r.id, WithClick) && store.nextId == old(store.nextId)
      ensures cache.backend.entries ==
        if cache.enabled then PutEntries(cache.prefix, ForgetEntries(cache.prefix, old(cache.backend.entries), r), r')
        else old(cache.backend.entries)
      ensures old(Synced()) && r in old(store.rows) && !r.deleted ==> Synced()
    {
      ghost var rows, m := store.rows, cache.backend.entries;
      ghost var wasSynced := Synced();
      store.IncrementClicks(r.id);
      r' := WithClick(r);
      observer.Updated(r, r');
      if wasSynced && r in rows && !r.deleted && cache.enabled {
        UpdateWhereIdFacts(rows, r.id, WithClick);
        ForgetKeepsCoherent(cache.prefix, rows, store.rows, m, r);
        PutKeepsCoherent(cache.prefix, store.rows, ForgetEntries(cache.prefix, m, r), r');
      }
    }

    /**
     * `$shortUrl->update($attributes)`: fills the record; only when that changes it are the
     * changed columns written and `updated` fired.
     */
    method Save(r: ShortUrl, a: Attributes) returns (r': ShortUrl)
      requires Valid()
      modifies store, cache.backend
      ensures Valid()
      ensures r' == Apply(r, a)
      ensures r' == r ==> store.rows == old(store.rows) && cache.backend.entries == old(cache.backend.entries)
      ensures r' != r ==> store.rows == UpdateWhereId(old(store.rows), r.id, x => Apply(x, Dirty(r, a)))
      ensures store.nextId == old(store.nextId)
      ensures r' != r && cache.enabled ==>
        cache.backend.entries == PutEntries(cache.prefix, ForgetEntries(cache.prefix, old(cache.backend.entries), r), r')
      ensures r' != r && !cache.enabled ==>
        cache.backend.entries ==
          if r.originalUrlHash != r'.originalUrlHash
          then old(cache.backend.entries) - {HashKey(cache.prefix, r.originalUrlHash)}
          else old(cache.backend.entries)
      ensures old(Synced()) && r in old(store.rows) && !r.deleted ==> Synced()
    {
      r' := Apply(r, a);
      if r' == r {
        return;
      }
      ghost var rows, m := store.rows, cache.backend.entries;
      ghost var wasSynced := Synced();
      var dirty := Dirty(r, a);
      store.UpdateColumns(r.id, dirty);
      observer.Updated(r, r');
      if wasSynced && r in rows && !r.deleted && cache.enabled {
        UpdateWhereIdFacts(rows, r.id, x => Apply(x, dirty));
        ForgetKeepsCoherent(cache.prefix, rows, store.rows, m, r);
        assert r' in store.rows;
        PutKeepsCoherent(cache.prefix, store.rows, ForgetEntries(cache.prefix, m, r), r');
      }
    }

    /** `$shortUrl->delete()`: sets `deleted_at` on the row, then `deleted` forgets both keys. */
    method Delete(r: ShortUrl) returns (r': ShortUrl)
      requires Valid()
      modifies store, cache.backend
      ensures Valid()
      ensures r' == Trashed(r)
      ensures store.rows == UpdateWhereId(old(store.rows), r.id, Trashed) && store.nextId == old(store.nextId)
      ensures cache.backend.entries ==
        if cache.enabled then ForgetEntries(cache.prefix, old(cache.backend.entries), r) else old(cache.backend.entries)
      ensures old(Synced()) && r in old(store.rows) ==> Synced()
    {
      ghost var rows, m := store.rows, cache.backend.entries;
      ghost var wasSynced := Synced();
      store.SoftDelete(r.id);
      r' := Trashed(r);
      observer.Deleted(r');
      if wasSynced && r in rows && cache.enabled {
        UpdateWhereIdFacts(rows, r.id, Trashed);
        ForgetKeepsCoherent(cache.prefix, rows, store.rows, m, r);
      }
    }

    /** `$shortUrl->forceDelete()`: removes the row; `deleted` and then `forceDeleted` forget both keys. */
    method ForceDelete(r: ShortUrl)
      requires Valid()
      modifies store, cache.backend
      ensures Valid()
      ensures store.rows == Where(old(store.rows), x => OtherId(x, r.id)) && store.nextId == old(store.nextId)
      ensures cache.backend.entries ==
        if cache.enabled then ForgetEntries(cache.prefix, old(cache.backend.entries), r) else old(cache.backend.entries)
      ensures old(Synced()) && r in old(store.rows) ==> Synced()
    {
      ghost var rows, m := store.rows, cache.backend.entries;
      ghost var wasSynced := Synced();
      store.ForceDelete(r.id);
      observer.Deleted(r);
      observer.ForceDeleted(r);
      if cache.enabled {
        assert cache.backend.entries == ForgetEntries(cache.prefix, m, r);
        if wasSynced && r in rows {
          ForgetKeepsCoherent(cache.prefix, rows, store.rows, m, r);
        }
      }
    }

    /**
     * `$shortUrl->restore()`: clears `deleted_at` (a dirty save, firing `updated`, when the record was
     * trashed), then `restored` caches the record.
     */
    method Restore(r: ShortUrl) returns (r': ShortUrl)
      requires Valid()
      modifies store, cache.backend
      ensures Valid()
      ensures r' == Untrashed(r)
      ensures store.rows == (if r.deleted then UpdateWhereId(old(store.rows), r.id, Untrashed) else old(store.rows))
      ensures store.nextId == old(store.nextId)
      ensures cache.enabled ==>
        cache.backend.entries ==
          if r.deleted then PutEntries(cache.prefix, ForgetEntries(cache.prefix, old(cache.backend.entries), r), r')
          else PutEntries(cache.prefix, old(cache.backend.entries), r')
      ensures !cache.enabled ==> cache.backend.entries == old(cache.backend.entries)
      ensures old(Synced()) && r in old(store.rows) ==> Synced()
    {
      ghost var rows, m := store.rows, cache.backend.entries;
      ghost var wasSynced := Synced();
      r' := Untrashed(r);
      if r.deleted {
        store.Restore(r.id);
        observer.Updated(r, r');
      }
      ghost var m1 := cache.backend.entries;
      observer.Restored(r');
      if cache.enabled {
        if r.deleted {
          assert PutEntries(cache.prefix, m1, r') == m1;
        }
        if wasSynced && r in rows {
          if r.deleted {
            UpdateWhereIdFacts(rows, r.id, Untrashed);
            ForgetKeepsCoherent(cache.prefix, rows, store.rows, m, r);
            PutKeepsCoherent(cache.prefix, store.rows, ForgetEntries(cache.prefix, m, r), r');
          } else {
            assert r' == r;
            PutKeepsCoherent(cache.prefix, store.rows, m, r');
          }
        }
      }
    }
  }
}
