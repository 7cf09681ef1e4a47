/**
 * Resolving a short code (app/Actions/Url/ResolveShortUrlAction.php and
 * app/Exceptions/Url/UrlNotFoundException.php): look the code up through the cache, refuse a
 * missing or inaccessible record with the same error, otherwise count the click. The clock is
 * the parameter `now`.
 */
module ResolveShortUrl {
  import opened Wrappers
  import opened ShortUrlModel
  import opened Caching
  import opened Persistence

  /** `UrlNotFoundException::forCode($code)`. */
  datatype UrlNotFound = NotFound(code: string)

  /** What `getByCode($code)` returns when the cache is in the state `m`. */
  function Lookup(enabled: bool, prefix: string, m: map<string, CachedValue>, rows: seq<ShortUrl>, code: string): Option<ShortUrl>
    requires WellTyped(prefix, m)
  {
    if enabled && CodeKey(prefix, code) in m then Some(m[CodeKey(prefix, code)].record) else FirstByCode(rows, code)
  }

  /**
   * When the cache agrees with the table, the lookup finds nothing exactly when no live row has
   * the code, and otherwise a live row with it.
   */
  lemma LookupAgreesWithTable(enabled: bool, prefix: string, m: map<string, CachedValue>, rows: seq<ShortUrl>, code: string)
    requires enabled ==> Coherent(prefix, rows, m)
    requires WellTyped(prefix, m)
    ensures var r := Lookup(enabled, prefix, m, rows, code);
      && (r.None? <==> forall x :: x in rows ==> !HasCode(x, code))
      && (r.Some? ==> r.value in rows && HasCode(r.value, code))
  {
    if enabled && CodeKey(prefix, code) in m {
      assert m[CodeKey(prefix, code)].record in rows && HasCode(m[CodeKey(prefix, code)].record, code);
    }
  }

  /** When live codes are unique, a coherent cache returns what the table query returns. */
  lemma CachedLookupIsTableLookup(prefix: string, m: map<string, CachedValue>, rows: seq<ShortUrl>, code: string)
    requires Coherent(prefix, rows, m) && CodesDistinct(rows)
    ensures Lookup(true, prefix, m, rows, code) == FirstByCode(rows, code)
  {
    if CodeKey(prefix, code) in m {
      var x := m[CodeKey(prefix, code)].record;
      var y := FirstByCode(rows, code).value;
      var i :| 0 <= i < |rows| && rows[i] == x;
      var j :| 0 <= j < |rows| && rows[j] == y;
      assert i == j;
    }
  }

  /**
   * The cache after `getByCode($code)` returned `found`: a miss that found a row has cached it under
   * both its keys, whether or not the row is accessible; a hit or a miss that found nothing leaves
   * the cache as it was.
   */
  function Filled(enabled: bool, prefix: string, m: map<string, CachedValue>, found: Option<ShortUrl>, code: string): (m': map<string, CachedValue>)
    ensures !enabled || CodeKey(prefix, code) in m || found.None? ==> m' == m
    ensures enabled && CodeKey(prefix, code) !in m && found.Some? ==>
      && CodeKey(prefix, found.value.code) in m' && m'[CodeKey(prefix, found.value.code)] == CachedRecord(found.value)
      && HashKey(prefix, found.value.originalUrlHash) in m'
      && m'[HashKey(prefix, found.value.originalUrlHash)] == CachedCode(found.value.code)
      && forall k :: k in m && k != CodeKey(prefix, found.value.code) && k != HashKey(prefix, found.value.originalUrlHash) ==>
           k in m' && m'[k] == m[k]
  {
    if enabled && CodeKey(prefix, code) !in m && found.Some? then
      PutEntriesFacts(prefix, m, found.value);
      PutEntries(prefix, m, found.value)
    else m
  }

  /** `execute($code)` when the lookup returned `found`. */
  function Outcome(found: Option<ShortUrl>, code: string, now: int): (r: Result<ShortUrl, UrlNotFound>)
    ensures r.Err? <==> found.None? || !IsAccessible(found.value, now)
    ensures r.Err? ==> r.error == NotFound(code)
    ensures r.Ok? ==> r.value == WithClick(found.value) && r.value.clicks == found.value.clicks + 1
  {
    if found.None? || !IsAccessible(found.value, now) then Err(NotFound(code)) else Ok(WithClick(found.value))
  }

  /**
   * A code that no live row has and a code whose record is inactive or expired are refused with
   * the same error, so a caller cannot tell them apart.
   */
  lemma MissingAndInaccessibleLookTheSame(x: ShortUrl, code: string, now: int)
    requires !IsAccessible(x, now)
    ensures Outcome(None, code, now) == Outcome(Some(x), code, now) == Err(NotFound(code))
  {
  }

  /** The table after `n` clicks on the row with key `id`. */
  function Clicked(rows: seq<ShortUrl>, id: nat, n: nat): seq<ShortUrl>
  {
    if n == 0 then rows else UpdateWhereId(Clicked(rows, id, n - 1), id, WithClick)
  }

  /**
   * `n` click updates add `n` clicks to that row and change nothing else in the table. Each
   * successful `Execute` performs one such update (its ensures on `db.store.rows`).
   */
  lemma {:induction false} ClicksAccumulate(rows: seq<ShortUrl>, id: nat, n: nat)
    ensures |Clicked(rows, id, n)| == |rows|
    ensures forall i :: 0 <= i < |rows| ==>
      Clicked(rows, id, n)[i] == if rows[i].id == id then rows[i].(clicks := rows[i].clicks + n) else rows[i]
  {
    if n > 0 {
      ClicksAccumulate(rows, id, n - 1);
    }
  }

  class ResolveShortUrlAction {
    const db: Database

    constructor (db: Database)
      ensures this.db == db
    {
      this.db := db;
    }

    /** `execute($code)`. */
    method Execute(code: string, now: int) returns (r: Result<ShortUrl, UrlNotFound>)
      requires db.Valid()
      modifies db.store, db.cache.backend
      ensures db.Valid()
      ensures var found := old(Lookup(db.cache.enabled, db.cache.prefix, db.cache.backend.entries, db.store.rows, code));
        && r == Outcome(found, code, now)
        && (r.Err? ==> db.store.rows == old(db.store.rows))
        && (r.Ok? ==> db.store.rows == UpdateWhereId(old(db.store.rows), found.value.id, WithClick))
      ensures db.store.nextId == old(db.store.nextId)
      ensures old(db.Synced()) ==> db.Synced()
      ensures old(db.Synced()) && r.Ok? ==> HasCode(r.value, code) && !r.value.deleted
      ensures var m := old(db.cache.backend.entries);
        var found := old(Lookup(db.cache.enabled, db.cache.prefix, db.cache.backend.entries, db.store.rows, code));
        var filled := Filled(db.cache.enabled, db.cache.prefix, m, found, code);
        && (!db.cache.enabled ==> db.cache.backend.entries == m)
        && (r.Err? ==> db.cache.backend.entries == filled)
        && (r.Ok? && db.cache.enabled ==>
              db.cache.backend.entries == PutEntries(db.cache.prefix, ForgetEntries(db.cache.prefix, filled, found.value), r.value))
      ensures r.Ok? && db.cache.enabled ==>
        && CodeKey(db.cache.prefix, r.value.code) in db.cache.backend.entries
        && db.cache.backend.entries[CodeKey(db.cache.prefix, r.value.code)] == CachedRecord(r.value)
    {
      var found := db.cache.GetByCode(code);
      if found.None? {
        return Err(NotFound(code));
      }
      if !IsAccessible(found.value, now) {
        return Err(NotFound(code));
      }
      ghost var before := db.cache.backend.entries;
      var clicked := db.Increment(found.value);
      PutEntriesFacts(db.cache.prefix, ForgetEntries(db.cache.prefix, before, found.value), clicked);
      return Ok(clicked);
    }
  }
}
