/**
 * The short-URL record (app/Models/ShortUrl.php): its accessibility rules, its query scopes,
 * and the table of records it lives in, with Eloquent's soft-delete semantics.
 *
 * Time is an integer `now`; `expires_at` is an optional integer. The table is a sequence of rows
 * in primary-key order, and `first()` is taken to be the earliest matching row (the queries carry
 * no `orderBy`, so this is a choice of the model). Every normal query adds the
 * soft-delete scope (`deleted_at IS NULL`), modelled by the `deleted` flag.
 */
module ShortUrlModel {
  import opened Wrappers
  import opened UrlStatusEnum

  /** `ShortUrl::hashUrl`: SHA-256 of the URL, an opaque deterministic function (not assumed injective). */
  type Hasher = string -> string

  datatype ShortUrl = ShortUrl(
    id: nat,
    code: string,
    originalUrl: string,
    originalUrlHash: string,
    status: UrlStatus,
    clicks: int,
    expiresAt: Option<int>,
    deleted: bool)

  /** `expires_at->isPast()`: the expiry lies strictly before `now`. */
  predicate IsPast(expiresAt: int, now: int)
  {
    expiresAt < now
  }

  /** `isExpired()`: an expiry is set and it is in the past. */
  predicate IsExpired(r: ShortUrl, now: int)
  {
    r.expiresAt.Some? && IsPast(r.expiresAt.value, now)
  }

  /** `isAccessible()`: the status grants access and the record has not passed its expiry. */
  predicate IsAccessible(r: ShortUrl, now: int)
  {
    if !r.status.IsAccessible() then false
    else if r.expiresAt.Some? && IsPast(r.expiresAt.value, now) then false
    else true
  }

  /** Accessible means Active and not expired; an expiry equal to `now` still counts as accessible. */
  lemma AccessibleIffActiveAndNotExpired(r: ShortUrl, now: int)
    ensures IsAccessible(r, now) <==> r.status == Active && !IsExpired(r, now)
    ensures IsAccessible(r, now) <==> r.status == Active && (r.expiresAt.None? || r.expiresAt.value >= now)
  {
  }

  /** The in-memory effect of `incrementClicks()`: one more click, nothing else. */
  function WithClick(r: ShortUrl): (s: ShortUrl)
    ensures s.clicks == r.clicks + 1
    ensures s.(clicks := r.clicks) == r
  {
    r.(clicks := r.clicks + 1)
  }

  // ---------------------------------------------------------------------------------------------
  // Queries

  /** `where(...)`: the rows satisfying `p`, in table order. */
  function Where(rows: seq<ShortUrl>, p: ShortUrl -> bool): (r: seq<ShortUrl>)
    ensures |r| <= |rows|
    ensures forall x :: x in r <==> x in rows && p(x)
  {
    if rows == [] then []
    else if p(rows[0]) then [rows[0]] + Where(rows[1..], p)
    else Where(rows[1..], p)
  }

  /** The position of the first row satisfying `p`, or `|rows|` when there is none. */
  function FirstIndex(rows: seq<ShortUrl>, p: ShortUrl -> bool): (k: nat)
    ensures k <= |rows|
    ensures forall j :: 0 <= j < k ==> !p(rows[j])
    ensures k < |rows| ==> p(rows[k])
  {
    if rows == [] then 0
    else if p(rows[0]) then 0
    else 1 + FirstIndex(rows[1..], p)
  }

  /** `->first()`: the earliest row satisfying `p`, or null. */
  function FirstWhere(rows: seq<ShortUrl>, p: ShortUrl -> bool): (r: Option<ShortUrl>)
    ensures r.None? <==> forall x :: x in rows ==> !p(x)
    ensures r.Some? ==> r.value in rows && p(r.value)
  {
    var k := FirstIndex(rows, p);
    if k < |rows| then Some(rows[k]) else None
  }

  /** The soft-delete global scope together with `byCode`. */
  predicate HasCode(x: ShortUrl, code: string)
  {
    !x.deleted && x.code == code
  }

  /** The soft-delete global scope together with `byUrlHash`. */
  predicate HasUrlHash(x: ShortUrl, hash: string)
  {
    !x.deleted && x.originalUrlHash == hash
  }

  /** The soft-delete global scope together with `active`. */
  predicate IsLiveActive(x: ShortUrl)
  {
    !x.deleted && x.status == Active
  }

  /** The soft-delete global scope together with `accessible`. */
  predicate IsLiveAccessible(x: ShortUrl, now: int)
  {
    !x.deleted && x.status == Active && (x.expiresAt.None? || x.expiresAt.value > now)
  }

  /** `ShortUrl::byCode($code)`: the non-deleted rows with that code. */
  function ByCode(rows: seq<ShortUrl>, code: string): (r: seq<ShortUrl>)
    ensures forall x :: x in r <==> x in rows && !x.deleted && x.code == code
  {
    Where(rows, x => HasCode(x, code))
  }

  /** `ShortUrl::byUrlHash($hash)`: the non-deleted rows with that URL hash. */
  function ByUrlHash(rows: seq<ShortUrl>, hash: string): (r: seq<ShortUrl>)
    ensures forall x :: x in r <==> x in rows && !x.deleted && x.originalUrlHash == hash
  {
    Where(rows, x => HasUrlHash(x, hash))
  }

  /** `ShortUrl::active()`: the non-deleted rows whose status is Active. */
  function ActiveRows(rows: seq<ShortUrl>): (r: seq<ShortUrl>)
    ensures forall x :: x in r <==> x in rows && !x.deleted && x.status == Active
  {
    Where(rows, IsLiveActive)
  }

  /** `ShortUrl::accessible()`: Active, and no expiry or an expiry strictly after `now`. */
  function AccessibleRows(rows: seq<ShortUrl>, now: int): (r: seq<ShortUrl>)
    ensures forall x :: x in r <==>
      x in rows && !x.deleted && x.status == Active && (x.expiresAt.None? || x.expiresAt.value > now)
  {
    Where(rows, x => IsLiveAccessible(x, now))
  }

  /** `ShortUrl::byCode($code)->first()`. */
  function FirstByCode(rows: seq<ShortUrl>, code: string): (r: Option<ShortUrl>)
    ensures r.None? <==> forall x :: x in rows ==> !HasCode(x, code)
    ensures r.Some? ==> r.value in rows && HasCode(r.value, code)
  {
    FirstWhere(rows, x => HasCode(x, code))
  }

  /** `ShortUrl::byUrlHash($hash)->first()`. */
  function FirstByUrlHash(rows: seq<ShortUrl>, hash: string): (r: Option<ShortUrl>)
    ensures r.None? <==> forall x :: x in rows ==> !HasUrlHash(x, hash)
    ensures r.Some? ==> r.value in rows && HasUrlHash(r.value, hash)
  {
    FirstWhere(rows, x => HasUrlHash(x, hash))
  }

  /** No two live rows share a code. */
  ghost predicate CodesDistinct(rows: seq<ShortUrl>)
  {
    forall i, j :: 0 <= i < |rows| && 0 <= j < |rows| && !rows[i].deleted && !rows[j].deleted && rows[i].code == rows[j].code ==> i == j
  }

  /** `ShortUrl::byCode($code)->exists()`. */
  predicate CodeTaken(rows: seq<ShortUrl>, code: string)
  {
    FirstByCode(rows, code).Some?
  }

  /** Every row the `accessible` scope keeps is accessible by `isAccessible()`. */
  lemma AccessibleRowsAreAccessible(rows: seq<ShortUrl>, now: int, x: ShortUrl)
    requires x in AccessibleRows(rows, now)
    ensures IsAccessible(x, now) && x in ActiveRows(rows)
  {
  }

  /** Conversely, an accessible live row is kept by the scope unless it expires exactly at `now`. */
  lemma AccessibleScopeMissesOnlyTheBoundary(rows: seq<ShortUrl>, now: int, x: ShortUrl)
    requires x in rows && !x.deleted && IsAccessible(x, now)
    ensures x in AccessibleRows(rows, now) <==> x.expiresAt != Some(now)
  {
  }

  /**
   * The scope and the predicate disagree at the boundary: a live Active row expiring exactly at `now`
   * passes `isAccessible()` (not yet past) but is dropped by `accessible()` (not strictly after now).
   */
  lemma AccessibleScopeBoundary(x: ShortUrl, now: int)
    requires !x.deleted && x.status == Active && x.expiresAt == Some(now)
    ensures IsAccessible(x, now)
    ensures AccessibleRows([x], now) == []
  {
  }

  // ---------------------------------------------------------------------------------------------
  // The table

  /** Primary keys are unique. */
  ghost predicate IdsDistinct(rows: seq<ShortUrl>)
  {
    forall i, j :: 0 <= i < |rows| && 0 <= j < |rows| && rows[i].id == rows[j].id ==> i == j
  }

  /** With unique primary keys, a row is determined by its id. */
  lemma SameIdSameRow(rows: seq<ShortUrl>, x: ShortUrl, y: ShortUrl)
    requires IdsDistinct(rows) && x in rows && y in rows && x.id == y.id
    ensures x == y
  {
    var i :| 0 <= i < |rows| && rows[i] == x;
    var j :| 0 <= j < |rows| && rows[j] == y;
  }

  /** A query `UPDATE ... WHERE id = ?` that rewrites the matching row with `f`, scopes ignored. */
  function UpdateWhereId(rows: seq<ShortUrl>, id: nat, f: ShortUrl -> ShortUrl): (r: seq<ShortUrl>)
    ensures |r| == |rows|
    ensures forall i :: 0 <= i < |rows| ==> r[i] == if rows[i].id == id then f(rows[i]) else rows[i]
  {
    seq(|rows|, i requires 0 <= i < |rows| => if rows[i].id == id then f(rows[i]) else rows[i])
  }

  /** An id-preserving update keeps the keys unique and leaves every other row in the table. */
  lemma UpdateWhereIdFacts(rows: seq<ShortUrl>, id: nat, f: ShortUrl -> ShortUrl)
    requires IdsDistinct(rows)
    requires forall x :: f(x).id == x.id
    ensures IdsDistinct(UpdateWhereId(rows, id, f))
    ensures forall x :: x in rows && x.id != id ==> x in UpdateWhereId(rows, id, f)
    ensures forall x :: x in rows && x.id == id ==> f(x) in UpdateWhereId(rows, id, f)
  {
    var r := UpdateWhereId(rows, id, f);
    forall i, j | 0 <= i < |r| && 0 <= j < |r| && r[i].id == r[j].id ensures i == j {
      assert r[i].id == rows[i].id && r[j].id == rows[j].id;
    }
    forall x | x in rows ensures x.id != id ==> x in r ensures x.id == id ==> f(x) in r {
      var i :| 0 <= i < |rows| && rows[i] == x;
      assert r[i] == if x.id == id then f(x) else x;
    }
  }

  /** Removing rows keeps the keys unique. */
  lemma WhereKeepsIdsDistinct(rows: seq<ShortUrl>, p: ShortUrl -> bool)
    requires IdsDistinct(rows)
    ensures IdsDistinct(Where(rows, p))
    decreases |rows|
  {
    if rows != [] {
      var tail := rows[1..];
      assert IdsDistinct(tail) by {
        forall i, j | 0 <= i < |tail| && 0 <= j < |tail| && tail[i].id == tail[j].id ensures i == j {
          assert rows[i + 1].id == rows[j + 1].id;
        }
      }
      WhereKeepsIdsDistinct(tail, p);
      var w := Where(tail, p);
      if p(rows[0]) {
        var r := [rows[0]] + w;
        forall x | x in w ensures x.id != rows[0].id {
          var k :| 0 <= k < |tail| && tail[k] == x;
          assert rows[k + 1] == x;
        }
        forall i, j | 0 <= i < |r| && 0 <= j < |r| && r[i].id == r[j].id ensures i == j {
          if i > 0 && j > 0 {
            assert w[i - 1].id == w[j - 1].id;
          }
        }
      }
    }
  }

  /** The columns `$shortUrl->update($attributes)` may write (null: the column is not written). */
  datatype Attributes = Attributes(
    originalUrl: Option<string>,
    originalUrlHash: Option<string>,
    status: Option<UrlStatus>,
    expiresAt: Option<Option<int>>)
  {
    predicate IsEmpty()
    {
      originalUrl.None? && originalUrlHash.None? && status.None? && expiresAt.None?
    }
  }

  /** `fill($attributes)`: each given column overwrites the record's value. */
  function Apply(r: ShortUrl, a: Attributes): (s: ShortUrl)
    ensures s.id == r.id && s.code == r.code && s.clicks == r.clicks && s.deleted == r.deleted
    ensures s.originalUrl == if a.originalUrl.Some? then a.originalUrl.value else r.originalUrl
    ensures s.originalUrlHash == if a.originalUrlHash.Some? then a.originalUrlHash.value else r.originalUrlHash
    ensures s.status == if a.status.Some? then a.status.value else r.status
    ensures s.expiresAt == if a.expiresAt.Some? then a.expiresAt.value else r.expiresAt
  {
    r.(originalUrl := OrElse(a.originalUrl, r.originalUrl),
       originalUrlHash := OrElse(a.originalUrlHash, r.originalUrlHash),
       status := OrElse(a.status, r.status),
       expiresAt := OrElse(a.expiresAt, r.expiresAt))
  }

  /** The columns Eloquent actually writes on save: those whose new value differs from the model's. */
  function Dirty(r: ShortUrl, a: Attributes): (d: Attributes)
    ensures Apply(r, d) == Apply(r, a)
    ensures d.IsEmpty() <==> Apply(r, a) == r
  {
    Attributes(
      if a.originalUrl.Some? && a.originalUrl.value != r.originalUrl then a.originalUrl else None,
      if a.originalUrlHash.Some? && a.originalUrlHash.value != r.originalUrlHash then a.originalUrlHash else None,
      if a.status.Some? && a.status.value != r.status then a.status else None,
      if a.expiresAt.Some? && a.expiresAt.value != r.expiresAt then a.expiresAt else None)
  }

  /** The row with `deleted_at` set. */
  function Trashed(x: ShortUrl): ShortUrl
  {
    x.(deleted := true)
  }

  /** The row with `deleted_at` cleared. */
  function Untrashed(x: ShortUrl): ShortUrl
  {
    x.(deleted := false)
  }

  predicate OtherId(x: ShortUrl, id: nat)
  {
    x.id != id
  }

  /** The `short_urls` table with an auto-increment key. */
  class Store {
    var rows: seq<ShortUrl>
    var nextId: nat

    ghost predicate Valid()
      reads this
    {
      IdsDistinct(rows) && forall i :: 0 <= i < |rows| ==> rows[i].id < nextId
    }

    constructor ()
      ensures Valid() && rows == [] && nextId == 1
    {
      rows := [];
      nextId := 1;
    }

    /** `ShortUrl::create([...])`: inserts a live row under the next key and returns it. */
    method Insert(code: string, url: string, hash: string, status: UrlStatus, expiresAt: Option<int>)
      returns (r: ShortUrl)
      requires Valid()
      modifies this
      ensures Valid()
      ensures r == ShortUrl(old(nextId), code, url, hash, status, 0, expiresAt, false)
      ensures rows == old(rows) + [r] && nextId == old(nextId) + 1
    {
      r := ShortUrl(nextId, code, url, hash, status, 0, expiresAt, false);
      rows := rows + [r];
      nextId := nextId + 1;
    }

    /** `UPDATE short_urls SET clicks = clicks + 1 WHERE id = ?`, as issued by `increment('clicks')`. */
    method IncrementClicks(id: nat)
      requires Valid()
      modifies this
      ensures Valid() && nextId == old(nextId)
      ensures rows == UpdateWhereId(old(rows), id, WithClick)
    {
      UpdateWhereIdFacts(rows, id, WithClick);
      rows := UpdateWhereId(rows, id, WithClick);
    }

    /** The `UPDATE ... WHERE id = ?` issued by `save()`, writing the given columns. */
    method UpdateColumns(id: nat, a: Attributes)
      requires Valid()
      modifies this
      ensures Valid() && nextId == old(nextId)
      ensures rows == UpdateWhereId(old(rows), id, x => Apply(x, a))
    {
      UpdateWhereIdFacts(rows, id, x => Apply(x, a));
      rows := UpdateWhereId(rows, id, x => Apply(x, a));
    }

    /** Soft delete: sets `deleted_at` on the row with that key. */
    method SoftDelete(id: nat)
      requires Valid()
      modifies this
      ensures Valid() && nextId == old(nextId)
      ensures rows == UpdateWhereId(old(rows), id, Trashed)
    {
      UpdateWhereIdFacts(rows, id, Trashed);
      rows := UpdateWhereId(rows, id, Trashed);
    }

    /** `restore()`: clears `deleted_at` on the row with that key. */
    method Restore(id: nat)
      requires Valid()
      modifies this
      ensures Valid() && nextId == old(nextId)
      ensures rows == UpdateWhereId(old(rows), id, Untrashed)
    {
      UpdateWhereIdFacts(rows, id, Untrashed);
      rows := UpdateWhereId(rows, id, Untrashed);
    }

    /** `forceDelete()`: removes the row with that key. */
    method ForceDelete(id: nat)
      requires Valid()
      modifies this
      ensures Valid() && nextId == old(nextId)
      ensures rows == Where(old(rows), x => OtherId(x, id))
    {
      WhereKeepsIdsDistinct(rows, x => OtherId(x, id));
      ghost var before := rows;
      rows := Where(rows, x => OtherId(x, id));
      forall i | 0 <= i < |rows| ensures rows[i].id < nextId {
        assert rows[i] in before;
      }
    }
  }
}
