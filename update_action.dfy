/**
 * Editing a short URL (app/Actions/Url/UpdateShortUrlAction.php): the request's non-null fields
 * become the attributes given to `update()`; a new URL is sanitized, validated and re-hashed.
 */
module UpdateShortUrl {
  import opened Wrappers
  import opened UrlStatusEnum
  import opened ShortUrlModel
  import opened UrlValidation
  import opened DataTransferObjects
  import opened Caching
  import opened Persistence

  const NoAttributes: Attributes := Attributes(None, None, None, None)

  /**
   * The `$attributes` array `execute` builds, or the error it throws: a URL that is invalid once
   * sanitized is reported as given; otherwise a URL change carries the sanitized URL and its hash,
   * a status is written only when given, and the expiry is written, possibly as null, exactly when
   * the request says it was set or carries a date.
   */
  function Changes(parse: Parser, hash: Hasher, data: UpdateUrlData): (r: Result<Attributes, InvalidUrl>)
    ensures r.Err? <==> data.originalUrl.Some? && !IsValid(parse, Sanitize(parse, data.originalUrl.value))
    ensures r.Err? ==> r.error == Invalid(data.originalUrl.value)
    ensures r.Ok? ==>
      && (r.value.originalUrl.Some? <==> data.originalUrl.Some?)
      && (r.value.originalUrlHash.Some? <==> data.originalUrl.Some?)
      && (data.originalUrl.Some? ==>
            var url := Sanitize(parse, data.originalUrl.value);
            IsValid(parse, url) && r.value.originalUrl == Some(url) && r.value.originalUrlHash == Some(hash(url)))
      && r.value.status == data.status
      && (r.value.expiresAt.Some? <==> data.expiresAtWasSet || data.expiresAt.Some?)
      && (r.value.expiresAt.Some? ==> r.value.expiresAt.value == data.expiresAt)
  {
    if data.originalUrl.Some? && !IsValid(parse, Sanitize(parse, data.originalUrl.value)) then
      Err(Invalid(data.originalUrl.value))
    else
      var url := if data.originalUrl.Some? then Some(Sanitize(parse, data.originalUrl.value)) else None;
      Ok(Attributes(
        url,
        if url.Some? then Some(hash(url.value)) else None,
        data.status,
        if data.expiresAtWasSet || data.expiresAt.Some? then Some(data.expiresAt) else None))
  }

  /**
   * Nothing is written exactly when the request has no changes and does not set the expiry;
   * `hasChanges()` alone does not decide it.
   */
  lemma NothingWrittenIffNoChanges(parse: Parser, hash: Hasher, data: UpdateUrlData)
    requires Changes(parse, hash, data).Ok?
    ensures Changes(parse, hash, data).value.IsEmpty() <==> !data.HasChanges() && !data.expiresAtWasSet
  {
  }

  /** The record stores the hash of its URL, as `create` and `update` keep it. */
  predicate HashesItsUrl(hash: Hasher, x: ShortUrl)
  {
    x.originalUrlHash == hash(x.originalUrl)
  }

  /**
   * An update keeps the stored hash that of the stored URL, and never touches the key, the code,
   * the click count or the trashed flag.
   */
  lemma UpdateKeepsHashAndIdentity(parse: Parser, hash: Hasher, x: ShortUrl, data: UpdateUrlData)
    requires HashesItsUrl(hash, x) && Changes(parse, hash, data).Ok?
    ensures var y := Apply(x, Changes(parse, hash, data).value);
      HashesItsUrl(hash, y) && y.id == x.id && y.code == x.code && y.clicks == x.clicks && y.deleted == x.deleted
  {
  }

  /** Sending the same update twice leaves the record as the first one did. */
  lemma UpdateIdempotent(parse: Parser, hash: Hasher, x: ShortUrl, data: UpdateUrlData)
    requires Changes(parse, hash, data).Ok?
    ensures var a := Changes(parse, hash, data).value;
      Apply(Apply(x, a), a) == Apply(x, a)
  {
  }

  /** The fields the request leaves null keep their values. */
  lemma UpdateKeepsUnsetFields(parse: Parser, hash: Hasher, x: ShortUrl, data: UpdateUrlData)
    requires Changes(parse, hash, data).Ok?
    ensures var y := Apply(x, Changes(parse, hash, data).value);
      && (data.originalUrl.None? ==> y.originalUrl == x.originalUrl && y.originalUrlHash == x.originalUrlHash)
      && (data.status.None? ==> y.status == x.status)
      && (!data.expiresAtWasSet && data.expiresAt.None? ==> y.expiresAt == x.expiresAt)
  {
  }

  /** `fromArray(['expires_at' => null])` as written leaves an expiring record as it was. */
  lemma NullExpiryAsWrittenKeepsExpiry(parse: Parser, hash: Hasher, x: ShortUrl)
    requires x.expiresAt.Some?
    ensures FromArrayAsWritten(UpdateInput(Absent, Absent, Null)).Ok?
    ensures var a := Changes(parse, hash, FromArrayAsWritten(UpdateInput(Absent, Absent, Null)).value);
      a == Ok(NoAttributes) && Apply(x, a.value) == x && Apply(x, a.value).expiresAt.Some?
  {
    AsWrittenCannotTellNullFromMissing();
  }

  /** With the presence of `expires_at` recorded, the same request clears the expiry. */
  lemma NullExpiryClearsExpiry(parse: Parser, hash: Hasher, x: ShortUrl)
    ensures UpdateFromArray(UpdateInput(Absent, Absent, Null)).Ok?
    ensures var a := Changes(parse, hash, UpdateFromArray(UpdateInput(Absent, Absent, Null)).value);
      a == Ok(Attributes(None, None, None, Some(None))) && Apply(x, a.value) == x.(expiresAt := None)
  {
    RecordedFlagTellsNullFromMissing();
  }

  class UpdateShortUrlAction {
    const parse: Parser
    const hash: Hasher
    const db: Database

    constructor (parse: Parser, hash: Hasher, db: Database)
      ensures this.parse == parse && this.hash == hash && this.db == db
    {
      this.parse := parse;
      this.hash := hash;
      this.db := db;
    }

    /** `execute($shortUrl, $data)`. */
    method Execute(record: ShortUrl, data: UpdateUrlData) returns (r: Result<ShortUrl, InvalidUrl>)
      requires db.Valid()
      modifies db.store, db.cache.backend
      ensures db.Valid()
      ensures var c := Changes(parse, hash, data);
        && (c.Err? ==> r == Err(c.error))
        && (c.Ok? ==> r == Ok(Apply(record, c.value)))
      ensures r.Err? || r.value == record ==>
        db.store.rows == old(db.store.rows) && db.cache.backend.entries == old(db.cache.backend.entries)
      ensures r.Ok? && r.value != record ==>
        db.store.rows == UpdateWhereId(old(db.store.rows), record.id, x => Apply(x, Dirty(record, Changes(parse, hash, data).value)))
      ensures r.Ok? && r.value != record && db.cache.enabled ==>
        db.cache.backend.entries ==
          PutEntries(db.cache.prefix, ForgetEntries(db.cache.prefix, old(db.cache.backend.entries), record), r.value)
      ensures r.Ok? && r.value != record && !db.cache.enabled ==>
        db.cache.backend.entries ==
          if record.originalUrlHash != r.value.originalUrlHash
          then old(db.cache.backend.entries) - {HashKey(db.cache.prefix, record.originalUrlHash)}
          else old(db.cache.backend.entries)
      ensures db.store.nextId == old(db.store.nextId)
      ensures old(db.Synced()) && record in old(db.store.rows) && !record.deleted ==> db.Synced()
    {
      var attributes := NoAttributes;
      if data.originalUrl.Some? {
        var url := Sanitize(parse, data.originalUrl.value);
        if !IsValid(parse, url) {
          return Err(Invalid(data.originalUrl.value));
        }
        attributes := attributes.(originalUrl := Some(url), originalUrlHash := Some(hash(url)));
      }
      if data.status.Some? {
        attributes := attributes.(status := data.status);
      }
      if data.expiresAtWasSet || data.expiresAt.Some? {
        attributes := attributes.(expiresAt := Some(data.expiresAt));
      }
      assert attributes == Changes(parse, hash, data).value;
      if attributes.IsEmpty() {
        return Ok(record);
      }
      var saved := db.Save(record, attributes);
      return Ok(saved);
    }
  }
}
