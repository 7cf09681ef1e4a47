/**
 * Creating a short URL (app/Actions/Url/CreateShortUrlAction.php): sanitize, validate, hash,
 * return the existing record for that hash, or insert a new one under a code no live record uses.
 *
 * Each call of `generate()` draws its own entropy; `draws` lists them in order. The loop makes at
 * most `maxAttempts` draws and the fallback two more, so `draws` has `Attempts(maxAttempts) + 2` entries.
 */
module CreateShortUrl {
  import opened Wrappers
  import opened PhpStrings
  import opened ShortUrlModel
  import opened CodeGeneration
  import opened UrlValidation
  import opened DataTransferObjects
  import opened Caching
  import opened Persistence

  /** How often the loop runs: `max_attempts`, and not at all when that is zero or negative. */
  function Attempts(maxAttempts: int): nat
  {
    if maxAttempts > 0 then maxAttempts else 0
  }

  /** The draws fit the generator. */
  predicate DrawsFit(g: CodeGeneratorService, draws: seq<Entropy>)
  {
    forall i :: 0 <= i < |draws| ==> g.Degenerate() || g.Supplies(draws[i])
  }

  /** `byCode($code)->exists()` for the code the draw `e` produces. */
  predicate Taken(g: CodeGeneratorService, rows: seq<ShortUrl>, e: Entropy)
    requires g.Degenerate() || g.Supplies(e)
  {
    CodeTaken(rows, g.Code(e))
  }

  /** The first of the first `n` draws whose code no live row uses, or `n` when all are taken. */
  function FreeIndex(g: CodeGeneratorService, rows: seq<ShortUrl>, draws: seq<Entropy>, n: nat): (k: nat)
    requires n <= |draws| && DrawsFit(g, draws)
    ensures k <= n
    ensures forall j :: 0 <= j < k ==> Taken(g, rows, draws[j])
    ensures k < n ==> !Taken(g, rows, draws[k])
  {
    if n == 0 then 0
    else
      var k := FreeIndex(g, rows, draws, n - 1);
      if k < n - 1 then k
      else if Taken(g, rows, draws[n - 1]) then n else n - 1
  }

  /** The code `generateUniqueCode()` returns. */
  function UniqueCode(g: CodeGeneratorService, rows: seq<ShortUrl>, maxAttempts: int, draws: seq<Entropy>): string
    requires |draws| == Attempts(maxAttempts) + 2 && DrawsFit(g, draws)
  {
    var n := Attempts(maxAttempts);
    var k := FreeIndex(g, rows, draws, n);
    if k < n then g.Code(draws[k]) else g.Code(draws[n]) + g.Code(draws[n + 1])
  }

  /**
   * The code is the first candidate of the loop that no live row uses, and then it is free; or,
   * when every candidate was taken (or there were no attempts), two fresh codes concatenated,
   * not checked against the table.
   */
  lemma UniqueCodeFacts(g: CodeGeneratorService, rows: seq<ShortUrl>, maxAttempts: int, draws: seq<Entropy>)
    requires |draws| == Attempts(maxAttempts) + 2 && DrawsFit(g, draws)
    ensures var n := Attempts(maxAttempts);
      var code := UniqueCode(g, rows, maxAttempts, draws);
      || (exists k :: 0 <= k < n && code == g.Code(draws[k]) && !CodeTaken(rows, code) &&
            forall j :: 0 <= j < k ==> CodeTaken(rows, g.Code(draws[j])))
      || ((forall j :: 0 <= j < n ==> CodeTaken(rows, g.Code(draws[j]))) &&
            code == g.Code(draws[n]) + g.Code(draws[n + 1]))
  {
    var n := Attempts(maxAttempts);
    var k := FreeIndex(g, rows, draws, n);
    if k < n {
      assert UniqueCode(g, rows, maxAttempts, draws) == g.Code(draws[k]);
    }
  }

  /** A free code differs from the code of every live row. */
  lemma FreeCodeIsNew(rows: seq<ShortUrl>, code: string)
    requires !CodeTaken(rows, code)
    ensures forall x :: x in rows && !x.deleted ==> x.code != code
  {
    forall x | x in rows && !x.deleted ensures x.code != code {
      assert !HasCode(x, code);
    }
  }

  /**
   * A code the loop found is used by no live row, so inserting it keeps the live codes distinct;
   * only the fallback can produce a duplicate.
   */
  lemma LoopCodeKeepsCodesDistinct(g: CodeGeneratorService, rows: seq<ShortUrl>, maxAttempts: int,
                                   draws: seq<Entropy>, r: ShortUrl)
    requires |draws| == Attempts(maxAttempts) + 2 && DrawsFit(g, draws)
    requires FreeIndex(g, rows, draws, Attempts(maxAttempts)) < Attempts(maxAttempts)
    requires r.code == UniqueCode(g, rows, maxAttempts, draws)
    requires CodesDistinct(rows)
    ensures forall x :: x in rows && !x.deleted ==> x.code != r.code
    ensures CodesDistinct(rows + [r])
  {
    var k := FreeIndex(g, rows, draws, Attempts(maxAttempts));
    assert !Taken(g, rows, draws[k]);
    FreeCodeIsNew(rows, r.code);
  }

  /** What `execute` does, given the table before it. */
  datatype CreateOutcome = Rejected(error: InvalidUrl) | Existing(record: ShortUrl) | Inserted(record: ShortUrl)

  /**
   * A create is rejected exactly when the sanitized URL is invalid, reporting the URL as given;
   * it returns an existing live record exactly when one has the sanitized URL's hash (the first);
   * otherwise the new record carries the sanitized URL, its hash, the requested status and expiry,
   * no clicks, the next key and the unique code.
   */
  function CreatePlan(parse: Parser, hash: Hasher, g: CodeGeneratorService, maxAttempts: int,
                      rows: seq<ShortUrl>, nextId: nat, data: CreateUrlData, draws: seq<Entropy>): (o: CreateOutcome)
    requires |draws| == Attempts(maxAttempts) + 2 && DrawsFit(g, draws)
    ensures var url := Sanitize(parse, data.originalUrl);
      && (o.Rejected? <==> !IsValid(parse, url))
      && (o.Rejected? ==> o.error == Invalid(data.originalUrl))
      && (o.Existing? <==> IsValid(parse, url) && exists x :: x in rows && HasUrlHash(x, hash(url)))
      && (o.Existing? ==> o.record in rows && HasUrlHash(o.record, hash(url)) && Some(o.record) == FirstByUrlHash(rows, hash(url)))
      && (o.Inserted? ==>
            && o.record.originalUrl == url && o.record.originalUrlHash == hash(url)
            && o.record.status == data.status && o.record.expiresAt == data.expiresAt
            && o.record.clicks == 0 && !o.record.deleted && o.record.id == nextId
            && o.record.code == UniqueCode(g, rows, maxAttempts, draws))
  {
    var url := Sanitize(parse, data.originalUrl);
    if !IsValid(parse, url) then Rejected(Invalid(data.originalUrl))
    else
      var existing := FirstByUrlHash(rows, hash(url));
      if existing.Some? then Existing(existing.value)
      else Inserted(ShortUrl(nextId, UniqueCode(g, rows, maxAttempts, draws), url, hash(url), data.status, 0, data.expiresAt, false))
  }

  /** A first-match lookup on the table with one row appended finds the old match, or else the new row. */
  lemma FirstByUrlHashAppend(rows: seq<ShortUrl>, r: ShortUrl, h: string)
    requires FirstByUrlHash(rows, h).None? && HasUrlHash(r, h)
    ensures FirstByUrlHash(rows + [r], h) == Some(r)
  {
  }

  /**
   * Creating the same URL again, once the first create has inserted its record, returns that
   * record and inserts nothing.
   */
  lemma {:induction false} CreateTwiceReturnsSameRecord(parse: Parser, hash: Hasher, g: CodeGeneratorService, maxAttempts: int,
                                    rows: seq<ShortUrl>, nextId: nat, data: CreateUrlData,
                                    draws: seq<Entropy>, draws': seq<Entropy>)
    requires |draws| == Attempts(maxAttempts) + 2 && DrawsFit(g, draws)
    requires |draws'| == Attempts(maxAttempts) + 2 && DrawsFit(g, draws')
    requires CreatePlan(parse, hash, g, maxAttempts, rows, nextId, data, draws).Inserted?
    ensures var r := CreatePlan(parse, hash, g, maxAttempts, rows, nextId, data, draws).record;
      CreatePlan(parse, hash, g, maxAttempts, rows + [r], nextId + 1, data, draws') == Existing(r)
  {
    var r := CreatePlan(parse, hash, g, maxAttempts, rows, nextId, data, draws).record;
    FirstByUrlHashAppend(rows, r, r.originalUrlHash);
  }

  class CreateShortUrlAction {
    const generator: CodeGeneratorService
    const parse: Parser
    const hash: Hasher
    const maxAttempts: int
    const db: Database

    constructor (generator: CodeGeneratorService, parse: Parser, hash: Hasher, config: CodeConfig, db: Database)
      ensures this.generator == generator && this.parse == parse && this.hash == hash && this.db == db
      ensures maxAttempts == MaxAttempts(config)
    {
      this.generator := generator;
      this.parse := parse;
      this.hash := hash;
      maxAttempts := MaxAttempts(config);
      this.db := db;
    }

    /** One `$this->generator->generate()` call. */
    method Draw(e: Entropy) returns (code: string)
      requires generator.Degenerate() || generator.Supplies(e)
      ensures code == generator.Code(e)
    {
      code := Generate(generator, e);
    }

    /** `generateUniqueCode()`: up to `maxAttempts` candidates, then the double-length fallback. */
    method GenerateUniqueCode(draws: seq<Entropy>) returns (code: string)
      requires |draws| == Attempts(maxAttempts) + 2 && DrawsFit(generator, draws)
      ensures code == UniqueCode(generator, db.store.rows, maxAttempts, draws)
    {
      var n := Attempts(maxAttempts);
      var i := 0;
      while i < n
        invariant 0 <= i <= n
        invariant forall j :: 0 <= j < i ==> Taken(generator, db.store.rows, draws[j])
      {
        code := Draw(draws[i]);
        if !CodeTaken(db.store.rows, code) {
          FreeIndexIsFirstFree(generator, db.store.rows, draws, n, i);
          return;
        }
        i := i + 1;
      }
      FreeIndexAllTaken(generator, db.store.rows, draws, n);
      var first := Draw(draws[n]);
      var second := Draw(draws[n + 1]);
      code := first + second;
    }

    /** `execute($data)`. */
    method Execute(data: CreateUrlData, draws: seq<Entropy>) returns (r: Result<ShortUrl, InvalidUrl>)
      requires db.Valid()
      requires |draws| == Attempts(maxAttempts) + 2 && DrawsFit(generator, draws)
      modifies db.store, db.cache.backend
      ensures db.Valid()
      ensures var o := old(CreatePlan(parse, hash, generator, maxAttempts, db.store.rows, db.store.nextId, data, draws));
        && (o.Rejected? ==> r == Err(o.error))
        && (o.Existing? ==> r == Ok(o.record))
        && (o.Inserted? ==> r == Ok(o.record))
        && (o.Inserted? ==> db.store.rows == old(db.store.rows) + [o.record])
        && (o.Inserted? ==>
              db.cache.backend.entries ==
                (if db.cache.enabled then PutEntries(db.cache.prefix, old(db.cache.backend.entries), o.record)
                 else old(db.cache.backend.entries)))
        && (!o.Inserted? ==> db.store.rows == old(db.store.rows) && db.cache.backend.entries == old(db.cache.backend.entries))
      ensures r.Ok? ==> FirstByUrlHash(db.store.rows, hash(Sanitize(parse, data.originalUrl))) == Some(r.value)
      ensures |db.store.rows| <= old(|db.store.rows|) + 1
      ensures old(db.Synced()) ==> db.Synced()
    {
      var url := Sanitize(parse, data.originalUrl);
      if !IsValid(parse, url) {
        return Err(Invalid(data.originalUrl));
      }
      var h := hash(url);
      var existing := FirstByUrlHash(db.store.rows, h);
      if existing.Some? {
        return Ok(existing.value);
      }
      var code := GenerateUniqueCode(draws);
      var created := db.Create(code, url, h, data.status, data.expiresAt);
      FirstByUrlHashAppend(old(db.store.rows), created, h);
      return Ok(created);
    }
  }

  /** A free draw with all earlier ones taken is the one `FreeIndex` picks. */
  lemma FreeIndexIsFirstFree(g: CodeGeneratorService, rows: seq<ShortUrl>, draws: seq<Entropy>, n: nat, i: nat)
    requires n <= |draws| && DrawsFit(g, draws) && i < n
    requires forall j :: 0 <= j < i ==> Taken(g, rows, draws[j])
    requires !Taken(g, rows, draws[i])
    ensures FreeIndex(g, rows, draws, n) == i
  {
  }

  /** With every draw taken, `FreeIndex` reports none. */
  lemma FreeIndexAllTaken(g: CodeGeneratorService, rows: seq<ShortUrl>, draws: seq<Entropy>, n: nat)
    requires n <= |draws| && DrawsFit(g, draws)
    requires forall j :: 0 <= j < n ==> Taken(g, rows, draws[j])
    ensures FreeIndex(g, rows, draws, n) == n
  {
  }
}
