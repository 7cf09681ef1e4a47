# Short-link core of a Laravel URL shortener, modelled in Dafny

This project models and proves the core of a Laravel link shortener. A short URL record has a
random code, an original URL with its SHA-256 hash, a status (`active`, `inactive`, `expired`),
a click count, an optional expiry and Eloquent's soft-delete flag. The core has five parts:

- the record rules: the status enum, `isAccessible`/`isExpired`, `incrementClicks` and the query
  scopes `byCode`, `byUrlHash`, `active` and `accessible`;
- the random code generator;
- the URL validator and normaliser;
- the Redis cache and the model observer that keeps it in step with the `short_urls` table;
- the create, update and resolve actions, with the request objects that feed them.

Modules, one per source file or layer:

| file | module | models |
|---|---|---|
| wrappers.dfy | `Wrappers` | `Option`, `Result` |
| url_status.dfy | `UrlStatusEnum` | app/Enums/UrlStatus.php |
| php_strings.dfy | `PhpStrings` | PHP's `trim` (its default character set) and ASCII `strtolower` |
| short_url.dfy | `ShortUrlModel` | app/Models/ShortUrl.php and the table it is stored in (class `Store`) |
| code_generator.dfy | `CodeGeneration` | app/Services/CodeGeneratorService.php, `code` settings of config/shortener.php |
| url_validator.dfy | `UrlValidation` | app/Services/UrlValidatorService.php, app/Exceptions/Url/InvalidUrlException.php |
| cache_service.dfy | `Caching` | app/Services/CacheService.php, `cache` settings of config/shortener.php |
| observer.dfy | `Observers` | app/Observers/ShortUrlObserver.php |
| persistence.dfy | `Persistence` | the Eloquent writes on `ShortUrl` and the observer hooks each one fires |
| dtos.dfy | `DataTransferObjects` | app/DataTransferObjects/CreateUrlData.php, UpdateUrlData.php |
| create_action.dfy | `CreateShortUrl` | app/Actions/Url/CreateShortUrlAction.php |
| update_action.dfy | `UpdateShortUrl` | app/Actions/Url/UpdateShortUrlAction.php |
| resolve_action.dfy | `ResolveShortUrl` | app/Actions/Url/ResolveShortUrlAction.php, app/Exceptions/Url/UrlNotFoundException.php |

How the model is built:

- **Flavour.** Pure code (the enum, the validator, the request objects) is written as datatypes
  and functions. Code that changes state is written as classes with `modifies` clauses. `Store`
  holds the table as a sequence of rows. `CacheStore` holds the cache as a map. `CacheService`,
  `ShortUrlObserver`, `Database` and the three action classes work on those two objects.
- **Time and outside calls.** Time is an integer `now`. PHP's `parse_url` is a function-typed
  parameter `Parser`. `ShortUrl::hashUrl` is a function-typed parameter `Hasher`; it is deterministic
  and not assumed injective. The output of `random_bytes`/`random_int` is an explicit `Entropy`
  parameter.
- **Invariant.** The central proved property is `Synced`: with caching enabled, every cached
  record is a live row of the table under its own code, and every cached code belongs to a live
  row with the cached hash. Every write (create, increment, save, delete, force delete, restore,
  each with its observer hook) preserves it. So do the cache's own read-through fills and all
  three actions.
- **Alphabet and uniqueness.** The default alphabet in app/Services/CodeGeneratorService.php:23
  and config/shortener.php is the 47 characters `abcdefghjkmnpqrtuvwxyACDEFGHJKMNPQRTUVWXY346789`
  (`DefaultAlphabetFacts`). Codes are not guaranteed unique: once the attempts run out, the create
  action falls back to an unchecked double-length code (`UniqueCodeFacts`). Only a code the loop
  found is proved new (`LoopCodeKeepsCodesDistinct`).

## Model

| member | source | states |
|---|---|---|
| UrlStatusEnum.From | app/Enums/UrlStatus.php:9-11 | `UrlStatus::from`: yields the case whose backing value is the string; no case (PHP's ValueError) for any other string |
| UrlStatusEnum.FromValue | app/Enums/UrlStatus.php:9-11 | `from(s->value)` gives back `s` for every case |
| UrlStatusEnum.FromSucceedsExactlyOnValues | app/Enums/UrlStatus.php:9-11 | `from` succeeds exactly on `active`, `inactive`, `expired` |
| UrlStatusEnum.ValuesAndLabels | app/Enums/UrlStatus.php:9-20 | the three backing values and the labels Activo, Inactivo, Expirado |
| UrlStatusEnum.ValuesAndLabelsDistinct | app/Enums/UrlStatus.php:9-20 | distinct cases have distinct backing values and distinct labels |
| UrlStatusEnum.OnlyActiveIsAccessible | app/Enums/UrlStatus.php:22-25 | the enum's `isAccessible()` holds exactly for Active |
| PhpStrings.Trim | app/Services/UrlValidatorService.php:33 | the result has no space, tab, newline, carriage return, NUL or vertical tab at either end, and is no longer than the input |
| PhpStrings.TrimIdempotent | app/Services/UrlValidatorService.php:33 | trimming twice equals trimming once |
| PhpStrings.TrimIsInfix | app/Services/UrlValidatorService.php:33 | the trimmed string is the input with a trimmable prefix and suffix removed |
| PhpStrings.Lower | app/Services/UrlValidatorService.php:41-42 | `strtolower` keeps the length of its input |
| PhpStrings.LowerAt | app/Services/UrlValidatorService.php:41-42 | each character of `strtolower(s)` is the character of `s` at the same place, ASCII capitals mapped to small letters and every other character kept |
| PhpStrings.LowerIdempotent | app/Services/UrlValidatorService.php:41-42 | lowering twice equals lowering once |
| PhpStrings.LowerHasNoUpper | app/Services/UrlValidatorService.php:41-42 | a lowered string has no ASCII capital |
| PhpStrings.IsAsciiAlnum | app/Services/UrlValidatorService.php:69 | the class `[a-zA-Z0-9]` of the leading-character test; a definition, used by `ValidateErrors` |
| PhpStrings.DecimalString | app/Services/UrlValidatorService.php:43 | the port as PHP concatenates it: at least one character, every character a decimal digit |
| PhpStrings.DecimalStringValue | app/Services/UrlValidatorService.php:43 | the port string is exact: its digits, read most significant first (`DigitsValue`), denote the port number, and it starts with `0` only for port 0 |
| ShortUrlModel.IsPast | app/Models/ShortUrl.php:58 | Carbon's `isPast()`: strictly before `now`; a definition, characterised with `IsAccessible` by `AccessibleIffActiveAndNotExpired` |
| ShortUrlModel.IsExpired | app/Models/ShortUrl.php:68-71 | an expiry is set and is in the past; a definition, related to `IsAccessible` by `AccessibleIffActiveAndNotExpired` |
| ShortUrlModel.IsAccessible | app/Models/ShortUrl.php:52-63 | the two refusals of `isAccessible()`; a definition, characterised by `AccessibleIffActiveAndNotExpired` |
| ShortUrlModel.AccessibleIffActiveAndNotExpired | app/Models/ShortUrl.php:52-71 | `isAccessible()` holds exactly when the status is Active and `isExpired()` is false, that is when there is no expiry or it is not strictly before `now` |
| ShortUrlModel.ByCode | app/Models/ShortUrl.php:87-90 | with the soft-delete scope (line 30), `byCode` keeps exactly the live rows with that code |
| ShortUrlModel.ByUrlHash | app/Models/ShortUrl.php:98-101 | `byUrlHash` keeps exactly the live rows with that URL hash |
| ShortUrlModel.ActiveRows | app/Models/ShortUrl.php:109-112 | `active` keeps exactly the live rows whose status is Active |
| ShortUrlModel.AccessibleRows | app/Models/ShortUrl.php:120-127 | `accessible` keeps exactly the live Active rows with no expiry or an expiry strictly after `now` |
| ShortUrlModel.FirstByCode | app/Models/ShortUrl.php:87-90 | `byCode($c)->first()` is null exactly when no live row has the code, and otherwise a live row with it |
| ShortUrlModel.FirstByUrlHash | app/Models/ShortUrl.php:98-101 | `byUrlHash($h)->first()` is null exactly when no live row has the hash, and otherwise a live row with it |
| ShortUrlModel.AccessibleRowsAreAccessible | app/Models/ShortUrl.php:120-127 | every row the `accessible` scope keeps satisfies `isAccessible()` and is in the `active` scope |
| ShortUrlModel.AccessibleScopeMissesOnlyTheBoundary | app/Models/ShortUrl.php:120-127 | an accessible live row is kept by the scope exactly when its expiry is not equal to `now` |
| ShortUrlModel.AccessibleScopeBoundary | app/Models/ShortUrl.php:58 | a live Active row expiring exactly at `now` passes `isAccessible()` (strict `isPast`) but is dropped by the scope (`expires_at > now`, line 125) |
| ShortUrlModel.FirstIndex | app/Models/ShortUrl.php:87-101 | the model's reading of `first()` (see "## Left out"): the earliest matching row, every row before it failing the condition |
| ShortUrlModel.UpdateWhereIdFacts | app/Models/ShortUrl.php:76-79 | an update by primary key keeps keys unique, keeps every other row and puts the updated row in the table |
| ShortUrlModel.WithClick | app/Models/ShortUrl.php:76-79 | the in-memory effect of `increment('clicks')`: one more click and every other column kept |
| ShortUrlModel.Apply | app/Models/ShortUrl.php:32-39 | `fill`: for each of `original_url`, `original_url_hash`, `status` and `expires_at` a given value replaces the record's and an absent one keeps it; key, code, clicks and the trashed flag are unchanged |
| ShortUrlModel.Dirty | app/Models/ShortUrl.php:32-39 | the dirty columns have the same effect as all the given ones, and none are dirty exactly when the fill changes nothing |
| ShortUrlModel.Store.Insert | app/Models/ShortUrl.php:32-39 | an insert appends one live row under the next key and advances the key counter |
| ShortUrlModel.Store.IncrementClicks | app/Models/ShortUrl.php:76-79 | `UPDATE ... SET clicks = clicks + 1 WHERE id = ?`: the row with that key gains one click, all other rows are unchanged |
| ShortUrlModel.Store.UpdateColumns | app/Models/ShortUrl.php:32-39 | the row with that key gets the given columns, all other rows are unchanged |
| ShortUrlModel.Store.SoftDelete | app/Models/ShortUrl.php:30 | a soft delete marks the row with that key trashed and changes nothing else |
| ShortUrlModel.Store.Restore | app/Models/ShortUrl.php:30 | a restore clears the trashed mark of the row with that key |
| ShortUrlModel.Store.ForceDelete | app/Models/ShortUrl.php:30 | a force delete removes the rows with that key and keeps all others in order |
| CodeGeneration.CodeGeneratorService.GetLength | app/Services/CodeGeneratorService.php:56-59 | `getLength()` returns the length the constructor fixed; a definition, through which `New`'s ensures are stated |
| CodeGeneration.CodeGeneratorService.GetAlphabet | app/Services/CodeGeneratorService.php:61-64 | `getAlphabet()` returns the alphabet the constructor fixed; a definition, through which `New`'s ensures are stated |
| CodeGeneration.New | app/Services/CodeGeneratorService.php:18-27 | a non-null constructor argument wins; a null one falls back to the configured value, and without configuration to length 6 and the default alphabet |
| CodeGeneration.Generate | app/Services/CodeGeneratorService.php:29-54 | empty alphabet or length below 1 gives `""`; otherwise exactly `length` characters, each from the alphabet, and on the `random_bytes` path character `i` is `alphabet[bytes[i] % |alphabet|]` |
| CodeGeneration.CodeGeneratorService.Prefix | app/Services/CodeGeneratorService.php:42-50 | the first `n` characters picked are, one by one, the alphabet entries the entropy selects |
| CodeGeneration.EveryCodeReachable | app/Services/CodeGeneratorService.php:40-45 | for an alphabet of at most 256 characters, every string of the configured length over the alphabet is produced by some byte sequence |
| CodeGeneration.DefaultAlphabetFacts | app/Services/CodeGeneratorService.php:23 | the default alphabet has 47 characters and none of 0, O, 1, l, I, 2, Z, 5, S |
| CodeGeneration.ShippedGeneratorCodes | config/shortener.php:28-36 | with the shipped settings every generated code is six characters of the default alphabet |
| UrlValidation.IsValid | app/Services/UrlValidatorService.php:16-29 | `isValid`; a definition, characterised by `EmptyIsInvalid` and `IsValidCharacterised` |
| UrlValidation.Rebuild | app/Services/UrlValidatorService.php:41-53 | the string `sanitize` assembles from a parse with scheme and host; a definition, its form stated by `RebuildStartsWithHead`, `SanitizeStartsWithSchemeAndHost` and the `SanitizeDrops…`/`SanitizeKeeps…` lemmas |
| UrlValidation.Sanitize | app/Services/UrlValidatorService.php:31-54 | `sanitize`; a definition, characterised by `SanitizeUnparsedIsTrimmed`, `SanitizeStartsWithSchemeAndHost`, `SanitizeIgnoresSurroundingWhitespace` and `SanitizeIdempotent` |
| UrlValidation.ValidateAndSanitize | app/Services/UrlValidatorService.php:56-84 | `validateAndSanitize`; a definition, characterised by `ValidateOutcome`, `ValidateAgreesWithIsValid` and `ValidateErrors` |
| UrlValidation.EmptyIsInvalid | app/Services/UrlValidatorService.php:18-20 | `isValid('')` is false |
| UrlValidation.IsValidCharacterised | app/Services/UrlValidatorService.php:16-29 | `isValid(u)` holds exactly when `u` is non-empty and parses with a scheme and a host, and the lower-cased scheme is `http` or `https` |
| UrlValidation.PathPart | app/Services/UrlValidatorService.php:44-51 | a missing path and the path `/` both become empty; any other path is kept verbatim |
| UrlValidation.SanitizeIgnoresSurroundingWhitespace | app/Services/UrlValidatorService.php:33 | sanitizing the trimmed input equals sanitizing the input |
| UrlValidation.SanitizeUnparsedIsTrimmed | app/Services/UrlValidatorService.php:35-39 | when the parse fails or lacks scheme or host, `sanitize` returns the trimmed input |
| UrlValidation.SanitizeStartsWithSchemeAndHost | app/Services/UrlValidatorService.php:41-53 | otherwise the result is lower-cased scheme, `://`, lower-cased host, `:port` when a port was given, the kept path, `?query` when a query was given and `#fragment` when a fragment was given; so it starts with the lower-cased scheme and host |
| UrlValidation.RebuildStartsWithHead | app/Services/UrlValidatorService.php:53 | the rebuilt URL begins with the lower-cased scheme, `://` and the lower-cased host |
| UrlValidation.SanitizeDropsCredentials | app/Services/UrlValidatorService.php:41-53 | user and password components do not affect the result |
| UrlValidation.SanitizeFoldsSchemeAndHostCase | app/Services/UrlValidatorService.php:41-42 | scheme and host case do not affect the result |
| UrlValidation.SanitizeDropsRootPath | app/Services/UrlValidatorService.php:48-51 | a root path `/` gives the same result as no path |
| UrlValidation.SanitizeKeepsOtherPaths | app/Services/UrlValidatorService.php:44-53 | two different non-root paths give different results, so a trailing slash is kept |
| UrlValidation.SanitizeIdempotent | app/Services/UrlValidatorService.php:31-54 | sanitizing a sanitized URL changes nothing, for a parser that reads the rebuilt URL back as its normalised parts |
| UrlValidation.ValidateOutcome | app/Services/UrlValidatorService.php:56-84 | `validateAndSanitize(u)` succeeds exactly when `isValid(trim(u))`, and then returns `sanitize(trim(u))` |
| UrlValidation.ValidateAgreesWithIsValid | app/Services/UrlValidatorService.php:56-84 | `validateAndSanitize(u)` succeeds exactly when `isValid(trim(u))`, and then returns `sanitize(u)` |
| UrlValidation.ValidateErrors | app/Services/UrlValidatorService.php:58-81 | the error is Empty for a blank input; MissingScheme for no scheme and an alphanumeric start without spaces, Malformed for no scheme otherwise; MissingScheme for a scheme other than http(s); Malformed for no host; never `invalid` or `invalidScheme` |
| Caching.CodeKey | app/Services/CacheService.php:115-118 | `prefix:code:C`; a definition, characterised by `CodeKeyInjective` and `KeyspacesDisjoint` |
| Caching.HashKey | app/Services/CacheService.php:120-123 | `prefix:hash:H`; a definition, characterised by `HashKeyInjective` and `KeyspacesDisjoint` |
| Caching.PutEntries | app/Services/CacheService.php:87-88 | the two writes of `put`; a definition, characterised by `PutEntriesFacts` and `PutKeepsCoherent` |
| Caching.ForgetEntries | app/Services/CacheService.php:97-98 | the two removals of `forget`; a definition, characterised by `ForgetEntriesFacts` and `ForgetKeepsCoherent` |
| Caching.Coherent | app/Services/CacheService.php:33-99 | the invariant the cache keeps with the table (every cached record is a live row under its own code, every cached code belongs to a live row with that hash); preserved by `PutKeepsCoherent`, `ForgetKeepsCoherent` and every write |
| Caching.CodeKeyInjective | app/Services/CacheService.php:115-118 | under one prefix, distinct codes have distinct keys |
| Caching.HashKeyInjective | app/Services/CacheService.php:120-123 | under one prefix, distinct hashes have distinct keys |
| Caching.KeyspacesDisjoint | app/Services/CacheService.php:115-123 | under one prefix, no code key equals any hash key |
| Caching.PutEntriesFacts | app/Services/CacheService.php:87-88 | after `put(r)` the code key holds `r`, the hash key holds its code, and every other key is unchanged |
| Caching.ForgetEntriesFacts | app/Services/CacheService.php:97-98 | `forget(r)` removes exactly the record's two keys |
| Caching.PutKeepsCoherent | app/Services/CacheService.php:81-89 | caching a live row of the table keeps the cache coherent with the table |
| Caching.ForgetKeepsCoherent | app/Services/CacheService.php:91-99 | after a row changes, forgetting its keys keeps the cache coherent with the new table |
| Caching.CacheService.IsEnabled | app/Services/CacheService.php:110-113 | returns the `shortener.cache.enabled` setting, `true` when it is absent (the constructor establishes `Configured`) |
| Caching.CacheService.GetByCode | app/Services/CacheService.php:33-53 | disabled: the table lookup, cache untouched; hit: the cached record, cache untouched; miss: the table lookup, and a found record is `put`; null only if no live row has the code; keeps the cache coherent |
| Caching.CacheService.GetCodeByHash | app/Services/CacheService.php:55-79 | disabled: the table lookup; hit: the cached code; miss: the first live row's code with only the hash key written, or null with the cache unchanged; keeps the cache coherent |
| Caching.CacheService.Put | app/Services/CacheService.php:81-89 | enabled: writes the two keys and nothing else; disabled: nothing |
| Caching.CacheService.Forget | app/Services/CacheService.php:91-99 | enabled: removes exactly the two keys; disabled: nothing |
| Caching.CacheService.ForgetByCode | app/Services/CacheService.php:101-108 | enabled: removes only the code key; disabled: nothing |
| Caching.DefaultSettings | app/Services/CacheService.php:19-31 | without overrides the cache is enabled, the prefix is `shorturl`, the TTL 604800 seconds |
| Observers.EvictChanged | app/Observers/ShortUrlObserver.php:29-43 | the removals of `updated` before it re-caches; a definition, related to `forget` by `EvictChangedThenPut` |
| Observers.EvictChangedThenPut | app/Observers/ShortUrlObserver.php:27-47 | evicting only the changed keys and re-caching equals forgetting the old record and caching the new one |
| Observers.UpdatedEvictsStaleKeys | app/Observers/ShortUrlObserver.php:29-46 | after `updated`, a changed code's old key and a changed hash's old key are absent, and the new keys hold the final record and its code |
| Observers.UpdatedWithSameKeysOnlyPuts | app/Observers/ShortUrlObserver.php:30-46 | with code and hash unchanged, `updated` is a plain `put` |
| Observers.ShortUrlObserver.Created | app/Observers/ShortUrlObserver.php:19-22 | `created(r)` writes both of r's keys (when enabled) |
| Observers.ShortUrlObserver.Updated | app/Observers/ShortUrlObserver.php:27-47 | enabled: the cache becomes the old one with the original's keys forgotten and the current record put; disabled: only the original hash key can be removed, when the hash changed; the old values stand in for `getOriginal`/`wasChanged` |
| Observers.ShortUrlObserver.Deleted | app/Observers/ShortUrlObserver.php:52-55 | removes the record's two keys (when enabled) |
| Observers.ShortUrlObserver.ForceDeleted | app/Observers/ShortUrlObserver.php:60-63 | removes the record's two keys (when enabled) |
| Observers.ShortUrlObserver.Restored | app/Observers/ShortUrlObserver.php:68-71 | writes both of the record's keys (when enabled) |
| Observers.ShortUrlObserver.ForgetByHash | app/Observers/ShortUrlObserver.php:76-83 | removes the hash key under the configured prefix even when caching is disabled |
| Persistence.Database.Create | app/Actions/Url/CreateShortUrlAction.php:44-52 | `ShortUrl::create` appends the new live row with zero clicks, fires `created` and keeps the cache coherent |
| Persistence.Database.Increment | app/Models/ShortUrl.php:76-79 | `incrementClicks()` returns the record with one more click; the table row gains one click; `updated` re-caches the record; keeps the cache coherent |
| Persistence.Database.Save | app/Actions/Url/UpdateShortUrlAction.php:46-48 | `update($attributes)` writes only the dirty columns and fires `updated` only if some column is dirty; the new cache is the old one with the original record forgotten and the saved one put when enabled, and without the old hash key when disabled and the hash changed; keeps the cache coherent |
| Persistence.Database.Delete | app/Observers/ShortUrlObserver.php:52-55 | a soft delete marks the row trashed, evicts its keys and keeps the cache coherent |
| Persistence.Database.ForceDelete | app/Observers/ShortUrlObserver.php:60-63 | a force delete removes the row, evicts its keys and keeps the cache coherent |
| Persistence.Database.Restore | app/Observers/ShortUrlObserver.php:68-71 | a restore clears the trashed mark, re-caches the record and keeps the cache coherent |
| DataTransferObjects.NewCreateUrlData | app/DataTransferObjects/CreateUrlData.php:12-18 | the constructor defaults: title and custom code null, status Active, no expiry |
| DataTransferObjects.ParseStatus | app/DataTransferObjects/CreateUrlData.php:31-35 | a string status is parsed with `UrlStatus::from` (failing on unknown strings), an enum passes through |
| DataTransferObjects.CreateFromArray | app/DataTransferObjects/CreateUrlData.php:29-44 | `fromArray`; a definition, characterised by `CreateFromArrayFields` and `CreateFromArrayRoundTrip` |
| DataTransferObjects.CreateFromArrayFields | app/DataTransferObjects/CreateUrlData.php:29-44 | `fromArray` fails only on an unknown status string; a missing status gives Active; missing optional keys become null; `original_url` is copied verbatim |
| DataTransferObjects.CreateFromArrayRoundTrip | app/DataTransferObjects/CreateUrlData.php:37-43 | `fromArray` with every key present reproduces each given value, with the status as a string or as an enum |
| DataTransferObjects.UpdateUrlData.HasChanges | app/DataTransferObjects/UpdateUrlData.php:36-41 | `hasChanges()`; a definition, characterised by `HasChangesIffNotEmpty` |
| DataTransferObjects.HasChangesIffNotEmpty | app/DataTransferObjects/UpdateUrlData.php:36-41 | `hasChanges()` is false exactly when originalUrl, status and expiresAt are all null |
| DataTransferObjects.FromArrayAsWritten | app/DataTransferObjects/UpdateUrlData.php:21-34 | `fromArray` as written; a definition, characterised by `UpdateFromArrayFields` and `AsWrittenCannotTellNullFromMissing` |
| DataTransferObjects.UpdateFromArray | app/Filament/Resources/ShortUrls/Pages/EditShortUrl.php:62-67 | `fromArray` with the presence of `expires_at` recorded, as the admin page's caller and the action expect; a definition, characterised by `UpdateFromArrayFields` and `RecordedFlagTellsNullFromMissing` |
| DataTransferObjects.UpdateFromArrayFields | app/DataTransferObjects/UpdateUrlData.php:21-34 | `fromArray` fails only on an unknown status string; missing keys become null; a string status is parsed; the as-written object differs from the corrected one only in the recorded flag |
| DataTransferObjects.AsWrittenCannotTellNullFromMissing | app/DataTransferObjects/UpdateUrlData.php:21-34 | as written, `fromArray(['expires_at' => null])` and `fromArray([])` build the same object, and it equals the no-argument constructor's |
| DataTransferObjects.RecordedFlagTellsNullFromMissing | app/Actions/Url/UpdateShortUrlAction.php:42 | with the presence of `expires_at` recorded, the two inputs are told apart |
| CreateShortUrl.FreeIndex | app/Actions/Url/CreateShortUrlAction.php:63-69 | the loop's stopping point: every earlier candidate is taken by a live row, and the candidate there, if any, is not |
| CreateShortUrl.UniqueCode | app/Actions/Url/CreateShortUrlAction.php:58-73 | what `generateUniqueCode` returns for given draws; a definition, characterised by `UniqueCodeFacts` and computed by `GenerateUniqueCode` |
| CreateShortUrl.UniqueCodeFacts | app/Actions/Url/CreateShortUrlAction.php:58-73 | `generateUniqueCode` returns the first of at most `max_attempts` candidates that no live row uses; or, when all are taken or `max_attempts <= 0`, two fresh codes concatenated without a check |
| CreateShortUrl.LoopCodeKeepsCodesDistinct | app/Actions/Url/CreateShortUrlAction.php:66-68 | a code the loop returns differs from every live code, so inserting it keeps live codes distinct |
| CreateShortUrl.CreatePlan | app/Actions/Url/CreateShortUrlAction.php:25-53 | rejected exactly when the sanitized URL is invalid (reporting the URL as given); the first live record with the hash is returned exactly when there is one; otherwise the new record has the sanitized URL, its hash, the given status and expiry, zero clicks and the unique code |
| CreateShortUrl.CreateTwiceReturnsSameRecord | app/Actions/Url/CreateShortUrlAction.php:33-39 | creating the same URL after a create inserted it returns the inserted record instead of inserting again |
| CreateShortUrl.CreateShortUrlAction.Draw | app/Actions/Url/CreateShortUrlAction.php:64 | one `generate()` call returns the code the generator produces from that entropy |
| CreateShortUrl.CreateShortUrlAction.GenerateUniqueCode | app/Actions/Url/CreateShortUrlAction.php:58-73 | the loop returns `UniqueCode` of the current table |
| CreateShortUrl.CreateShortUrlAction.Execute | app/Actions/Url/CreateShortUrlAction.php:25-53 | does what `CreatePlan` says; a rejection or a duplicate leaves table and cache unchanged; an insert appends the record and, when caching is on, `created` puts it under its two keys; at most one row is added; the result is then the first live record with the hash; keeps the cache coherent |
| UpdateShortUrl.Changes | app/Actions/Url/UpdateShortUrlAction.php:25-44 | an invalid sanitized URL fails with `invalid` of the URL as given; a URL change sets both the sanitized URL and its hash; status only when given; the expiry, possibly null, exactly when flagged as set or non-null |
| UpdateShortUrl.NothingWrittenIffNoChanges | app/Actions/Url/UpdateShortUrlAction.php:46-48 | no attributes are collected exactly when `hasChanges()` is false and the expiry is not flagged as set |
| UpdateShortUrl.UpdateKeepsHashAndIdentity | app/Actions/Url/UpdateShortUrlAction.php:25-48 | the stored hash stays the hash of the stored URL; key, code, clicks and trashed flag are never modified |
| UpdateShortUrl.UpdateIdempotent | app/Actions/Url/UpdateShortUrlAction.php:25-48 | applying the same update twice leaves the record as applying it once |
| UpdateShortUrl.UpdateKeepsUnsetFields | app/Actions/Url/UpdateShortUrlAction.php:27-44 | fields the request leaves null keep their values |
| UpdateShortUrl.NullExpiryAsWrittenKeepsExpiry | app/Actions/Url/UpdateShortUrlAction.php:42 | as written, `fromArray(['expires_at' => null])` collects no attributes, so an expiring record keeps its expiry |
| UpdateShortUrl.NullExpiryClearsExpiry | app/Actions/Url/UpdateShortUrlAction.php:42-44 | with the presence recorded, the same request writes a null expiry and clears it |
| UpdateShortUrl.UpdateShortUrlAction.Execute | app/Actions/Url/UpdateShortUrlAction.php:23-51 | an error leaves table and cache unchanged; otherwise returns the record with the changes applied, persisting only when something changed (dirty columns only); after a real change the cache is the old one with the original record forgotten and the new one put when enabled, and loses only the old hash key when disabled and the hash changed; keeps the cache coherent |
| ResolveShortUrl.Lookup | app/Services/CacheService.php:33-53 | what `getByCode` returns for a cache state; a definition, characterised by `LookupAgreesWithTable` and `CachedLookupIsTableLookup` |
| ResolveShortUrl.Filled | app/Services/CacheService.php:39-50 | the cache after `getByCode`: a miss that found a row has put its two keys, accessible or not, leaving other keys alone; a hit, a miss that found nothing or a disabled cache leaves it unchanged |
| ResolveShortUrl.LookupAgreesWithTable | app/Services/CacheService.php:33-53 | with a coherent cache, the lookup finds nothing exactly when no live row has the code, and otherwise a live row with it |
| ResolveShortUrl.CachedLookupIsTableLookup | app/Services/CacheService.php:37-46 | when live codes are distinct, a coherent cache returns what the table query returns |
| ResolveShortUrl.Outcome | app/Actions/Url/ResolveShortUrlAction.php:22-37 | NotFound for the code exactly when nothing is found or the record is not accessible; otherwise the record with one more click |
| ResolveShortUrl.MissingAndInaccessibleLookTheSame | app/Actions/Url/ResolveShortUrlAction.php:26-32 | a missing code and an inaccessible record give the same error |
| ResolveShortUrl.ClicksAccumulate | app/Actions/Url/ResolveShortUrlAction.php:34 | `n` click updates `UpdateWhereId(·, id, WithClick)` add exactly `n` clicks to that row and change no other row; each successful `ResolveShortUrlAction.Execute` performs one such update, by its ensures on the table |
| ResolveShortUrl.ResolveShortUrlAction.Execute | app/Actions/Url/ResolveShortUrlAction.php:22-37 | returns `Outcome` of the cache lookup; on NotFound no row changes and the cache is `Filled` (a miss may have cached an inaccessible row); on success the found row gains one click and the cache is `Filled` with the found record forgotten and the clicked one put; a disabled cache is untouched; keeps the cache coherent, and then the record is live with the requested code |

## Left out

- HTTP layer, admin panel, views, the API token command and the service providers: framework
  plumbing with no domain logic.
- SHA-256, `parse_url`, `random_bytes` and `random_int`: foreign calls. They are parameters of
  the model (`Hasher`, `Parser`, `Entropy`), not implementations.
- Cache TTL: held as configuration only. Expiry by TTL only removes keys, so it cannot break the
  coherence invariant.
- Concurrency: the race between concurrent creates of one URL, and the atomicity of
  `clicks = clicks + 1`.
- Titles: the create action passes `title`, but `title` is not a fillable column, so Eloquent
  drops it. The record carries no title, and the title auto-generation some tests expect is in
  no modelled file.
- `customCode` is carried by `CreateUrlData` but never read by the create action.
  `CodeAlreadyExistsException` and `InvalidUrlException::invalidScheme` are never raised, so
  `InvalidScheme` is never produced.
- CodeGeneration.Generate: no uniform distribution is claimed. The model states the exact mapping
  `alphabet[b % n]`; 256 byte values do not split evenly over 47 characters.
- CodeGeneration.Generate: the alphabet is treated as a sequence of single-byte characters, like
  PHP's `strlen` and string indexing. Multi-byte alphabets are not modelled.
- Observers.ShortUrlObserver.Updated: the model passes the hook the record as it was before the
  write, so the `is_string` checks on the original code and hash (ShortUrlObserver.php:32 and :40)
  always pass. In the source `getOriginal` reads Eloquent's original-attributes array, which is
  stored in the cache along with the object. For a record cached by `created` that array is empty,
  so both checks fail. The model reaches the same cache state, because a click changes neither code
  nor hash and so it forgets nothing there either.
- Persistence.Database.Increment: the Eloquent original/changes state of a record served from the
  cache is not modelled; the hook's "original" is the record itself. `created` and `updated` fire
  before Eloquent syncs the original, so a record cached by an `updated` that changed its URL
  carries the pre-update hash as its original. With a store that serializes objects (database,
  redis), the source's `increment` then reports the hash as changed. Its `updated` hook evicts
  the old hash key again on every resolve served from the cache, until the entry expires, and that
  key may by then hold the code of a record created since. The exact cache ensures of `Increment`
  and of ResolveShortUrl.ResolveShortUrlAction.Execute keep that key. Coherence and the returned
  record are unaffected, because the extra eviction only removes a key.
- ResolveShortUrl.ResolveShortUrlAction.Execute: its exact cache ensures on success inherits the
  `Persistence.Database.Increment` simplification above.
- Timestamps: `created_at` and `updated_at` are not modelled. No modelled operation reads them.
- Persistence.Database.Save: saving a soft-deleted record still fires `updated`, which re-caches
  it. The coherence guarantee is therefore stated only for live records. A record re-cached this
  way would then be served by the cache-hit path of `getByCode`, which checks neither the trashed
  flag nor anything else; the model states that path (`GetByCode`) but claims no defect for it.
- ShortUrlModel.FirstIndex: the queries `byCode(...)->first()` and `byUrlHash(...)->first()`
  (app/Services/CacheService.php:46 and :68, app/Actions/Url/CreateShortUrlAction.php:36) carry no
  `orderBy`, so SQL leaves the returned row unspecified when several live rows match. The model
  takes the row with the lowest key. This matters only when live codes or hashes repeat
  (`CreatePlan`'s Existing case, `GetCodeByHash`, `GetByCode`).
- UpdateShortUrl.UpdateShortUrlAction.Execute: the corrected request object carries the
  `expiresAtWasSet` flag (see Findings). The as-written read of that undeclared property is
  modelled as yielding null (`NullExpiryAsWrittenKeepsExpiry`). Under Laravel's default error
  handler the warning becomes an ErrorException, so as written every call past URL validation
  fails; that exception is not modelled.
- Observer registration: no source file registers `ShortUrlObserver`. app/Models/ShortUrl.php
  carries no `ObservedBy` attribute, and the `boot` methods of
  app/Providers/UrlShortenerServiceProvider.php:30-33 and app/Providers/AppServiceProvider.php are
  silent about it. The model assumes the registration, as
  tests/Feature/Observers/ShortUrlObserverTest.php expects: `Database` fires the hooks on every
  write. `Synced` and every cache ensures of the writes and actions hold only under that
  assumption. Without it no write touches the cache, so a cached record would keep resolving
  after a soft delete or a deactivation until its TTL ran out.
- Click counts: the `clicks` column of a record is an unbounded integer. The width of the SQL `clicks` column
  and any overflow of `clicks + 1` are not modelled.
- The action returns the same PHP object it was given. The model returns a value, so object
  identity is not modelled.
- `hasChanges()` of UpdateUrlData is modelled and characterised, but no modelled action calls it.

## Findings

| source | as written | input that shows it | evidently intended | confidence | as-written member | corrected member |
|---|---|---|---|---|---|---|
| app/Actions/Url/UpdateShortUrlAction.php:42 | reads `$data->expiresAtWasSet`, a property UpdateUrlData (app/DataTransferObjects/UpdateUrlData.php:12-16) never declares, as the first operand of `||`; every call that passes URL validation reads it. PHP raises an "Undefined property" warning, which Laravel's default error handler turns into an ErrorException, so no update of URL, status or expiry succeeds; the admin page's caller (app/Filament/Resources/ShortUrls/Pages/EditShortUrl.php:62-67) fails earlier still, with "Unknown named parameter $expiresAtWasSet". Without that handler the read yields null and only a non-null expiry is ever written; `NullExpiryAsWrittenKeepsExpiry` models this warning-as-null reading, as "## Left out" says | any `execute($record, $data)` whose URL, if given, is valid, e.g. `UpdateUrlData::fromArray(['expires_at' => null])` on a record expiring in seven days: under Laravel's handler it throws; read as null, no attribute is collected and the expiry stays | `fromArray` records whether `expires_at` was present, so an explicit null clears the expiry | not executed | UpdateShortUrl.NullExpiryAsWrittenKeepsExpiry | UpdateShortUrl.NullExpiryClearsExpiry |
