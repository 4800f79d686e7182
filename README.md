# Rick and Morty characters: data layer in Dafny

This project models the data layer of an Android app that browses the
paginated Rick and Morty character catalogue. It covers:

- the paging mediator, which fills a local cache page by page and keeps a
  ledger of page keys;
- the two cached tables (characters, remote keys);
- the repository's cache-first lookup by id;
- the uncached search paging source;
- the classification of exceptions into `ApiException`s;
- the DTO, entity and domain converters;
- the case-insensitive status parser.

Files and modules:

- `wrappers.dfy` (`Wrappers`): `Option`, the nullable values of the source.
- `errors.dfy` (`Errors`): the exceptions, a call `Outcome` (returned or threw), the `ApiException`
  hierarchy, `toApiException` and `handleHttpException`.
- `status.dfy` (`Status`): `CharacterStatus` and `fromString`.
- `models.dfy` (`Models`): the DTOs, `CharacterEntity`, `RemoteKeyEntity` and `Character`.
- `mapper.dfy` (`Mapper`): the three converters.
- `tables.dfy` (`Tables`): a REPLACE-on-conflict insert of a list into a table keyed by an integer.
- `dao.dfy` (`Dao`): the `characters` table (`CharacterDao`) and the `remote_keys` ledger
  (`RemoteKeysDao`). Each is a class holding a map from primary key to row.
- `paging.dfy` (`Paging`): load types, pages, load results, mediator results.
- `mediator.dfy` (`Mediator`): `CharacterRemoteMediator.initialize` and `load`. `load` is a method on a
  class over the two DAOs, proved against `PageToFetch`, `CommittedCharacters` and `CommittedKeys`.
- `repository.dfy` (`Repository`): `CharacterRepositoryImpl.getCharacterById`.
- `search_paging.dfy` (`SearchPaging`): `CharacterSearchPagingSource.load` and `getRefreshKey`.

Collaborators the model cannot see become parameters:

- The remote API is a function from request to `Outcome`.
- A failing database read, insert or transaction is an `Option<Exception>` argument. A failing
  transaction or insert writes nothing.
- The paging window's last item and the page closest to the anchor position are `Option` arguments.
- The initialize probe's load result is an `Outcome<LoadResult>` argument.
- The JSON parse of an HTTP error body is the field `errorField` of `HttpException`. None means the
  parse threw; Some("") means the `"error"` field is missing.

Points where the code's behaviour is easy to misread:

- An APPEND with no last item in the paging window ends pagination. It does not fall back to the
  table's last row (`CharacterRemoteMediator.kt:53-56`).
- The mediator calls the API with the page only (`CharacterRemoteMediator.kt:68`). The search source
  passes the query as well (`CharacterSearchPagingSource.kt:23`). The API interface
  (`CharacterApiService.kt:13-15`) takes only the page. The model gives the search API a name
  argument.
- `initialize` probes the cached paging source for one row, not `getCharacterCount`.
- `getCharacterById` calls the API at most once, never twice. The inner `catch` at
  `CharacterRepositoryImpl.kt:56-58` also catches a failing write-through insert, which then yields
  null. So the outer fallback at lines 59-65 is reached only when the database read fails.
- On a cache miss where the API throws, `getCharacterById` returns null. The unit test at
  `CharacterRepositoryImplTest.kt:188-205` expects an exception instead.

The DTO field `type` is called `kind` here, because `type` is a Dafny keyword.

## Model

| member | source | states |
|---|---|---|
| `Errors.IsNullOrBlank` | app/src/main/java/bassem/task/characters/data/remote/utils/Extensions.kt:44 | null and the empty string are blank; a blank string holds only ASCII whitespace; a string that is not blank has a character that is not ASCII whitespace |
| `Errors.ReadableMessage` | app/src/main/java/bassem/task/characters/data/remote/utils/Extensions.kt:42-53 | the message is the body's `"error"` field exactly when the body is present, not blank, parses and has a non-empty field; otherwise it is the exception's own message |
| `Errors.HandleHttpException` | app/src/main/java/bassem/task/characters/data/remote/utils/Extensions.kt:55-61 | 404 gives NotFound and 408 gives Timeout; any other 400-499 code gives Client, 500-599 gives Server (both keep the code), and anything else gives Network; each carries the exception and the readable message |
| `Errors.ToApiException` | app/src/main/java/bassem/task/characters/data/remote/utils/Extensions.kt:16-39 | HTTP goes to the status mapping; a socket timeout gives Timeout, an unknown host gives Network, other I/O gives Network with the "Network error: " message, and anything else gives Unknown; the original exception is always the cause |
| `Errors.IOExceptionsAreNetworkOrTimeout` | app/src/main/java/bassem/task/characters/data/remote/utils/Extensions.kt:19-32 | every I/O exception is reported as Network or Timeout, and as Timeout exactly when it is a socket timeout (the subclass cases come before the general I/O case) |
| `Errors.NotFoundOnlyFrom404` | app/src/main/java/bassem/task/characters/data/remote/utils/Extensions.kt:16-62 | NotFound arises exactly from an HTTP 404 |
| `Errors.TimeoutSources` | app/src/main/java/bassem/task/characters/data/remote/utils/Extensions.kt:16-62 | Timeout arises exactly from a socket timeout or an HTTP 408 |
| `Status.Lower` | app/src/main/java/bassem/task/characters/domain/model/CharacterStatus.kt:13 | ASCII lower-casing: keeps the length and lower-cases each ASCII letter in its place |
| `Status.FromString` | app/src/main/java/bassem/task/characters/domain/model/CharacterStatus.kt:12-18 | ALIVE exactly for strings that lower-case to "alive", DEAD exactly for those that lower-case to "dead", UNKNOWN for null and every other string |
| `Status.LowerIsLowersTo` | app/src/main/java/bassem/task/characters/domain/model/CharacterStatus.kt:13 | `lowercase()` yields a string exactly when the input lower-cases to it character by character |
| `Status.LowerIdempotent` | app/src/main/java/bassem/task/characters/domain/model/CharacterStatus.kt:13 | lower-casing twice is lower-casing once |
| `Status.FromStringIgnoresCase` | app/src/main/java/bassem/task/characters/domain/model/CharacterStatus.kt:12-18 | a string and its lower-case form parse to the same status |
| `Status.FromStringRoundTrip` | app/src/main/java/bassem/task/characters/domain/model/CharacterStatus.kt:6-17 | every status is parsed back from its lower-cased enum name |
| `Mapper.DtoToDomain` | app/src/main/java/bassem/task/characters/data/mapper/CharacterMapper.kt:9-17 | id, name, species and image are copied; the status is ALIVE or DEAD exactly when the raw status is "alive" or "dead" in any letter case |
| `Mapper.DtoToEntity` | app/src/main/java/bassem/task/characters/data/mapper/CharacterMapper.kt:20-29 | every cached field is copied, the raw status is kept unparsed, and the row records the given page |
| `Mapper.EntityToDomain` | app/src/main/java/bassem/task/characters/data/mapper/CharacterMapper.kt:32-40 | the fields are copied and the status is parsed |
| `Mapper.CachedThenMappedIsDirect` | app/src/main/java/bassem/task/characters/data/mapper/CharacterMapper.kt:9-40 | caching a DTO with any page and mapping the row gives the same character as mapping the DTO directly |
| `Mapper.EntityPageIgnored` | app/src/main/java/bassem/task/characters/data/mapper/CharacterMapper.kt:32-40 | a row's page never reaches the domain model |
| `Mapper.KindAndGenderIgnored` | app/src/main/java/bassem/task/characters/data/mapper/CharacterMapper.kt:9-29 | DTOs that differ only in `type` and `gender` map to the same entity and the same character |
| `Mapper.EntitiesOf` | app/src/main/java/bassem/task/characters/data/mediator/CharacterRemoteMediator.kt:69 | the rows cached for a page are the page's DTOs, in order, each converted with that page |
| `Mapper.EntitiesOfOrigin` | app/src/main/java/bassem/task/characters/data/mediator/CharacterRemoteMediator.kt:69 | every row cached for a page records that page and comes from one of the page's DTOs |
| `Tables.Upserted` | app/src/main/java/bassem/task/characters/data/local/dao/CharacterDao.kt:13-14 | after inserting a list, the table's keys are the old keys plus the list's keys; rows under other keys are unchanged; each inserted key holds a row of the list with that key |
| `Tables.UpsertedLastWins` | app/src/main/java/bassem/task/characters/data/local/dao/CharacterDao.kt:13-14 | REPLACE on conflict: the last row of the list with a given key is the one stored |
| `Tables.UpsertedKeyedBy` | app/src/main/java/bassem/task/characters/data/local/dao/CharacterDao.kt:13-17 | inserts keep every row under its own primary key |
| `Dao.CharacterDao.InsertCharacters` | app/src/main/java/bassem/task/characters/data/local/dao/CharacterDao.kt:13-14 | the table becomes the old table with the list inserted in order, REPLACE on conflict |
| `Dao.CharacterDao.InsertCharacter` | app/src/main/java/bassem/task/characters/data/local/dao/CharacterDao.kt:16-17 | exactly one row is stored under the entity's id, and it is that entity; every other row is unchanged |
| `Dao.CharacterDao.GetCharacterById` | app/src/main/java/bassem/task/characters/data/local/dao/CharacterDao.kt:22-23 | the stored row with that id, or null exactly when there is none |
| `Dao.CharacterDao.GetCharacterCount` | app/src/main/java/bassem/task/characters/data/local/dao/CharacterDao.kt:25-26 | the number of distinct stored ids, zero exactly on an empty table |
| `Dao.CharacterDao.GetLastCharacter` | app/src/main/java/bassem/task/characters/data/local/dao/CharacterDao.kt:28-29 | a stored row whose id is at least every stored id; null exactly when the table is empty |
| `Dao.LargestKey` | app/src/main/java/bassem/task/characters/data/local/dao/CharacterDao.kt:28 | the scan behind `ORDER BY id DESC LIMIT 1` finds a member of the id set that bounds all others, and finds none only in an empty set |
| `Dao.CharacterDao.ClearAll` | app/src/main/java/bassem/task/characters/data/local/dao/CharacterDao.kt:31-32 | the table is empty afterwards, so the count is zero and every lookup is null |
| `Dao.RemoteKeysDao.RemoteKeysCharacterId` | app/src/main/java/bassem/task/characters/data/mediator/CharacterRemoteMediator.kt:58 | the key row of the character, or null exactly when it has none |
| `Dao.RemoteKeysDao.InsertAll` | app/src/main/java/bassem/task/characters/data/mediator/CharacterRemoteMediator.kt:86 | the ledger becomes the old ledger with the keys inserted in order, REPLACE on conflict |
| `Dao.RemoteKeysDao.ClearRemoteKeys` | app/src/main/java/bassem/task/characters/data/mediator/CharacterRemoteMediator.kt:74 | the ledger is empty afterwards |
| `Mediator.Initialize` | app/src/main/java/bassem/task/characters/data/mediator/CharacterRemoteMediator.kt:22-43 | the initial refresh is skipped exactly when the probe returns a page with data; an empty page, another load result or an exception launch it |
| `Mediator.PageToFetch` | app/src/main/java/bassem/task/characters/data/mediator/CharacterRemoteMediator.kt:49-65 | REFRESH fetches page 1 and PREPEND never fetches; APPEND fetches exactly the last item's `nextPage`, and stops when there is no last item, no key or no next page |
| `Mediator.PrevPageOf` | app/src/main/java/bassem/task/characters/data/mediator/CharacterRemoteMediator.kt:81 | no previous page exactly on page 1; otherwise the page before |
| `Mediator.NextPageOf` | app/src/main/java/bassem/task/characters/data/mediator/CharacterRemoteMediator.kt:82 | no next page exactly at the end of pagination; otherwise the page after |
| `Mediator.KeysFor` | app/src/main/java/bassem/task/characters/data/mediator/CharacterRemoteMediator.kt:78-84 | one key per fetched character, in order, under its id, all with the page's previous and next keys |
| `Mediator.CommittedCharacters` | app/src/main/java/bassem/task/characters/data/mediator/CharacterRemoteMediator.kt:72-88 | after the transaction commits, the character table holds exactly the page's ids on REFRESH, and the old ids plus the page's ids otherwise |
| `Mediator.CommittedKeys` | app/src/main/java/bassem/task/characters/data/mediator/CharacterRemoteMediator.kt:72-88 | after the transaction commits, the remote-key ledger holds exactly the page's ids on REFRESH, and the old ids plus the page's ids otherwise |
| `Mediator.CommittedIds` | app/src/main/java/bassem/task/characters/data/mediator/CharacterRemoteMediator.kt:69-87 | the rows and the keys written for a page are keyed by exactly the page's ids |
| `Mediator.RefreshReplacesTables` | app/src/main/java/bassem/task/characters/data/mediator/CharacterRemoteMediator.kt:72-88 | after a committed REFRESH, both tables hold exactly the fetched page's ids, and every row is one of the page's entities |
| `Mediator.AppendKeepsOtherRows` | app/src/main/java/bassem/task/characters/data/mediator/CharacterRemoteMediator.kt:72-88 | after a committed APPEND, rows and keys whose ids are not on the fetched page are unchanged, and no row is lost |
| `Mediator.FetchedRowsCarryPage` | app/src/main/java/bassem/task/characters/data/mediator/CharacterRemoteMediator.kt:69-88 | after a commit of page p, every fetched character is stored as a page-p entity of a fetched DTO with its id; its key has no previous page if p is 1 and p-1 otherwise, and no next page if the response has no `next` and p+1 otherwise |
| `Mediator.AppendContinuesAfterCommit` | app/src/main/java/bassem/task/characters/data/mediator/CharacterRemoteMediator.kt:52-84 | with any fetched character as the last item, the next APPEND fetches page p+1 from the committed ledger, or stops when the committed page was the last one |
| `Mediator.CharacterRemoteMediator.Load` | app/src/main/java/bassem/task/characters/data/mediator/CharacterRemoteMediator.kt:45-94 | the page fetched is the one `PageToFetch` selects; without one the result is end-of-pagination and nothing changes; a thrown fetch or transaction gives `Error` with that exception and both tables unchanged; otherwise the result's end flag is "no `next`" and the tables are the committed ones (cleared first on REFRESH) |
| `Repository.CharacterRepositoryImpl.GetCharacterById` | app/src/main/java/bassem/task/characters/data/repository/CharacterRepositoryImpl.kt:40-68 | a cache hit returns the mapped row with no API call and no change; a miss calls the API once, returns the fetched character and caches it with page 1, or returns null if fetching or caching fails; a failing read calls the API once and returns its character or null without caching; the API is called at most once |
| `Repository.WriteThroughServesNextLookup` | app/src/main/java/bassem/task/characters/data/repository/CharacterRepositoryImpl.kt:44-55 | after a write-through, the next lookup of the same id is a cache hit that returns the same character with no API call |
| `SearchPaging.Load` | app/src/main/java/bassem/task/characters/data/remote/paging/CharacterSearchPagingSource.kt:19-46 | a missing key loads page 1; the data is exactly the response's results; `nextKey` is page+1 exactly when the response has a `next`; `prevKey` is page-1 exactly past page 1; a 404 gives an empty page without keys; any other exception gives `Error` with that exception |
| `SearchPaging.GetRefreshKey` | app/src/main/java/bassem/task/characters/data/remote/paging/CharacterSearchPagingSource.kt:48-54 | none without an anchor or a closest page; otherwise the closest page's previous key plus one, or, without one, its next key minus one, and none when it has neither |
| `SearchPaging.RefreshKeyReloadsLoadedPage` | app/src/main/java/bassem/task/characters/data/remote/paging/CharacterSearchPagingSource.kt:20-54 | for a page this source loaded that has any key, the refresh key is the page it was loaded from |
| `SearchPaging.FirstPageHasNoPrevKey` | app/src/main/java/bassem/task/characters/data/remote/paging/CharacterSearchPagingSource.kt:20-26 | the first page loaded, with no key, has no previous key |
| `SearchPaging.EmptyPageIsNotFound` | app/src/main/java/bassem/task/characters/data/remote/paging/CharacterSearchPagingSource.kt:32-45 | a failed load yields the empty page exactly for the exceptions `toApiException` calls NotFound; every other failure is an `Error` carrying the exception |

## Left out

- Integer width: Kotlin `Int` is 32 bits, so `page + 1`, `page - 1`, ids and status codes can wrap. The model uses unbounded integers, because wrap-around needs more than two billion pages.
- Status.Lower, Status.FromString: lower-casing is modelled on ASCII letters only. Kotlin's `lowercase()` also lower-cases other letters ("É" to "é"), and it can change the length ("İ" becomes two characters). This does not change `FromString`'s result: no other character lower-cases to a single letter of "alive" or "dead".
- Errors.IsNullOrBlank, Errors.ReadableMessage: `isNullOrBlank` is modelled with the ASCII whitespace and separator characters only. Unicode space separators are not included, because the JSON parse of such a body throws anyway and gives the same message.
- JSON decoding of the HTTP error body is not modelled; only its outcome is, as the `errorField` of `HttpException`. The HTTP exception's message is a plain string, as Retrofit always sets one.
- The remote-key lookup in APPEND (`CharacterRemoteMediator.kt:58`) sits outside the `try`, so a failing lookup would propagate out of `load`. The model's lookup is a map read that cannot fail.
- Paging-library internals are inputs, not models: `PagingState.lastItemOrNull`, `closestPageToPosition`, the cached `PagingSource` behind `initialize`'s probe, `Pager` and the `Flow` wiring of `getCharacters`.
- Room's transaction engine is not modelled. A transaction either throws before writing or applies all of its clear and insert calls.
- The app's database declares only `characterDao` (`AppDatabase.kt:8-15`). It never declares the remote-key DAO or the key table that `CharacterRemoteMediator` uses, so the ledger's REPLACE on conflict is an assumption, made to match `CharacterDao`. The fields of `CharacterEntity` are taken from its construction at `CharacterMapper.kt:21-28`.
- Coroutines, dispatchers, cancellation and the single-writer discipline are not modelled, because every operation here runs to completion in sequence.
- `CharacterStatus.displayName` reads Android resources. The UI, ViewModels, DI modules and pass-through use cases are not part of this model.
