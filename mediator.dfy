/**
 * `CharacterRemoteMediator` (data/mediator/CharacterRemoteMediator.kt): fills
 * the `characters` table and the remote-key ledger from the remote catalogue,
 * one page per load, committing each page atomically.
 */
module Mediator {
  import opened Wrappers
  import opened Errors
  import opened Models
  import opened Mapper
  import opened Tables
  import opened Dao
  import opened Paging

  /**
   * `initialize`: a one-row probe of the cached paging source. Cached rows
   * skip the initial refresh; an empty page, any other load result or a
   * thrown exception launch it.
   */
  function Initialize(probe: Outcome<LoadResult<CharacterEntity>>): (action: InitializeAction)
    ensures action == SKIP_INITIAL_REFRESH <==>
      probe.Ok? && probe.value.LoadPage? && |probe.value.page.data| > 0
    ensures probe.Threw? ==> action == LAUNCH_INITIAL_REFRESH
  {
    match probe
    case Threw(_) => LAUNCH_INITIAL_REFRESH
    case Ok(result) =>
      if result.LoadPage? && result.page.data != [] then SKIP_INITIAL_REFRESH
      else LAUNCH_INITIAL_REFRESH
  }

  /**
   * The page a load fetches, or None when it stops at once with the end of
   * pagination: REFRESH fetches page 1, PREPEND never fetches, and APPEND
   * fetches the `nextPage` of the last item's remote key, stopping when there
   * is no last item, no key, or no next page.
   */
  function PageToFetch(loadType: LoadType, lastItem: Option<CharacterEntity>, keys: map<int, RemoteKeyEntity>): (page: Option<int>)
    ensures loadType == REFRESH ==> page == Some(1)
    ensures loadType == PREPEND ==> page == None
    ensures loadType == APPEND ==>
      (page.Some? <==> lastItem.Some? && lastItem.value.id in keys && keys[lastItem.value.id].nextPage.Some?)
    ensures loadType == APPEND && page.Some? ==> page == keys[lastItem.value.id].nextPage
  {
    match loadType
    case REFRESH => Some(1)
    case PREPEND => None
    case APPEND =>
      if lastItem.None? then None
      else if lastItem.value.id !in keys then None
      else keys[lastItem.value.id].nextPage
  }

  /** The previous-page key recorded for rows of `page`: none for the first page. */
  function PrevPageOf(page: int): (prev: Option<int>)
    ensures prev.None? <==> page == 1
    ensures prev.Some? ==> prev.value + 1 == page
  {
    if page == 1 then None else Some(page - 1)
  }

  /** The next-page key recorded for rows of `page`: none once pagination has ended. */
  function NextPageOf(page: int, endOfPaginationReached: bool): (next: Option<int>)
    ensures next.None? <==> endOfPaginationReached
    ensures next.Some? ==> next.value == page + 1
  {
    if endOfPaginationReached then None else Some(page + 1)
  }

  /** One remote key per fetched character, in order, all carrying the same page keys. */
  function KeysFor(characters: seq<CharacterEntity>, page: int, endOfPaginationReached: bool): (keys: seq<RemoteKeyEntity>)
    ensures |keys| == |characters|
    ensures forall i :: 0 <= i < |keys| ==> keys[i].characterId == characters[i].id
    ensures forall k :: k in keys ==>
      k.prevPage == PrevPageOf(page) && k.nextPage == NextPageOf(page, endOfPaginationReached)
  {
    seq(|characters|, i requires 0 <= i < |characters| =>
      RemoteKeyEntity(characters[i].id, PrevPageOf(page), NextPageOf(page, endOfPaginationReached)))
  }

  /** The ids of a page of results. */
  ghost function IdsOf(results: seq<CharacterDto>): set<int> {
    set dto | dto in results :: dto.id
  }

  /**
   * The `characters` table after committing `response` as page `page`: on
   * REFRESH exactly the page's ids, otherwise the old ids and the page's.
   */
  function CommittedCharacters(loadType: LoadType, page: int, response: CharacterResponseDto,
                               rows: map<int, CharacterEntity>): (r: map<int, CharacterEntity>)
    ensures r.Keys == (if loadType == REFRESH then {} else rows.Keys) + IdsOf(response.results)
  {
    CommittedIds(response.results, page, response.info.next.None?);
    Upserted(if loadType == REFRESH then map[] else rows, EntitiesOf(response.results, page), EntityId)
  }

  /**
   * The remote-key ledger after committing `response` as page `page`: on
   * REFRESH exactly the page's ids, otherwise the old ids and the page's.
   */
  function CommittedKeys(loadType: LoadType, page: int, response: CharacterResponseDto,
                         keys: map<int, RemoteKeyEntity>): (r: map<int, RemoteKeyEntity>)
    ensures r.Keys == (if loadType == REFRESH then {} else keys.Keys) + IdsOf(response.results)
  {
    CommittedIds(response.results, page, response.info.next.None?);
    Upserted(if loadType == REFRESH then map[] else keys,
             KeysFor(EntitiesOf(response.results, page), page, response.info.next.None?), KeyId)
  }

  /** The rows and the keys written for a page are keyed by exactly the page's ids. */
  lemma CommittedIds(results: seq<CharacterDto>, page: int, endOfPaginationReached: bool)
    ensures KeysOf(EntitiesOf(results, page), EntityId) == IdsOf(results)
    ensures KeysOf(KeysFor(EntitiesOf(results, page), page, endOfPaginationReached), KeyId) == IdsOf(results)
  {
    var es := EntitiesOf(results, page);
    var ks := KeysFor(es, page, endOfPaginationReached);
    forall id | id in IdsOf(results)
      ensures id in KeysOf(es, EntityId) && id in KeysOf(ks, KeyId)
    {
      var dto :| dto in results && dto.id == id;
      var i :| 0 <= i < |results| && results[i] == dto;
      assert EntityId(es[i]) == id && es[i] in es;
      assert KeyId(ks[i]) == id && ks[i] in ks;
    }
    forall id | id in KeysOf(es, EntityId)
      ensures id in IdsOf(results)
    {
      var e :| e in es && EntityId(e) == id;
      var i :| 0 <= i < |es| && es[i] == e;
      assert results[i] in results;
    }
    forall id | id in KeysOf(ks, KeyId)
      ensures id in IdsOf(results)
    {
      var k :| k in ks && KeyId(k) == id;
      var i :| 0 <= i < |ks| && ks[i] == k;
      assert results[i] in results;
    }
  }

  /**
   * After a committed REFRESH both tables hold exactly the fetched page: the
   * same ids in each, every row fetched with this page.
   */
  lemma RefreshReplacesTables(page: int, response: CharacterResponseDto,
                              rows: map<int, CharacterEntity>, keys: map<int, RemoteKeyEntity>)
    ensures CommittedCharacters(REFRESH, page, response, rows).Keys == IdsOf(response.results)
    ensures CommittedKeys(REFRESH, page, response, keys).Keys == IdsOf(response.results)
    ensures forall id :: id in CommittedCharacters(REFRESH, page, response, rows) ==>
      CommittedCharacters(REFRESH, page, response, rows)[id] in EntitiesOf(response.results, page)
  {
    CommittedIds(response.results, page, response.info.next.None?);
  }

  /** A committed APPEND leaves every earlier row and key whose id is not on the fetched page as it was. */
  lemma AppendKeepsOtherRows(page: int, response: CharacterResponseDto,
                             rows: map<int, CharacterEntity>, keys: map<int, RemoteKeyEntity>)
    ensures forall id :: id in rows && id !in IdsOf(response.results) ==>
      id in CommittedCharacters(APPEND, page, response, rows) &&
      CommittedCharacters(APPEND, page, response, rows)[id] == rows[id]
    ensures forall id :: id in keys && id !in IdsOf(response.results) ==>
      id in CommittedKeys(APPEND, page, response, keys) &&
      CommittedKeys(APPEND, page, response, keys)[id] == keys[id]
    ensures rows.Keys <= CommittedCharacters(APPEND, page, response, rows).Keys
  {
    CommittedIds(response.results, page, response.info.next.None?);
  }

  /**
   * After any commit of page `page`, every fetched character is stored as
   * that page's entity of a fetched DTO with its id, and its remote key
   * records the previous page (none on page 1) and the next page (none when
   * the response has no `next`).
   */
  lemma FetchedRowsCarryPage(loadType: LoadType, page: int, response: CharacterResponseDto,
                             rows: map<int, CharacterEntity>, keys: map<int, RemoteKeyEntity>, dto: CharacterDto)
    requires dto in response.results
    ensures var newRows := CommittedCharacters(loadType, page, response, rows);
      dto.id in newRows && newRows[dto.id].page == page &&
      exists source :: source in response.results && source.id == dto.id && newRows[dto.id] == DtoToEntity(source, page)
    ensures var newKeys := CommittedKeys(loadType, page, response, keys);
      dto.id in newKeys && newKeys[dto.id].characterId == dto.id &&
      newKeys[dto.id].prevPage == PrevPageOf(page) &&
      newKeys[dto.id].nextPage == NextPageOf(page, response.info.next.None?)
  {
    var newRows := CommittedCharacters(loadType, page, response, rows);
    CommittedIds(response.results, page, response.info.next.None?);
    assert dto.id in IdsOf(response.results);
    EntitiesOfOrigin(response.results, page, newRows[dto.id]);
  }

  /**
   * The ledger a commit writes drives the next APPEND: with any fetched
   * character as the last item, it fetches the following page, or stops when
   * the committed page was the last one.
   */
  lemma AppendContinuesAfterCommit(loadType: LoadType, page: int, response: CharacterResponseDto,
                                   keys: map<int, RemoteKeyEntity>, lastItem: CharacterEntity)
    requires lastItem.id in IdsOf(response.results)
    ensures PageToFetch(APPEND, Some(lastItem), CommittedKeys(loadType, page, response, keys)) ==
      (if response.info.next.None? then None else Some(page + 1))
  {
    var dto :| dto in response.results && dto.id == lastItem.id;
    FetchedRowsCarryPage(loadType, page, response, map[], keys, dto);
  }

  class CharacterRemoteMediator {
    const characterDao: CharacterDao
    const remoteKeysDao: RemoteKeysDao

    ghost predicate Valid()
      reads this, characterDao, remoteKeysDao
    {
      characterDao.Valid() && remoteKeysDao.Valid()
    }

    constructor (characterDao: CharacterDao, remoteKeysDao: RemoteKeysDao)
      requires characterDao.Valid() && remoteKeysDao.Valid()
      ensures Valid()
      ensures this.characterDao == characterDao && this.remoteKeysDao == remoteKeysDao
    {
      this.characterDao := characterDao;
      this.remoteKeysDao := remoteKeysDao;
    }

    /**
     * `load`. `lastItem` is the paging window's last item, `api` the remote
     * catalogue (page to response or exception) and `commitFailure` an
     * exception the database transaction throws, if any; a transaction that
     * throws commits nothing. Returns the result and the page fetched, if any.
     */
    method Load(loadType: LoadType, lastItem: Option<CharacterEntity>,
                api: int -> Outcome<CharacterResponseDto>, commitFailure: Option<Exception>)
      returns (result: MediatorResult, fetched: Option<int>)
      requires Valid()
      modifies characterDao, remoteKeysDao
      ensures Valid()
      ensures fetched == PageToFetch(loadType, lastItem, old(remoteKeysDao.keys))
      ensures fetched.None? ==> result == Success(true)
      ensures fetched.Some? ==>
        match api(fetched.value)
        case Threw(e) => result == Error(e)
        case Ok(response) =>
          result == if commitFailure.Some? then Error(commitFailure.value)
                    else Success(response.info.next.None?)
      ensures result.Success? && fetched.Some? ==>
        characterDao.rows == CommittedCharacters(loadType, fetched.value, api(fetched.value).value, old(characterDao.rows)) &&
        remoteKeysDao.keys == CommittedKeys(loadType, fetched.value, api(fetched.value).value, old(remoteKeysDao.keys))
      ensures result.Error? || fetched.None? ==>
        characterDao.rows == old(characterDao.rows) && remoteKeysDao.keys == old(remoteKeysDao.keys)
    {
      var page: int;
      match loadType {
        case REFRESH =>
          page := 1;
        case PREPEND =>
          return Success(true), None;
        case APPEND =>
          if lastItem.None? {
            return Success(true), None;
          }
          var remoteKey := remoteKeysDao.RemoteKeysCharacterId(lastItem.value.id);
          if remoteKey.None? || remoteKey.value.nextPage.None? {
            return Success(true), None;
          }
          page := remoteKey.value.nextPage.value;
      }
      fetched := Some(page);

      var response := api(page);
      if response.Threw? {
        return Error(response.exception), fetched;
      }
      var characters := EntitiesOf(response.value.results, page);
      var endOfPaginationReached := response.value.info.next.None?;

      if commitFailure.Some? {
        return Error(commitFailure.value), fetched;
      }
      if loadType == REFRESH {
        remoteKeysDao.ClearRemoteKeys();
        characterDao.ClearAll();
      }
      var keys := KeysFor(characters, page, endOfPaginationReached);
      remoteKeysDao.InsertAll(keys);
      characterDao.InsertCharacters(characters);
      result := Success(endOfPaginationReached);
    }
  }
}
