/**
 * `CharacterRepositoryImpl.getCharacterById`
 * (data/repository/CharacterRepositoryImpl.kt): cache first, then the
 * network with a write-through to the cache, and every failure degrading to
 * null. The paged `getCharacters` stream is library wiring and is not part of
 * this module.
 */
module Repository {
  import opened Wrappers
  import opened Errors
  import opened Models
  import opened Mapper
  import opened Dao

  class CharacterRepositoryImpl {
    const characterDao: CharacterDao

    constructor (characterDao: CharacterDao)
      ensures this.characterDao == characterDao
    {
      this.characterDao := characterDao;
    }

    /**
     * `getCharacterById`. `readFailure` is an exception the database read
     * throws, if any; `api` is the remote lookup by id; `insertFailure` an
     * exception the write-through insert throws, if any, in which case the
     * insert writes nothing. Returns the character or null, and how many times
     * the API was called.
     */
    method GetCharacterById(id: int, readFailure: Option<Exception>,
                            api: int -> Outcome<CharacterDto>, insertFailure: Option<Exception>)
      returns (r: Option<Character>, apiCalls: nat)
      requires characterDao.Valid()
      modifies characterDao
      ensures characterDao.Valid()
      ensures apiCalls <= 1
      ensures apiCalls == 0 <==> readFailure.None? && id in old(characterDao.rows)
      // cache hit: the cached row, mapped; nothing else happens
      ensures readFailure.None? && id in old(characterDao.rows) ==>
        r == Some(EntityToDomain(old(characterDao.rows)[id])) && characterDao.rows == old(characterDao.rows)
      // cache miss: the fetched character, written through with page 1; null if fetching or caching fails
      ensures readFailure.None? && id !in old(characterDao.rows) ==>
        match api(id)
        case Threw(_) => r == None && characterDao.rows == old(characterDao.rows)
        case Ok(dto) =>
          if insertFailure.None? then
            r == Some(DtoToDomain(dto)) && characterDao.rows == old(characterDao.rows)[dto.id := DtoToEntity(dto, 1)]
          else
            r == None && characterDao.rows == old(characterDao.rows)
      // database failure: the fetched character without caching, or null
      ensures readFailure.Some? ==>
        r == (if api(id).Ok? then Some(DtoToDomain(api(id).value)) else None) &&
        characterDao.rows == old(characterDao.rows)
    {
      if readFailure.None? {
        var cached := characterDao.GetCharacterById(id);
        if cached.Some? {
          return Some(EntityToDomain(cached.value)), 0;
        }
        apiCalls := 1;
        var fetched := api(id);
        if fetched.Threw? {
          return None, apiCalls;
        }
        if insertFailure.Some? {
          return None, apiCalls;
        }
        characterDao.InsertCharacter(DtoToEntity(fetched.value, 1));
        r := Some(DtoToDomain(fetched.value));
      } else {
        apiCalls := 1;
        var fetched := api(id);
        r := if fetched.Ok? then Some(DtoToDomain(fetched.value)) else None;
      }
    }
  }

  /**
   * A write-through makes the next lookup a cache hit: when the API answers
   * with the requested id and caching succeeds, asking again returns the same
   * character without calling the API.
   */
  method WriteThroughServesNextLookup(repository: CharacterRepositoryImpl, id: int,
                                      api: int -> Outcome<CharacterDto>)
    returns (first: Option<Character>, second: Option<Character>, secondCalls: nat)
    requires repository.characterDao.Valid()
    requires id !in repository.characterDao.rows
    requires api(id).Ok? && api(id).value.id == id
    modifies repository.characterDao
    ensures first == Some(DtoToDomain(api(id).value))
    ensures second == first && secondCalls == 0
  {
    var firstCalls;
    first, firstCalls := repository.GetCharacterById(id, None, api, None);
    second, secondCalls := repository.GetCharacterById(id, None, api, None);
    CachedThenMappedIsDirect(api(id).value, 1);
  }
}
