/**
 * The records the data layer moves around: the wire DTOs, the two cached
 * rows (characters and remote keys) and the domain `Character`.
 */
module Models {
  import opened Wrappers
  import opened Status

  /** `InfoDto`: paging metadata of one response; `next` is null on the last page. */
  datatype InfoDto = InfoDto(count: int, pages: int, next: Option<string>, prev: Option<string>)

  /** `CharacterDto`: one character as the API sends it. */
  datatype CharacterDto = CharacterDto(
    id: int, name: string, status: string, species: string,
    kind: string, gender: string, image: string)

  /** `CharacterResponseDto`: one page of the catalogue. */
  datatype CharacterResponseDto = CharacterResponseDto(info: InfoDto, results: seq<CharacterDto>)

  /** A row of the `characters` table, keyed by `id`; `page` is the page it was fetched with. */
  datatype CharacterEntity = CharacterEntity(
    id: int, name: string, status: string, species: string, image: string, page: int)

  /** A row of the `remote_keys` table, keyed by `characterId`. */
  datatype RemoteKeyEntity = RemoteKeyEntity(characterId: int, prevPage: Option<int>, nextPage: Option<int>)

  /** The domain model shown to the presentation layer. */
  datatype Character = Character(
    id: int, name: string, status: CharacterStatus, species: string, image: string)

  /** Primary key of a character row. */
  function EntityId(e: CharacterEntity): int { e.id }

  /** Primary key of a remote-key row. */
  function KeyId(k: RemoteKeyEntity): int { k.characterId }
}
