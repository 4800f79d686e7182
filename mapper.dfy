/** The field-copying conversions of data/mapper/CharacterMapper.kt. */
module Mapper {
  import opened Wrappers
  import opened Status
  import opened Models

  /** `CharacterDto.toDomain()`: copies the fields and parses the status. */
  function DtoToDomain(dto: CharacterDto): (c: Character)
    ensures c.id == dto.id && c.name == dto.name && c.species == dto.species && c.image == dto.image
    ensures c.status == ALIVE <==> LowersTo(dto.status, "alive")
    ensures c.status == DEAD <==> LowersTo(dto.status, "dead")
  {
    Character(dto.id, dto.name, FromString(Some(dto.status)), dto.species, dto.image)
  }

  /** `CharacterDto.toEntity(page)`: copies the fields, keeps the raw status, records the page. */
  function DtoToEntity(dto: CharacterDto, page: int): (e: CharacterEntity)
    ensures e.id == dto.id && e.name == dto.name && e.status == dto.status
    ensures e.species == dto.species && e.image == dto.image && e.page == page
  {
    CharacterEntity(dto.id, dto.name, dto.status, dto.species, dto.image, page)
  }

  /** `CharacterEntity.toDomain()`: copies the fields, parses the status, drops `page`. */
  function EntityToDomain(e: CharacterEntity): (c: Character)
    ensures c.id == e.id && c.name == e.name && c.species == e.species && c.image == e.image
    ensures c.status == FromString(Some(e.status))
  {
    Character(e.id, e.name, FromString(Some(e.status)), e.species, e.image)
  }

  /** Caching a DTO and reading it back gives what mapping it directly gives, whatever the page. */
  lemma CachedThenMappedIsDirect(dto: CharacterDto, page: int)
    ensures EntityToDomain(DtoToEntity(dto, page)) == DtoToDomain(dto)
  {
  }

  /** The page a row was cached with never shows in the domain model. */
  lemma EntityPageIgnored(e: CharacterEntity, page: int)
    ensures EntityToDomain(e.(page := page)) == EntityToDomain(e)
  {
  }

  /** The DTO's `type` and `gender` never reach the entity or the domain model. */
  lemma KindAndGenderIgnored(a: CharacterDto, b: CharacterDto, page: int)
    requires a.(kind := b.kind, gender := b.gender) == b
    ensures DtoToDomain(a) == DtoToDomain(b)
    ensures DtoToEntity(a, page) == DtoToEntity(b, page)
  {
  }

  /** The entities cached for one page, in response order. */
  function EntitiesOf(results: seq<CharacterDto>, page: int): (es: seq<CharacterEntity>)
    ensures |es| == |results|
    ensures forall i :: 0 <= i < |results| ==> es[i] == DtoToEntity(results[i], page)
  {
    seq(|results|, i requires 0 <= i < |results| => DtoToEntity(results[i], page))
  }

  /** Every entity cached for a page records that page and comes from one of its DTOs. */
  lemma EntitiesOfOrigin(results: seq<CharacterDto>, page: int, e: CharacterEntity)
    requires e in EntitiesOf(results, page)
    ensures e.page == page
    ensures exists dto :: dto in results && e == DtoToEntity(dto, page)
  {
    var es := EntitiesOf(results, page);
    var i :| 0 <= i < |es| && es[i] == e;
    assert results[i] in results;
  }
}
