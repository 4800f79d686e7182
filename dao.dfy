/**
 * The two Room tables as objects holding a map from primary key to row:
 * `CharacterDao` (data/local/dao/CharacterDao.kt) and the remote-key ledger
 * `RemoteKeysDao`, which the app's database never declares
 * (data/local/AppDatabase.kt declares only `characterDao`); its inserts are
 * assumed to REPLACE on conflict like `CharacterDao`'s.
 */
module Dao {
  import opened Wrappers
  import opened Models
  import opened Tables

  class CharacterDao {
    /** The `characters` table, keyed by `id`. */
    var rows: map<int, CharacterEntity>

    /** The primary key of every row is its `id`. */
    ghost predicate Valid()
      reads this
    {
      KeyedBy(rows, EntityId)
    }

    constructor ()
      ensures Valid() && rows == map[]
    {
      rows := map[];
    }

    /** `insertCharacters`: REPLACE-on-conflict insert of a list, in list order. */
    method InsertCharacters(characters: seq<CharacterEntity>)
      requires Valid()
      modifies this
      ensures Valid()
      ensures rows == Upserted(old(rows), characters, EntityId)
    {
      var i := 0;
      while i < |characters|
        invariant 0 <= i <= |characters|
        invariant rows == Upserted(old(rows), characters[..i], EntityId)
      {
        UpsertedSnoc(old(rows), characters, EntityId, i);
        rows := rows[characters[i].id := characters[i]];
        i := i + 1;
      }
      assert characters[..i] == characters;
      UpsertedKeyedBy(old(rows), characters, EntityId);
    }

    /** `insertCharacter`: the row replaces whatever was stored under its id. */
    method InsertCharacter(character: CharacterEntity)
      requires Valid()
      modifies this
      ensures Valid()
      ensures rows == old(rows)[character.id := character]
    {
      rows := rows[character.id := character];
    }

    /** `getCharacterById`: the stored row with that id, or null. */
    method GetCharacterById(id: int) returns (r: Option<CharacterEntity>)
      requires Valid()
      ensures r.Some? <==> id in rows
      ensures r.Some? ==> r.value == rows[id] && r.value.id == id
    {
      if id in rows {
        r := Some(rows[id]);
      } else {
        r := None;
      }
    }

    /** `getCharacterCount`: the number of stored rows. */
    method GetCharacterCount() returns (n: nat)
      ensures n == |rows.Keys|
      ensures n == 0 <==> rows == map[]
    {
      n := |rows|;
    }

    /** `getLastCharacter`: the row with the largest id (`ORDER BY id DESC LIMIT 1`), or null on an empty table. */
    method GetLastCharacter() returns (r: Option<CharacterEntity>)
      requires Valid()
      ensures r.None? <==> rows == map[]
      ensures r.Some? ==> r.value.id in rows && rows[r.value.id] == r.value
      ensures r.Some? ==> forall id :: id in rows ==> id <= r.value.id
    {
      var top := LargestKey(rows.Keys);
      if top.Some? {
        assert EntityId(rows[top.value]) == top.value;
        r := Some(rows[top.value]);
      } else {
        assert rows.Keys == {};
        r := None;
      }
    }

    /** `clearAll`: deletes every row. */
    method ClearAll()
      modifies this
      ensures Valid()
      ensures rows == map[]
    {
      rows := map[];
    }
  }

  class RemoteKeysDao {
    /** The `remote_keys` table, keyed by `characterId`. */
    var keys: map<int, RemoteKeyEntity>

    /** The primary key of every row is its `characterId`. */
    ghost predicate Valid()
      reads this
    {
      KeyedBy(keys, KeyId)
    }

    constructor ()
      ensures Valid() && keys == map[]
    {
      keys := map[];
    }

    /** `remoteKeysCharacterId`: the key row of a character, or null. */
    method RemoteKeysCharacterId(characterId: int) returns (r: Option<RemoteKeyEntity>)
      requires Valid()
      ensures r.Some? <==> characterId in keys
      ensures r.Some? ==> r.value == keys[characterId] && r.value.characterId == characterId
    {
      if characterId in keys {
        r := Some(keys[characterId]);
      } else {
        r := None;
      }
    }

    /** `insertAll`: REPLACE-on-conflict insert of a list, in list order. */
    method InsertAll(rows: seq<RemoteKeyEntity>)
      requires Valid()
      modifies this
      ensures Valid()
      ensures keys == Upserted(old(keys), rows, KeyId)
    {
      var i := 0;
      while i < |rows|
        invariant 0 <= i <= |rows|
        invariant keys == Upserted(old(keys), rows[..i], KeyId)
      {
        UpsertedSnoc(old(keys), rows, KeyId, i);
        keys := keys[rows[i].characterId := rows[i]];
        i := i + 1;
      }
      assert rows[..i] == rows;
      UpsertedKeyedBy(old(keys), rows, KeyId);
    }

    /** `clearRemoteKeys`: deletes every key row. */
    method ClearRemoteKeys()
      modifies this
      ensures Valid()
      ensures keys == map[]
    {
      keys := map[];
    }
  }

  /** A set that is not empty has a member to pick. */
  lemma NonEmptyHasMember(s: set<int>)
    requires s != {}
    ensures exists x :: x in s
  {
    if forall x :: x !in s {
      assert false;
    }
  }

  /** The largest of a set of primary keys, found by one scan; None for the empty set. */
  method LargestKey(ids: set<int>) returns (top: Option<int>)
    ensures top.None? <==> ids == {}
    ensures top.Some? ==> top.value in ids && forall id :: id in ids ==> id <= top.value
  {
    var unseen := ids;
    ghost var seen: set<int> := {};
    top := None;
    while unseen != {}
      invariant seen + unseen == ids && seen !! unseen
      invariant top.None? <==> seen == {}
      invariant top.Some? ==> top.value in seen && forall id :: id in seen ==> id <= top.value
      decreases unseen
    {
      NonEmptyHasMember(unseen);
      var id :| id in unseen;
      if top.None? || top.value < id {
        top := Some(id);
      }
      unseen := unseen - {id};
      seen := seen + {id};
    }
  }
}
