/**
 * A table keyed by an integer primary key, and what a REPLACE-on-conflict
 * insert of a list of rows does to it: rows are written in list order, so a
 * later row with the same key replaces an earlier one.
 */
module Tables {

  /** The primary keys of `rows`. */
  ghost function KeysOf<T>(rows: seq<T>, keyOf: T -> int): set<int> {
    set x | x in rows :: keyOf(x)
  }

  /** Every stored row sits under its own primary key. */
  ghost predicate KeyedBy<T>(m: map<int, T>, keyOf: T -> int) {
    forall k :: k in m ==> keyOf(m[k]) == k
  }

  /** `m` after inserting `rows` one by one with REPLACE on conflict. */
  function Upserted<T>(m: map<int, T>, rows: seq<T>, keyOf: T -> int): (r: map<int, T>)
    ensures r.Keys == m.Keys + KeysOf(rows, keyOf)
    ensures forall k :: k in m && k !in KeysOf(rows, keyOf) ==> r[k] == m[k]
    ensures forall k :: k in KeysOf(rows, keyOf) ==> r[k] in rows && keyOf(r[k]) == k
    decreases |rows|
  {
    if rows == [] then m
    else
      var init := rows[..|rows| - 1];
      var last := rows[|rows| - 1];
      assert rows == init + [last];
      assert KeysOf(rows, keyOf) == KeysOf(init, keyOf) + {keyOf(last)};
      Upserted(m, init, keyOf)[keyOf(last) := last]
  }

  /** Inserting keeps every row under its own key. */
  lemma UpsertedKeyedBy<T>(m: map<int, T>, rows: seq<T>, keyOf: T -> int)
    requires KeyedBy(m, keyOf)
    ensures KeyedBy(Upserted(m, rows, keyOf), keyOf)
  {
    var r := Upserted(m, rows, keyOf);
    forall k | k in r
      ensures keyOf(r[k]) == k
    {
      if k !in KeysOf(rows, keyOf) {
        assert r[k] == m[k];
      }
    }
  }

  /** Last write wins: a row that no later row of the list overrides is the one stored. */
  lemma {:induction false} UpsertedLastWins<T>(m: map<int, T>, rows: seq<T>, keyOf: T -> int, i: int)
    requires 0 <= i < |rows|
    requires forall j :: i < j < |rows| ==> keyOf(rows[j]) != keyOf(rows[i])
    ensures keyOf(rows[i]) in Upserted(m, rows, keyOf)
    ensures Upserted(m, rows, keyOf)[keyOf(rows[i])] == rows[i]
    decreases |rows|
  {
    var init := rows[..|rows| - 1];
    if i < |rows| - 1 {
      assert forall j :: i < j < |init| ==> init[j] == rows[j];
      UpsertedLastWins(m, init, keyOf, i);
    }
  }

  /** Inserting the rows one at a time: one more row extends the fold by one update. */
  lemma UpsertedSnoc<T>(m: map<int, T>, rows: seq<T>, keyOf: T -> int, i: int)
    requires 0 <= i < |rows|
    ensures Upserted(m, rows[..i + 1], keyOf) == Upserted(m, rows[..i], keyOf)[keyOf(rows[i]) := rows[i]]
  {
    assert rows[..i + 1][..i] == rows[..i];
  }
}
