/**
 * Generic helpers for a database table held as a sequence of rows in
 * insertion order, each row carrying string-valued keys (its id and its
 * unique columns).
 */
module Tables {
  import opened Wrappers

  /** The values a key column takes across the table. */
  function Keys<T(==)>(rows: seq<T>, key: T -> string): set<string> {
    set x | x in rows :: key(x)
  }

  /** No two rows share a value in the column (a unique index). */
  predicate Unique<T>(rows: seq<T>, key: T -> string) {
    forall i, j | 0 <= i < j < |rows| :: key(rows[i]) != key(rows[j])
  }

  /** Position of the row whose key is `k`, or -1 (a lookup through a unique index). */
  function IndexOf<T(==)>(rows: seq<T>, key: T -> string, k: string): (i: int)
    ensures -1 <= i < |rows|
    ensures 0 <= i ==> key(rows[i]) == k
    ensures i == -1 <==> k !in Keys(rows, key)
  {
    if rows == [] then -1
    else if key(rows[0]) == k then 0
    else
      var r := IndexOf(rows[1..], key, k);
      assert Keys(rows, key) == {key(rows[0])} + Keys(rows[1..], key) by {
        assert rows == [rows[0]] + rows[1..];
      }
      if r == -1 then -1 else r + 1
  }

  /** In a unique column the lookup finds the only row with that key. */
  lemma IndexOfUnique<T>(rows: seq<T>, key: T -> string, j: int)
    requires Unique(rows, key) && 0 <= j < |rows|
    ensures IndexOf(rows, key, key(rows[j])) == j
  {
    var i := IndexOf(rows, key, key(rows[j]));
    assert rows[j] in rows;
    assert i != -1;
  }

  /** `findUnique`: the row with key `k`, if any. */
  function Find<T(==)>(rows: seq<T>, key: T -> string, k: string): (r: Option<T>)
    ensures r.Some? <==> k in Keys(rows, key)
    ensures r.Some? ==> r.value in rows && key(r.value) == k
  {
    var i := IndexOf(rows, key, k);
    if i == -1 then None else Some(rows[i])
  }

  function RemoveAt<T>(rows: seq<T>, i: int): (r: seq<T>)
    requires 0 <= i < |rows|
    ensures |r| == |rows| - 1
    ensures forall j | 0 <= j < i :: r[j] == rows[j]
    ensures forall j | i <= j < |r| :: r[j] == rows[j + 1]
  {
    rows[..i] + rows[i + 1..]
  }

  /** The rows that satisfy `keep`, in table order. */
  function Filter<T(==,!new)>(rows: seq<T>, keep: T -> bool): (r: seq<T>)
    ensures |r| <= |rows|
    ensures forall x :: x in r <==> x in rows && keep(x)
  {
    if rows == [] then []
    else if keep(rows[0]) then [rows[0]] + Filter(rows[1..], keep)
    else Filter(rows[1..], keep)
  }

  lemma {:induction false} FilterUnique<T(!new)>(rows: seq<T>, keep: T -> bool, key: T -> string)
    requires Unique(rows, key)
    ensures Unique(Filter(rows, keep), key)
  {
    if rows != [] {
      assert Unique(rows[1..], key);
      FilterUnique(rows[1..], keep, key);
      if keep(rows[0]) {
        var rest := Filter(rows[1..], keep);
        var r := [rows[0]] + rest;
        forall i, j | 0 <= i < j < |r|
          ensures key(r[i]) != key(r[j])
        {
          if i == 0 {
            assert r[j] == rest[j - 1] && rest[j - 1] in rows[1..];
            var k :| 0 <= k < |rows[1..]| && rows[1..][k] == r[j];
            assert rows[k + 1] == r[j];
          } else {
            assert r[i] == rest[i - 1] && r[j] == rest[j - 1];
          }
        }
      }
    }
  }

  lemma FilterKeys<T(!new)>(rows: seq<T>, keep: T -> bool, key: T -> string)
    ensures Keys(Filter(rows, keep), key) <= Keys(rows, key)
  {
  }

  lemma AppendKeys<T>(rows: seq<T>, x: T, key: T -> string)
    ensures Keys(rows + [x], key) == Keys(rows, key) + {key(x)}
  {
    var r := rows + [x];
    forall y | y in r ensures y in rows || y == x {
      var k :| 0 <= k < |r| && r[k] == y;
      if k < |rows| { assert rows[k] == y; }
    }
  }

  /** Appending a row whose key is new keeps the column unique. */
  lemma AppendUnique<T>(rows: seq<T>, x: T, key: T -> string)
    requires Unique(rows, key) && key(x) !in Keys(rows, key)
    ensures Unique(rows + [x], key)
  {
    var r := rows + [x];
    forall i, j | 0 <= i < j < |r| ensures key(r[i]) != key(r[j]) {
      if j == |rows| {
        assert r[i] == rows[i] && rows[i] in rows;
      } else {
        assert r[i] == rows[i] && r[j] == rows[j];
      }
    }
  }

  lemma RemoveAtUnique<T>(rows: seq<T>, i: int, key: T -> string)
    requires Unique(rows, key) && 0 <= i < |rows|
    ensures Unique(RemoveAt(rows, i), key)
  {
    var r := RemoveAt(rows, i);
    forall a, b | 0 <= a < b < |r| ensures key(r[a]) != key(r[b]) {
      var a' := if a < i then a else a + 1;
      var b' := if b < i then b else b + 1;
      assert r[a] == rows[a'] && r[b] == rows[b'];
    }
  }

  lemma RemoveAtKeys<T>(rows: seq<T>, i: int, key: T -> string)
    requires 0 <= i < |rows|
    ensures Keys(RemoveAt(rows, i), key) <= Keys(rows, key)
  {
    var r := RemoveAt(rows, i);
    forall y | y in r ensures y in rows {
      var k :| 0 <= k < |r| && r[k] == y;
      if k < i { assert rows[k] == y; } else { assert rows[k + 1] == y; }
    }
  }

  /** Removing the row at `i` from a unique column removes exactly its key. */
  lemma RemoveAtKeysUnique<T>(rows: seq<T>, i: int, key: T -> string)
    requires Unique(rows, key) && 0 <= i < |rows|
    ensures Keys(RemoveAt(rows, i), key) == Keys(rows, key) - {key(rows[i])}
  {
    var r := RemoveAt(rows, i);
    forall y | y in r ensures key(y) in Keys(rows, key) - {key(rows[i])} {
      var k :| 0 <= k < |r| && r[k] == y;
      if k < i { assert rows[k] == y; } else { assert rows[k + 1] == y; }
    }
    forall y | y in rows && key(y) != key(rows[i]) ensures key(y) in Keys(r, key) {
      var k :| 0 <= k < |rows| && rows[k] == y;
      if k < i { assert r[k] == y; } else { assert r[k - 1] == y; }
    }
  }

  /** Replacing a row by one whose key no other row holds keeps the column unique. */
  lemma ReplaceUnique<T>(rows: seq<T>, i: int, x: T, key: T -> string)
    requires Unique(rows, key) && 0 <= i < |rows|
    requires forall j | 0 <= j < |rows| && j != i :: key(rows[j]) != key(x)
    ensures Unique(rows[i := x], key)
  {
  }

  /** Replacing a row by one with the same key leaves the set of keys as it was. */
  lemma ReplaceKeys<T>(rows: seq<T>, i: int, x: T, key: T -> string)
    requires 0 <= i < |rows| && key(x) == key(rows[i])
    ensures Keys(rows[i := x], key) == Keys(rows, key)
  {
    var r := rows[i := x];
    forall y | y in r ensures key(y) in Keys(rows, key) {
      var k :| 0 <= k < |r| && r[k] == y;
      assert rows[k] in rows;
    }
    forall y | y in rows ensures key(y) in Keys(r, key) {
      var k :| 0 <= k < |rows| && rows[k] == y;
      assert r[k] in r;
    }
  }
}
